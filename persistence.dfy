/** The persistence concept of the console example: an append-only list of
    subject–predicate–object triples and a substring query over it. */
module Persistence {
  import opened Wrappers

  datatype Action = Store | Query

  function Name(a: Action): string {
    match a
    case Store => "store"
    case Query => "query"
  }

  /** The final `throw` of `execute`. */
  function Dispatch(action: string): (r: Result<Action>)
    ensures r.Ok? ==> Name(r.value) == action
    ensures r.Err? ==> r.error == "Unknown action: " + action && forall a :: Name(a) != action
  {
    if action == "store" then Ok(Store)
    else if action == "query" then Ok(Query)
    else Err("Unknown action: " + action)
  }

  /** `relation` is the triple's `predicate`, a reserved word here. */
  datatype Triple = Triple(subject: string, relation: string, object: string)

  /** `t` occurs in `s` starting at `i`. */
  predicate OccursAt(s: string, t: string, i: nat) {
    i + |t| <= |s| && s[i..i + |t|] == t
  }

  /** `s.includes(t)`. */
  predicate Includes(s: string, t: string) {
    exists i: nat | i <= |s| :: OccursAt(s, t, i)
  }

  /** Every string includes the empty one, so a missing query field, read
      as `''`, rules nothing out. */
  lemma IncludesEmpty(s: string)
    ensures Includes(s, "")
  {
    assert OccursAt(s, "", 0);
  }

  predicate Selected(t: Triple, subject: string, relation: string) {
    Includes(t.subject, subject) && Includes(t.relation, relation)
  }

  /** `triples.filter(...)`: the selected triples, in stored order. */
  function Filter(ts: seq<Triple>, subject: string, relation: string): (r: seq<Triple>)
    ensures |r| <= |ts|
    ensures forall t :: t in r <==> t in ts && Selected(t, subject, relation)
    decreases |ts|
  {
    if ts == [] then []
    else
      var rest := Filter(ts[..|ts| - 1], subject, relation);
      var t := ts[|ts| - 1];
      assert forall x :: x in ts <==> x in ts[..|ts| - 1] || x == t;
      rest + (if Selected(t, subject, relation) then [t] else [])
  }

  /** A query with both fields missing returns every triple. */
  lemma {:induction false} FilterEverything(ts: seq<Triple>)
    ensures Filter(ts, "", "") == ts
    decreases |ts|
  {
    if ts != [] {
      FilterEverything(ts[..|ts| - 1]);
      IncludesEmpty(ts[|ts| - 1].subject);
      IncludesEmpty(ts[|ts| - 1].relation);
      assert ts[..|ts| - 1] + [ts[|ts| - 1]] == ts;
    }
  }

  /** Storing a triple adds it to the end of every query it is selected
      by, and leaves every other query's answer as it was. */
  lemma FilterAppend(ts: seq<Triple>, t: Triple, subject: string, relation: string)
    ensures Filter(ts + [t], subject, relation)
         == Filter(ts, subject, relation) + (if Selected(t, subject, relation) then [t] else [])
  {
    assert (ts + [t])[..|ts + [t]| - 1] == ts;
  }

  class TripleStore {
    var triples: seq<Triple>

    constructor()
      ensures triples == []
    {
      triples := [];
    }

    /** `store`: the triple goes last; it answers `{stored: true}`. */
    method Store(t: Triple) returns (stored: bool)
      modifies this
      ensures triples == old(triples) + [t]
      ensures stored
    {
      triples := triples + [t];
      stored := true;
    }

    /** `query`; a missing field is passed as `""`. */
    function Query(subject: string, relation: string): seq<Triple>
      reads this
    {
      Filter(triples, subject, relation)
    }
  }
}
