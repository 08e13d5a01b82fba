/** The flow audit of the express example: a summary of the records of one
    flow (how many, which concepts, what share succeeded) and the
    per-concept tally the audit log prints. The printing is left out. */
module Audit {
  import opened Wrappers
  import opened Json
  import opened Engine

  // ---------------------------------------------------------------------
  // Concepts in order of first appearance: `[...new Set(xs)]`

  /** `actions.map(a => a.concept)`. */
  function Concepts(a: seq<ActionRecord>): (r: seq<string>)
    ensures |r| == |a| && forall i :: 0 <= i < |a| ==> r[i] == a[i].concept
  {
    seq(|a|, i requires 0 <= i < |a| => a[i].concept)
  }

  /** Where `x` first occurs in `s`. */
  function FirstIndex(s: seq<string>, x: string): (k: nat)
    requires x in s
    ensures k < |s| && s[k] == x && forall j :: 0 <= j < k ==> s[j] != x
    decreases |s|
  {
    if s[0] == x then 0 else 1 + FirstIndex(s[1..], x)
  }

  /** The first occurrence of each element, in order: what a `Set` built
      from `s` iterates. */
  function Dedup(s: seq<string>): (r: seq<string>)
    ensures forall x :: x in r <==> x in s
    ensures forall i, j :: 0 <= i < j < |r| ==> r[i] != r[j]
    decreases |s|
  {
    if s == [] then []
    else
      var r := Dedup(s[..|s| - 1]);
      assert forall x :: x in s <==> x in s[..|s| - 1] || x == s[|s| - 1];
      if s[|s| - 1] in r then r else r + [s[|s| - 1]]
  }

  /** First occurrences in a prefix stay first in the whole. */
  lemma FirstIndexPrefix(s: seq<string>, y: string, x: string)
    requires x in s
    ensures FirstIndex(s + [y], x) == FirstIndex(s, x)
  {
    var k := FirstIndex(s, x);
    var k' := FirstIndex(s + [y], x);
    assert (s + [y])[k] == x;
  }

  /** The deduplicated list is ordered by first appearance. */
  lemma {:induction false} DedupOrder(s: seq<string>)
    ensures forall i, j :: 0 <= i < j < |Dedup(s)| ==> FirstIndex(s, Dedup(s)[i]) < FirstIndex(s, Dedup(s)[j])
    decreases |s|
  {
    if s != [] {
      var init := s[..|s| - 1];
      var y := s[|s| - 1];
      assert s == init + [y];
      DedupOrder(init);
      var r := Dedup(init);
      if y !in r {
        OrderedSnoc(s, init, y, r);
        assert Dedup(s) == r + [y];
      } else {
        OrderedKept(s, init, y, r);
        assert Dedup(s) == r;
      }
    }
  }

  /** Ordered by first appearance in `init`, `r` stays ordered in `init + [y]`. */
  lemma OrderedKept(s: seq<string>, init: seq<string>, y: string, r: seq<string>)
    requires s == init + [y] && forall x :: x in r <==> x in init
    requires forall i, j :: 0 <= i < j < |r| ==> FirstIndex(init, r[i]) < FirstIndex(init, r[j])
    ensures forall i, j :: 0 <= i < j < |r| ==> FirstIndex(s, r[i]) < FirstIndex(s, r[j])
  {
    forall x | x in r
      ensures FirstIndex(s, x) == FirstIndex(init, x)
    {
      FirstIndexPrefix(init, y, x);
    }
  }

  /** A new element `y` placed after such an `r` keeps the order. */
  lemma OrderedSnoc(s: seq<string>, init: seq<string>, y: string, r: seq<string>)
    requires s == init + [y] && y !in r && forall x :: x in r <==> x in init
    requires forall i, j :: 0 <= i < j < |r| ==> FirstIndex(init, r[i]) < FirstIndex(init, r[j])
    ensures forall i, j :: 0 <= i < j < |r + [y]| ==> FirstIndex(s, (r + [y])[i]) < FirstIndex(s, (r + [y])[j])
  {
    OrderedKept(s, init, y, r);
    assert FirstIndex(s, y) == |init|;
    var d := r + [y];
    forall i, j | 0 <= i < j < |d|
      ensures FirstIndex(s, d[i]) < FirstIndex(s, d[j])
    {
      assert d[i] == r[i] && d[i] in r;
      if j < |r| {
        assert d[j] == r[j];
      }
    }
  }

  // ---------------------------------------------------------------------
  // Failures and the success rate

  /** `a.output?.error` is truthy. */
  predicate Failed(r: ActionRecord)
    reads r
  {
    r.output.Some? && r.output.value.Obj? && match Json.Get(r.output.value.fields, "error")
                                              case Some(e) => Truthy(e)
                                              case None => false
  }

  function FailedCount(a: seq<ActionRecord>): (n: nat)
    reads set r | r in a
    ensures n <= |a|
    decreases |a|
  {
    if a == [] then 0
    else FailedCount(a[..|a| - 1]) + (if Failed(a[|a| - 1]) then 1 else 0)
  }

  /** No failure is counted exactly when no record failed. */
  lemma {:induction false} FailedCountZero(a: seq<ActionRecord>)
    ensures FailedCount(a) == 0 <==> forall i :: 0 <= i < |a| ==> !Failed(a[i])
    decreases |a|
  {
    if a != [] {
      var init := a[..|a| - 1];
      FailedCountZero(init);
      assert forall i :: 0 <= i < |init| ==> init[i] == a[i];
    }
  }

  /** `Math.round(x * 100) / 100`: rounded to two decimals, halves up. */
  function RoundCents(x: real): real {
    (x * 100.0 + 0.5).Floor as real / 100.0
  }

  lemma RoundCentsBounds(x: real)
    requires 0.0 <= x <= 100.0
    ensures 0.0 <= RoundCents(x) <= 100.0
    ensures x == 100.0 ==> RoundCents(x) == 100.0
    ensures x == 0.0 ==> RoundCents(x) == 0.0
  {
    var f := (x * 100.0 + 0.5).Floor;
    assert f as real <= x * 100.0 + 0.5 < f as real + 1.0;
    assert 0 <= f <= 10000;
  }

  /** The unrounded rate: 0 for an empty flow, otherwise the share of
      records that did not fail, in percent. */
  function Rate(total: nat, failed: nat): (r: real)
    requires failed <= total
    ensures 0.0 <= r <= 100.0
    ensures total > 0 ==> (r == 100.0 <==> failed == 0) && (r == 0.0 <==> failed == total)
  {
    if total > 0 then ((total - failed) as real / total as real) * 100.0 else 0.0
  }

  // ---------------------------------------------------------------------
  // getFlowSummary

  datatype Summary = Summary(totalActions: nat, conceptsUsed: seq<string>, successRate: real)

  function Summarize(a: seq<ActionRecord>): (s: Summary)
    reads set r | r in a
    ensures s.totalActions == |a|
    ensures s.conceptsUsed == Dedup(Concepts(a))
    ensures 0.0 <= s.successRate <= 100.0
    ensures |a| > 0 && FailedCount(a) == 0 ==> s.successRate == 100.0
    ensures FailedCount(a) == |a| ==> s.successRate == 0.0
  {
    var rate := Rate(|a|, FailedCount(a));
    RoundCentsBounds(rate);
    Summary(|a|, Dedup(Concepts(a)), RoundCents(rate))
  }

  /** `getFlowSummary(engine, flow)`. */
  function GetFlowSummary(engine: LegibleEngine, flow: string): Summary
    reads engine, set r | r in engine.ActionsByFlow(flow)
  {
    Summarize(engine.ActionsByFlow(flow))
  }

  // ---------------------------------------------------------------------
  // The per-concept tally of auditFlow

  function Occurrences(s: seq<string>, x: string): (n: nat)
    ensures n <= |s|
    decreases |s|
  {
    if s == [] then 0 else Occurrences(s[..|s| - 1], x) + (if s[|s| - 1] == x then 1 else 0)
  }

  /** The `reduce` building `conceptStats`. */
  function Tally(s: seq<string>): map<string, nat>
    decreases |s|
  {
    if s == [] then map[]
    else
      var t := Tally(s[..|s| - 1]);
      var x := s[|s| - 1];
      t[x := (if x in t then t[x] else 0) + 1]
  }

  /** The tally has an entry for each concept, holding its number of
      records. */
  lemma {:induction false} TallyCounts(s: seq<string>)
    ensures forall x :: x in Tally(s) <==> x in s
    ensures forall x :: x in Tally(s) ==> Tally(s)[x] == Occurrences(s, x)
    decreases |s|
  {
    if s != [] {
      var init := s[..|s| - 1];
      TallyCounts(init);
      assert forall x :: x in s <==> x in init || x == s[|s| - 1];
      forall x | x !in init
        ensures Occurrences(init, x) == 0
      {
        OccurrencesAbsent(init, x);
      }
    }
  }

  lemma {:induction false} OccurrencesAbsent(s: seq<string>, x: string)
    requires x !in s
    ensures Occurrences(s, x) == 0
    decreases |s|
  {
    if s != [] {
      OccurrencesAbsent(s[..|s| - 1], x);
    }
  }

  /** The counts of `keys` in `s`, added up. */
  function SumOccurrences(keys: seq<string>, s: seq<string>): nat
    decreases |keys|
  {
    if keys == [] then 0 else SumOccurrences(keys[..|keys| - 1], s) + Occurrences(s, keys[|keys| - 1])
  }

  /** Adding one element to `s` adds one to the sum exactly when it is one
      of the (distinct) keys. */
  lemma {:induction false} SumOccurrencesAppend(keys: seq<string>, s: seq<string>, y: string)
    requires forall i, j :: 0 <= i < j < |keys| ==> keys[i] != keys[j]
    ensures SumOccurrences(keys, s + [y]) == SumOccurrences(keys, s) + (if y in keys then 1 else 0)
    decreases |keys|
  {
    if keys != [] {
      var init := keys[..|keys| - 1];
      assert (s + [y])[..|s + [y]| - 1] == s;
      assert forall i, j :: 0 <= i < j < |init| ==> init[i] != init[j] by {
        forall i, j | 0 <= i < j < |init| ensures init[i] != init[j] {
          assert init[i] == keys[i] && init[j] == keys[j];
        }
      }
      SumOccurrencesAppend(init, s, y);
      assert y in keys <==> y in init || y == keys[|keys| - 1];
    }
  }

  /** Appending a key whose count is `n` adds `n`. */
  lemma SumOccurrencesSnoc(keys: seq<string>, s: seq<string>, y: string)
    ensures SumOccurrences(keys + [y], s) == SumOccurrences(keys, s) + Occurrences(s, y)
  {
    assert (keys + [y])[..|keys + [y]| - 1] == keys;
  }

  /** The per-concept counts add up to the number of records. */
  lemma {:induction false} TallySum(s: seq<string>)
    ensures SumOccurrences(Dedup(s), s) == |s|
    decreases |s|
  {
    if s != [] {
      var init := s[..|s| - 1];
      var y := s[|s| - 1];
      assert s == init + [y];
      TallySum(init);
      var keys := Dedup(init);
      SumOccurrencesAppend(keys, init, y);
      if y !in keys {
        SumOccurrencesSnoc(keys, s, y);
        OccurrencesAbsent(init, y);
      }
    }
  }

  /** `auditFlow`'s `conceptStats`: an entry for each concept of the
      flow, holding its number of records. Its entries, in order of first
      appearance, add up to the flow's length (`TallySum`). */
  function ConceptStats(a: seq<ActionRecord>): (stats: map<string, nat>)
    ensures forall c :: c in stats <==> c in Concepts(a)
    ensures forall c :: c in stats ==> stats[c] == Occurrences(Concepts(a), c)
  {
    TallyCounts(Concepts(a));
    Tally(Concepts(a))
  }
}
