/** The reactive engine `LegibleEngine` (packages/core/src/engine/Engine.ts):
    an append-only ledger of action records with a `concept:action` index,
    dispatch to registered concepts, the rule scan that follows every
    outermost invocation, cascade-level loop prevention, and the rule
    dependency graph with its cycle check.

    Concept implementations are oracles: `execute` is a function of the
    concept's state, the action and the input that yields a new state and a
    value or a failure. Fresh uuids come from the counter `nextId`. The
    serialised fingerprint `concept:action:JSON(input)` is the injective
    datatype `Fingerprint`. */
module Engine {
  import opened Wrappers
  import opened Json
  import opened Matching
  import opened Bindings

  /** A then-entry of a rule: the action to invoke and its input template. */
  datatype Invocation = Invocation(concept: string, action: string, input: Object)

  /** A synchronisation rule; `filter` is the optional `where.filter`. */
  datatype SyncRule = SyncRule(name: string, when: seq<Pattern>, filter: Option<Object -> bool>,
                               thens: seq<Invocation>)

  datatype Execution = Execution(state: Value, result: Result<Value>)

  /** A registered concept: its state and its `execute`. */
  datatype Concept = Concept(state: Value, execute: (Value, string, Object) -> Execution)

  datatype Fingerprint = Fingerprint(concept: string, action: string, input: Object)

  /** An invocation the rule scan issues, with the flow it runs in. */
  datatype Call = Call(concept: string, action: string, input: Object, flow: string)

  /** A ledger entry, fixed at creation, its `output` included: the
      record is created once the concept has run, with what it returned
      or threw, or without an output when it did not run. The record's
      `syncEdges` marks are held by the engine, keyed by the record (see
      `LegibleEngine.syncEdges`). */
  class ActionRecord {
    const id: nat
    const concept: string
    const action: string
    const input: Object
    const flow: string
    const syncTriggered: bool
    const output: Option<Value>

    constructor (id: nat, concept: string, action: string, input: Object, flow: string, syncTriggered: bool,
                 output: Option<Value>)
      ensures this.id == id && this.concept == concept && this.action == action
      ensures this.input == input && this.flow == flow && this.syncTriggered == syncTriggered
      ensures this.output == output
    {
      this.id := id;
      this.concept := concept;
      this.action := action;
      this.input := input;
      this.flow := flow;
      this.syncTriggered := syncTriggered;
      this.output := output;
    }
  }

  // ---------------------------------------------------------------------
  // The ledger index

  function IndexKey(concept: string, action: string): string {
    concept + ":" + action
  }

  function Key(r: ActionRecord): string {
    IndexKey(r.concept, r.action)
  }

  /** Appending one record to its index list, creating the list if needed. */
  function AddToIndex(m: map<string, seq<ActionRecord>>, r: ActionRecord): map<string, seq<ActionRecord>> {
    m[Key(r) := (if Key(r) in m then m[Key(r)] else []) + [r]]
  }

  /** A record with the next id, appended: the index gains it in its
      list, and ids still increase along the ledger. */
  lemma LedgerSnoc(a: seq<ActionRecord>, idx: map<string, seq<ActionRecord>>, n: nat, r: ActionRecord)
    requires idx == IndexOf(a) && IdsBelow(a, n) && r.id == n
    ensures IndexOf(a + [r]) == AddToIndex(idx, r) && IdsBelow(a + [r], n + 1)
  {
    assert (a + [r])[..|a|] == a;
  }

  /** The index as built record by record, in ledger order. */
  function IndexOf(a: seq<ActionRecord>): map<string, seq<ActionRecord>>
  {
    if a == [] then map[] else AddToIndex(IndexOf(a[..|a| - 1]), a[|a| - 1])
  }

  /** The ledger filtered by index key, in ledger order. */
  function WithKey(a: seq<ActionRecord>, k: string): seq<ActionRecord>
  {
    if a == [] then []
    else WithKey(a[..|a| - 1], k) + (if Key(a[|a| - 1]) == k then [a[|a| - 1]] else [])
  }

  lemma {:induction false} WithKeyMembers(a: seq<ActionRecord>, k: string, r: ActionRecord)
    ensures r in WithKey(a, k) <==> r in a && Key(r) == k
  {
    if a != [] {
      WithKeyMembers(a[..|a| - 1], k, r);
      assert a == a[..|a| - 1] + [a[|a| - 1]];
    }
  }

  /** The index mirrors the ledger: a key is present exactly when some record
      has it, and its list is the ledger filtered by that key, in order. */
  lemma {:induction false} IndexOfSpec(a: seq<ActionRecord>, k: string)
    ensures k in IndexOf(a) <==> WithKey(a, k) != []
    ensures k in IndexOf(a) ==> IndexOf(a)[k] == WithKey(a, k)
  {
    if a != [] {
      IndexOfSpec(a[..|a| - 1], k);
    }
  }

  lemma IndexedRecordsInLedger(a: seq<ActionRecord>, k: string, r: ActionRecord)
    requires k in IndexOf(a) && r in IndexOf(a)[k]
    ensures r in a && Key(r) == k
  {
    IndexOfSpec(a, k);
    WithKeyMembers(a, k, r);
  }

  /** The index key is the plain concatenation, so two different
      concept/action pairs can share a list when a name contains ':'. */
  lemma IndexKeyCollision()
    ensures IndexKey("a:b", "c") == IndexKey("a", "b:c")
  {
  }

  predicate IdsIncreasing(a: seq<ActionRecord>) {
    forall i, j :: 0 <= i < j < |a| ==> a[i].id < a[j].id
  }

  /** The ids along the ledger increase and stay below `n`, stated record
      by record from the end. */
  predicate IdsBelow(a: seq<ActionRecord>, n: nat) {
    a == [] || (a[|a| - 1].id < n && IdsBelow(a[..|a| - 1], a[|a| - 1].id))
  }

  lemma {:induction false} IdsBelowSpec(a: seq<ActionRecord>, n: nat)
    ensures IdsBelow(a, n) <==> IdsIncreasing(a) && forall i :: 0 <= i < |a| ==> a[i].id < n
  {
    if a != [] {
      var init := a[..|a| - 1];
      IdsBelowSpec(init, a[|a| - 1].id);
      if IdsIncreasing(a) && forall i :: 0 <= i < |a| ==> a[i].id < n {
        forall i, j | 0 <= i < j < |init| ensures init[i].id < init[j].id {
          assert a[i] == init[i] && a[j] == init[j];
        }
      }
      if IdsBelow(a, n) {
        forall i, j | 0 <= i < j < |a| ensures a[i].id < a[j].id {
          if j < |init| {
            assert a[i] == init[i] && a[j] == init[j];
          } else {
            assert a[i] == init[i];
          }
        }
      }
    }
  }

  /** No element occurs twice. */
  predicate Distinct(s: seq<Fingerprint>) {
    s == [] || (s[|s| - 1] !in s[..|s| - 1] && Distinct(s[..|s| - 1]))
  }

  lemma {:induction false} DistinctSpec(s: seq<Fingerprint>)
    ensures Distinct(s) <==> forall i, j :: 0 <= i < j < |s| ==> s[i] != s[j]
  {
    if s != [] {
      var init := s[..|s| - 1];
      DistinctSpec(init);
      if forall i, j :: 0 <= i < j < |s| ==> s[i] != s[j] {
        forall i, j | 0 <= i < j < |init| ensures init[i] != init[j] {
          assert s[i] == init[i] && s[j] == init[j];
        }
        forall i | 0 <= i < |init| ensures init[i] != s[|s| - 1] {
          assert s[i] == init[i];
        }
      }
      if Distinct(s) {
        forall i, j | 0 <= i < j < |s| ensures s[i] != s[j] {
          assert s[i] == init[i];
          if j < |init| {
            assert s[j] == init[j];
          }
        }
      }
    }
  }

  /** What `invoke` stores as a record's output. */
  function StoredOutput(res: Result<Value>): (out: Value)
    ensures IsObjectLike(out)
  {
    match res
    case Ok(v) => if IsObjectLike(v) then v else Obj([Field("result", v)])
    case Err(m) => Obj([Field("error", Str(m))])
  }

  /** A stored output keeps the value when it already is an object, wraps
      anything else under `result`, and records a failure under `error`. */
  lemma StoredOutputSpec(res: Result<Value>)
    ensures res.Ok? && IsObjectLike(res.value) ==> StoredOutput(res) == res.value
    ensures res.Ok? && !IsObjectLike(res.value) ==> Get(StoredOutput(res).fields, "result") == Some(res.value)
    ensures res.Err? ==> Get(StoredOutput(res).fields, "error") == Some(Str(res.error))
  {
  }

  const Skipped: Value := Obj([Field("skipped", Bool(true))])

  function NotFound(concept: string): string {
    "Concept " + concept + " not found"
  }

  /** The fields of a freshly created record. */
  predicate Created(r: ActionRecord, id: nat, concept: string, action: string, input: Object,
                    flow: string, syncTriggered: bool)
  {
    r.id == id && r.concept == concept && r.action == action && r.input == input
    && r.flow == flow && r.syncTriggered == syncTriggered
  }

  // ---------------------------------------------------------------------
  // Ledger views

  /** `actions.filter(a => a.flow === flow)`. */
  function ByFlow(a: seq<ActionRecord>, flow: string): seq<ActionRecord>
  {
    if a == [] then []
    else ByFlow(a[..|a| - 1], flow) + (if a[|a| - 1].flow == flow then [a[|a| - 1]] else [])
  }

  /** `actions.filter(a => a.flow !== flow)`. */
  function WithoutFlow(a: seq<ActionRecord>, flow: string): seq<ActionRecord>
  {
    if a == [] then []
    else WithoutFlow(a[..|a| - 1], flow) + (if a[|a| - 1].flow != flow then [a[|a| - 1]] else [])
  }

  /** The flow view holds exactly that flow's records, in ledger order. */
  lemma {:induction false} ByFlowSpec(a: seq<ActionRecord>, flow: string)
    requires IdsIncreasing(a)
    ensures forall i :: 0 <= i < |ByFlow(a, flow)| ==> ByFlow(a, flow)[i] in a && ByFlow(a, flow)[i].flow == flow
    ensures forall i :: 0 <= i < |a| && a[i].flow == flow ==> a[i] in ByFlow(a, flow)
    ensures IdsIncreasing(ByFlow(a, flow))
  {
    if a != [] {
      var init := a[..|a| - 1];
      var last := a[|a| - 1];
      ByFlowSpec(init, flow);
      var b := ByFlow(init, flow);
      var tail := if last.flow == flow then [last] else [];
      assert ByFlow(a, flow) == b + tail;
      forall i | 0 <= i < |b| ensures b[i].id < last.id {
        var k :| 0 <= k < |init| && init[k] == b[i];
        assert a[k] == b[i];
      }
      forall i | 0 <= i < |a| && a[i].flow == flow ensures a[i] in b + tail {
        if i < |init| {
          assert a[i] == init[i];
        }
      }
    }
  }

  /** Clearing a flow keeps exactly the other flows' records, in order. */
  lemma {:induction false} WithoutFlowSpec(a: seq<ActionRecord>, flow: string)
    requires IdsIncreasing(a)
    ensures forall i :: 0 <= i < |WithoutFlow(a, flow)| ==> WithoutFlow(a, flow)[i] in a && WithoutFlow(a, flow)[i].flow != flow
    ensures forall i :: 0 <= i < |a| && a[i].flow != flow ==> a[i] in WithoutFlow(a, flow)
    ensures IdsIncreasing(WithoutFlow(a, flow))
  {
    if a != [] {
      var init := a[..|a| - 1];
      var last := a[|a| - 1];
      WithoutFlowSpec(init, flow);
      var b := WithoutFlow(init, flow);
      var tail := if last.flow != flow then [last] else [];
      assert WithoutFlow(a, flow) == b + tail;
      forall i | 0 <= i < |b| ensures b[i].id < last.id {
        var k :| 0 <= k < |init| && init[k] == b[i];
        assert a[k] == b[i];
      }
      forall i | 0 <= i < |a| && a[i].flow != flow ensures a[i] in b + tail {
        if i < |init| {
          assert a[i] == init[i];
        }
      }
    }
  }

  /** The two views split the ledger. */
  lemma {:induction false} FlowPartition(a: seq<ActionRecord>, flow: string)
    ensures |ByFlow(a, flow)| + |WithoutFlow(a, flow)| == |a|
  {
    if a != [] {
      FlowPartition(a[..|a| - 1], flow);
    }
  }

  // ---------------------------------------------------------------------
  // Matching records against a when-pattern

  /** `a.output || {}` seen as an object. */
  function OutputObject(o: Option<Value>): Object {
    if o.Some? then AsObject(o.value) else []
  }

  /** The rule marks of every record. */
  type Marks = map<ActionRecord, map<string, seq<nat>>>

  /** `r.syncEdges`: a record nobody marked has none. */
  function EdgesOf(marks: Marks, r: ActionRecord): map<string, seq<nat>> {
    if r in marks then marks[r] else map[]
  }

  /** The filter of matchWhen for one candidate. */
  predicate Matches(r: ActionRecord, p: Pattern, name: string, marks: Marks)
  {
    MatchRecord(r.input, p.input) && MatchRecord(OutputObject(r.output), p.output)
    && !(name != "" && name in EdgesOf(marks, r))
  }

  function MatchFilter(cands: seq<ActionRecord>, p: Pattern, name: string, marks: Marks): (ms: seq<ActionRecord>)
  {
    if cands == [] then []
    else MatchFilter(cands[..|cands| - 1], p, name, marks)
         + (if Matches(cands[|cands| - 1], p, name, marks) then [cands[|cands| - 1]] else [])
  }

  lemma {:induction false} MatchFilterMembers(cands: seq<ActionRecord>, p: Pattern, name: string, marks: Marks,
                                              r: ActionRecord)
    ensures r in MatchFilter(cands, p, name, marks) <==> r in cands && Matches(r, p, name, marks)
  {
    if cands != [] {
      MatchFilterMembers(cands[..|cands| - 1], p, name, marks, r);
      assert cands == cands[..|cands| - 1] + [cands[|cands| - 1]];
    }
  }

  /** The records matched by each pattern in turn. */
  function BindingsOf(ms: seq<ActionRecord>): (bs: seq<Object>)
    ensures |bs| == |ms|
  {
    if ms == [] then []
    else BindingsOf(ms[..|ms| - 1]) + [RecordBindings(ms[|ms| - 1].input, ms[|ms| - 1].output)]
  }

  function Elems(mss: seq<seq<ActionRecord>>): set<ActionRecord> {
    set k, j | 0 <= k < |mss| && 0 <= j < |mss[k]| :: mss[k][j]
  }

  /** The records of all lists but the last are records of all lists. */
  lemma ElemsInit(mss: seq<seq<ActionRecord>>)
    requires mss != []
    ensures Elems(mss[..|mss| - 1]) <= Elems(mss)
  {
    var init := mss[..|mss| - 1];
    forall r | r in Elems(init) ensures r in Elems(mss) {
      var k, j :| 0 <= k < |init| && 0 <= j < |init[k]| && r == init[k][j];
      assert mss[k][j] == r;
    }
  }

  function BindingLists(mss: seq<seq<ActionRecord>>): (lists: seq<seq<Object>>)
    ensures |lists| == |mss|
  {
    if mss == [] then [] else BindingLists(mss[..|mss| - 1]) + [BindingsOf(mss[|mss| - 1])]
  }

  /** The combinations a rule fires for: the product of the per-pattern
      bindings, then `where.filter`. */
  function Combos(sync: SyncRule, mss: seq<seq<ActionRecord>>): seq<Object>
  {
    var all := Product(BindingLists(mss));
    if sync.filter.Some? then FilterSeq(all, sync.filter.value) else all
  }

  // ---------------------------------------------------------------------
  // The invocations a rule scan issues

  /** One combination: each then-entry with its input substituted. */
  function Row(combo: Object, thens: seq<Invocation>, flow: string): (calls: seq<Call>)
    ensures |calls| == |thens|
    ensures forall k :: 0 <= k < |thens| ==>
      calls[k] == Call(thens[k].concept, thens[k].action, ReplaceFields(thens[k].input, combo), flow)
  {
    if thens == [] then []
    else Row(combo, thens[..|thens| - 1], flow)
         + [Call(thens[|thens| - 1].concept, thens[|thens| - 1].action,
                 ReplaceFields(thens[|thens| - 1].input, combo), flow)]
  }

  /** All combinations in order, each running the whole then list. */
  function Plan(combos: seq<Object>, thens: seq<Invocation>, flow: string): seq<Call>
  {
    if combos == [] then []
    else Plan(combos[..|combos| - 1], thens, flow) + Row(combos[|combos| - 1], thens, flow)
  }

  lemma {:induction false} PlanSize(combos: seq<Object>, thens: seq<Invocation>, flow: string)
    ensures |Plan(combos, thens, flow)| == |combos| * |thens|
  {
    if combos != [] {
      PlanSize(combos[..|combos| - 1], thens, flow);
      MulSucc(|combos| - 1, |thens|);
    }
  }

  /** Marking twice leaves the mark of the first time. */
  lemma StampOkTrans(a: map<string, seq<nat>>, b: map<string, seq<nat>>, c: map<string, seq<nat>>,
                     name: string, lo: nat, lo': nat)
    requires StampOk(a, b, name, lo) && StampOk(b, c, name, lo') && lo <= lo'
    ensures StampOk(a, c, name, lo)
  {
  }

  lemma RowSnoc(combo: Object, thens: seq<Invocation>, t: nat, flow: string)
    requires t < |thens|
    ensures Row(combo, thens[..t + 1], flow)
      == Row(combo, thens[..t], flow) + [Call(thens[t].concept, thens[t].action, ReplaceFields(thens[t].input, combo), flow)]
  {
    assert thens[..t + 1][..t] == thens[..t];
  }

  lemma PlanSnoc(combos: seq<Object>, c: nat, thens: seq<Invocation>, flow: string)
    requires c < |combos|
    ensures Plan(combos[..c + 1], thens, flow) == Plan(combos[..c], thens, flow) + Row(combos[c], thens, flow)
  {
    assert combos[..c + 1][..c] == combos[..c];
  }

  /** One more combination run: its records extend the records of the
      plan so far, and its outcomes the outcomes so far. */
  lemma ComboRan(a0: seq<ActionRecord>, a1: seq<ActionRecord>, a2: seq<ActionRecord>,
                 l0: seq<bool>, l1: seq<bool>, l2: seq<bool>,
                 combos: seq<Object>, c: nat, thens: seq<Invocation>, flow: string)
    requires a0 <= a1 <= a2 && l0 <= l1 <= l2 && c < |combos|
    requires Performed(a1[|a0|..], Plan(combos[..c], thens, flow))
    requires Performed(a2[|a1|..], Row(combos[c], thens, flow))
    ensures Performed(a2[|a0|..], Plan(combos[..c + 1], thens, flow))
    ensures (true in l2[|l0|..]) <==> (true in l1[|l0|..] || true in l2[|l1|..])
  {
    DropGrown(a1, a2, |a0|);
    PerformedAppend(a1[|a0|..], Plan(combos[..c], thens, flow), a2[|a1|..], Row(combos[c], thens, flow));
    PlanSnoc(combos, c, thens, flow);
    DropGrown(l1, l2, |l0|);
  }

  /** One more combination marked: the matched records keep the mark of
      the first combination, and no other record's marks change. On the
      first combination the marks before it are the marks the loop began
      with. */
  lemma ComboMarked(m0: Marks, m1: Marks, m2: Marks, lo0: nat, lo1: nat, flat: seq<ActionRecord>, name: string,
                    marked: bool)
    requires lo0 <= lo1 && (!marked ==> m1 == m0)
    requires marked ==> forall i :: 0 <= i < |flat| ==> StampOk(EdgesOf(m0, flat[i]), EdgesOf(m1, flat[i]), name, lo0)
    requires forall i :: 0 <= i < |flat| ==> StampOk(EdgesOf(m1, flat[i]), EdgesOf(m2, flat[i]), name, lo1)
    requires forall r :: r !in flat ==> EdgesOf(m1, r) == EdgesOf(m0, r)
    requires forall r :: r !in flat ==> EdgesOf(m2, r) == EdgesOf(m1, r)
    ensures forall i :: 0 <= i < |flat| ==> StampOk(EdgesOf(m0, flat[i]), EdgesOf(m2, flat[i]), name, lo0)
    ensures forall r :: r !in flat ==> EdgesOf(m2, r) == EdgesOf(m0, r)
  {
    forall i | 0 <= i < |flat|
      ensures StampOk(EdgesOf(m0, flat[i]), EdgesOf(m2, flat[i]), name, lo0)
    {
      if marked {
        StampOkTrans(EdgesOf(m0, flat[i]), EdgesOf(m1, flat[i]), EdgesOf(m2, flat[i]), name, lo0, lo1);
      }
    }
  }

  /** One more then-entry of a combination run: its record extends the
      records of the row so far by the entry's call. */
  lemma RunStep(a0: seq<ActionRecord>, a1: seq<ActionRecord>, a2: seq<ActionRecord>,
                combo: Object, thens: seq<Invocation>, t: nat, flow: string)
    requires a0 <= a1 <= a2 && |a2| == |a1| + 1 && t < |thens|
    requires Performed(a1[|a0|..], Row(combo, thens[..t], flow))
    requires Did(a2[|a1|], Call(thens[t].concept, thens[t].action, ReplaceFields(thens[t].input, combo), flow))
    ensures Performed(a2[|a0|..], Row(combo, thens[..t + 1], flow))
  {
    var c := Call(thens[t].concept, thens[t].action, ReplaceFields(thens[t].input, combo), flow);
    DropGrown(a1, a2, |a0|);
    assert a2[|a0|..] == a1[|a0|..] + [a2[|a1|]];
    RowSnoc(combo, thens, t, flow);
    PerformedSnoc(a1[|a0|..], Row(combo, thens[..t], flow), a2[|a1|], c);
  }

  /** One more outcome: the outcomes since `l0` hold a returned invocation
      exactly when they did before or the new one returned. */
  lemma OutcomeSnoc(l0: seq<bool>, l1: seq<bool>, hit: bool)
    requires l0 <= l1
    ensures (true in (l1 + [hit])[|l0|..]) <==> (true in l1[|l0|..] || hit)
  {
    assert (l1 + [hit])[|l0|..] == l1[|l0|..] + [hit];
  }

  /** The part of a grown sequence from `lo` on: the old part from `lo`,
      then what was added. */
  lemma DropGrown<T>(b: seq<T>, a: seq<T>, lo: nat)
    requires b <= a && lo <= |b|
    ensures a[lo..] == b[lo..] + a[|b|..]
  {
    assert a == b + a[|b|..];
  }

  /** With no then-entries, no combination issues anything. */
  lemma {:induction false} PlanNoThens(combos: seq<Object>, flow: string)
    ensures Plan(combos, [], flow) == []
  {
    if combos != [] {
      PlanNoThens(combos[..|combos| - 1], flow);
    }
  }

  /** The record `r` was created by a sync-triggered invocation of `c`. */
  predicate Did(r: ActionRecord, c: Call) {
    r.concept == c.concept && r.action == c.action && r.input == c.input
    && r.flow == c.flow && r.syncTriggered
  }

  /** The records `recs` were created by sync-triggered invocations of
      `calls`, one record per call, in order. */
  predicate Performed(recs: seq<ActionRecord>, calls: seq<Call>)
    decreases |recs|
  {
    |recs| == |calls|
    && (recs == [] || (Performed(recs[..|recs| - 1], calls[..|calls| - 1]) && Did(recs[|recs| - 1], calls[|calls| - 1])))
  }

  lemma {:induction false} PerformedSpec(recs: seq<ActionRecord>, calls: seq<Call>)
    ensures Performed(recs, calls) <==>
      |recs| == |calls| && forall k :: 0 <= k < |recs| ==> Did(recs[k], calls[k])
    decreases |recs|
  {
    if recs != [] && |recs| == |calls| {
      var n := |recs| - 1;
      PerformedSpec(recs[..n], calls[..n]);
      if forall k :: 0 <= k < |recs| ==> Did(recs[k], calls[k]) {
        assert forall k :: 0 <= k < n ==> recs[..n][k] == recs[k] && calls[..n][k] == calls[k];
      }
    }
  }

  /** Performed records are all sync-triggered. */
  lemma PerformedTriggered(a: seq<ActionRecord>, lo: nat, calls: seq<Call>)
    requires lo <= |a| && Performed(a[lo..], calls)
    ensures forall k :: lo <= k < |a| ==> a[k].syncTriggered
  {
    PerformedSpec(a[lo..], calls);
    forall k | lo <= k < |a| ensures a[k].syncTriggered {
      assert a[lo..][k - lo] == a[k];
    }
  }

  lemma PerformedSnoc(recs: seq<ActionRecord>, calls: seq<Call>, r: ActionRecord, c: Call)
    requires Performed(recs, calls) && Did(r, c)
    ensures Performed(recs + [r], calls + [c])
  {
    assert (recs + [r])[..|recs|] == recs && (calls + [c])[..|calls|] == calls;
  }

  /** Concatenating two performed runs performs the concatenated calls. */
  lemma {:induction false} PerformedAppend(x: seq<ActionRecord>, p: seq<Call>, y: seq<ActionRecord>, q: seq<Call>)
    requires Performed(x, p) && Performed(y, q)
    ensures Performed(x + y, p + q)
    decreases |y|
  {
    if y == [] {
      assert x + y == x && p + q == p;
    } else {
      var n := |y| - 1;
      PerformedAppend(x, p, y[..n], q[..n]);
      assert x + y == (x + y[..n]) + [y[n]] && p + q == (p + q[..n]) + [q[n]];
      PerformedSnoc(x + y[..n], p + q[..n], y[n], q[n]);
    }
  }

  /** The records of the per-pattern lists, in the order the marking loops
      of tryFireSync visit them. */
  function Flatten(mss: seq<seq<ActionRecord>>): (rs: seq<ActionRecord>)
    ensures forall i :: 0 <= i < |rs| ==> rs[i] in Elems(mss)
  {
    if mss == [] then []
    else
      var init := mss[..|mss| - 1];
      var last := mss[|mss| - 1];
      var rs := Flatten(init) + last;
      ElemsInit(mss);
      assert forall i :: 0 <= i < |Flatten(init)| ==> rs[i] in Elems(init);
      assert forall i :: |Flatten(init)| <= i < |rs| ==> rs[i] == mss[|mss| - 1][i - |Flatten(init)|];
      rs
  }

  /** The mark a rule leaves on a matched record: an existing entry for the
      rule is kept, a missing one is set to a single fresh id from
      `lo` upwards, and no other entry changes. */
  predicate StampOk(before: map<string, seq<nat>>, after: map<string, seq<nat>>, name: string, lo: nat) {
    name in after
    && (name in before ==> after == before)
    && (name !in before ==> after == before[name := after[name]] && |after[name]| == 1 && lo <= after[name][0])
  }

  /** Marking a record that is unmarked or already carries this rule's mark
      leaves it carrying the mark. */
  lemma StampStep(before: map<string, seq<nat>>, mid: map<string, seq<nat>>, name: string, lo: nat, n: nat)
    requires mid == before || StampOk(before, mid, name, lo)
    requires lo <= n
    ensures StampOk(before, if name in mid then mid else mid[name := [n]], name, lo)
  {
  }

  // ---------------------------------------------------------------------
  // The rule dependency graph

  /** An ordered set of rule names, as a JavaScript Set iterates. */
  function AddNew(s: seq<string>, x: string): seq<string> {
    if x in s then s else s + [x]
  }

  function AddAll(s: seq<string>, xs: seq<string>): seq<string>
  {
    if xs == [] then s else AddNew(AddAll(s, xs[..|xs| - 1]), xs[|xs| - 1])
  }

  lemma {:induction false} AddAllAppend(s: seq<string>, p: seq<string>, q: seq<string>)
    ensures AddAll(s, p + q) == AddAll(AddAll(s, p), q)
  {
    if q != [] {
      AddAllAppend(s, p, q[..|q| - 1]);
      assert (p + q)[..|p + q| - 1] == p + q[..|q| - 1];
    } else {
      assert p + q == p;
    }
  }

  lemma {:induction false} AddAllMembers(s: seq<string>, xs: seq<string>, x: string)
    ensures x in AddAll(s, xs) <==> x in s || x in xs
  {
    if xs != [] {
      AddAllMembers(s, xs[..|xs| - 1], x);
      assert xs == xs[..|xs| - 1] + [xs[|xs| - 1]];
    }
  }

  /** Some when-pattern of `other` names the concept and action `t` invokes. */
  predicate Triggers(other: SyncRule, t: Invocation) {
    exists k :: 0 <= k < |other.when| && other.when[k].concept == t.concept && other.when[k].action == t.action
  }

  /** The rule names one then-entry adds, in rule order. */
  function EdgesFor(t: Invocation, rules: seq<SyncRule>, name: string): seq<string>
  {
    if rules == [] then []
    else
      var o := rules[|rules| - 1];
      EdgesFor(t, rules[..|rules| - 1], name) + (if o.name != name && Triggers(o, t) then [o.name] else [])
  }

  /** All names a new rule's then list adds, in the order updateGraph adds them. */
  function Targets(thens: seq<Invocation>, rules: seq<SyncRule>, name: string): seq<string>
  {
    if thens == [] then []
    else Targets(thens[..|thens| - 1], rules, name) + EdgesFor(thens[|thens| - 1], rules, name)
  }

  /** A name an edge list holds comes from a differently named rule that
      the invocation triggers. */
  lemma {:induction false} EdgesForWitness(t: Invocation, rules: seq<SyncRule>, name: string, x: string)
    returns (k: nat)
    requires x in EdgesFor(t, rules, name)
    ensures x != name && k < |rules| && rules[k].name == x && Triggers(rules[k], t)
  {
    var init := rules[..|rules| - 1];
    if x in EdgesFor(t, init, name) {
      k := EdgesForWitness(t, init, name, x);
      assert rules[k] == init[k];
    } else {
      k := |rules| - 1;
    }
  }

  /** Every differently named rule the invocation triggers is in its edge list. */
  lemma {:induction false} EdgesForHit(t: Invocation, rules: seq<SyncRule>, name: string, k: nat)
    requires k < |rules| && rules[k].name != name && Triggers(rules[k], t)
    ensures rules[k].name in EdgesFor(t, rules, name)
  {
    var init := rules[..|rules| - 1];
    if k < |init| {
      assert rules[k] == init[k];
      EdgesForHit(t, init, name, k);
    }
  }

  lemma EdgesForMembers(t: Invocation, rules: seq<SyncRule>, name: string, x: string)
    ensures x in EdgesFor(t, rules, name) <==>
      x != name && exists k :: 0 <= k < |rules| && rules[k].name == x && Triggers(rules[k], t)
  {
    if x in EdgesFor(t, rules, name) {
      var k := EdgesForWitness(t, rules, name, x);
    }
    if x != name && exists k :: 0 <= k < |rules| && rules[k].name == x && Triggers(rules[k], t) {
      var k :| 0 <= k < |rules| && rules[k].name == x && Triggers(rules[k], t);
      EdgesForHit(t, rules, name, k);
    }
  }

  /** A name a new rule's edges hold comes from one of its thens and a
      differently named rule that this then triggers. */
  lemma {:induction false} TargetsWitness(thens: seq<Invocation>, rules: seq<SyncRule>, name: string, x: string)
    returns (i: nat, k: nat)
    requires x in Targets(thens, rules, name)
    ensures x != name && i < |thens| && k < |rules| && rules[k].name == x && Triggers(rules[k], thens[i])
  {
    var init, last := thens[..|thens| - 1], thens[|thens| - 1];
    if x in Targets(init, rules, name) {
      i, k := TargetsWitness(init, rules, name, x);
      assert thens[i] == init[i];
    } else {
      i := |thens| - 1;
      k := EdgesForWitness(last, rules, name, x);
    }
  }

  /** Every differently named rule one of the thens triggers is a target. */
  lemma {:induction false} TargetsHit(thens: seq<Invocation>, rules: seq<SyncRule>, name: string, i: nat, k: nat)
    requires i < |thens| && k < |rules| && rules[k].name != name && Triggers(rules[k], thens[i])
    ensures rules[k].name in Targets(thens, rules, name)
  {
    var init := thens[..|thens| - 1];
    if i < |init| {
      assert thens[i] == init[i];
      TargetsHit(init, rules, name, i, k);
    } else {
      EdgesForHit(thens[i], rules, name, k);
    }
  }

  /** S gains an edge to T exactly when T is a differently named rule of the
      list with a when-pattern on the concept/action of one of S's thens. */
  lemma TargetsMembers(thens: seq<Invocation>, rules: seq<SyncRule>, name: string, x: string)
    ensures x in Targets(thens, rules, name) <==>
      x != name && exists i, k :: 0 <= i < |thens| && 0 <= k < |rules|
                                && rules[k].name == x && Triggers(rules[k], thens[i])
  {
    if x in Targets(thens, rules, name) {
      var i, k := TargetsWitness(thens, rules, name, x);
    }
    if x != name && exists i, k :: 0 <= i < |thens| && 0 <= k < |rules|
                                && rules[k].name == x && Triggers(rules[k], thens[i]) {
      var i, k :| 0 <= i < |thens| && 0 <= k < |rules| && rules[k].name == x && Triggers(rules[k], thens[i]);
      TargetsHit(thens, rules, name, i, k);
    }
  }

  function Neighbors(g: map<string, seq<string>>, n: string): seq<string> {
    if n in g then g[n] else []
  }

  /** Every step of `w` follows an edge of the graph. */
  predicate IsWalk(g: map<string, seq<string>>, w: seq<string>) {
    forall i :: 0 <= i < |w| - 1 ==> w[i + 1] in Neighbors(g, w[i])
  }

  function Universe(g: map<string, seq<string>>): set<string> {
    g.Keys + (set k, x | k in g && x in g[k] :: x)
  }

  function Reverse(s: seq<string>): (r: seq<string>)
    ensures |r| == |s|
    ensures forall i :: 0 <= i < |s| ==> r[i] == s[|s| - 1 - i]
  {
    if s == [] then [] else [s[|s| - 1]] + Reverse(s[..|s| - 1])
  }

  /** Some walk from `n` along the graph comes back to a node it already
      passed. */
  ghost predicate CycleFrom(g: map<string, seq<string>>, n: string) {
    exists w :: |w| > 0 && w[0] == n && IsWalk(g, w) && w[|w| - 1] in w[..|w| - 1]
  }

  /** A cycle is reachable from one of the rules. */
  ghost predicate HasCycle(g: map<string, seq<string>>, rules: seq<SyncRule>) {
    exists i :: 0 <= i < |rules| && CycleFrom(g, rules[i].name)
  }

  /** The order in which the search finished nodes: every finished node's
      neighbours finished before it, and all ranks are below `bound`. */
  ghost predicate Ranked(g: map<string, seq<string>>, rank: map<string, nat>, bound: nat) {
    (forall n :: n in rank ==> rank[n] < bound)
    && (forall n, m :: n in rank && m in Neighbors(g, n) ==> m in rank && rank[m] < rank[n])
  }

  /** Along a walk from a finished node the ranks strictly decrease. */
  lemma {:induction false} WalkDescends(g: map<string, seq<string>>, rank: map<string, nat>, bound: nat,
                                        w: seq<string>, j: nat)
    requires Ranked(g, rank, bound) && IsWalk(g, w) && 0 < |w| && w[0] in rank && j < |w|
    ensures forall i :: 0 <= i <= j ==> w[i] in rank
    ensures forall i :: 0 <= i < j ==> rank[w[j]] < rank[w[i]]
  {
    if j > 0 {
      WalkDescends(g, rank, bound, w, j - 1);
      assert w[j] in Neighbors(g, w[j - 1]);
    }
  }

  /** No cycle is reachable from a finished node. */
  lemma RankedNoCycle(g: map<string, seq<string>>, rank: map<string, nat>, bound: nat, n: string)
    requires Ranked(g, rank, bound) && n in rank
    ensures !CycleFrom(g, n)
  {
    forall w | |w| > 0 && w[0] == n && IsWalk(g, w)
      ensures w[|w| - 1] !in w[..|w| - 1]
    {
      WalkDescends(g, rank, bound, w, |w| - 1);
      forall i | 0 <= i < |w| - 1 ensures w[i] != w[|w| - 1] {
        assert rank[w[|w| - 1]] < rank[w[i]];
      }
      assert forall i :: 0 <= i < |w| - 1 ==> w[..|w| - 1][i] == w[i];
    }
  }

  /** The `dfs` closure of detectCycles. `stack` is the recursion stack
      (a JavaScript Set, which iterates in insertion order). When it reports
      a cycle, the pushed nodes read backwards are a walk from `node` whose
      last node already occurs on the stack or earlier on the walk. When it
      reports none, `node` is finished: the ghost `rank` records the order
      in which nodes finished, every node reachable from `node` is finished
      too, and no cycle is reachable from it. */
  method Dfs(g: map<string, seq<string>>, node: string, visited: set<string>, stack: seq<string>,
             ghost rank: map<string, nat>, ghost bound: nat)
    returns (found: bool, cycles: seq<string>, visitedOut: set<string>,
             ghost rankOut: map<string, nat>, ghost boundOut: nat)
    requires Ranked(g, rank, bound)
    requires rank.Keys <= visited && forall x :: x in visited ==> x in rank || x in stack
    requires forall x :: x in stack ==> x !in rank
    ensures visited <= visitedOut <= visited + Universe(g) + {node}
    ensures !found ==> cycles == []
    ensures found ==> |cycles| > 0 && Reverse(cycles)[0] == node && IsWalk(g, Reverse(cycles))
                      && cycles[0] in stack + Reverse(cycles)[..|cycles| - 1]
    ensures !found ==> Ranked(g, rankOut, boundOut) && node in rankOut && rank.Keys <= rankOut.Keys
                       && rankOut.Keys <= visitedOut && (forall x :: x in visitedOut ==> x in rankOut || x in stack)
                       && (forall x :: x in stack ==> x !in rankOut)
    ensures !found ==> !CycleFrom(g, node)
    decreases |(Universe(g) + {node}) - visited|
  {
    if node in stack {
      return true, [node], visited, rank, bound;
    }
    if node in visited {
      RankedNoCycle(g, rank, bound, node);
      return false, [], visited, rank, bound;
    }
    visitedOut := visited + {node};
    rankOut, boundOut := rank, bound;
    var ns := Neighbors(g, node);
    var i := 0;
    while i < |ns|
      invariant 0 <= i <= |ns|
      invariant visited + {node} <= visitedOut <= visited + Universe(g) + {node}
      invariant Ranked(g, rankOut, boundOut) && rank.Keys <= rankOut.Keys
      invariant rankOut.Keys <= visitedOut && forall x :: x in visitedOut ==> x in rankOut || x in stack + [node]
      invariant forall x :: x in stack + [node] ==> x !in rankOut
      invariant forall j :: 0 <= j < i ==> ns[j] in rankOut
    {
      assert ns[i] in Universe(g) by {
        assert node in g && ns[i] in g[node];
      }
      ProperSubsetSmaller((Universe(g) + {ns[i]}) - visitedOut, (Universe(g) + {node}) - visited, node);
      var f, cs, v, r, b := Dfs(g, ns[i], visitedOut, stack + [node], rankOut, boundOut);
      visitedOut := v;
      if f {
        CycleExtends(g, node, ns[i], stack, cs);
        return true, cs + [node], visitedOut, rankOut, boundOut;
      }
      FinishedGrow(ns, i, rankOut, r);
      rankOut, boundOut := r, b;
      i := i + 1;
    }
    Finish(g, rankOut, boundOut, node);
    rankOut := rankOut[node := boundOut];
    boundOut := boundOut + 1;
    RankedNoCycle(g, rankOut, boundOut, node);
    return false, [], visitedOut, rankOut, boundOut;
  }

  /** The neighbours finished so far stay finished when the next one is. */
  lemma FinishedGrow(ns: seq<string>, i: nat, rank: map<string, nat>, rank': map<string, nat>)
    requires i < |ns| && rank.Keys <= rank'.Keys && ns[i] in rank'
    requires forall j :: 0 <= j < i ==> ns[j] in rank
    ensures forall j :: 0 <= j < i + 1 ==> ns[j] in rank'
  {
  }

  /** Finishing a node whose neighbours have all finished keeps the ranks
      a finishing order. */
  lemma Finish(g: map<string, seq<string>>, rank: map<string, nat>, bound: nat, node: string)
    requires Ranked(g, rank, bound) && node !in rank
    requires forall m :: m in Neighbors(g, node) ==> m in rank
    ensures Ranked(g, rank[node := bound], bound + 1)
  {
  }

  /** A cycle found from a neighbour `next` of `node`, with `node` pushed
      on the stack, is a cycle found from `node` once `node` is appended. */
  lemma CycleExtends(g: map<string, seq<string>>, node: string, next: string, stack: seq<string>, cs: seq<string>)
    requires next in Neighbors(g, node)
    requires |cs| > 0 && Reverse(cs)[0] == next && IsWalk(g, Reverse(cs))
    requires cs[0] in stack + [node] + Reverse(cs)[..|cs| - 1]
    ensures var cycles := cs + [node];
            Reverse(cycles)[0] == node && IsWalk(g, Reverse(cycles))
            && cycles[0] in stack + Reverse(cycles)[..|cycles| - 1]
  {
    var cycles := cs + [node];
    ReverseSnoc(cs, node);
    assert Reverse(cycles)[..|cycles| - 1] == [node] + Reverse(cs)[..|cs| - 1];
    assert stack + [node] + Reverse(cs)[..|cs| - 1] == stack + Reverse(cycles)[..|cycles| - 1];
    var w := Reverse(cycles);
    assert w == [node] + Reverse(cs);
    forall j | 0 <= j < |w| - 1 ensures w[j + 1] in Neighbors(g, w[j]) {
      if j == 0 {
        assert w[1] == Reverse(cs)[0] == next;
      } else {
        assert w[j] == Reverse(cs)[j - 1] && w[j + 1] == Reverse(cs)[j];
      }
    }
  }

  /** The loops of updateGraph: every then-entry of the rule in turn adds
      its targets to the rule's adjacency list. */
  method NewNeighbors(init: seq<string>, thens: seq<Invocation>, rules: seq<SyncRule>, name: string)
    returns (cur: seq<string>)
    ensures cur == AddAll(init, Targets(thens, rules, name))
  {
    cur := init;
    var ti := 0;
    while ti < |thens|
      invariant 0 <= ti <= |thens|
      invariant cur == AddAll(init, Targets(thens[..ti], rules, name))
    {
      cur := AddEdges(cur, thens[ti], rules, name);
      AddAllAppend(init, Targets(thens[..ti], rules, name), EdgesFor(thens[ti], rules, name));
      assert thens[..ti + 1][..ti] == thens[..ti];
      ti := ti + 1;
    }
    assert thens[..ti] == thens;
  }

  /** The middle loop of updateGraph: for one then-entry, every other rule
      with a matching when-pattern becomes a neighbour. */
  method AddEdges(cur0: seq<string>, t: Invocation, rules: seq<SyncRule>, name: string) returns (cur: seq<string>)
    ensures cur == AddAll(cur0, EdgesFor(t, rules, name))
  {
    cur := cur0;
    var oi := 0;
    while oi < |rules|
      invariant 0 <= oi <= |rules|
      invariant cur == AddAll(cur0, EdgesFor(t, rules[..oi], name))
    {
      var other := rules[oi];
      assert rules[..oi + 1][..oi] == rules[..oi];
      var e := EdgesFor(t, rules[..oi], name);
      if other.name != name {
        var hit := FindTrigger(other, t);
        if hit {
          cur := AddNew(cur, other.name);
          assert EdgesFor(t, rules[..oi + 1], name) == e + [other.name];
          assert (e + [other.name])[..|e|] == e;
        } else {
          assert EdgesFor(t, rules[..oi + 1], name) == e + [];
          assert e + [] == e;
        }
      } else {
        assert EdgesFor(t, rules[..oi + 1], name) == e + [];
        assert e + [] == e;
      }
      oi := oi + 1;
    }
    assert rules[..oi] == rules;
  }

  /** The innermost loop of updateGraph: scan `other`'s when-patterns for
      the concept/action of `t`, stopping at the first hit. */
  method FindTrigger(other: SyncRule, t: Invocation) returns (hit: bool)
    ensures hit <==> Triggers(other, t)
  {
    hit := false;
    var j := 0;
    while j < |other.when| && !hit
      invariant 0 <= j <= |other.when|
      invariant hit <==> exists k :: 0 <= k < j && other.when[k].concept == t.concept && other.when[k].action == t.action
    {
      if other.when[j].concept == t.concept && other.when[j].action == t.action {
        hit := true;
      }
      j := j + 1;
    }
  }

  lemma ProperSubsetSmaller(a: set<string>, b: set<string>, x: string)
    requires a <= b && x in b && x !in a
    ensures |a| < |b|
  {
    SubsetCard(a, b - {x});
  }

  lemma {:induction false} SubsetCard(a: set<string>, c: set<string>)
    requires a <= c
    ensures |a| <= |c|
    decreases |a|
  {
    if a != {} {
      var y :| y in a;
      SubsetCard(a - {y}, c - {y});
    }
  }

  lemma ReverseSnoc(s: seq<string>, x: string)
    ensures Reverse(s + [x]) == [x] + Reverse(s)
  {
    assert (s + [x])[..|s|] == s;
  }

  /** The rebuild loop of clearFlow: the index of the kept records, built
      record by record. */
  method BuildIndex(kept: seq<ActionRecord>) returns (index: map<string, seq<ActionRecord>>)
    ensures index == IndexOf(kept)
  {
    index := map[];
    for i := 0 to |kept|
      invariant index == IndexOf(kept[..i])
    {
      var r := kept[i];
      var key := IndexKey(r.concept, r.action);
      if key !in index {
        index := index[key := []];
      }
      index := index[key := index[key] + [r]];
      assert kept[..i + 1][..i] == kept[..i];
    }
    assert kept[..|kept|] == kept;
  }

  // ---------------------------------------------------------------------
  // What a rule would do against a given index, marks and fired set

  /** The records an index lists. */
  function IndexedIn(idx: map<string, seq<ActionRecord>>): set<ActionRecord> {
    set k, r | k in idx && r in idx[k] :: r
  }

  /** `matchWhen`: the indexed records of the pattern's concept:action, in
      index order, that satisfy the pattern and have not yet taken part in
      the rule. */
  function MatchIn(idx: map<string, seq<ActionRecord>>, marks: Marks, p: Pattern, name: string): seq<ActionRecord>
  {
    var key := IndexKey(p.concept, p.action);
    if key in idx then MatchFilter(idx[key], p, name, marks) else []
  }

  function MatchAllIn(idx: map<string, seq<ActionRecord>>, marks: Marks, ps: seq<Pattern>, name: string)
    : (mss: seq<seq<ActionRecord>>)
    ensures |mss| == |ps|
    ensures forall k :: 0 <= k < |ps| ==> mss[k] == MatchIn(idx, marks, ps[k], name)
  {
    if ps == [] then [] else MatchAllIn(idx, marks, ps[..|ps| - 1], name) + [MatchIn(idx, marks, ps[|ps| - 1], name)]
  }

  /** The records each when-pattern of the rule matches are indexed. */
  lemma MatchAllInIndexed(idx: map<string, seq<ActionRecord>>, marks: Marks, ps: seq<Pattern>, name: string)
    ensures Elems(MatchAllIn(idx, marks, ps, name)) <= IndexedIn(idx)
  {
    var mss := MatchAllIn(idx, marks, ps, name);
    forall r | r in Elems(mss) ensures r in IndexedIn(idx) {
      var k, j :| 0 <= k < |mss| && 0 <= j < |mss[k]| && r == mss[k][j];
      var key := IndexKey(ps[k].concept, ps[k].action);
      assert key in idx;
      MatchFilterMembers(idx[key], ps[k], name, marks, r);
    }
  }

  /** The records tryFireSync marks for the rule: those of the
      per-pattern lists, in the order the marking loops visit them. */
  function MatchedIn(idx: map<string, seq<ActionRecord>>, marks: Marks, sync: SyncRule): seq<ActionRecord>
  {
    Flatten(MatchAllIn(idx, marks, sync.when, sync.name))
  }

  /** The rule cannot fire: it already fired in this cascade, or one of
      its when-patterns matches nothing. */
  predicate BlockedIn(idx: map<string, seq<ActionRecord>>, marks: Marks, fired: set<string>, sync: SyncRule)
  {
    sync.name in fired || exists k :: 0 <= k < |sync.when| && MatchIn(idx, marks, sync.when[k], sync.name) == []
  }

  /** The combinations the rule would run. */
  function CombosIn(idx: map<string, seq<ActionRecord>>, marks: Marks, sync: SyncRule): seq<Object>
  {
    Combos(sync, MatchAllIn(idx, marks, sync.when, sync.name))
  }

  /** The rule runs at least one combination, so its matches get marked. */
  predicate FiresIn(idx: map<string, seq<ActionRecord>>, marks: Marks, fired: set<string>, sync: SyncRule)
  {
    !BlockedIn(idx, marks, fired, sync) && |CombosIn(idx, marks, sync)| > 0
  }

  /** The invocations tryFireSync issues for the rule: every combination
      runs the whole then list in the flow of the first record the first
      pattern matched. A rule without when-patterns issues none: reading
      that flow fails for every then-entry. A rule that already fired in
      the cascade issues none either. */
  function PlanIn(idx: map<string, seq<ActionRecord>>, marks: Marks, fired: set<string>, sync: SyncRule): (calls: seq<Call>)
    ensures sync.name in fired ==> calls == []
  {
    if BlockedIn(idx, marks, fired, sync) || |sync.when| == 0 then []
    else Plan(CombosIn(idx, marks, sync), sync.thens, MatchIn(idx, marks, sync.when[0], sync.name)[0].flow)
  }

  /** The engine as one rule of a scan begins: the length of the ledger,
      the next fresh id, the number of invocations so far, the rule marks
      and the fired set. */
  datatype Snapshot = Snapshot(size: nat, nextId: nat, calls: nat, marks: Marks, fired: set<string>)

  /** One step of the rule scan over the ledger `a`, whose invocations
      returned or threw as `log` says, from state `s` to state `t`: the
      records added in between were made by the invocations the rule plans
      against the index of the ledger as it stood in `s`, one invocation
      each; the rule joined the fired set exactly when one of those
      invocations returned; when it fired, its matched records carry its
      mark and no other record's marks changed, and otherwise nothing was
      added or marked. (The index is bound by a quantifier so that the
      rule's plan is only unfolded where it is asked about.) */
  ghost predicate ScanStep(a: seq<ActionRecord>, log: seq<bool>, sync: SyncRule, s: Snapshot, t: Snapshot)
  {
    s.size <= t.size <= |a| && s.nextId <= t.nextId
    && s.calls <= t.calls <= |log| && t.calls - s.calls == t.size - s.size
    && t.fired == (if true in log[s.calls..t.calls] then s.fired + {sync.name} else s.fired)
    && forall idx | idx == IndexOf(a[..s.size]) ::
       Performed(a[s.size..t.size], PlanIn(idx, s.marks, s.fired, sync))
       && (FiresIn(idx, s.marks, s.fired, sync) ==>
             var flat := MatchedIn(idx, s.marks, sync);
             (forall i :: 0 <= i < |flat| ==> StampOk(EdgesOf(s.marks, flat[i]), EdgesOf(t.marks, flat[i]), sync.name, s.nextId))
             && (forall r | r in s.marks.Keys + t.marks.Keys :: r !in flat ==> EdgesOf(t.marks, r) == EdgesOf(s.marks, r)))
       && (!FiresIn(idx, s.marks, s.fired, sync) ==> t.size == s.size && t.marks == s.marks)
  }

  /** A rule that does not fire, in particular a blocked one, leaves the
      ledger, the marks and the fired set as they were. */
  lemma ScanStepIdle(a: seq<ActionRecord>, log: seq<bool>, sync: SyncRule, s: Snapshot, t: Snapshot)
    requires ScanStep(a, log, sync, s, t)
    requires !FiresIn(IndexOf(a[..s.size]), s.marks, s.fired, sync)
    ensures t.size == s.size && t.calls == s.calls && t.marks == s.marks && t.fired == s.fired
  {
    assert log[s.calls..t.calls] == [];
  }

  /** A blocked rule does not fire. */
  lemma BlockedIdle(idx: map<string, seq<ActionRecord>>, marks: Marks, fired: set<string>, sync: SyncRule)
    requires BlockedIn(idx, marks, fired, sync)
    ensures !FiresIn(idx, marks, fired, sync) && PlanIn(idx, marks, fired, sync) == []
  {
  }

  /** The facts tryFireSync establishes make a scan step. */
  lemma MakeStep(a: seq<ActionRecord>, log: seq<bool>, sync: SyncRule, s: Snapshot, t: Snapshot,
                 plan: seq<Call>, fires: bool, flat: seq<ActionRecord>)
    requires s.size <= t.size == |a| && s.nextId <= t.nextId
    requires s.calls <= t.calls == |log| && t.calls - s.calls == t.size - s.size
    requires forall idx | idx == IndexOf(a[..s.size]) ::
      plan == PlanIn(idx, s.marks, s.fired, sync) && fires == FiresIn(idx, s.marks, s.fired, sync)
      && flat == MatchedIn(idx, s.marks, sync)
    requires t.fired == if true in log[s.calls..] then s.fired + {sync.name} else s.fired
    requires Performed(a[s.size..], plan)
    requires fires ==> forall i :: 0 <= i < |flat| ==> StampOk(EdgesOf(s.marks, flat[i]), EdgesOf(t.marks, flat[i]), sync.name, s.nextId)
    requires forall r :: r !in flat ==> EdgesOf(t.marks, r) == EdgesOf(s.marks, r)
    requires !fires ==> t.size == s.size && t.marks == s.marks
    ensures ScanStep(a, log, sync, s, t)
  {
    assert a[s.size..t.size] == a[s.size..] && log[s.calls..t.calls] == log[s.calls..];
    forall idx | idx == IndexOf(a[..s.size])
      ensures Performed(a[s.size..t.size], PlanIn(idx, s.marks, s.fired, sync))
      ensures FiresIn(idx, s.marks, s.fired, sync) ==>
        (forall i :: 0 <= i < |flat| ==> StampOk(EdgesOf(s.marks, flat[i]), EdgesOf(t.marks, flat[i]), sync.name, s.nextId))
        && (forall r | r in s.marks.Keys + t.marks.Keys :: r !in flat ==> EdgesOf(t.marks, r) == EdgesOf(s.marks, r))
      ensures !FiresIn(idx, s.marks, s.fired, sync) ==> t.size == s.size && t.marks == s.marks
    {
    }
  }

  /** A step stays a step of a ledger and a log that grew afterwards. */
  lemma ScanStepGrow(a: seq<ActionRecord>, b: seq<ActionRecord>, log: seq<bool>, log': seq<bool>,
                     sync: SyncRule, s: Snapshot, t: Snapshot)
    requires a <= b && log <= log' && ScanStep(a, log, sync, s, t)
    ensures ScanStep(b, log', sync, s, t)
  {
    assert b[..s.size] == a[..s.size] && b[s.size..t.size] == a[s.size..t.size];
    assert log'[s.calls..t.calls] == log[s.calls..t.calls];
  }

  /** The first `n` rules of a scan each took one step, rule `j` from
      `snaps[j]` to `snaps[j + 1]`. */
  ghost predicate ScanSteps(a: seq<ActionRecord>, log: seq<bool>, rules: seq<SyncRule>, snaps: seq<Snapshot>, n: nat)
    requires n <= |rules| && n < |snaps|
  {
    n == 0 || (ScanSteps(a, log, rules, snaps, n - 1) && ScanStep(a, log, rules[n - 1], snaps[n - 1], snaps[n]))
  }

  lemma {:induction false} ScanStepsSpec(a: seq<ActionRecord>, log: seq<bool>, rules: seq<SyncRule>,
                                         snaps: seq<Snapshot>, n: nat)
    requires n <= |rules| && n < |snaps|
    ensures ScanSteps(a, log, rules, snaps, n) <==> forall j :: 0 <= j < n ==> ScanStep(a, log, rules[j], snaps[j], snaps[j + 1])
  {
    if n > 0 {
      ScanStepsSpec(a, log, rules, snaps, n - 1);
    }
  }

  /** The steps of a scan so far stay steps of a ledger and a log that
      grew afterwards. */
  lemma {:induction false} ScanStepsGrow(a: seq<ActionRecord>, b: seq<ActionRecord>, log: seq<bool>, log': seq<bool>,
                                         rules: seq<SyncRule>, snaps: seq<Snapshot>, n: nat)
    requires a <= b && log <= log' && n <= |rules| && n < |snaps| && ScanSteps(a, log, rules, snaps, n)
    ensures ScanSteps(b, log', rules, snaps, n)
  {
    if n > 0 {
      ScanStepsGrow(a, b, log, log', rules, snaps, n - 1);
      ScanStepGrow(a, b, log, log', rules[n - 1], snaps[n - 1], snaps[n]);
    }
  }

  /** The steps of a scan do not depend on the states after them. */
  lemma {:induction false} ScanStepsPrefix(a: seq<ActionRecord>, log: seq<bool>, rules: seq<SyncRule>,
                                           snaps: seq<Snapshot>, more: seq<Snapshot>, n: nat)
    requires n <= |rules| && n < |snaps| && ScanSteps(a, log, rules, snaps, n)
    ensures ScanSteps(a, log, rules, snaps + more, n)
  {
    if n > 0 {
      ScanStepsPrefix(a, log, rules, snaps, more, n - 1);
      assert (snaps + more)[n - 1] == snaps[n - 1] && (snaps + more)[n] == snaps[n];
    }
  }

  // ---------------------------------------------------------------------
  // The engine

  class LegibleEngine {
    var concepts: map<string, Concept>
    var actions: seq<ActionRecord>
    var syncs: seq<SyncRule>
    var syncTriggering: bool
    var firedSyncs: set<string>
    var invokedActions: set<Fingerprint>
    var syncGraph: map<string, seq<string>>
    var actionIndex: map<string, seq<ActionRecord>>
    /** Source of fresh ids (uuidv4 in the source). */
    var nextId: nat
    /** The `syncEdges` property of every record: the rules it took part
        in, each with the id of its mark. */
    var syncEdges: Marks
    /** Every execution since construction, and where the current cascade began. */
    ghost var executions: seq<Fingerprint>
    ghost var cascadeStart: nat
    /** For every invoke since construction, in order: whether it returned
        (true) or threw (false). */
    ghost var returned: seq<bool>

    /** The index mirrors the ledger; ids increase along the ledger and stay
        below the next fresh one; every fingerprint executed since the
        current cascade began is in `invokedActions`, and none of them was
        executed twice. */
    ghost predicate Valid()
      reads this`actions, this`actionIndex, this`nextId, this`cascadeStart, this`executions, this`invokedActions
    {
      LedgerOk() && CascadeOk()
    }

    ghost predicate LedgerOk()
      reads this`actions, this`actionIndex, this`nextId
    {
      actionIndex == IndexOf(actions) && IdsBelow(actions, nextId)
    }

    ghost predicate CascadeOk()
      reads this`cascadeStart, this`executions, this`invokedActions
    {
      cascadeStart <= |executions|
      && Distinct(executions[cascadeStart..])
      && (forall k :: cascadeStart <= k < |executions| ==> executions[k] in invokedActions)
    }

    function Records(): set<ActionRecord>
      reads this`actions
    {
      set r | r in actions
    }

    function Indexed(): set<ActionRecord>
      reads this`actionIndex
    {
      IndexedIn(actionIndex)
    }

    constructor ()
      ensures Valid() && !syncTriggering
      ensures concepts == map[] && actions == [] && syncs == [] && syncGraph == map[]
      ensures firedSyncs == {} && invokedActions == {} && syncEdges == map[]
    {
      concepts := map[];
      actions := [];
      syncs := [];
      syncTriggering := false;
      firedSyncs := {};
      invokedActions := {};
      syncGraph := map[];
      actionIndex := map[];
      nextId := 0;
      syncEdges := map[];
      executions := [];
      cascadeStart := 0;
      returned := [];
    }

    lemma IndexedInLedger()
      requires Valid()
      ensures Indexed() <= Records()
    {
      forall r | r in Indexed() ensures r in Records() {
        var k :| k in actionIndex && r in actionIndex[k];
        IndexedRecordsInLedger(actions, k, r);
      }
    }

    /** `registerConcept`: a later registration replaces an earlier one. */
    method RegisterConcept(name: string, impl: Concept)
      requires Valid()
      modifies this
      ensures Valid()
      ensures concepts == old(concepts)[name := impl]
      ensures actions == old(actions) && syncs == old(syncs) && syncGraph == old(syncGraph)
      ensures syncTriggering == old(syncTriggering)
    {
      concepts := concepts[name := impl];
    }

    /** `registerSync`: the rule is always appended; the cycles found are
        what the source only reports as a warning. */
    method RegisterSync(sync: SyncRule) returns (cycles: seq<string>)
      requires Valid()
      modifies this
      ensures Valid()
      ensures syncs == old(syncs) + [sync]
      ensures syncGraph == old(syncGraph)[sync.name :=
                AddAll(Neighbors(old(syncGraph), sync.name), Targets(sync.thens, syncs, sync.name))]
      ensures concepts == old(concepts) && actions == old(actions) && syncTriggering == old(syncTriggering)
      ensures cycles != [] ==> IsWalk(syncGraph, Reverse(cycles)) && cycles[0] in cycles[1..]
      ensures cycles != [] <==> HasCycle(syncGraph, syncs)
    {
      syncs := syncs + [sync];
      UpdateGraph(sync);
      cycles := DetectCycles();
    }

    /** `updateGraph`: only the new rule's adjacency changes. */
    method UpdateGraph(sync: SyncRule)
      requires Valid()
      modifies this
      ensures Valid()
      ensures syncGraph == old(syncGraph)[sync.name :=
                AddAll(Neighbors(old(syncGraph), sync.name), Targets(sync.thens, syncs, sync.name))]
      ensures syncs == old(syncs) && concepts == old(concepts) && actions == old(actions)
      ensures syncTriggering == old(syncTriggering)
    {
      var cur := NewNeighbors(Neighbors(syncGraph, sync.name), sync.thens, syncs, sync.name);
      syncGraph := syncGraph[sync.name := cur];
    }

    /** `detectCycles`: a depth-first search from each unvisited rule in
        registration order, stopping at the first back edge. A non-empty
        result, read backwards, is a walk along rule edges that returns to
        a rule it already passed: a real cycle. An empty result means that
        no cycle is reachable from any registered rule. */
    method DetectCycles() returns (cycles: seq<string>)
      ensures cycles != [] ==> IsWalk(syncGraph, Reverse(cycles)) && cycles[0] in cycles[1..]
      ensures cycles != [] <==> HasCycle(syncGraph, syncs)
    {
      var visited: set<string> := {};
      ghost var rank: map<string, nat> := map[];
      ghost var bound: nat := 0;
      cycles := [];
      var i := 0;
      while i < |syncs|
        invariant 0 <= i <= |syncs|
        invariant cycles == []
        invariant Ranked(syncGraph, rank, bound) && rank.Keys == visited
        invariant forall j :: 0 <= j < i ==> syncs[j].name in rank
      {
        if syncs[i].name !in visited {
          var f, cs, v, r, b := Dfs(syncGraph, syncs[i].name, visited, [], rank, bound);
          visited := v;
          if f {
            cycles := cs;
            var w := Reverse(cs);
            assert cs[0] in w[..|cs| - 1];
            var k :| 0 <= k < |cs| - 1 && w[k] == cs[0];
            assert cs[|cs| - 1 - k] == cs[0];
            assert cs[1..][|cs| - 2 - k] == cs[0];
            assert CycleFrom(syncGraph, syncs[i].name) by {
              assert w[|w| - 1] == cs[0];
            }
            return;
          }
          rank, bound := r, b;
        }
        i := i + 1;
      }
      forall j | 0 <= j < |syncs| ensures !CycleFrom(syncGraph, syncs[j].name) {
        RankedNoCycle(syncGraph, rank, bound, syncs[j].name);
      }
    }

    /** `getActionsByFlow`. */
    function ActionsByFlow(flow: string): seq<ActionRecord>
      reads this`actions
    {
      ByFlow(actions, flow)
    }

    /** `clearFlow`: drops that flow's records and rebuilds the index from
        what remains. */
    method ClearFlow(flow: string)
      requires Valid()
      modifies this
      ensures Valid()
      ensures actions == WithoutFlow(old(actions), flow)
      ensures concepts == old(concepts) && syncs == old(syncs) && syncGraph == old(syncGraph)
      ensures firedSyncs == old(firedSyncs) && invokedActions == old(invokedActions)
      ensures syncTriggering == old(syncTriggering)
    {
      IdsBelowSpec(actions, nextId);
      WithoutFlowSpec(actions, flow);
      var kept := WithoutFlow(actions, flow);
      var index := BuildIndex(kept);
      forall i | 0 <= i < |kept| ensures kept[i].id < nextId {
        var j :| 0 <= j < |actions| && actions[j] == kept[i];
      }
      IdsBelowSpec(kept, nextId);
      actions := kept;
      actionIndex := index;
    }

    /** `reset`: empties the ledger and the cascade sets, keeps concepts and
        rules. */
    method Reset()
      requires Valid()
      modifies this
      ensures Valid()
      ensures actions == [] && actionIndex == map[] && firedSyncs == {} && invokedActions == {}
      ensures concepts == old(concepts) && syncs == old(syncs) && syncGraph == old(syncGraph)
      ensures syncTriggering == old(syncTriggering)
    {
      actions := [];
      actionIndex := map[];
      firedSyncs := {};
      invokedActions := {};
      cascadeStart := |executions|;
    }

    /** `matchWhen` against the engine's index and marks. */
    function MatchWhen(p: Pattern, name: string): seq<ActionRecord>
      reads this`actionIndex, this`syncEdges
    {
      MatchIn(actionIndex, syncEdges, p, name)
    }

    lemma MatchWhenSpec(p: Pattern, name: string, r: ActionRecord)
      requires Valid()
      ensures r in MatchWhen(p, name) <==>
        r in actions && r.concept + ":" + r.action == p.concept + ":" + p.action && Matches(r, p, name, syncEdges)
    {
      var key := IndexKey(p.concept, p.action);
      IndexOfSpec(actions, key);
      WithKeyMembers(actions, key, r);
      if key in actionIndex {
        MatchFilterMembers(actionIndex[key], p, name, syncEdges, r);
      }
    }

    function MatchAll(ps: seq<Pattern>, name: string): (mss: seq<seq<ActionRecord>>)
      reads this`actionIndex, this`syncEdges
      ensures |mss| == |ps|
      ensures forall k :: 0 <= k < |ps| ==> mss[k] == MatchWhen(ps[k], name)
    {
      MatchAllIn(actionIndex, syncEdges, ps, name)
    }

    lemma MatchAllIndexed(ps: seq<Pattern>, name: string)
      ensures Elems(MatchAll(ps, name)) <= Indexed()
    {
      MatchAllInIndexed(actionIndex, syncEdges, ps, name);
    }

    function Matched(sync: SyncRule): seq<ActionRecord>
      reads this`actionIndex, this`syncEdges
    {
      MatchedIn(actionIndex, syncEdges, sync)
    }

    predicate Blocked(sync: SyncRule)
      reads this`actionIndex, this`syncEdges, this`firedSyncs
    {
      BlockedIn(actionIndex, syncEdges, firedSyncs, sync)
    }

    function RuleCombos(sync: SyncRule): seq<Object>
      reads this`actionIndex, this`syncEdges
    {
      CombosIn(actionIndex, syncEdges, sync)
    }

    predicate Fires(sync: SyncRule)
      reads this`actionIndex, this`syncEdges, this`firedSyncs
    {
      FiresIn(actionIndex, syncEdges, firedSyncs, sync)
    }

    /** The invocations tryFireSync issues for the rule in the current state. */
    function FirePlan(sync: SyncRule): seq<Call>
      reads this`actionIndex, this`syncEdges, this`firedSyncs
    {
      PlanIn(actionIndex, syncEdges, firedSyncs, sync)
    }

    /** The state a scan step begins or ends in. */
    ghost function Snap(): Snapshot
      reads this`actions, this`nextId, this`returned, this`syncEdges, this`firedSyncs
    {
      Snapshot(|actions|, nextId, |returned|, syncEdges, firedSyncs)
    }

    /** The ledger, the ids, the executions and the invoke log only grow,
        the ledger and the log by one entry per invoke. */
    twostate predicate Extends()
      reads this`actions, this`nextId, this`executions, this`returned
    {
      old(actions) <= actions && old(nextId) <= nextId && old(executions) <= executions
      && old(returned) <= returned && |returned| - |old(returned)| == |actions| - |old(actions)|
    }

    /** The concept runs: it is registered and the fingerprint has not yet
        executed in the cascade this invocation belongs to. */
    predicate Runs(concept: string, action: string, input: Object, syncTriggered: bool)
      reads this`concepts, this`invokedActions
    {
      concept in concepts && Fingerprint(concept, action, input) !in (if syncTriggered then invokedActions else {})
    }

    /** What `invoke` returns or throws in the current state. */
    function Outcome(concept: string, action: string, input: Object, syncTriggered: bool): Result<Value>
      reads this`concepts, this`invokedActions
    {
      if concept !in concepts then Err(NotFound(concept))
      else if !Runs(concept, action, input, syncTriggered) then Ok(Skipped)
      else concepts[concept].execute(concepts[concept].state, action, input).result
    }

    /** What `invoke` stores as the new record's output. */
    function StoredFor(concept: string, action: string, input: Object, syncTriggered: bool): Option<Value>
      reads this`concepts, this`invokedActions
    {
      if Runs(concept, action, input, syncTriggered) then Some(StoredOutput(Outcome(concept, action, input, syncTriggered)))
      else None
    }

    /** The registered concepts once the invocation has executed. */
    function ConceptsAfter(concept: string, action: string, input: Object, syncTriggered: bool): map<string, Concept>
      reads this`concepts, this`invokedActions
    {
      if Runs(concept, action, input, syncTriggered) then
        var impl := concepts[concept];
        concepts[concept := Concept(impl.execute(impl.state, action, input).state, impl.execute)]
      else concepts
    }

    /** `invoke`. Every call appends and indexes one record; an unknown
        concept fails with "Concept X not found"; a fingerprint already
        executed in this cascade is skipped without a call; otherwise the
        concept runs, its result is stored on the record, and an invoke
        made while no rule scan is running then runs the scan, whose steps
        `snaps` records. The invoke log gains whether the call returned. */
    method Invoke(concept: string, action: string, input: Object, flow: string, syncTriggered: bool)
      returns (r: Result<Value>, ghost snaps: seq<Snapshot>)
      requires Valid()
      modifies this`actions, this`actionIndex, this`nextId, this`invokedActions, this`firedSyncs,
               this`cascadeStart, this`concepts, this`executions, this`returned, this`syncTriggering, this`syncEdges
      ensures Valid() && Extends() && syncTriggering == old(syncTriggering)
      ensures |actions| > |old(actions)|
      ensures Created(actions[|old(actions)|], old(nextId), concept, action, input, flow, syncTriggered)
      ensures cascadeStart == if syncTriggered then old(cascadeStart) else |old(executions)|
      ensures r == old(Outcome(concept, action, input, syncTriggered))
      ensures actions[|old(actions)|].output == old(StoredFor(concept, action, input, syncTriggered))
      ensures old(Runs(concept, action, input, syncTriggered)) ==>
        |executions| > |old(executions)| && executions[|old(executions)|] == Fingerprint(concept, action, input)
      ensures !old(Runs(concept, action, input, syncTriggered)) ==>
        |actions| == |old(actions)| + 1 && concepts == old(concepts) && executions == old(executions)
      ensures returned[|old(returned)|] == r.Ok?
      ensures old(syncTriggering) || !old(Runs(concept, action, input, syncTriggered)) ==>
        |actions| == |old(actions)| + 1 && syncEdges == old(syncEdges) && snaps == []
      ensures !old(syncTriggering) && old(Runs(concept, action, input, syncTriggered)) ==>
        |snaps| == |syncs| + 1 && snaps[|syncs|] == Snap()
        && snaps[0] == Snapshot(|old(actions)| + 1, old(nextId) + 1, |old(returned)| + 1, old(syncEdges),
                                if syncTriggered then old(firedSyncs) else {})
        && ScanSteps(actions, returned, syncs, snaps, |syncs|)
    {
      var ran;
      r, ran := InvokeOnce(concept, action, input, flow, syncTriggered);
      snaps := [];
      if ran && !syncTriggering {
        snaps := TriggerSyncs();
      }
    }

    /** Everything invoke does besides the rule scan; an invoke issued by a
        rule, made while the scan flag is raised, is exactly this. */
    method InvokeOnce(concept: string, action: string, input: Object, flow: string, syncTriggered: bool)
      returns (r: Result<Value>, ran: bool)
      requires Valid()
      modifies this`actions, this`actionIndex, this`nextId, this`invokedActions, this`firedSyncs,
               this`cascadeStart, this`concepts, this`executions, this`returned
      ensures Valid() && Extends()
      ensures |actions| == |old(actions)| + 1 && nextId == old(nextId) + 1
      ensures Created(actions[|old(actions)|], old(nextId), concept, action, input, flow, syncTriggered)
      ensures actions[|old(actions)|] !in syncEdges && syncEdges == old(syncEdges)
      ensures cascadeStart == if syncTriggered then old(cascadeStart) else |old(executions)|
      ensures firedSyncs == if syncTriggered then old(firedSyncs) else {}
      ensures ran == old(Runs(concept, action, input, syncTriggered))
      ensures r == old(Outcome(concept, action, input, syncTriggered))
      ensures actions[|old(actions)|].output == old(StoredFor(concept, action, input, syncTriggered))
      ensures concepts == old(ConceptsAfter(concept, action, input, syncTriggered))
      ensures executions == old(executions) + if ran then [Fingerprint(concept, action, input)] else []
      ensures returned == old(returned) + [r.Ok?]
    {
      StartCascade(syncTriggered);
      var output: Option<Value> := None;
      ran := false;
      if concept !in concepts {
        r := Err(NotFound(concept));
      } else if Fingerprint(concept, action, input) in invokedActions {
        r := Ok(Skipped);
      } else {
        r := Execute(concept, action, input);
        output := Some(StoredOutput(r));
        ran := true;
      }
      var _ := Record(concept, action, input, flow, syncTriggered, output, r.Ok?);
    }

    /** An outermost invoke opens a new cascade: the executed and fired
        sets are emptied and the cascade's part of the execution log starts
        here. */
    method StartCascade(syncTriggered: bool)
      requires Valid()
      modifies this`invokedActions, this`firedSyncs, this`cascadeStart
      ensures Valid()
      ensures invokedActions == (if syncTriggered then old(invokedActions) else {})
      ensures firedSyncs == (if syncTriggered then old(firedSyncs) else {})
      ensures cascadeStart == if syncTriggered then old(cascadeStart) else |executions|
    {
      if !syncTriggered {
        invokedActions := {};
        firedSyncs := {};
        cascadeStart := |executions|;
      }
    }

    /** A new record with the next id and the given output, appended to
        the ledger and to the index list of its concept and action; the
        invoke log gains whether the invocation returned. */
    method Record(concept: string, action: string, input: Object, flow: string, syncTriggered: bool,
                  output: Option<Value>, ok: bool)
      returns (rec: ActionRecord)
      requires Valid()
      modifies this`actions, this`actionIndex, this`nextId, this`returned
      ensures Valid() && fresh(rec)
      ensures Created(rec, old(nextId), concept, action, input, flow, syncTriggered)
      ensures rec.output == output && rec !in syncEdges
      ensures actions == old(actions) + [rec] && nextId == old(nextId) + 1
      ensures returned == old(returned) + [ok]
    {
      rec := new ActionRecord(nextId, concept, action, input, flow, syncTriggered, output);
      var key := IndexKey(concept, action);
      var list := if key in actionIndex then actionIndex[key] else [];
      LedgerSnoc(actions, actionIndex, nextId, rec);
      actionIndex := actionIndex[key := list + [rec]];
      actions := actions + [rec];
      nextId := nextId + 1;
      returned := returned + [ok];
    }

    /** The concept runs: the fingerprint joins the cascade and the concept
        keeps its new state. */
    method Execute(concept: string, action: string, input: Object) returns (r: Result<Value>)
      requires Valid() && concept in concepts && Fingerprint(concept, action, input) !in invokedActions
      modifies this`concepts, this`invokedActions, this`executions
      ensures Valid()
      ensures r == old(concepts[concept].execute(concepts[concept].state, action, input).result)
      ensures concepts == old(concepts[concept := Concept(concepts[concept].execute(concepts[concept].state, action, input).state,
                                                         concepts[concept].execute)])
      ensures invokedActions == old(invokedActions) + {Fingerprint(concept, action, input)}
      ensures executions == old(executions) + [Fingerprint(concept, action, input)]
    {
      var fp := Fingerprint(concept, action, input);
      assert (executions + [fp])[cascadeStart..] == executions[cascadeStart..] + [fp];
      invokedActions := invokedActions + {fp};
      executions := executions + [fp];
      var impl := concepts[concept];
      var e := impl.execute(impl.state, action, input);
      concepts := concepts[concept := Concept(e.state, impl.execute)];
      r := e.result;
    }

    /** `triggerSyncs`: one pass over the rules in registration order, with
        the scan flag raised so that nested invokes do not start another.
        The ghost `snaps` are the states the rules began in: the first is
        the state before the scan, the last the state after it, and each
        rule took one scan step from the state before it to the next. */
    method TriggerSyncs() returns (ghost snaps: seq<Snapshot>)
      requires Valid() && !syncTriggering
      modifies this`actions, this`actionIndex, this`nextId, this`invokedActions, this`firedSyncs,
               this`cascadeStart, this`concepts, this`executions, this`returned, this`syncTriggering, this`syncEdges
      ensures Valid() && Extends() && !syncTriggering
      ensures cascadeStart == old(cascadeStart) && old(firedSyncs) <= firedSyncs
      ensures forall i :: |old(actions)| <= i < |actions| ==> actions[i].syncTriggered
      ensures |snaps| == |syncs| + 1 && snaps[0] == old(Snap()) && snaps[|syncs|] == Snap()
      ensures ScanSteps(actions, returned, syncs, snaps, |syncs|)
    {
      syncTriggering := true;
      snaps := [Snap()];
      for i := 0 to |syncs|
        invariant Valid() && Extends() && syncTriggering
        invariant cascadeStart == old(cascadeStart) && old(firedSyncs) <= firedSyncs
        invariant forall k :: |old(actions)| <= k < |actions| ==> actions[k].syncTriggered
        invariant |snaps| == i + 1 && snaps[0] == old(Snap()) && snaps[i] == Snap()
        invariant ScanSteps(actions, returned, syncs, snaps, i)
      {
        snaps := ScanRule(i, snaps);
      }
      syncTriggering := false;
    }

    /** One rule of the scan: tryFireSync, seen as a scan step. */
    method ScanRule(i: nat, ghost snaps: seq<Snapshot>) returns (ghost snaps': seq<Snapshot>)
      requires Valid() && syncTriggering
      requires i < |syncs| && |snaps| == i + 1 && snaps[i] == Snap() && ScanSteps(actions, returned, syncs, snaps, i)
      modifies this`actions, this`actionIndex, this`nextId, this`invokedActions, this`firedSyncs,
               this`cascadeStart, this`concepts, this`executions, this`returned, this`syncEdges
      ensures Valid() && Extends() && syncTriggering
      ensures cascadeStart == old(cascadeStart) && old(firedSyncs) <= firedSyncs
      ensures forall k :: |old(actions)| <= k < |actions| ==> actions[k].syncTriggered
      ensures snaps' == snaps + [Snap()] && ScanSteps(actions, returned, syncs, snaps', i + 1)
    {
      var sync := syncs[i];
      ghost var before := actions;
      ghost var log := returned;
      var _ := TryFireSync(sync);
      ScanStepsGrow(before, actions, log, returned, syncs, snaps, i);
      ScanStepsPrefix(actions, returned, syncs, snaps, [Snap()], i);
      snaps' := snaps + [Snap()];
    }

    /** `tryFireSync`. A rule that already fired in this cascade, or whose
        when-patterns do not all match, does nothing. Otherwise the
        combinations are run, and every matched record is marked with the
        rule; no other record is touched. The rule fires, and joins the
        fired set, exactly when one of its invocations returned. */
    method TryFireSync(sync: SyncRule) returns (fired: bool)
      requires Valid() && syncTriggering
      modifies this`actions, this`actionIndex, this`nextId, this`invokedActions, this`firedSyncs,
               this`cascadeStart, this`concepts, this`executions, this`returned, this`syncEdges
      ensures Valid() && Extends() && syncTriggering
      ensures cascadeStart == old(cascadeStart)
      ensures firedSyncs == if fired then old(firedSyncs) + {sync.name} else old(firedSyncs)
      ensures Performed(actions[|old(actions)|..], old(FirePlan(sync)))
      ensures forall k :: |old(actions)| <= k < |actions| ==> actions[k].syncTriggered
      ensures fired <==> true in returned[|old(returned)|..]
      ensures old(Blocked(sync)) ==> !fired && actions == old(actions)
      ensures forall r :: r !in old(Matched(sync)) ==> EdgesOf(syncEdges, r) == EdgesOf(old(syncEdges), r)
      ensures old(Fires(sync)) ==>
        var flat := old(Matched(sync));
        forall i :: 0 <= i < |flat| ==> StampOk(EdgesOf(old(syncEdges), flat[i]), EdgesOf(syncEdges, flat[i]), sync.name, old(nextId))
      ensures !old(Fires(sync)) ==> actions == old(actions) && syncEdges == old(syncEdges)
      ensures ScanStep(actions, returned, sync, old(Snap()), Snap())
    {
      if sync.name in firedSyncs {
        fired := false;
      } else {
        var mss: seq<seq<ActionRecord>> := MatchAll(sync.when, sync.name);
        if exists k :: 0 <= k < |mss| && mss[k] == [] {
          fired := false;
        } else {
          fired := FireRule(sync);
        }
      }
      assert actions[..|old(actions)|] == old(actions);
      MakeStep(actions, returned, sync, old(Snap()), Snap(), old(FirePlan(sync)), old(Fires(sync)), old(Matched(sync)));
    }

    /** tryFireSync past its two guards: the rule has not fired in this
        cascade and every when-pattern matches. */
    method FireRule(sync: SyncRule) returns (fired: bool)
      requires Valid() && syncTriggering && !Blocked(sync)
      modifies this`actions, this`actionIndex, this`nextId, this`invokedActions, this`firedSyncs,
               this`cascadeStart, this`concepts, this`executions, this`returned, this`syncEdges
      ensures Valid() && Extends() && syncTriggering
      ensures cascadeStart == old(cascadeStart)
      ensures firedSyncs == if fired then old(firedSyncs) + {sync.name} else old(firedSyncs)
      ensures fired <==> true in returned[|old(returned)|..]
      ensures forall r :: r !in old(Matched(sync)) ==> EdgesOf(syncEdges, r) == EdgesOf(old(syncEdges), r)
      ensures Performed(actions[|old(actions)|..], old(FirePlan(sync)))
      ensures forall k :: |old(actions)| <= k < |actions| ==> actions[k].syncTriggered
      ensures old(Fires(sync)) ==>
        var flat := old(Matched(sync));
        forall i :: 0 <= i < |flat| ==> StampOk(EdgesOf(old(syncEdges), flat[i]), EdgesOf(syncEdges, flat[i]), sync.name, old(nextId))
      ensures !old(Fires(sync)) ==> actions == old(actions) && syncEdges == old(syncEdges)
    {
      var mss: seq<seq<ActionRecord>> := MatchAll(sync.when, sync.name);
      MatchAllIndexed(sync.when, sync.name);
      IndexedInLedger();
      var combos := Combos(sync, mss);
      var flat := Flatten(mss);
      assert flat == Matched(sync);
      var flow: string := if |mss| > 0 then mss[0][0].flow else "";
      var thens := if |mss| > 0 then sync.thens else [];
      ghost var plan := Plan(combos, thens, flow);
      if |mss| == 0 {
        PlanNoThens(combos, flow);
      }
      assert plan == FirePlan(sync);
      assert Fires(sync) <==> combos != [];
      ghost var ledger := actions;
      fired := FireCombos(sync.name, combos, thens, flow, flat);
      PerformedTriggered(actions, |ledger|, plan);
    }

    /** The loop of tryFireSync over the combinations: each runs the then
        list, the rule joins the fired set once an invocation succeeded,
        and the matched records `flat` are marked. */
    method FireCombos(name: string, combos: seq<Object>, thens: seq<Invocation>, flow: string, flat: seq<ActionRecord>)
      returns (fired: bool)
      requires Valid() && syncTriggering
      modifies this`actions, this`actionIndex, this`nextId, this`invokedActions, this`firedSyncs,
               this`cascadeStart, this`concepts, this`executions, this`returned, this`syncEdges
      ensures Valid() && Extends() && syncTriggering
      ensures cascadeStart == old(cascadeStart)
      ensures firedSyncs == if fired then old(firedSyncs) + {name} else old(firedSyncs)
      ensures fired <==> true in returned[|old(returned)|..]
      ensures forall r :: r !in flat ==> EdgesOf(syncEdges, r) == EdgesOf(old(syncEdges), r)
      ensures Performed(actions[|old(actions)|..], Plan(combos, thens, flow))
      ensures combos != [] ==>
        forall i :: 0 <= i < |flat| ==> StampOk(EdgesOf(old(syncEdges), flat[i]), EdgesOf(syncEdges, flat[i]), name, old(nextId))
      ensures combos == [] ==> actions == old(actions) && !fired && syncEdges == old(syncEdges)
    {
      fired := false;
      for c := 0 to |combos|
        invariant Valid() && Extends() && syncTriggering
        invariant cascadeStart == old(cascadeStart)
        invariant firedSyncs == if fired then old(firedSyncs) + {name} else old(firedSyncs)
        invariant fired <==> true in returned[|old(returned)|..]
        invariant forall r :: r !in flat ==> EdgesOf(syncEdges, r) == EdgesOf(old(syncEdges), r)
        invariant Performed(actions[|old(actions)|..], Plan(combos[..c], thens, flow))
        invariant c > 0 ==>
          forall i :: 0 <= i < |flat| ==> StampOk(EdgesOf(old(syncEdges), flat[i]), EdgesOf(syncEdges, flat[i]), name, old(nextId))
        invariant c == 0 ==> actions == old(actions) && nextId == old(nextId) && !fired && syncEdges == old(syncEdges)
      {
        ghost var before := actions;
        ghost var log := returned;
        ghost var mid := syncEdges;
        ghost var lo := nextId;
        fired := FireCombo(name, combos[c], thens, flow, flat, fired);
        ComboRan(old(actions), before, actions, old(returned), log, returned, combos, c, thens, flow);
        ComboMarked(old(syncEdges), mid, syncEdges, old(nextId), lo, flat, name, c > 0);
      }
      assert combos[..|combos|] == combos;
    }

    /** One pass of the loop of tryFireSync: the combination's then list
        runs, the rule joins the fired set once any invocation of the rule
        succeeded, and the matched records are marked. */
    method FireCombo(name: string, combo: Object, thens: seq<Invocation>, flow: string, flat: seq<ActionRecord>,
                     firedBefore: bool)
      returns (fired: bool)
      requires Valid() && syncTriggering
      modifies this`actions, this`actionIndex, this`nextId, this`invokedActions, this`firedSyncs,
               this`cascadeStart, this`concepts, this`executions, this`returned, this`syncEdges
      ensures Valid() && Extends() && syncTriggering
      ensures cascadeStart == old(cascadeStart)
      ensures fired <==> firedBefore || true in returned[|old(returned)|..]
      ensures forall r :: r !in flat ==> EdgesOf(syncEdges, r) == EdgesOf(old(syncEdges), r)
      ensures firedSyncs == if fired then old(firedSyncs) + {name} else old(firedSyncs)
      ensures Performed(actions[|old(actions)|..], Row(combo, thens, flow))
      ensures forall i :: 0 <= i < |flat| ==> StampOk(EdgesOf(old(syncEdges), flat[i]), EdgesOf(syncEdges, flat[i]), name, old(nextId))
    {
      var ok := RunRow(combo, thens, flow);
      ghost var ran := actions[|old(actions)|..];
      ghost var lo := nextId;
      assert old(actions) <= actions && old(nextId) <= lo && old(executions) <= executions;
      assert Performed(ran, Row(combo, thens, flow));
      fired := firedBefore || ok;
      MarkCombo(name, flat, fired);
      assert actions[|old(actions)|..] == ran && lo <= nextId;
    }

    /** The end of one pass: the rule joins the fired set when `fired`,
        and every matched record receives the rule's mark. */
    method MarkCombo(name: string, flat: seq<ActionRecord>, fired: bool)
      requires Valid()
      modifies this`firedSyncs, this`nextId, this`syncEdges
      ensures Valid() && old(nextId) <= nextId
      ensures firedSyncs == if fired then old(firedSyncs) + {name} else old(firedSyncs)
      ensures forall i :: 0 <= i < |flat| ==> StampOk(EdgesOf(old(syncEdges), flat[i]), EdgesOf(syncEdges, flat[i]), name, old(nextId))
      ensures forall r :: r !in flat ==> EdgesOf(syncEdges, r) == EdgesOf(old(syncEdges), r)
    {
      firedSyncs := if fired then firedSyncs + {name} else firedSyncs;
      StampAll(flat, name);
    }

    /** One combination: the then list in order, each entry substituted
        and invoked as sync-triggered; a failing invocation is swallowed. */
    method RunRow(combo: Object, thens: seq<Invocation>, flow: string) returns (ok: bool)
      requires Valid() && syncTriggering
      modifies this`actions, this`actionIndex, this`nextId, this`invokedActions, this`firedSyncs,
               this`cascadeStart, this`concepts, this`executions, this`returned
      ensures Valid() && Extends() && syncTriggering
      ensures cascadeStart == old(cascadeStart) && firedSyncs == old(firedSyncs)
      ensures Performed(actions[|old(actions)|..], Row(combo, thens, flow))
      ensures ok <==> true in returned[|old(returned)|..]
    {
      ok := false;
      for t := 0 to |thens|
        invariant Valid() && Extends() && syncTriggering
        invariant cascadeStart == old(cascadeStart) && firedSyncs == old(firedSyncs)
        invariant Performed(actions[|old(actions)|..], Row(combo, thens[..t], flow))
        invariant ok <==> true in returned[|old(returned)|..]
      {
        ghost var before := actions;
        ghost var log := returned;
        var hit := RunThen(thens[t], combo, flow);
        ok := ok || hit;
        RunStep(old(actions), before, actions, combo, thens, t, flow);
        OutcomeSnoc(old(returned), log, hit);
      }
      assert thens[..|thens|] == thens;
    }

    /** One then-entry of a combination: its input substituted, invoked
        as sync-triggered in the rule's flow; `ok` tells whether the invoke
        returned rather than threw. */
    method RunThen(step: Invocation, combo: Object, flow: string) returns (ok: bool)
      requires Valid() && syncTriggering
      modifies this`actions, this`actionIndex, this`nextId, this`invokedActions, this`firedSyncs,
               this`cascadeStart, this`concepts, this`executions, this`returned
      ensures Valid() && Extends() && syncTriggering
      ensures cascadeStart == old(cascadeStart) && firedSyncs == old(firedSyncs)
      ensures |actions| == |old(actions)| + 1
      ensures Did(actions[|old(actions)|], Call(step.concept, step.action, ReplaceFields(step.input, combo), flow))
      ensures ok <==> old(Outcome(step.concept, step.action, ReplaceFields(step.input, combo), true)).Ok?
      ensures returned == old(returned) + [ok]
    {
      var r, _ := InvokeOnce(step.concept, step.action, ReplaceFields(step.input, combo), flow, true);
      ok := r.Ok?;
    }

    /** The marking loops of tryFireSync: every matched record without an
        entry for the rule gets one holding a fresh id. */
    method StampAll(rs: seq<ActionRecord>, name: string)
      requires Valid()
      modifies this`nextId, this`syncEdges
      ensures Valid() && old(nextId) <= nextId
      ensures forall i :: 0 <= i < |rs| ==> StampOk(EdgesOf(old(syncEdges), rs[i]), EdgesOf(syncEdges, rs[i]), name, old(nextId))
      ensures forall r :: r !in rs ==> EdgesOf(syncEdges, r) == EdgesOf(old(syncEdges), r)
    {
      var marks: Marks := syncEdges;
      var id := nextId;
      for i := 0 to |rs|
        invariant nextId <= id
        invariant forall r :: r !in rs ==> EdgesOf(marks, r) == EdgesOf(syncEdges, r)
        invariant forall k :: 0 <= k < |rs| ==>
          EdgesOf(marks, rs[k]) == EdgesOf(syncEdges, rs[k]) || StampOk(EdgesOf(syncEdges, rs[k]), EdgesOf(marks, rs[k]), name, nextId)
        invariant forall k :: 0 <= k < i ==> StampOk(EdgesOf(syncEdges, rs[k]), EdgesOf(marks, rs[k]), name, nextId)
      {
        ghost var prev := marks;
        ghost var n := id;
        var edges := EdgesOf(marks, rs[i]);
        if name !in edges {
          marks := marks[rs[i] := edges[name := [id]]];
          id := id + 1;
        }
        forall k | 0 <= k < |rs| && rs[k] == rs[i]
          ensures StampOk(EdgesOf(syncEdges, rs[k]), EdgesOf(marks, rs[k]), name, nextId)
        {
          StampStep(EdgesOf(syncEdges, rs[k]), EdgesOf(prev, rs[k]), name, nextId, n);
        }
      }
      syncEdges := marks;
      nextId := id;
    }
  }
}
