/** The sync-rule DSL parser (packages/core/src/parser.ts), modelled as
    written: a cursor `pos` over the input string that every reader
    advances. Each reader is first given as a function from the input and a
    position to the value read and the position after it; the class
    `SyncParser` then runs the same readers with while loops over its own
    `pos` and is proved to agree with those functions. Every `throw new
    Error(m)` of the source is an `Err(m)`. */
module Parser {
  import opened Wrappers
  import opened Json
  import opened Matching
  import opened Chars
  import Engine

  /** What a reader produced and where the cursor stands after it. */
  datatype Step<T> = Step(val: T, pos: nat)

  /** The object the parser builds for one `sync` block. `where` is the
      optional query: concept names mapped to their binding objects. */
  datatype ParsedRule = ParsedRule(name: string, when: seq<Pattern>, where: Option<Object>,
                                   thens: seq<Engine.Invocation>)

  // ---------------------------------------------------------------------
  // Characters

  predicate WordString(w: string) {
    forall c :: c in w ==> IsWord(c)
  }

  predicate StartsWith(t: string, p: string) {
    |p| <= |t| && t[..|p|] == p
  }

  function Min(a: nat, b: nat): nat {
    if a <= b then a else b
  }

  // ---------------------------------------------------------------------
  // The character-level readers as functions

  /** skipWhitespace: the end of the whitespace run starting at `i`. */
  function SkipWs(s: string, i: nat): (j: nat)
    requires i <= |s|
    ensures i <= j <= |s|
    ensures j == |s| || !IsSpace(s[j])
    decreases |s| - i
  {
    if i < |s| && IsSpace(s[i]) then SkipWs(s, i + 1) else i
  }

  /** The end of the `\w` run starting at `i`. */
  function WordEnd(s: string, i: nat): (j: nat)
    requires i <= |s|
    ensures i <= j <= |s|
    ensures j == |s| || !IsWord(s[j])
    decreases |s| - i
  {
    if i < |s| && IsWord(s[i]) then WordEnd(s, i + 1) else i
  }

  /** Everything SkipWs steps over is whitespace. */
  lemma {:induction false} SkipWsRun(s: string, i: nat)
    requires i <= |s|
    ensures forall k :: i <= k < SkipWs(s, i) ==> IsSpace(s[k])
    decreases |s| - i
  {
    if i < |s| && IsSpace(s[i]) {
      SkipWsRun(s, i + 1);
    }
  }

  /** Everything WordEnd steps over is a word character. */
  lemma {:induction false} WordEndRun(s: string, i: nat)
    requires i <= |s|
    ensures forall k :: i <= k < WordEnd(s, i) ==> IsWord(s[k])
    decreases |s| - i
  {
    if i < |s| && IsWord(s[i]) {
      WordEndRun(s, i + 1);
    }
  }

  /** peek: the rest of the input once whitespace is skipped. */
  function Rest(s: string, i: nat): string
    requires i <= |s|
  {
    s[SkipWs(s, i)..]
  }

  /** readWord: whitespace skipped, then the maximal word run, which may be
      empty. */
  function WordAt(s: string, i: nat): (r: Step<string>)
    requires i <= |s|
    ensures SkipWs(s, i) <= r.pos <= |s| && r.val == s[SkipWs(s, i)..r.pos]
    ensures forall c :: c in r.val ==> IsWord(c)
    ensures r.pos == |s| || !IsWord(s[r.pos])
  {
    var k := SkipWs(s, i);
    var e := WordEnd(s, k);
    WordEndRun(s, k);
    Step(s[k..e], e)
  }

  /** The error `expect` throws: the expected text and at most ten
      characters of what stands at the cursor. */
  function ExpectMessage(lit: string, got: string): string {
    "Expected '" + lit + "', got '" + got + "...'"
  }

  /** What `expect` quotes in its error: at most ten characters from the
      cursor on, once whitespace is skipped. */
  function Context(s: string, i: nat): (c: string)
    requires i <= |s|
    ensures |c| <= 10 && c <= Rest(s, i)
    ensures |c| == 10 || c == Rest(s, i)
  {
    Rest(s, i)[..Min(10, |Rest(s, i)|)]
  }

  /** expect: after whitespace, `lit` must stand at the cursor; the cursor
      then moves past it. */
  function ExpectAt(s: string, i: nat, lit: string): (r: Result<nat>)
    requires i <= |s|
    ensures r.Ok? <==> StartsWith(Rest(s, i), lit)
    ensures r.Ok? ==> r.value == SkipWs(s, i) + |lit| <= |s|
    ensures r.Err? ==> r.error == ExpectMessage(lit, Context(s, i))
  {
    var k := SkipWs(s, i);
    if k + |lit| <= |s| && s[k..k + |lit|] == lit then Ok(k + |lit|)
    else Err(ExpectMessage(lit, Context(s, i)))
  }

  /** skipUntil: past the first `c` at or after `i`, or to the end. */
  function UntilAt(s: string, i: nat, c: char): (j: nat)
    requires i <= |s|
    ensures i <= j <= |s|
    ensures forall k :: i <= k < j - 1 ==> s[k] != c
    ensures j < |s| ==> j > i && s[j - 1] == c
    decreases |s| - i
  {
    if i == |s| then i else if s[i] == c then i + 1 else UntilAt(s, i + 1, c)
  }

  /** The first `"` at or after `i`, if any. */
  function QuoteAt(s: string, i: nat): (q: Option<nat>)
    requires i <= |s|
    ensures q.Some? ==> i <= q.value < |s| && s[q.value] == '"' && '"' !in s[i..q.value]
    ensures q.None? ==> '"' !in s[i..]
    decreases |s| - i
  {
    if i == |s| then None
    else if s[i] == '"' then Some(i)
    else
      var q := QuoteAt(s, i + 1);
      assert q.Some? ==> s[i..q.value] == [s[i]] + s[i + 1..q.value];
      assert q.None? ==> s[i..] == [s[i]] + s[i + 1..];
      q
  }

  /** A quoted value that opens at `k`, read from `i`. */
  function QuotedAt(s: string, i: nat, k: nat): (r: Result<Step<string>>)
    requires i <= k < |s|
    ensures r.Ok? ==> k < r.value.pos <= |s|
  {
    match QuoteAt(s, k + 1)
    case None => Err("Unterminated string")
    case Some(q) => Ok(Step(s[i..q + 1], q + 1))
  }

  /** `/^\w+\(\)/` applied to the input from `k`. */
  predicate CallAhead(s: string, k: nat)
    requires k <= |s|
  {
    WordEnd(s, k) > k && StartsWith(s[WordEnd(s, k)..], "()")
  }

  /** readValue. A quoted value runs to the next `"` and keeps both quotes
      (and any whitespace between the start and the opening quote); the
      source loops forever when no closing quote follows, which is an error
      here. `?x` and `f()` values go through readWord, which leaves `?` and
      `()` where they are. */
  function ValueAt(s: string, i: nat): (r: Result<Step<string>>)
    requires i <= |s|
    ensures r.Ok? ==> i <= r.value.pos <= |s|
  {
    var k := SkipWs(s, i);
    if StartsWith(s[k..], "\"") then QuotedAt(s, i, k)
    else if StartsWith(s[k..], "?") then Ok(WordAt(s, k))
    else if CallAhead(s, k) then
      var w := WordAt(s, k);
      Ok(Step(w.val + "()", w.pos))
    else Ok(WordAt(s, k))
  }

  // ---------------------------------------------------------------------
  // The block readers as functions

  /** One entry of parseObject: a key word, `:`, whitespace, a value. */
  function EntryAt(s: string, i: nat): (r: Result<Step<Field>>)
    requires i <= |s|
    ensures r.Ok? ==> i < r.value.pos <= |s| && WordString(r.value.val.key) && r.value.val.val.Str?
  {
    var key := WordAt(s, i);
    match ExpectAt(s, key.pos, ":")
    case Err(e) => Err(e)
    case Ok(p) =>
      match ValueAt(s, SkipWs(s, p))
      case Err(e) => Err(e)
      case Ok(v) => Ok(Step(Field(key.val, Str(v.val)), v.pos))
  }

  /** The loop of parseObject from `i`, with the entries read so far. A
      later entry with a key already present overwrites it in place. */
  function ObjectLoop(s: string, i: nat, obj: Object): (r: Result<Step<Object>>)
    requires i <= |s|
    ensures r.Ok? ==> i <= r.value.pos <= |s|
    decreases |s| - i
  {
    var k := SkipWs(s, i);
    if StartsWith(s[k..], "}") then Ok(Step(obj, k))
    else
      match EntryAt(s, k)
      case Err(e) => Err(e)
      case Ok(f) =>
        var obj' := Put(obj, f.val.key, f.val.val);
        var k' := SkipWs(s, f.pos);
        if s[k'..] == "," then ObjectLoop(s, SkipWs(s, k' + 1), obj')
        else if s[k'..] == "}" then Ok(Step(obj', k'))
        else ObjectLoop(s, k', obj')
  }

  /** One round of the loop of parseObject, after an entry was read. */
  lemma ObjectLoopStep(s: string, k: nat, obj: Object, f: Step<Field>)
    requires k <= |s| && k == SkipWs(s, k) && !StartsWith(s[k..], "}") && EntryAt(s, k) == Ok(f)
    ensures var obj', k' := Put(obj, f.val.key, f.val.val), SkipWs(s, f.pos);
            ObjectLoop(s, k, obj)
            == if s[k'..] == "," then ObjectLoop(s, SkipWs(s, k' + 1), obj')
               else if s[k'..] == "}" then Ok(Step(obj', k'))
               else ObjectLoop(s, k', obj')
  {
    var k' := SkipWs(s, f.pos);
    assert SkipWs(s, k) == k;
    match EntryAt(s, k)
    case Ok(g) =>
      assert g == f;
  }

  /** parseObject: entries `key: value` up to (not including) a `}`. */
  function ObjectAt(s: string, i: nat): (r: Result<Step<Object>>)
    requires i <= |s|
    ensures r.Ok? ==> i <= r.value.pos <= |s|
  {
    ObjectLoop(s, i, [])
  }

  /** parsePattern: `C/a: {in} => {out}`. */
  function PatternAt(s: string, i: nat): (r: Result<Step<Pattern>>)
    requires i <= |s|
    ensures r.Ok? ==> i < r.value.pos <= |s|
  {
    var c := WordAt(s, i);
    match ExpectAt(s, c.pos, "/")
    case Err(e) => Err(e)
    case Ok(p1) =>
      var a := WordAt(s, p1);
      match ExpectAt(s, a.pos, ": {")
      case Err(e) => Err(e)
      case Ok(p2) =>
        match ObjectAt(s, p2)
        case Err(e) => Err(e)
        case Ok(inp) =>
          match ExpectAt(s, inp.pos, "} => {")
          case Err(e) => Err(e)
          case Ok(p3) =>
            match ObjectAt(s, p3)
            case Err(e) => Err(e)
            case Ok(out) =>
              match ExpectAt(s, out.pos, "}")
              case Err(e) => Err(e)
              case Ok(p4) => Ok(Step(Pattern(c.val, a.val, inp.val, out.val), p4))
  }

  /** parseInvocation: `C/a: {in}`. */
  function InvocationAt(s: string, i: nat): (r: Result<Step<Engine.Invocation>>)
    requires i <= |s|
    ensures r.Ok? ==> i < r.value.pos <= |s|
  {
    var c := WordAt(s, i);
    match ExpectAt(s, c.pos, "/")
    case Err(e) => Err(e)
    case Ok(p1) =>
      var a := WordAt(s, p1);
      match ExpectAt(s, a.pos, ": {")
      case Err(e) => Err(e)
      case Ok(p2) =>
        match ObjectAt(s, p2)
        case Err(e) => Err(e)
        case Ok(inp) =>
          match ExpectAt(s, inp.pos, "}")
          case Err(e) => Err(e)
          case Ok(p3) => Ok(Step(Engine.Invocation(c.val, a.val, inp.val), p3))
  }

  /** The loop of parseWhen: patterns until a leading `}`. */
  function WhenLoop(s: string, i: nat, pats: seq<Pattern>): (r: Result<Step<seq<Pattern>>>)
    requires i <= |s|
    ensures r.Ok? ==> i < r.value.pos <= |s|
    decreases |s| - i
  {
    if StartsWith(Rest(s, i), "}") then
      match ExpectAt(s, i, "}")
      case Err(e) => Err(e)
      case Ok(p) => Ok(Step(pats, p))
    else
      match PatternAt(s, i)
      case Err(e) => Err(e)
      case Ok(pat) => WhenLoop(s, SkipWs(s, pat.pos), pats + [pat.val])
  }

  /** parseWhen: `when {` patterns `}`. */
  function WhenAt(s: string, i: nat): (r: Result<Step<seq<Pattern>>>)
    requires i <= |s|
    ensures r.Ok? ==> i < r.value.pos <= |s|
  {
    match ExpectAt(s, i, "when {")
    case Err(e) => Err(e)
    case Ok(p) => WhenLoop(s, SkipWs(s, p), [])
  }

  /** The loop of parseThen: invocations until a leading `}`. */
  function ThenLoop(s: string, i: nat, invs: seq<Engine.Invocation>): (r: Result<Step<seq<Engine.Invocation>>>)
    requires i <= |s|
    ensures r.Ok? ==> i < r.value.pos <= |s|
    decreases |s| - i
  {
    if StartsWith(Rest(s, i), "}") then
      match ExpectAt(s, i, "}")
      case Err(e) => Err(e)
      case Ok(p) => Ok(Step(invs, p))
    else
      match InvocationAt(s, i)
      case Err(e) => Err(e)
      case Ok(inv) => ThenLoop(s, SkipWs(s, inv.pos), invs + [inv.val])
  }

  /** parseThen: `then {` invocations `}`. */
  function ThenAt(s: string, i: nat): (r: Result<Step<seq<Engine.Invocation>>>)
    requires i <= |s|
    ensures r.Ok? ==> i < r.value.pos <= |s|
  {
    match ExpectAt(s, i, "then {")
    case Err(e) => Err(e)
    case Ok(p) => ThenLoop(s, SkipWs(s, p), [])
  }

  /** A concept query `Name: {...}` of parseWhere, spread into `query`
      under Name. */
  function QueryAt(s: string, i: nat, query: Object): (r: Result<Step<Object>>)
    requires i <= |s|
    ensures r.Ok? ==> i < r.value.pos <= |s|
  {
    var c := WordAt(s, i);
    match ExpectAt(s, c.pos, ": {")
    case Err(e) => Err(e)
    case Ok(p1) =>
      match ObjectAt(s, p1)
      case Err(e) => Err(e)
      case Ok(b) =>
        match ExpectAt(s, b.pos, "}")
        case Err(e) => Err(e)
        case Ok(p2) => Ok(Step(Put(query, c.val, Obj(b.val)), p2))
  }

  /** The loop of parseWhere: `bind(`/`filter(` items are skipped up to
      the first `)`; any other item `Name: {...}` is spread into the query
      under Name. */
  function WhereLoop(s: string, i: nat, query: Object): (r: Result<Step<Object>>)
    requires i <= |s|
    ensures r.Ok? ==> i < r.value.pos <= |s|
    decreases |s| - i
  {
    var k := SkipWs(s, i);
    if StartsWith(s[k..], "}") then
      match ExpectAt(s, k, "}")
      case Err(e) => Err(e)
      case Ok(p) => Ok(Step(query, p))
    else if StartsWith(s[k..], "bind(") || StartsWith(s[k..], "filter(") then
      WhereLoop(s, SkipWs(s, UntilAt(s, k, ')')), query)
    else
      match QueryAt(s, k, query)
      case Err(e) => Err(e)
      case Ok(q) => WhereLoop(s, SkipWs(s, q.pos), q.val)
  }

  /** parseWhere: `where {` items `}`. */
  function WhereAt(s: string, i: nat): (r: Result<Step<Object>>)
    requires i <= |s|
    ensures r.Ok? ==> i < r.value.pos <= |s|
  {
    match ExpectAt(s, i, "where {")
    case Err(e) => Err(e)
    case Ok(p) => WhereLoop(s, SkipWs(s, p), [])
  }

  /** The loop of parseSync: blocks in any order until the input ends or
      the next `sync ` starts; a repeated block replaces the earlier one. */
  function SyncLoop(s: string, i: nat, rule: ParsedRule): (r: Result<Step<ParsedRule>>)
    requires i <= |s|
    ensures r.Ok? ==> i <= r.value.pos <= |s|
    decreases |s| - i
  {
    var rest := Rest(s, i);
    if rest == "" || StartsWith(rest, "sync ") then Ok(Step(rule, SkipWs(s, i)))
    else if StartsWith(rest, "when ") then
      match WhenAt(s, i)
      case Err(e) => Err(e)
      case Ok(w) => SyncLoop(s, SkipWs(s, w.pos), rule.(when := w.val))
    else if StartsWith(rest, "where ") then
      match WhereAt(s, i)
      case Err(e) => Err(e)
      case Ok(w) => SyncLoop(s, SkipWs(s, w.pos), rule.(where := Some(w.val)))
    else if StartsWith(rest, "then ") then
      match ThenAt(s, i)
      case Err(e) => Err(e)
      case Ok(t) => SyncLoop(s, SkipWs(s, t.pos), rule.(thens := t.val))
    else Err("Unexpected block: " + rest)
  }

  /** parseSync: `sync Name` and its blocks. */
  function SyncAt(s: string, i: nat): (r: Result<Step<ParsedRule>>)
    requires i <= |s|
    ensures r.Ok? ==> i < r.value.pos <= |s|
  {
    match ExpectAt(s, i, "sync ")
    case Err(e) => Err(e)
    case Ok(p) =>
      var name := WordAt(s, p);
      SyncLoop(s, SkipWs(s, name.pos), ParsedRule(name.val, [], None, []))
  }

  /** The loop of parse: one rule per `sync ` block, in source order. */
  function RulesLoop(s: string, i: nat, rules: seq<ParsedRule>): (r: Result<seq<ParsedRule>>)
    requires i <= |s|
    decreases |s| - i
  {
    var rest := Rest(s, i);
    if rest == "" then Ok(rules)
    else if StartsWith(rest, "sync ") then
      match SyncAt(s, i)
      case Err(e) => Err(e)
      case Ok(r) => RulesLoop(s, SkipWs(s, r.pos), rules + [r.val])
    else Err("Unexpected token: " + rest)
  }

  /** parseSyncDSL. */
  function ParseText(s: string): Result<seq<ParsedRule>> {
    RulesLoop(s, SkipWs(s, 0), [])
  }

  // ---------------------------------------------------------------------
  // What the readers do

  /** A quoted value is read with both of its quotes, up to the first
      closing quote; without one the read fails. */
  lemma ValueQuoted(s: string, i: nat)
    requires i <= |s|
    requires i == SkipWs(s, i) && StartsWith(s[i..], "\"")
    ensures ValueAt(s, i).Ok? <==> '"' in s[i + 1..]
    ensures ValueAt(s, i).Err? ==> ValueAt(s, i).error == "Unterminated string"
    ensures ValueAt(s, i).Ok? ==>
      var v := ValueAt(s, i).value.val;
      v == s[i..ValueAt(s, i).value.pos] && 2 <= |v| && v[0] == '"' && v[|v| - 1] == '"'
      && '"' !in v[1..|v| - 1]
  {
    var q := QuoteAt(s, i + 1);
    if q.Some? {
      var v := s[i..q.value + 1];
      var inner, between := v[1..|v| - 1], s[i + 1..q.value];
      assert |inner| == |between|;
      forall k | 0 <= k < |inner|
        ensures inner[k] == between[k]
      {
        assert inner[k] == v[k + 1] == s[i + 1 + k];
      }
      assert inner == between;
    }
  }

  /** A `?x` value is read as the empty word: the cursor stays on `?`. */
  lemma ValueVariable(s: string, i: nat)
    requires i <= |s|
    requires StartsWith(Rest(s, i), "?")
    ensures ValueAt(s, i) == Ok(Step("", SkipWs(s, i)))
  {
    var k := SkipWs(s, i);
    assert s[k] == '?' && !IsWord(s[k]);
  }

  /** An `f()` value is read as `f` followed by `()`, but the cursor stops
      before the parentheses. */
  lemma ValueCall(s: string, i: nat)
    requires i <= |s|
    requires WordEnd(s, SkipWs(s, i)) > SkipWs(s, i)
    requires StartsWith(s[WordEnd(s, SkipWs(s, i))..], "()")
    ensures var k, e := SkipWs(s, i), WordEnd(s, SkipWs(s, i));
            ValueAt(s, i) == Ok(Step(s[k..e] + "()", e)) && StartsWith(s[e..], "()")
  {
    var k := SkipWs(s, i);
    assert IsWord(s[k]) && s[k] != '"' && s[k] != '?';
  }

  /** `{}`: an object that starts with `}` is empty, and the cursor stops on
      the `}`. */
  lemma ObjectEmpty(s: string, i: nat)
    requires i <= |s|
    requires StartsWith(Rest(s, i), "}")
    ensures ObjectAt(s, i) == Ok(Step([], SkipWs(s, i)))
  {
  }

  /** parseObject stops only on a `}`, which it leaves for the caller. */
  lemma {:induction false} ObjectEndsAtBrace(s: string, i: nat, obj: Object)
    requires i <= |s|
    ensures ObjectLoop(s, i, obj).Ok? ==> StartsWith(s[ObjectLoop(s, i, obj).value.pos..], "}")
    decreases |s| - i
  {
    var k := SkipWs(s, i);
    if !StartsWith(s[k..], "}") && EntryAt(s, k).Ok? {
      var f := EntryAt(s, k).value;
      var obj' := Put(obj, f.val.key, f.val.val);
      var k' := SkipWs(s, f.pos);
      if s[k'..] == "," {
        ObjectEndsAtBrace(s, SkipWs(s, k' + 1), obj');
      } else if s[k'..] != "}" {
        ObjectEndsAtBrace(s, k', obj');
      }
    }
  }

  /** Keys are words and never repeat; every value is a string. */
  predicate ParsedObject(o: Object) {
    UniqueKeys(o) && forall f :: f in o ==> WordString(f.key) && f.val.Str?
  }

  lemma {:induction false} PutFields(o: Object, k: string, v: Value)
    ensures forall f :: f in Put(o, k, v) ==> f in o || f == Field(k, v)
  {
    if o != [] && o[0].key != k {
      PutFields(o[1..], k, v);
    }
  }

  lemma {:induction false} ObjectShape(s: string, i: nat, obj: Object)
    requires i <= |s| && ParsedObject(obj)
    ensures ObjectLoop(s, i, obj).Ok? ==> ParsedObject(ObjectLoop(s, i, obj).value.val)
    decreases |s| - i
  {
    var k := SkipWs(s, i);
    if !StartsWith(s[k..], "}") && EntryAt(s, k).Ok? {
      var f := EntryAt(s, k).value;
      var obj' := Put(obj, f.val.key, f.val.val);
      PutUnique(obj, f.val.key, f.val.val);
      PutFields(obj, f.val.key, f.val.val);
      var k' := SkipWs(s, f.pos);
      if s[k'..] == "," {
        ObjectShape(s, SkipWs(s, k' + 1), obj');
      } else if s[k'..] != "}" {
        ObjectShape(s, k', obj');
      }
    }
  }

  /** An entry that does not start with a word and `:` fails on the `:`. */
  lemma EntryNoColon(s: string, i: nat)
    requires i <= |s| && SkipWs(s, i) < |s|
    requires !IsWord(s[SkipWs(s, i)]) && s[SkipWs(s, i)] != ':'
    ensures EntryAt(s, i) == Err(ExpectMessage(":", Context(s, i)))
  {
    var k := SkipWs(s, i);
    assert WordAt(s, i) == Step("", k);
    assert SkipWs(s, k) == k;
  }

  /** The separator test compares the whole remaining input with `,`: a
      comma followed by more text is not consumed, and the next entry then
      fails on its missing `:`. */
  lemma ObjectCommaFails(s: string, i: nat, obj: Object, f: Step<Field>)
    requires i <= |s| && !StartsWith(Rest(s, i), "}")
    requires EntryAt(s, SkipWs(s, i)) == Ok(f)
    requires StartsWith(Rest(s, f.pos), ",") && |Rest(s, f.pos)| > 1
    ensures ObjectLoop(s, i, obj) == Err(ExpectMessage(":", Context(s, f.pos)))
  {
    var k, k' := SkipWs(s, i), SkipWs(s, f.pos);
    var obj' := Put(obj, f.val.key, f.val.val);
    assert Rest(s, f.pos) == s[k'..];
    assert Rest(s, f.pos)[..1] == ",";
    assert s[k'] == Rest(s, f.pos)[..1][0];
    assert s[k'..] != "," && s[k'..] != "}";
    assert ObjectLoop(s, i, obj) == ObjectLoop(s, k', obj');
    assert SkipWs(s, k') == k';
    assert !StartsWith(s[k'..], "}");
    EntryNoColon(s, k');
  }

  /** A `?x` value leaves the cursor on `?`, so the next entry fails on a
      missing `:`. */
  lemma ObjectVariableFails(s: string, i: nat, obj: Object, p: nat)
    requires i <= |s| && !StartsWith(Rest(s, i), "}")
    requires ExpectAt(s, WordAt(s, SkipWs(s, i)).pos, ":") == Ok(p)
    requires StartsWith(Rest(s, p), "?")
    ensures ObjectLoop(s, i, obj) == Err(ExpectMessage(":", Context(s, p)))
  {
    var k, q := SkipWs(s, i), SkipWs(s, p);
    assert Rest(s, p) == s[q..];
    assert Rest(s, p)[..1] == "?";
    assert s[q] == Rest(s, p)[..1][0];
    assert SkipWs(s, q) == q;
    ValueVariable(s, q);
    assert EntryAt(s, k) == Ok(Step(Field(WordAt(s, k).val, Str("")), q));
    assert s[q..] != "," && s[q..] != "}";
    assert !StartsWith(s[q..], "}");
    EntryNoColon(s, q);
  }

  // ---------------------------------------------------------------------
  // What the blocks produce

  predicate ParsedPattern(p: Pattern) {
    WordString(p.concept) && WordString(p.action) && ParsedObject(p.input) && ParsedObject(p.output)
  }

  predicate ParsedInvocation(t: Engine.Invocation) {
    WordString(t.concept) && WordString(t.action) && ParsedObject(t.input)
  }

  /** A where-query: concept names (words, each once) mapped to objects. */
  predicate ParsedQuery(q: Object) {
    UniqueKeys(q) && forall f :: f in q ==> WordString(f.key) && f.val.Obj? && ParsedObject(f.val.fields)
  }

  predicate ParsedRuleOk(r: ParsedRule) {
    WordString(r.name)
    && (forall p :: p in r.when ==> ParsedPattern(p))
    && (r.where.Some? ==> ParsedQuery(r.where.value))
    && (forall t :: t in r.thens ==> ParsedInvocation(t))
  }

  /** A when-entry `C/a: {in} => {out}`: concept and action are words, both
      objects are parsed objects. */
  lemma PatternShape(s: string, i: nat)
    requires i <= |s|
    ensures PatternAt(s, i).Ok? ==> ParsedPattern(PatternAt(s, i).value.val)
  {
    if PatternAt(s, i).Ok? {
      var c := WordAt(s, i);
      var p1 := ExpectAt(s, c.pos, "/").value;
      var a := WordAt(s, p1);
      var p2 := ExpectAt(s, a.pos, ": {").value;
      ObjectShape(s, p2, []);
      var inp := ObjectAt(s, p2).value;
      var p3 := ExpectAt(s, inp.pos, "} => {").value;
      ObjectShape(s, p3, []);
    }
  }

  /** A then-entry `C/a: {in}`. */
  lemma InvocationShape(s: string, i: nat)
    requires i <= |s|
    ensures InvocationAt(s, i).Ok? ==> ParsedInvocation(InvocationAt(s, i).value.val)
  {
    if InvocationAt(s, i).Ok? {
      var c := WordAt(s, i);
      var p1 := ExpectAt(s, c.pos, "/").value;
      var a := WordAt(s, p1);
      var p2 := ExpectAt(s, a.pos, ": {").value;
      ObjectShape(s, p2, []);
    }
  }

  /** A loop that appends `x` and then only entries satisfying `ok` keeps
      what it started with and adds only entries satisfying `ok`. */
  lemma AppendedTail<T>(xs: seq<T>, x: T, r: seq<T>, ok: T -> bool)
    requires xs + [x] <= r && ok(x)
    requires forall k :: |xs + [x]| <= k < |r| ==> ok(r[k])
    ensures xs <= r && forall k :: |xs| <= k < |r| ==> ok(r[k])
  {
    assert r[|xs|] == (xs + [x])[|xs|] == x;
  }

  /** The when block keeps the patterns read so far and adds parsed
      patterns after them. */
  lemma {:induction false} WhenLoopShape(s: string, i: nat, pats: seq<Pattern>)
    requires i <= |s|
    ensures WhenLoop(s, i, pats).Ok? ==>
      var r := WhenLoop(s, i, pats).value.val;
      pats <= r && forall k :: |pats| <= k < |r| ==> ParsedPattern(r[k])
    decreases |s| - i
  {
    if !StartsWith(Rest(s, i), "}") && PatternAt(s, i).Ok? {
      var pat := PatternAt(s, i).value;
      PatternShape(s, i);
      var more := pats + [pat.val];
      WhenLoopShape(s, SkipWs(s, pat.pos), more);
      WhenLoopStep(s, i, pats);
      if WhenLoop(s, i, pats).Ok? {
        AppendedTail(pats, pat.val, WhenLoop(s, i, pats).value.val, ParsedPattern);
      }
    }
  }

  /** One round of the when block: an entry is read and the loop goes on
      after it. */
  lemma WhenLoopStep(s: string, i: nat, pats: seq<Pattern>)
    requires i <= |s| && !StartsWith(Rest(s, i), "}") && PatternAt(s, i).Ok?
    ensures var pat := PatternAt(s, i).value;
            WhenLoop(s, i, pats) == WhenLoop(s, SkipWs(s, pat.pos), pats + [pat.val])
  {
  }

  /** The block ends just past a `}`. */
  lemma {:induction false} WhenLoopEnd(s: string, i: nat, pats: seq<Pattern>)
    requires i <= |s|
    ensures WhenLoop(s, i, pats).Ok? ==> s[WhenLoop(s, i, pats).value.pos - 1] == '}'
    decreases |s| - i
  {
    if StartsWith(Rest(s, i), "}") {
      var k := SkipWs(s, i);
      assert Rest(s, i)[..1] == "}";
      assert s[k] == Rest(s, i)[..1][0];
    } else if PatternAt(s, i).Ok? {
      var pat := PatternAt(s, i).value;
      WhenLoopEnd(s, SkipWs(s, pat.pos), pats + [pat.val]);
    }
  }

  /** The then block likewise, with invocations. */
  lemma {:induction false} ThenLoopShape(s: string, i: nat, invs: seq<Engine.Invocation>)
    requires i <= |s|
    ensures ThenLoop(s, i, invs).Ok? ==>
      var r := ThenLoop(s, i, invs).value.val;
      invs <= r && forall k :: |invs| <= k < |r| ==> ParsedInvocation(r[k])
    decreases |s| - i
  {
    if !StartsWith(Rest(s, i), "}") && InvocationAt(s, i).Ok? {
      var inv := InvocationAt(s, i).value;
      InvocationShape(s, i);
      var more := invs + [inv.val];
      ThenLoopShape(s, SkipWs(s, inv.pos), more);
      ThenLoopStep(s, i, invs);
      if ThenLoop(s, i, invs).Ok? {
        AppendedTail(invs, inv.val, ThenLoop(s, i, invs).value.val, ParsedInvocation);
      }
    }
  }

  /** One round of the then block: an entry is read and the loop goes on
      after it. */
  lemma ThenLoopStep(s: string, i: nat, invs: seq<Engine.Invocation>)
    requires i <= |s| && !StartsWith(Rest(s, i), "}") && InvocationAt(s, i).Ok?
    ensures var inv := InvocationAt(s, i).value;
            ThenLoop(s, i, invs) == ThenLoop(s, SkipWs(s, inv.pos), invs + [inv.val])
  {
  }

  /** The block ends just past a `}`. */
  lemma {:induction false} ThenLoopEnd(s: string, i: nat, invs: seq<Engine.Invocation>)
    requires i <= |s|
    ensures ThenLoop(s, i, invs).Ok? ==> s[ThenLoop(s, i, invs).value.pos - 1] == '}'
    decreases |s| - i
  {
    if StartsWith(Rest(s, i), "}") {
      var k := SkipWs(s, i);
      assert Rest(s, i)[..1] == "}";
      assert s[k] == Rest(s, i)[..1][0];
    } else if InvocationAt(s, i).Ok? {
      var inv := InvocationAt(s, i).value;
      ThenLoopEnd(s, SkipWs(s, inv.pos), invs + [inv.val]);
    }
  }

  /** The where block: later queries for the same concept replace earlier
      ones, so the query stays a parsed query. */
  lemma {:induction false} WhereLoopShape(s: string, i: nat, query: Object)
    requires i <= |s| && ParsedQuery(query)
    ensures WhereLoop(s, i, query).Ok? ==> ParsedQuery(WhereLoop(s, i, query).value.val)
    decreases |s| - i
  {
    var k := SkipWs(s, i);
    if StartsWith(s[k..], "}") {
    } else if StartsWith(s[k..], "bind(") || StartsWith(s[k..], "filter(") {
      WhereLoopShape(s, SkipWs(s, UntilAt(s, k, ')')), query);
    } else if WhereLoop(s, i, query).Ok? {
      var c := WordAt(s, k);
      var p1 := ExpectAt(s, c.pos, ": {").value;
      ObjectShape(s, p1, []);
      var b := ObjectAt(s, p1).value;
      PutUnique(query, c.val, Obj(b.val));
      PutFields(query, c.val, Obj(b.val));
      var q := QueryAt(s, k, query).value;
      WhereLoopShape(s, SkipWs(s, q.pos), q.val);
    }
  }

  /** The blocks of a rule keep its name and leave it a parsed rule. */
  lemma {:induction false} SyncLoopShape(s: string, i: nat, rule: ParsedRule)
    requires i <= |s| && ParsedRuleOk(rule)
    ensures SyncLoop(s, i, rule).Ok? ==>
      SyncLoop(s, i, rule).value.val.name == rule.name && ParsedRuleOk(SyncLoop(s, i, rule).value.val)
    decreases |s| - i
  {
    var rest := Rest(s, i);
    if rest == "" || StartsWith(rest, "sync ") {
    } else if StartsWith(rest, "when ") {
      if WhenAt(s, i).Ok? {
        var p := ExpectAt(s, i, "when {").value;
        WhenLoopShape(s, SkipWs(s, p), []);
        var w := WhenAt(s, i).value;
        SyncLoopShape(s, SkipWs(s, w.pos), rule.(when := w.val));
      }
    } else if StartsWith(rest, "where ") {
      if WhereAt(s, i).Ok? {
        var p := ExpectAt(s, i, "where {").value;
        WhereLoopShape(s, SkipWs(s, p), []);
        var w := WhereAt(s, i).value;
        SyncLoopShape(s, SkipWs(s, w.pos), rule.(where := Some(w.val)));
      }
    } else if StartsWith(rest, "then ") {
      if ThenAt(s, i).Ok? {
        var p := ExpectAt(s, i, "then {").value;
        ThenLoopShape(s, SkipWs(s, p), []);
        var t := ThenAt(s, i).value;
        SyncLoopShape(s, SkipWs(s, t.pos), rule.(thens := t.val));
      }
    }
  }

  /** Once the input ends or the next `sync ` starts, the rule is complete;
      blocks that never appeared keep `when = []`, no query and `then = []`. */
  lemma SyncNoMoreBlocks(s: string, i: nat, rule: ParsedRule)
    requires i <= |s| && (Rest(s, i) == "" || StartsWith(Rest(s, i), "sync "))
    ensures SyncLoop(s, i, rule) == Ok(Step(rule, SkipWs(s, i)))
  {
  }

  /** Text that starts no known block is an error naming the rest. */
  lemma SyncUnexpectedBlock(s: string, i: nat, rule: ParsedRule)
    requires i <= |s| && Rest(s, i) != ""
    requires !StartsWith(Rest(s, i), "sync ") && !StartsWith(Rest(s, i), "when ")
    requires !StartsWith(Rest(s, i), "where ") && !StartsWith(Rest(s, i), "then ")
    ensures SyncLoop(s, i, rule) == Err("Unexpected block: " + Rest(s, i))
  {
  }

  /** `sync Name`: the name is the word after `sync `. */
  lemma SyncShape(s: string, i: nat)
    requires i <= |s|
    ensures SyncAt(s, i).Ok? ==>
      SyncAt(s, i).value.val.name == WordAt(s, ExpectAt(s, i, "sync ").value).val
      && ParsedRuleOk(SyncAt(s, i).value.val)
  {
    if ExpectAt(s, i, "sync ").Ok? {
      var p := ExpectAt(s, i, "sync ").value;
      var name := WordAt(s, p);
      SyncLoopShape(s, SkipWs(s, name.pos), ParsedRule(name.val, [], None, []));
    }
  }

  /** parse keeps the rules read so far and adds parsed rules after them,
      in source order. */
  lemma {:induction false} RulesLoopShape(s: string, i: nat, rules: seq<ParsedRule>)
    requires i <= |s|
    ensures RulesLoop(s, i, rules).Ok? ==>
      rules <= RulesLoop(s, i, rules).value
      && forall k :: |rules| <= k < |RulesLoop(s, i, rules).value| ==> ParsedRuleOk(RulesLoop(s, i, rules).value[k])
    decreases |s| - i
  {
    var rest := Rest(s, i);
    if rest != "" && StartsWith(rest, "sync ") && SyncAt(s, i).Ok? {
      var r := SyncAt(s, i).value;
      var more := rules + [r.val];
      SyncShape(s, i);
      RulesLoopShape(s, SkipWs(s, r.pos), more);
      RulesLoopStep(s, i, rules);
      if RulesLoop(s, i, rules).Ok? {
        AppendedTail(rules, r.val, RulesLoop(s, i, rules).value, ParsedRuleOk);
      }
    }
  }

  /** One round of the rule loop: a rule is read and the loop goes on
      after it. */
  lemma RulesLoopStep(s: string, i: nat, rules: seq<ParsedRule>)
    requires i <= |s| && Rest(s, i) != "" && StartsWith(Rest(s, i), "sync ") && SyncAt(s, i).Ok?
    ensures var r := SyncAt(s, i).value;
            RulesLoop(s, i, rules) == RulesLoop(s, SkipWs(s, r.pos), rules + [r.val])
  {
  }

  /** Empty or whitespace-only input holds no rules. */
  lemma ParseBlank(s: string)
    requires forall k :: 0 <= k < |s| ==> IsSpace(s[k])
    ensures ParseText(s) == Ok([])
  {
    assert SkipWs(s, 0) == |s|;
  }

  /** Any other leading text than `sync ` is an error naming it. */
  lemma ParseUnexpected(s: string)
    requires Rest(s, 0) != "" && !StartsWith(Rest(s, 0), "sync ")
    ensures ParseText(s) == Err("Unexpected token: " + Rest(s, 0))
  {
  }

  /** Every rule parse returns is a parsed rule. */
  lemma ParseShape(s: string)
    ensures ParseText(s).Ok? ==> forall r :: r in ParseText(s).value ==> ParsedRuleOk(r)
  {
    RulesLoopShape(s, SkipWs(s, 0), []);
  }

  // ---------------------------------------------------------------------
  // The parser object

  /** A method's outcome agrees with a reader function: the same value and
      the cursor where the function leaves it, or the same error. */
  predicate Agrees<T(==)>(r: Result<T>, pos: nat, f: Result<Step<T>>) {
    match f
    case Ok(st) => r == Ok(st.val) && pos == st.pos
    case Err(e) => r == Err(e)
  }

  /** SyncParser: the input and a cursor every reader advances. */
  class SyncParser {
    const input: string
    var pos: nat

    constructor(input: string)
      ensures this.input == input && pos == 0
    {
      this.input := input;
      pos := 0;
    }

    method SkipWhitespace()
      requires pos <= |input|
      modifies this`pos
      ensures pos == SkipWs(input, old(pos))
    {
      while pos < |input| && IsSpace(input[pos])
        invariant old(pos) <= pos <= |input|
        invariant SkipWs(input, pos) == SkipWs(input, old(pos))
        decreases |input| - pos
      {
        pos := pos + 1;
      }
    }

    method Peek() returns (rest: string)
      requires pos <= |input|
      modifies this`pos
      ensures pos == SkipWs(input, old(pos)) && rest == input[pos..]
    {
      SkipWhitespace();
      rest := input[pos..];
    }

    method ReadWord() returns (w: string)
      requires pos <= |input|
      modifies this`pos
      ensures WordAt(input, old(pos)) == Step(w, pos)
    {
      SkipWhitespace();
      var start := pos;
      while pos < |input| && IsWord(input[pos])
        invariant start <= pos <= |input|
        invariant WordEnd(input, pos) == WordEnd(input, start)
        decreases |input| - pos
      {
        pos := pos + 1;
      }
      w := input[start..pos];
    }

    method Expect(lit: string) returns (r: Result<()>)
      requires pos <= |input|
      modifies this`pos
      ensures r.Ok? <==> ExpectAt(input, old(pos), lit).Ok?
      ensures r.Ok? ==> pos == ExpectAt(input, old(pos), lit).value
      ensures r.Err? ==> r.error == ExpectAt(input, old(pos), lit).error
      ensures pos <= |input|
    {
      SkipWhitespace();
      if !(pos + |lit| <= |input| && input[pos..pos + |lit|] == lit) {
        return Err(ExpectMessage(lit, input[pos..Min(pos + 10, |input|)]));
      }
      pos := pos + |lit|;
      return Ok(());
    }

    method SkipUntil(c: char)
      requires pos <= |input|
      modifies this`pos
      ensures pos == UntilAt(input, old(pos), c)
    {
      while pos < |input| && input[pos] != c
        invariant old(pos) <= pos <= |input|
        invariant UntilAt(input, pos, c) == UntilAt(input, old(pos), c)
        decreases |input| - pos
      {
        pos := pos + 1;
      }
      if pos < |input| && input[pos] == c {
        pos := pos + 1;
      }
    }

    /** The quoted branch of readValue, with the cursor on the opening
        quote. */
    method ReadQuoted(start: nat) returns (r: Result<string>)
      requires start <= pos < |input| && input[pos] == '"'
      modifies this`pos
      ensures Agrees(r, pos, QuotedAt(input, start, old(pos)))
      ensures pos <= |input|
    {
      pos := pos + 1;
      while pos < |input| && input[pos] != '"'
        invariant old(pos) < pos <= |input|
        invariant QuoteAt(input, pos) == QuoteAt(input, old(pos) + 1)
        decreases |input| - pos
      {
        pos := pos + 1;
      }
      if pos == |input| {
        return Err("Unterminated string");
      }
      pos := pos + 1;
      return Ok(input[start..pos]);
    }

    method ReadValue() returns (r: Result<string>)
      requires pos <= |input|
      modifies this`pos
      ensures Agrees(r, pos, ValueAt(input, old(pos)))
      ensures pos <= |input|
    {
      var start := pos;
      var rest := Peek();
      if StartsWith(rest, "\"") {
        r := ReadQuoted(start);
      } else if StartsWith(rest, "?") {
        var w := ReadWord();
        return Ok(w);
      } else if CallAhead(input, pos) {
        var w := ReadWord();
        return Ok(w + "()");
      } else {
        var w := ReadWord();
        return Ok(w);
      }
    }

    /** One `key: value` entry of parseObject. */
    method ReadEntry() returns (r: Result<Field>)
      requires pos <= |input|
      modifies this`pos
      ensures Agrees(r, pos, EntryAt(input, old(pos)))
      ensures pos <= |input|
    {
      var key := ReadWord();
      var e := Expect(":");
      if e.Err? {
        return Err(e.error);
      }
      SkipWhitespace();
      var v := ReadValue();
      if v.Err? {
        return Err(v.error);
      }
      return Ok(Field(key, Str(v.value)));
    }

    method ParseObject() returns (r: Result<Object>)
      requires pos <= |input|
      modifies this`pos
      ensures Agrees(r, pos, ObjectAt(input, old(pos)))
      ensures pos <= |input|
    {
      var obj: Object := [];
      ghost var start := pos;
      var rest := Peek();
      while !StartsWith(rest, "}")
        invariant pos <= |input| && rest == input[pos..] && pos == SkipWs(input, pos)
        invariant ObjectLoop(input, pos, obj) == ObjectLoop(input, start, [])
        decreases |input| - pos
      {
        ghost var k, before := pos, obj;
        var f := ReadEntry();
        if f.Err? {
          return Err(f.error);
        }
        ObjectLoopStep(input, k, before, EntryAt(input, k).value);
        obj := Put(obj, f.value.key, f.value.val);
        rest := Peek();
        if rest == "," {
          pos := pos + 1;
          SkipWhitespace();
        } else if rest == "}" {
          break;
        }
        rest := Peek();
      }
      return Ok(obj);
    }

    method ParsePattern() returns (r: Result<Pattern>)
      requires pos <= |input|
      modifies this`pos
      ensures Agrees(r, pos, PatternAt(input, old(pos)))
      ensures pos <= |input|
    {
      var concept := ReadWord();
      var e := Expect("/");
      if e.Err? {
        return Err(e.error);
      }
      var action := ReadWord();
      e := Expect(": {");
      if e.Err? {
        return Err(e.error);
      }
      var inp := ParseObject();
      if inp.Err? {
        return Err(inp.error);
      }
      e := Expect("} => {");
      if e.Err? {
        return Err(e.error);
      }
      var out := ParseObject();
      if out.Err? {
        return Err(out.error);
      }
      e := Expect("}");
      if e.Err? {
        return Err(e.error);
      }
      return Ok(Pattern(concept, action, inp.value, out.value));
    }

    method ParseInvocation() returns (r: Result<Engine.Invocation>)
      requires pos <= |input|
      modifies this`pos
      ensures Agrees(r, pos, InvocationAt(input, old(pos)))
      ensures pos <= |input|
    {
      var concept := ReadWord();
      var e := Expect("/");
      if e.Err? {
        return Err(e.error);
      }
      var action := ReadWord();
      e := Expect(": {");
      if e.Err? {
        return Err(e.error);
      }
      var inp := ParseObject();
      if inp.Err? {
        return Err(inp.error);
      }
      e := Expect("}");
      if e.Err? {
        return Err(e.error);
      }
      return Ok(Engine.Invocation(concept, action, inp.value));
    }

    method ParseWhen() returns (r: Result<seq<Pattern>>)
      requires pos <= |input|
      modifies this`pos
      ensures Agrees(r, pos, WhenAt(input, old(pos)))
      ensures pos <= |input|
    {
      var e := Expect("when {");
      if e.Err? {
        return Err(e.error);
      }
      var pats: seq<Pattern> := [];
      var rest := Peek();
      while !StartsWith(rest, "}")
        invariant pos <= |input| && rest == input[pos..] && pos == SkipWs(input, pos)
        invariant WhenLoop(input, pos, pats) == WhenAt(input, old(pos))
        decreases |input| - pos
      {
        var p := ParsePattern();
        if p.Err? {
          return Err(p.error);
        }
        pats := pats + [p.value];
        SkipWhitespace();
        rest := Peek();
      }
      e := Expect("}");
      return Ok(pats);
    }

    method ParseThen() returns (r: Result<seq<Engine.Invocation>>)
      requires pos <= |input|
      modifies this`pos
      ensures Agrees(r, pos, ThenAt(input, old(pos)))
      ensures pos <= |input|
    {
      var e := Expect("then {");
      if e.Err? {
        return Err(e.error);
      }
      var invs: seq<Engine.Invocation> := [];
      var rest := Peek();
      while !StartsWith(rest, "}")
        invariant pos <= |input| && rest == input[pos..] && pos == SkipWs(input, pos)
        invariant ThenLoop(input, pos, invs) == ThenAt(input, old(pos))
        decreases |input| - pos
      {
        var t := ParseInvocation();
        if t.Err? {
          return Err(t.error);
        }
        invs := invs + [t.value];
        SkipWhitespace();
        rest := Peek();
      }
      e := Expect("}");
      return Ok(invs);
    }

    method ReadQuery(query: Object) returns (r: Result<Object>)
      requires pos <= |input|
      modifies this`pos
      ensures Agrees(r, pos, QueryAt(input, old(pos), query))
      ensures pos <= |input|
    {
      var concept := ReadWord();
      var e := Expect(": {");
      if e.Err? {
        return Err(e.error);
      }
      var bindings := ParseObject();
      if bindings.Err? {
        return Err(bindings.error);
      }
      e := Expect("}");
      if e.Err? {
        return Err(e.error);
      }
      return Ok(Put(query, concept, Obj(bindings.value)));
    }

    method ParseWhere() returns (r: Result<Object>)
      requires pos <= |input|
      modifies this`pos
      ensures Agrees(r, pos, WhereAt(input, old(pos)))
      ensures pos <= |input|
    {
      var e := Expect("where {");
      if e.Err? {
        return Err(e.error);
      }
      var query: Object := [];
      var rest := Peek();
      while !StartsWith(rest, "}")
        invariant pos <= |input| && rest == input[pos..] && pos == SkipWs(input, pos)
        invariant WhereLoop(input, pos, query) == WhereAt(input, old(pos))
        decreases |input| - pos
      {
        if StartsWith(rest, "bind(") || StartsWith(rest, "filter(") {
          SkipUntil(')');
          SkipWhitespace();
        } else {
          var q := ReadQuery(query);
          if q.Err? {
            return Err(q.error);
          }
          query := q.value;
        }
        SkipWhitespace();
        rest := Peek();
      }
      e := Expect("}");
      return Ok(query);
    }

    method ParseSync() returns (r: Result<ParsedRule>)
      requires pos <= |input|
      modifies this`pos
      ensures Agrees(r, pos, SyncAt(input, old(pos)))
      ensures pos <= |input|
    {
      var e := Expect("sync ");
      if e.Err? {
        return Err(e.error);
      }
      var name := ReadWord();
      SkipWhitespace();
      var rule := ParsedRule(name, [], None, []);
      var rest := Peek();
      while rest != "" && !StartsWith(rest, "sync ")
        invariant pos <= |input| && rest == input[pos..] && pos == SkipWs(input, pos)
        invariant SyncLoop(input, pos, rule) == SyncAt(input, old(pos))
        decreases |input| - pos
      {
        if StartsWith(rest, "when ") {
          var w := ParseWhen();
          if w.Err? {
            return Err(w.error);
          }
          rule := rule.(when := w.value);
        } else if StartsWith(rest, "where ") {
          var w := ParseWhere();
          if w.Err? {
            return Err(w.error);
          }
          rule := rule.(where := Some(w.value));
        } else if StartsWith(rest, "then ") {
          var t := ParseThen();
          if t.Err? {
            return Err(t.error);
          }
          rule := rule.(thens := t.value);
        } else {
          return Err("Unexpected block: " + rest);
        }
        rest := Peek();
      }
      return Ok(rule);
    }

    /** parse: the rules of the whole input from the cursor on. */
    method Parse() returns (r: Result<seq<ParsedRule>>)
      requires pos <= |input|
      modifies this`pos
      ensures r == RulesLoop(input, SkipWs(input, old(pos)), [])
    {
      var rules: seq<ParsedRule> := [];
      var rest := Peek();
      while rest != ""
        invariant pos <= |input| && rest == input[pos..] && pos == SkipWs(input, pos)
        invariant RulesLoop(input, pos, rules) == RulesLoop(input, SkipWs(input, old(pos)), [])
        decreases |input| - pos
      {
        if StartsWith(rest, "sync ") {
          var rule := ParseSync();
          if rule.Err? {
            return Err(rule.error);
          }
          rules := rules + [rule.value];
        } else {
          return Err("Unexpected token: " + rest);
        }
        rest := Peek();
      }
      return Ok(rules);
    }
  }

  /** parseSyncDSL: a fresh parser over `dsl`, run once. */
  method ParseSyncDSL(dsl: string) returns (r: Result<seq<ParsedRule>>)
    ensures r == ParseText(dsl)
  {
    var parser := new SyncParser(dsl);
    r := parser.Parse();
  }
}
