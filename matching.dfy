/** The pattern matcher of the engine: when-patterns checked against the
    input and output of a recorded action (packages/core/src/engine/Engine.ts,
    matchRecord and matchPath). */
module Matching {
  import opened Wrappers
  import opened Json

  /** A when-clause. An absent `input`/`output` sub-pattern is the empty
      object, which matches every record. */
  datatype Pattern = Pattern(concept: string, action: string, input: Object, output: Object)

  /** `^P$` where P is the pattern with each `*` replaced by `[^/]+`:
      a star consumes one or more characters other than `/`, every other
      pattern character matches itself, and the match is anchored at both
      ends. */
  predicate MatchPath(path: string, pat: string)
    decreases |pat|
  {
    if pat == [] then path == []
    else if pat[0] == '*' then
      exists k :: 1 <= k <= |path| && '/' !in path[..k] && MatchPath(path[k..], pat[1..])
    else path != [] && path[0] == pat[0] && MatchPath(path[1..], pat[1..])
  }

  function Count(c: char, s: string): nat
  {
    if s == [] then 0 else (if s[0] == c then 1 else 0) + Count(c, s[1..])
  }

  /** A pattern without a star matches exactly itself. */
  lemma {:induction false} LiteralPathMatchesItself(path: string, pat: string)
    requires '*' !in pat
    ensures MatchPath(path, pat) <==> path == pat
    decreases |pat|
  {
    if pat != [] && path != [] {
      LiteralPathMatchesItself(path[1..], pat[1..]);
      if path[0] == pat[0] && path[1..] == pat[1..] {
        assert path == [path[0]] + path[1..] && pat == [pat[0]] + pat[1..];
      }
    }
  }

  lemma {:induction false} CountSplit(c: char, s: string, k: nat)
    requires k <= |s|
    ensures Count(c, s) == Count(c, s[..k]) + Count(c, s[k..])
  {
    if k > 0 {
      CountSplit(c, s[1..], k - 1);
      assert s[1..][..k - 1] == s[..k][1..];
      assert s[1..][k - 1..] == s[k..];
    }
  }

  lemma {:induction false} CountAbsent(c: char, s: string)
    requires c !in s
    ensures Count(c, s) == 0
  {
    if s != [] {
      CountAbsent(c, s[1..]);
    }
  }

  /** A star never crosses a `/`: a path and the pattern it matches have the
      same number of separators, so a one-star segment pattern cannot match a deeper path. */
  lemma {:induction false} MatchPathKeepsDepth(path: string, pat: string)
    requires MatchPath(path, pat)
    ensures Count('/', path) == Count('/', pat)
    decreases |pat|
  {
    if pat != [] {
      if pat[0] == '*' {
        var k :| 1 <= k <= |path| && '/' !in path[..k] && MatchPath(path[k..], pat[1..]);
        MatchPathKeepsDepth(path[k..], pat[1..]);
        CountSplit('/', path, k);
        CountAbsent('/', path[..k]);
      } else {
        MatchPathKeepsDepth(path[1..], pat[1..]);
      }
    }
  }

  /** A lone star matches exactly the non-empty strings without `/`. */
  lemma StarMatchesOneSegment(path: string)
    ensures MatchPath(path, "*") <==> path != [] && '/' !in path
  {
    if path != [] && '/' !in path {
      assert path[..|path|] == path;
      assert MatchPath(path[|path|..], []);
    }
  }

  /** A pattern value `?name` is a variable: it only asks for the key. */
  predicate IsVariable(v: Value) {
    v.Str? && |v.s| > 0 && v.s[0] == '?'
  }

  /** One entry `[k, v]` of a sub-pattern against the record's object. */
  predicate FieldMatches(obj: Object, k: string, v: Value) {
    var actual := Get(obj, k);
    if k == "path" && v.Str? && actual.Some? && actual.value.Str? then
      MatchPath(actual.value.s, v.s)
    else if IsVariable(v) then
      k in Keys(obj)
    else
      actual.Some? && StrictEq(actual.value, v)
  }

  /** `matchRecord(obj, pattern)`: every entry of the pattern is satisfied. */
  predicate MatchRecord(obj: Object, pat: Object) {
    forall i :: 0 <= i < |pat| ==> FieldMatches(obj, pat[i].key, pat[i].val)
  }

  /** A pattern with no `path` key and no variable asks for equal primitive
      values, key by key; an absent key or an object value never matches. */
  lemma LiteralRecordMatch(obj: Object, pat: Object)
    requires forall i :: 0 <= i < |pat| ==> pat[i].key != "path" && !IsVariable(pat[i].val)
    ensures MatchRecord(obj, pat) <==>
      forall i :: 0 <= i < |pat| ==>
        !IsObjectLike(pat[i].val) && Get(obj, pat[i].key) == Some(pat[i].val)
  {
  }

  /** A variable entry is satisfied by any value under its key, and by
      nothing when the key is absent. */
  lemma VariableMatchesPresence(obj: Object, k: string, name: string)
    requires k != "path"
    ensures FieldMatches(obj, k, Str("?" + name)) <==> Get(obj, k).Some?
  {
  }

  /** Patterns combine by conjunction: matching a concatenation is matching
      both halves. */
  lemma {:induction false} MatchRecordAppend(obj: Object, p: Object, q: Object)
    ensures MatchRecord(obj, p + q) <==> MatchRecord(obj, p) && MatchRecord(obj, q)
  {
    if MatchRecord(obj, p) && MatchRecord(obj, q) {
      forall i | 0 <= i < |p + q|
        ensures FieldMatches(obj, (p + q)[i].key, (p + q)[i].val)
      {
        if i < |p| {
          assert (p + q)[i] == p[i];
        } else {
          assert (p + q)[i] == q[i - |p|];
        }
      }
    }
    if MatchRecord(obj, p + q) {
      forall i | 0 <= i < |p| ensures FieldMatches(obj, p[i].key, p[i].val) {
        assert (p + q)[i] == p[i];
      }
      forall i | 0 <= i < |q| ensures FieldMatches(obj, q[i].key, q[i].val) {
        assert (p + q)[|p| + i] == q[i];
      }
    }
  }
}
