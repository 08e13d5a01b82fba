/** Bindings and variable substitution of the engine
    (packages/core/src/engine/Engine.ts: the bindings built in tryFireSync,
    cartesianProduct, getNestedValue and replaceVariables). */
module Bindings {
  import opened Wrappers
  import opened Json
  import opened Chars

  /** The bindings of one matched record: `{...input, ...output}` where an
      absent or non-object output contributes nothing. */
  function RecordBindings(input: Object, output: Option<Value>): (b: Object)
  {
    Merge(input, if output.Some? && Truthy(output.value) && IsObjectLike(output.value)
                 then AsObject(output.value) else [])
  }

  /** Output wins over input, and a key of neither is absent. */
  lemma RecordBindingsGet(input: Object, output: Object, k: string)
    requires UniqueKeys(output)
    ensures Get(RecordBindings(input, Some(Obj(output))), k)
         == if k in Keys(output) then Get(output, k) else Get(input, k)
  {
    MergeGet(input, output, k);
  }

  /** A record without an output binds exactly its input. */
  lemma RecordBindingsNoOutput(input: Object)
    ensures RecordBindings(input, None) == input
  {
  }

  // ---------------------------------------------------------------------
  // cartesianProduct: arrays.reduce((a, b) => a.flatMap(x => b.map(y => ({...x, ...y}))), [{}])

  /** `b.map(y => f(x, y))`. */
  function EachWith<T>(f: (T, T) -> T, x: T, b: seq<T>): (r: seq<T>)
    ensures |r| == |b|
    ensures forall j :: 0 <= j < |b| ==> r[j] == f(x, b[j])
    decreases |b|
  {
    if |b| == 0 then [] else [f(x, b[0])] + EachWith(f, x, b[1..])
  }

  /** `acc.flatMap(x => b.map(y => f(x, y)))`. */
  function FlatWith<T>(f: (T, T) -> T, acc: seq<T>, b: seq<T>): seq<T>
    decreases |acc|
  {
    if |acc| == 0 then [] else EachWith(f, acc[0], b) + FlatWith(f, acc[1..], b)
  }


  lemma {:induction false} FlatWithSize<T>(f: (T, T) -> T, acc: seq<T>, b: seq<T>)
    ensures |FlatWith(f, acc, b)| == |acc| * |b|
    decreases |acc|
  {
    if |acc| != 0 {
      FlatWithSize(f, acc[1..], b);
      MulSucc(|acc| - 1, |b|);
    }
  }

  /** The reduce: a left fold of `FlatWith` starting from `[z]`. */
  function ProductWith<T>(f: (T, T) -> T, z: T, lists: seq<seq<T>>): seq<T>
    decreases |lists|
  {
    if |lists| == 0 then [z] else FlatWith(f, ProductWith(f, z, lists[..|lists| - 1]), lists[|lists| - 1])
  }

  /** cartesianProduct: from `[{}]`, every combination so far spread with
      every object of the next list, `{...x, ...y}`. Its shape does not
      depend on how two objects combine, so the lemmas below are stated for
      any combining function. */
  function Product(lists: seq<seq<Object>>): seq<Object> {
    ProductWith(Merge, [], lists)
  }

  function SizeProduct<T>(lists: seq<seq<T>>): nat
    decreases |lists|
  {
    if |lists| == 0 then 1 else SizeProduct(lists[..|lists| - 1]) * |lists[|lists| - 1]|
  }

  /** The product has as many combinations as the product of the list
      lengths; in particular one empty list empties it, and no lists at all
      give the single empty binding. */
  lemma {:induction false} ProductSize<T>(f: (T, T) -> T, z: T, lists: seq<seq<T>>)
    ensures |ProductWith(f, z, lists)| == SizeProduct(lists)
    decreases |lists|
  {
    if |lists| != 0 {
      ProductSize(f, z, lists[..|lists| - 1]);
      FlatWithSize(f, ProductWith(f, z, lists[..|lists| - 1]), lists[|lists| - 1]);
    }
  }

  lemma ProductOfNothing()
    ensures Product([]) == [[]]
  {
  }

  lemma {:induction false} SizeProductZero<T>(lists: seq<seq<T>>)
    ensures SizeProduct(lists) == 0 <==> exists i :: 0 <= i < |lists| && lists[i] == []
    decreases |lists|
  {
    if |lists| != 0 {
      var init := lists[..|lists| - 1];
      SizeProductZero(init);
      if exists i :: 0 <= i < |init| && init[i] == [] {
        var i :| 0 <= i < |init| && init[i] == [];
        assert lists[i] == [];
      }
      if exists i :: 0 <= i < |lists| && lists[i] == [] {
        var i :| 0 <= i < |lists| && lists[i] == [];
        if i < |init| {
          assert init[i] == [];
        }
      }
    }
  }

  /** A choice of one element per list, as positions. */
  predicate IsChoice<T>(lists: seq<seq<T>>, c: seq<nat>) {
    |c| == |lists| && forall i :: 0 <= i < |c| ==> c[i] < |lists[i]|
  }

  /** The chosen elements combined left to right from `z`; for the
      bindings, their merge, in which later lists win. */
  function FoldChoice<T>(f: (T, T) -> T, z: T, lists: seq<seq<T>>, c: seq<nat>): T
    requires IsChoice(lists, c)
    decreases |lists|
  {
    if |lists| == 0 then z
    else f(FoldChoice(f, z, lists[..|lists| - 1], c[..|c| - 1]), lists[|lists| - 1][c[|c| - 1]])
  }

  /** `a * m` by repeated addition, so that index arithmetic stays linear. */
  function Mul(a: nat, m: nat): nat
  {
    if a == 0 then 0 else Mul(a - 1, m) + m
  }

  lemma {:induction false} MulIsTimes(a: nat, m: nat)
    ensures Mul(a, m) == a * m
  {
    if a > 0 {
      MulIsTimes(a - 1, m);
      MulSucc(a - 1, m);
    }
  }

  lemma MulSucc(a: nat, m: nat)
    ensures (a + 1) * m == a * m + m
  {
  }

  /** The position of a choice in the product: mixed radix, last list fastest. */
  function Rank<T>(lists: seq<seq<T>>, c: seq<nat>): nat
    requires IsChoice(lists, c)
    decreases |lists|
  {
    if |lists| == 0 then 0
    else Mul(Rank(lists[..|lists| - 1], c[..|c| - 1]), |lists[|lists| - 1]|) + c[|c| - 1]
  }

  /** The result for the `i`-th accumulated element and the `j`-th new
      one sits at `i * |b| + j`. */
  lemma FlatWithAt<T>(f: (T, T) -> T, acc: seq<T>, b: seq<T>, i: nat, j: nat)
    requires i < |acc| && j < |b|
    ensures Mul(i, |b|) + j < |FlatWith(f, acc, b)|
    ensures FlatWith(f, acc, b)[Mul(i, |b|) + j] == f(acc[i], b[j])
  {
    var x, y := acc[..i], acc[i..];
    assert acc == x + y && y[0] == acc[i];
    FlatWithAppend(f, x, y, b);
    FlatWithSizeMul(f, x, b);
    var ex, ey := FlatWith(f, x, b), FlatWith(f, y, b);
    assert ey == EachWith(f, y[0], b) + FlatWith(f, y[1..], b);
    assert (ex + ey)[|ex| + j] == ey[j];
  }

  /** `flatMap` distributes over concatenation. */
  lemma {:induction false} FlatWithAppend<T>(f: (T, T) -> T, x: seq<T>, y: seq<T>, b: seq<T>)
    ensures FlatWith(f, x + y, b) == FlatWith(f, x, b) + FlatWith(f, y, b)
    decreases |x|
  {
    if |x| == 0 {
      assert x + y == y;
    } else {
      assert (x + y)[0] == x[0] && (x + y)[1..] == x[1..] + y;
      FlatWithAppend(f, x[1..], y, b);
    }
  }

  lemma {:induction false} FlatWithSizeMul<T>(f: (T, T) -> T, acc: seq<T>, b: seq<T>)
    ensures |FlatWith(f, acc, b)| == Mul(|acc|, |b|)
    decreases |acc|
  {
    if |acc| != 0 {
      FlatWithSizeMul(f, acc[1..], b);
    }
  }

  /** Every result combines some accumulated element with some new one. */
  lemma {:induction false} FlatWithInv<T>(f: (T, T) -> T, acc: seq<T>, b: seq<T>, n: nat) returns (i: nat, j: nat)
    requires n < |FlatWith(f, acc, b)|
    ensures i < |acc| && j < |b| && FlatWith(f, acc, b)[n] == f(acc[i], b[j])
    decreases |acc|
  {
    var h, t := EachWith(f, acc[0], b), FlatWith(f, acc[1..], b);
    assert FlatWith(f, acc, b) == h + t;
    if n < |b| {
      i, j := 0, n;
    } else {
      assert (h + t)[n] == t[n - |b|];
      var i', j' := FlatWithInv(f, acc[1..], b, n - |b|);
      i, j := i' + 1, j';
    }
  }

  lemma {:induction false} RankBound<T>(lists: seq<seq<T>>, c: seq<nat>)
    requires IsChoice(lists, c)
    ensures Rank(lists, c) < SizeProduct(lists)
    decreases |lists|
  {
    if |lists| != 0 {
      var init, last := lists[..|lists| - 1], lists[|lists| - 1];
      RankBound(init, c[..|c| - 1]);
      var r := Rank(init, c[..|c| - 1]);
      MulIsTimes(r, |last|);
      MulSucc(r, |last|);
      MulMono(r + 1, SizeProduct(init), |last|);
    }
  }

  lemma MulMono(a: nat, b: nat, k: nat)
    requires a <= b
    ensures a * k <= b * k
  {
  }

  /** Every choice is in the product, at its rank, combined left to right. */
  lemma {:induction false} ProductAt<T>(f: (T, T) -> T, z: T, lists: seq<seq<T>>, c: seq<nat>)
    requires IsChoice(lists, c)
    ensures Rank(lists, c) < |ProductWith(f, z, lists)|
    ensures ProductWith(f, z, lists)[Rank(lists, c)] == FoldChoice(f, z, lists, c)
    decreases |lists|
  {
    RankBound(lists, c);
    ProductSize(f, z, lists);
    if |lists| != 0 {
      var init, last := lists[..|lists| - 1], lists[|lists| - 1];
      ProductAt(f, z, init, c[..|c| - 1]);
      FlatWithAt(f, ProductWith(f, z, init), last, Rank(init, c[..|c| - 1]), c[|c| - 1]);
    }
  }

  /** And the product holds nothing else: each combination is the
      combination of one choice. */
  lemma {:induction false} ProductOnlyChoices<T>(f: (T, T) -> T, z: T, lists: seq<seq<T>>, n: nat) returns (c: seq<nat>)
    requires n < |ProductWith(f, z, lists)|
    ensures IsChoice(lists, c) && ProductWith(f, z, lists)[n] == FoldChoice(f, z, lists, c)
    decreases |lists|
  {
    if |lists| == 0 {
      c := [];
    } else {
      var init, last := lists[..|lists| - 1], lists[|lists| - 1];
      var i, j := FlatWithInv(f, ProductWith(f, z, init), last, n);
      var c0 := ProductOnlyChoices(f, z, init, i);
      c := c0 + [j];
      assert c[..|c| - 1] == c0 && c[|c| - 1] == j;
      assert forall k :: 0 <= k < |c0| ==> c[k] == c0[k] && lists[k] == init[k];
      assert IsChoice(lists, c);
    }
  }

  // ---------------------------------------------------------------------
  // where.filter

  /** `combinations.filter(f)`. */
  function FilterSeq(xs: seq<Object>, f: Object -> bool): (r: seq<Object>)
    ensures |r| <= |xs|
  {
    if xs == [] then []
    else if f(xs[0]) then [xs[0]] + FilterSeq(xs[1..], f)
    else FilterSeq(xs[1..], f)
  }

  /** The filter only removes: what is left is exactly what passes. */
  lemma {:induction false} FilterSeqMembers(xs: seq<Object>, f: Object -> bool, x: Object)
    ensures x in FilterSeq(xs, f) <==> x in xs && f(x)
  {
    if xs != [] {
      FilterSeqMembers(xs[1..], f, x);
    }
  }

  // ---------------------------------------------------------------------
  // getNestedValue

  /** End of the run of characters satisfying `p` that starts at `i`. */
  function RunEnd(s: string, i: nat, digits: bool): (j: nat)
    requires i <= |s|
    ensures i <= j <= |s|
    ensures forall k :: i <= k < j ==> if digits then IsDigit(s[k]) else IsWord(s[k])
    ensures j < |s| ==> !(if digits then IsDigit(s[j]) else IsWord(s[j]))
    decreases |s| - i
  {
    if i < |s| && (if digits then IsDigit(s[i]) else IsWord(s[i]))
    then RunEnd(s, i + 1, digits) else i
  }

  /** The leftmost match of `/(\w+)\[(\d+)\]/` at or after `i`, as the word
      and the parsed number. */
  function IndexedSegmentFrom(key: string, i: nat): (r: Option<(string, nat)>)
    requires i <= |key|
    decreases |key| - i
  {
    if i == |key| then None
    else
      var j := RunEnd(key, i, false);
      var k := if j < |key| then RunEnd(key, j + 1, true) else j;
      if j > i && j < |key| && key[j] == '[' && k > j + 1 && k < |key| && key[k] == ']'
      then Some((key[i..j], DigitsValue(key[j + 1..k])))
      else IndexedSegmentFrom(key, i + 1)
  }

  /** One step of the reduce in getNestedValue: on a string, a segment
      `path[n]` picks the n-th `/`-separated piece; everything else is a
      property read `current?.[key]`. */
  function Step(current: Option<Value>, key: string): Option<Value>
  {
    if current.Some? && current.value.Str? && '[' in key && ']' in key
       && IndexedSegmentFrom(key, 0).Some? && IndexedSegmentFrom(key, 0).value.0 == "path"
    then
      var parts := Split(current.value.s, '/');
      var n := IndexedSegmentFrom(key, 0).value.1;
      if n < |parts| then Some(Str(parts[n])) else None
    else if current.None? then None
    else Access(current.value, key)
  }

  /** A canonical array index: "0" or digits without a leading zero. */
  function ArrayIndex(key: string): Option<nat>
  {
    if key != [] && (forall i :: 0 <= i < |key| ==> IsDigit(key[i])) && (key == "0" || key[0] != '0')
    then Some(DigitsValue(key)) else None
  }

  /** `v[key]` for a present value: object properties, array and string
      elements and lengths; primitives have no own properties. */
  function Access(v: Value, key: string): Option<Value>
  {
    match v
    case Obj(fs) => Get(fs, key)
    case Arr(items) =>
      if key == "length" then Some(Int(|items|))
      else if ArrayIndex(key).Some? && ArrayIndex(key).value < |items|
      then Some(items[ArrayIndex(key).value]) else None
    case Str(s) =>
      if key == "length" then Some(Int(|s|))
      else if ArrayIndex(key).Some? && ArrayIndex(key).value < |s|
      then Some(Str([s[ArrayIndex(key).value]])) else None
    case _ => None
  }

  function Walk(current: Option<Value>, keys: seq<string>): Option<Value>
    decreases |keys|
  {
    if keys == [] then current else Walk(Step(current, keys[0]), keys[1..])
  }

  /** `getNestedValue(bindings, path)`: the dotted path walked from the
      bindings object; `None` is `undefined`. */
  function GetNested(b: Object, path: string): Option<Value>
  {
    Walk(Some(Obj(b)), Split(path, '.'))
  }

  /** Once a walk reaches `undefined` it stays there. */
  lemma {:induction false} WalkUndefined(keys: seq<string>)
    ensures Walk(None, keys) == None
    decreases |keys|
  {
    if keys != [] {
      WalkUndefined(keys[1..]);
    }
  }

  /** A path without dots is a single property read of the bindings. */
  lemma GetNestedSimple(b: Object, name: string)
    requires '.' !in name
    ensures GetNested(b, name) == Get(b, name)
  {
    SplitNoSep(name, '.');
    assert Walk(Some(Obj(b)), [name]) == Walk(Step(Some(Obj(b)), name), []);
  }

  /** A dotted path descends through nested objects, one key per segment. */
  lemma GetNestedDotted(b: Object, first: string, rest: string, inner: Object)
    requires '.' !in first
    requires Get(b, first) == Some(Obj(inner))
    ensures GetNested(b, first + "." + rest) == GetNested(inner, rest)
  {
    SplitNoSep(first, '.');
    SplitPrefix(first, rest, '.');
  }

  /** The leftmost `/(\w+)\[(\d+)\]/` match of "path[2]". */
  lemma IndexedSegmentExample()
    ensures IndexedSegmentFrom("path[2]", 0) == Some(("path", 2))
  {
    var key := "path[2]";
    assert RunEnd(key, 4, false) == 4;
    assert RunEnd(key, 0, false) == 4;
    assert RunEnd(key, 6, true) == 6;
    assert RunEnd(key, 5, true) == 6;
    assert key[0..4] == "path" && key[5..6] == "2";
    assert "2"[..0] == [];
    assert DigitsValue("2") == 2;
  }

  /** On a string value, `path[n]` picks the n-th `/`-separated piece, and
      is `undefined` past the last one. */
  lemma IndexedSegmentOnString(s: string)
    ensures Step(Some(Str(s)), "path[2]")
         == if 2 < |Split(s, '/')| then Some(Str(Split(s, '/')[2])) else None
  {
    IndexedSegmentExample();
  }

  // ---------------------------------------------------------------------
  // replaceVariables

  predicate IsPathChar(c: char) {
    IsWord(c) || c == '.'
  }

  /** `s.replace(/\?([\w.]+)/g, ...)` from position `i`: each `?` followed by
      a maximal run of word characters and dots is replaced by `String` of
      the value at that path, or left verbatim when it is undefined;
      replaced text is not scanned again. */
  function InterpolateFrom(s: string, b: Object, i: nat): (r: string)
    requires i <= |s|
    decreases |s| - i
  {
    if i == |s| then []
    else if s[i] == '?' && i + 1 < |s| && IsPathChar(s[i + 1]) then
      var j := PathEnd(s, i + 1);
      var v := GetNested(b, s[i + 1..j]);
      (if v.Some? then ToJsString(v.value) else s[i..j]) + InterpolateFrom(s, b, j)
    else [s[i]] + InterpolateFrom(s, b, i + 1)
  }

  function PathEnd(s: string, i: nat): (j: nat)
    requires i <= |s|
    ensures i <= j <= |s|
    ensures forall k :: i <= k < j ==> IsPathChar(s[k])
    ensures j < |s| ==> !IsPathChar(s[j])
    decreases |s| - i
  {
    if i < |s| && IsPathChar(s[i]) then PathEnd(s, i + 1) else i
  }

  function Interpolate(s: string, b: Object): string {
    InterpolateFrom(s, b, 0)
  }

  /** `replaceVariables(obj, bindings)`. */
  function Replace(v: Value, b: Object): (r: Value)
    ensures v.Arr? ==> r.Arr? && |r.items| == |v.items|
    ensures v.Obj? ==> r.Obj? && Keys(r.fields) == Keys(v.fields)
    ensures !v.Str? && !IsObjectLike(v) ==> r == v
    ensures v.Str? && (|v.s| == 0 || v.s[0] != '?') ==> r.Str?
  {
    match v
    case Str(s) =>
      if |s| > 0 && s[0] == '?' then
        var found := GetNested(b, s[1..]);
        if found.Some? then found.value else v
      else Str(Interpolate(s, b))
    case Arr(items) => Arr(ReplaceItems(items, b))
    case Obj(fs) => Obj(ReplaceFields(fs, b))
    case _ => v
  }

  function ReplaceItems(items: seq<Value>, b: Object): (r: seq<Value>)
    ensures |r| == |items|
    ensures forall i :: 0 <= i < |items| ==> r[i] == Replace(items[i], b)
    decreases items
  {
    if items == [] then [] else [Replace(items[0], b)] + ReplaceItems(items[1..], b)
  }

  /** Each property keeps its key and gets its value substituted. */
  function ReplaceFields(fs: Object, b: Object): (r: Object)
    ensures |r| == |fs|
    ensures forall i :: 0 <= i < |fs| ==> r[i] == Field(fs[i].key, Replace(fs[i].val, b))
    ensures Keys(r) == Keys(fs)
    decreases fs
  {
    if fs == [] then [] else [Field(fs[0].key, Replace(fs[0].val, b))] + ReplaceFields(fs[1..], b)
  }

  /** A string with no `?` is left exactly as it is. */
  lemma {:induction false} InterpolatePlain(s: string, b: Object, i: nat)
    requires i <= |s|
    requires '?' !in s
    ensures InterpolateFrom(s, b, i) == s[i..]
    decreases |s| - i
  {
    if i < |s| {
      InterpolatePlain(s, b, i + 1);
    }
  }

  /** With no bindings every reference is unresolved, so nothing changes. */
  lemma {:induction false} InterpolateUnbound(s: string, i: nat)
    requires i <= |s|
    ensures InterpolateFrom(s, [], i) == s[i..]
    decreases |s| - i
  {
    if i < |s| {
      if s[i] == '?' && i + 1 < |s| && IsPathChar(s[i + 1]) {
        var j := PathEnd(s, i + 1);
        GetNestedUnbound(s[i + 1..j]);
        InterpolateUnbound(s, j);
        assert s[i..] == s[i..j] + s[j..];
      } else {
        InterpolateUnbound(s, i + 1);
      }
    }
  }

  lemma GetNestedUnbound(path: string)
    ensures GetNested([], path) == None
  {
    var keys := Split(path, '.');
    WalkUndefined(keys[1..]);
  }

  lemma {:induction false} ReplaceUnbound(v: Value)
    ensures Replace(v, []) == v
  {
    match v
    case Str(s) =>
      if |s| > 0 && s[0] == '?' {
        GetNestedUnbound(s[1..]);
      } else {
        InterpolateUnbound(s, 0);
      }
    case Arr(items) =>
      forall i | 0 <= i < |items| ensures Replace(items[i], []) == items[i] {
        ReplaceUnbound(items[i]);
      }
      assert ReplaceItems(items, []) == items;
    case Obj(fs) =>
      forall i | 0 <= i < |fs| ensures Replace(fs[i].val, []) == fs[i].val {
        ReplaceUnbound(fs[i].val);
      }
      assert ReplaceFields(fs, []) == fs;
    case _ =>
  }

  /** `?userId` becomes the raw number bound to `userId`. */
  lemma ReplaceWholeReference(b: Object, name: string, v: Value)
    requires '.' !in name
    requires Get(b, name) == Some(v)
    ensures Replace(Str("?" + name), b) == v
  {
    assert ("?" + name)[1..] == name;
    GetNestedSimple(b, name);
  }

  /** `?user.profile.name` descends one nested object per segment. */
  lemma ReplaceNestedReference(b: Object, first: string, rest: string, inner: Object, v: Value)
    requires '.' !in first
    requires Get(b, first) == Some(Obj(inner))
    requires GetNested(inner, rest) == Some(v)
    ensures Replace(Str("?" + first + "." + rest), b) == v
  {
    var path := first + "." + rest;
    GetNestedDotted(b, first, rest, inner);
    assert "?" + first + "." + rest == "?" + path;
    ReplaceReference(b, path, v);
  }

  /** A string that is a whole `?` reference becomes the value it reaches. */
  lemma ReplaceReference(b: Object, path: string, v: Value)
    requires GetNested(b, path) == Some(v)
    ensures Replace(Str("?" + path), b) == v
  {
    assert ("?" + path)[1..] == path;
  }
}
