/** JavaScript values as the engine and the concepts see them: the JSON
    fragment (null, booleans, integers, strings, arrays, plain objects).
    An object keeps its properties in insertion order, as JavaScript does
    for non-index keys; `undefined` is the absence of a property (`None`). */
module Json {
  import opened Wrappers

  datatype Value =
    | Null
    | Bool(b: bool)
    | Int(i: int)
    | Str(s: string)
    | Arr(items: seq<Value>)
    | Obj(fields: seq<Field>)

  datatype Field = Field(key: string, val: Value)

  /** A plain object: its properties in insertion order. */
  type Object = seq<Field>

  function Keys(o: Object): (ks: seq<string>)
    ensures |ks| == |o|
    ensures forall i :: 0 <= i < |o| ==> ks[i] == o[i].key
  {
    if o == [] then [] else [o[0].key] + Keys(o[1..])
  }

  /** A well-formed object never has a key twice. */
  predicate UniqueKeys(o: Object) {
    forall i, j :: 0 <= i < j < |o| ==> o[i].key != o[j].key
  }

  /** `o[k]`: the value of property `k`, or `None` for `undefined`. */
  function Get(o: Object, k: string): (r: Option<Value>)
    ensures r.Some? <==> k in Keys(o)
    ensures r.Some? ==> Field(k, r.value) in o
  {
    if o == [] then None
    else if o[0].key == k then Some(o[0].val)
    else Get(o[1..], k)
  }

  /** `o[k] = v`: an existing property keeps its place, a new one is appended. */
  function Put(o: Object, k: string, v: Value): (r: Object)
  {
    if o == [] then [Field(k, v)]
    else if o[0].key == k then [Field(k, v)] + o[1..]
    else [o[0]] + Put(o[1..], k, v)
  }

  /** `{...a, ...b}`: the properties of `b` written over those of `a`, in order. */
  function Merge(a: Object, b: Object): (r: Object)
    decreases |b|
  {
    if b == [] then a else Merge(Put(a, b[0].key, b[0].val), b[1..])
  }

  lemma {:induction false} PutGet(o: Object, k: string, v: Value, k': string)
    ensures Get(Put(o, k, v), k') == if k' == k then Some(v) else Get(o, k')
  {
    if o != [] && o[0].key != k {
      PutGet(o[1..], k, v, k');
      assert Put(o, k, v)[1..] == Put(o[1..], k, v);
    }
  }

  lemma {:induction false} PutKeys(o: Object, k: string, v: Value)
    ensures Keys(Put(o, k, v)) == if k in Keys(o) then Keys(o) else Keys(o) + [k]
  {
    if o != [] {
      var r := Put(o, k, v);
      assert Keys(o) == [o[0].key] + Keys(o[1..]);
      assert Keys(r) == [r[0].key] + Keys(r[1..]);
      if o[0].key == k {
        assert r[1..] == o[1..];
      } else {
        PutKeys(o[1..], k, v);
        assert r[1..] == Put(o[1..], k, v);
        assert k in Keys(o) <==> k in Keys(o[1..]);
        if k !in Keys(o) {
          assert [o[0].key] + (Keys(o[1..]) + [k]) == ([o[0].key] + Keys(o[1..])) + [k];
        }
      }
    }
  }

  lemma PutUnique(o: Object, k: string, v: Value)
    requires UniqueKeys(o)
    ensures UniqueKeys(Put(o, k, v))
  {
    PutKeys(o, k, v);
    var r := Put(o, k, v);
    forall i, j | 0 <= i < j < |r| ensures r[i].key != r[j].key {
      assert Keys(r)[i] == r[i].key && Keys(r)[j] == r[j].key;
      if k !in Keys(o) && j == |o| {
        assert Keys(o)[i] == r[i].key;
      } else {
        assert Keys(o)[i] == r[i].key && Keys(o)[j] == r[j].key;
        assert o[i].key == r[i].key && o[j].key == r[j].key;
      }
    }
  }

  /** In an object without repeated keys, a property's value is the one
      at its position. */
  lemma {:induction false} GetAt(o: Object, i: nat)
    requires UniqueKeys(o) && i < |o|
    ensures Get(o, o[i].key) == Some(o[i].val)
  {
    if i > 0 {
      assert o[0].key != o[i].key;
      forall a, b | 0 <= a < b < |o[1..]| ensures o[1..][a].key != o[1..][b].key {
        assert o[1..][a] == o[a + 1] && o[1..][b] == o[b + 1];
      }
      GetAt(o[1..], i - 1);
      assert o[1..][i - 1] == o[i];
    }
  }

  /** Spreading `b` over `a`: `b`'s properties win, the others come from `a`. */
  lemma {:induction false} MergeGet(a: Object, b: Object, k: string)
    requires UniqueKeys(b)
    ensures Get(Merge(a, b), k) == if k in Keys(b) then Get(b, k) else Get(a, k)
    decreases |b|
  {
    if b != [] {
      var a' := Put(a, b[0].key, b[0].val);
      MergeGet(a', b[1..], k);
      PutGet(a, b[0].key, b[0].val, k);
      assert Keys(b) == [b[0].key] + Keys(b[1..]);
      if k == b[0].key {
        assert k !in Keys(b[1..]) by {
          forall i | 0 <= i < |b[1..]| ensures Keys(b[1..])[i] != k {
            assert b[1..][i] == b[i + 1];
          }
        }
      }
    }
  }

  lemma {:induction false} MergeUnique(a: Object, b: Object)
    requires UniqueKeys(a)
    ensures UniqueKeys(Merge(a, b))
    decreases |b|
  {
    if b != [] {
      PutUnique(a, b[0].key, b[0].val);
      MergeUnique(Put(a, b[0].key, b[0].val), b[1..]);
    }
  }

  /** JavaScript truthiness of a present value. */
  predicate Truthy(v: Value) {
    match v
    case Null => false
    case Bool(b) => b
    case Int(i) => i != 0
    case Str(s) => s != ""
    case Arr(_) => true
    case Obj(_) => true
  }

  /** `typeof v === "object"` for a present value that is not null. */
  predicate IsObjectLike(v: Value) {
    v.Arr? || v.Obj?
  }

  /** Strict equality `===`: primitives compare by value; two arrays or
      objects are equal only when they are the same reference, which a
      pattern literal and a recorded value never are. */
  predicate StrictEq(a: Value, b: Value) {
    !IsObjectLike(a) && a == b
  }

  /** An array seen as an object: its indices become its keys. */
  function IndexFields(items: seq<Value>): (o: Object)
    ensures |o| == |items|
    ensures forall i :: 0 <= i < |items| ==> o[i] == Field(NatToString(i), items[i])
  {
    seq(|items|, i requires 0 <= i < |items| => Field(NatToString(i), items[i]))
  }

  /** The own enumerable properties of a value, as read by `{...v}` and by
      `Object.entries`: an object's fields, an array's indices, nothing else. */
  function AsObject(v: Value): (o: Object)
    ensures v.Obj? ==> o == v.fields
    ensures !IsObjectLike(v) ==> o == []
  {
    match v
    case Obj(fs) => fs
    case Arr(items) => IndexFields(items)
    case _ => []
  }

  function DigitChar(d: nat): (c: char)
    requires d < 10
    ensures '0' <= c <= '9'
  {
    "0123456789"[d]
  }

  predicate IsDigit(c: char) {
    '0' <= c <= '9'
  }

  function DigitValue(c: char): (d: nat)
    requires IsDigit(c)
    ensures d < 10
  {
    (c as int - '0' as int) as nat
  }

  /** Decimal representation, as `String(n)` prints a non-negative integer. */
  function NatToString(n: nat): (s: string)
    ensures |s| > 0
    ensures forall i :: 0 <= i < |s| ==> IsDigit(s[i])
  {
    if n < 10 then [DigitChar(n)] else NatToString(n / 10) + [DigitChar(n % 10)]
  }

  function IntToString(i: int): (s: string)
    ensures |s| > 0
  {
    if i < 0 then "-" + NatToString(-i) else NatToString(i)
  }

  /** `parseInt` of a run of decimal digits. */
  function DigitsValue(s: string): (n: nat)
    requires forall i :: 0 <= i < |s| ==> IsDigit(s[i])
  {
    if s == [] then 0 else DigitsValue(s[..|s| - 1]) * 10 + DigitValue(s[|s| - 1])
  }

  lemma {:induction false} DigitsOfNat(n: nat)
    ensures DigitsValue(NatToString(n)) == n
  {
    var s := NatToString(n);
    if n >= 10 {
      DigitsOfNat(n / 10);
      assert s[..|s| - 1] == NatToString(n / 10);
      assert DigitValue(DigitChar(n % 10)) == n % 10;
    } else {
      assert DigitValue(DigitChar(n)) == n;
    }
  }

  /** `parts.join(sep)`. */
  function Join(parts: seq<string>, sep: char): string
  {
    if |parts| == 0 then ""
    else if |parts| == 1 then parts[0]
    else parts[0] + [sep] + Join(parts[1..], sep)
  }

  /** `s.split(sep)` for a one-character separator: never empty, the empty
      string splits to `[""]`. */
  function Split(s: string, sep: char): (parts: seq<string>)
    ensures |parts| > 0
  {
    if s == [] then [""]
    else
      var rest := Split(s[1..], sep);
      if s[0] == sep then [""] + rest else [[s[0]] + rest[0]] + rest[1..]
  }

  /** A string without the separator splits to itself. */
  lemma {:induction false} SplitNoSep(s: string, sep: char)
    requires sep !in s
    ensures Split(s, sep) == [s]
  {
    if s != [] {
      assert sep !in s[1..];
      SplitNoSep(s[1..], sep);
      assert s == [s[0]] + s[1..];
    }
  }

  /** A split of `first` + separator + `rest`, where `first` has no
      separator, starts with `first`. */
  lemma {:induction false} SplitPrefix(first: string, rest: string, sep: char)
    requires sep !in first
    ensures Split(first + [sep] + rest, sep) == [first] + Split(rest, sep)
  {
    if first == [] {
      assert ([] + [sep] + rest)[1..] == rest;
    } else {
      assert sep !in first[1..];
      SplitPrefix(first[1..], rest, sep);
      assert (first + [sep] + rest)[1..] == first[1..] + [sep] + rest;
      assert [first[0]] + first[1..] == first;
    }
  }

  /** Splitting and re-joining on the same separator gives back the string. */
  lemma {:induction false} JoinSplit(s: string, sep: char)
    ensures Join(Split(s, sep), sep) == s
  {
    if s != [] {
      var rest := Split(s[1..], sep);
      JoinSplit(s[1..], sep);
      if s[0] == sep {
        assert Split(s, sep) == [""] + rest;
        assert Join([""] + rest, sep) == "" + [sep] + Join(rest, sep);
      } else {
        var parts := Split(s, sep);
        assert parts == [[s[0]] + rest[0]] + rest[1..];
        if |rest| == 1 {
          assert Join(parts, sep) == [s[0]] + rest[0];
        } else {
          assert parts[1..] == rest[1..];
          assert Join(rest, sep) == rest[0] + [sep] + Join(rest[1..], sep);
        }
      }
    }
  }

  /** No piece of a split contains the separator. */
  lemma {:induction false} SplitPieces(s: string, sep: char)
    ensures forall i :: 0 <= i < |Split(s, sep)| ==> sep !in Split(s, sep)[i]
  {
    if s != [] {
      SplitPieces(s[1..], sep);
      var rest := Split(s[1..], sep);
      if s[0] != sep {
        assert sep !in [s[0]] + rest[0];
        var parts := Split(s, sep);
        forall i | 0 <= i < |parts| ensures sep !in parts[i] {
          if i > 0 { assert parts[i] == rest[i]; }
        }
      }
    }
  }

  /** `String(v)`: how a value is interpolated into a string. Arrays print
      their elements joined by commas, with null elements printed empty. */
  function ToJsString(v: Value): string
  {
    match v
    case Null => "null"
    case Bool(b) => if b then "true" else "false"
    case Int(i) => IntToString(i)
    case Str(s) => s
    case Obj(_) => "[object Object]"
    case Arr(items) =>
      Join(seq(|items|, i requires 0 <= i < |items| =>
                 if items[i].Null? then "" else ToJsString(items[i])), ',')
  }
}
