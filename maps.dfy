/** Facts about string-to-string maps that the example concepts use for
    their uniqueness checks (`[...m.values()].includes(v)`). */
module Maps {
  /** No two keys of `m` are mapped to the same value. */
  predicate Injective(m: map<string, string>) {
    forall a, b :: a in m && b in m && a != b ==> m[a] != m[b]
  }

  /** Giving a key a value no key has yet keeps the values unique, whether
      or not the key was there before. */
  lemma FreshValueInjective(m: map<string, string>, k: string, v: string)
    requires Injective(m) && v !in m.Values
    ensures Injective(m[k := v])
  {
    var m' := m[k := v];
    forall a, b | a in m' && b in m' && a != b
      ensures m'[a] != m'[b]
    {
      if a != k && b != k {
        assert m'[a] == m[a] && m'[b] == m[b];
      } else if a == k {
        assert m[b] in m.Values;
      } else {
        assert m[a] in m.Values;
      }
    }
  }
}
