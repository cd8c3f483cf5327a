/** Python's insertion-ordered `dict` with string keys, as a sequence of entries.
    Assigning to a present key keeps its place; a new key goes to the end; `pop`
    removes the entry. */
module PyDict {
  import opened Wrappers
  import opened SeqUtil

  type Dict<V> = seq<(string, V)>

  function Keys<V>(d: Dict<V>): (r: seq<string>)
    ensures |r| == |d| && forall j :: 0 <= j < |d| ==> r[j] == d[j].0
  {
    if d == [] then [] else [d[0].0] + Keys(d[1..])
  }

  /** No key appears twice, as in every dictionary Python builds. */
  predicate UniqueKeys<V>(d: Dict<V>) {
    d == [] || (d[0].0 !in Keys(d[1..]) && UniqueKeys(d[1..]))
  }

  /** Unique keys are distinct keys. */
  lemma {:induction false} UniqueKeysDistinct<V>(d: Dict<V>)
    ensures UniqueKeys(d) <==> Distinct(Keys(d))
  {
    if d != [] {
      UniqueKeysDistinct(d[1..]);
      assert Keys(d)[1..] == Keys(d[1..]);
    }
  }

  /** `d.get(k)`. */
  function Get<V>(d: Dict<V>, k: string): (r: Option<V>)
    ensures r.None? <==> k !in Keys(d)
    ensures r.Some? ==> (k, r.value) in d
  {
    if d == [] then None
    else if d[0].0 == k then Some(d[0].1)
    else Get(d[1..], k)
  }

  /** `d.get(k, default)`. */
  function GetOr<V>(d: Dict<V>, k: string, default: V): (r: V)
    ensures k !in Keys(d) ==> r == default
    ensures k in Keys(d) ==> Some(r) == Get(d, k)
  {
    match Get(d, k)
    case None => default
    case Some(v) => v
  }

  /** `d[k] = v`. */
  function Set<V>(d: Dict<V>, k: string, v: V): Dict<V>
  {
    if d == [] then [(k, v)]
    else if d[0].0 == k then [(k, v)] + d[1..]
    else [d[0]] + Set(d[1..], k, v)
  }

  /** `d[k] = v` keeps the keys in place, appending `k` when it is new. */
  lemma {:induction false} SetKeys<V>(d: Dict<V>, k: string, v: V)
    ensures Keys(Set(d, k, v)) == if k in Keys(d) then Keys(d) else Keys(d) + [k]
  {
    if d != [] && d[0].0 != k {
      SetKeys(d[1..], k, v);
      assert Keys(d) == [d[0].0] + Keys(d[1..]);
      assert Keys(Set(d, k, v)) == [d[0].0] + Keys(Set(d[1..], k, v));
    }
  }

  /** `del d[k]`, the removal half of `d.pop(k)`. */
  function Pop<V>(d: Dict<V>, k: string): (r: Dict<V>)
    ensures |r| <= |d|
  {
    if d == [] then []
    else if d[0].0 == k then d[1..]
    else [d[0]] + Pop(d[1..], k)
  }

  /** After `d[k] = v`, `k` maps to `v` and every other key keeps its value. */
  lemma {:induction false} SetGet<V>(d: Dict<V>, k: string, v: V, k': string)
    ensures Get(Set(d, k, v), k') == if k' == k then Some(v) else Get(d, k')
  {
    if d != [] && d[0].0 != k {
      SetGet(d[1..], k, v, k');
      assert Set(d, k, v)[1..] == Set(d[1..], k, v);
    }
  }

  /** After removing `k`, it is absent and every other key keeps its value. */
  lemma {:induction false} PopGet<V>(d: Dict<V>, k: string, k': string)
    requires UniqueKeys(d)
    ensures Get(Pop(d, k), k') == if k' == k then None else Get(d, k')
  {
    if d != [] {
      if d[0].0 == k {
        if k' == k {
          assert k !in Keys(d[1..]);
        }
      } else {
        PopGet(d[1..], k, k');
        assert Pop(d, k)[1..] == Pop(d[1..], k);
      }
    }
  }

  /** Removing `k` keeps the other keys, in order. */
  lemma {:induction false} PopKeys<V>(d: Dict<V>, k: string)
    ensures forall k' :: k' in Keys(Pop(d, k)) ==> k' in Keys(d)
    ensures UniqueKeys(d) ==> k !in Keys(Pop(d, k))
  {
    if d != [] {
      PopKeys(d[1..], k);
      if d[0].0 != k {
        assert Keys(Pop(d, k)) == [d[0].0] + Keys(Pop(d[1..], k));
      } else if UniqueKeys(d) {
        assert k !in Keys(d[1..]);
      }
    }
  }

  lemma {:induction false} PopUnique<V>(d: Dict<V>, k: string)
    requires UniqueKeys(d)
    ensures UniqueKeys(Pop(d, k))
  {
    if d != [] && d[0].0 != k {
      PopUnique(d[1..], k);
      PopKeys(d[1..], k);
      var r := Pop(d, k);
      assert r == [d[0]] + Pop(d[1..], k);
      assert d[0].0 !in Keys(d[1..]);
      assert d[0].0 !in Keys(Pop(d[1..], k));
    }
  }

  lemma {:induction false} SetUnique<V>(d: Dict<V>, k: string, v: V)
    requires UniqueKeys(d)
    ensures UniqueKeys(Set(d, k, v))
  {
    if d != [] && d[0].0 != k {
      SetUnique(d[1..], k, v);
      SetKeys(d[1..], k, v);
      var r := Set(d, k, v);
      assert r == [d[0]] + Set(d[1..], k, v);
      assert d[0].0 !in Keys(d[1..]);
      assert d[0].0 !in Keys(Set(d[1..], k, v));
    }
  }

  lemma {:induction false} KeysConcat<V>(a: Dict<V>, b: Dict<V>)
    ensures Keys(a + b) == Keys(a) + Keys(b)
  {
    var r, s := Keys(a + b), Keys(a) + Keys(b);
    forall j | 0 <= j < |r| ensures r[j] == s[j] {
      if j < |a| {
        assert (a + b)[j] == a[j];
      } else {
        assert (a + b)[j] == b[j - |a|];
      }
    }
  }
}
