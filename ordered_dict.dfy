/** Python's insertion-ordered `dict` with string keys, as a sequence of
    key/value pairs. Used both for parsed JSON objects and for request headers. */
module OrderedDict {
  import opened Wrappers

  type Dict<V> = seq<(string, V)>

  function Keys<V>(d: Dict<V>): (ks: seq<string>)
    ensures |ks| == |d|
    ensures forall i :: 0 <= i < |d| ==> ks[i] == d[i].0
  {
    if d == [] then [] else [d[0].0] + Keys(d[1..])
  }

  ghost predicate UniqueKeys<V>(d: Dict<V>) {
    forall i, j :: 0 <= i < j < |d| ==> d[i].0 != d[j].0
  }

  /** `d.get(k)`. */
  function Get<V>(d: Dict<V>, k: string): Option<V> {
    if d == [] then None else if d[0].0 == k then Some(d[0].1) else Get(d[1..], k)
  }

  /** `d[k] = v`: an existing key keeps its position, a new key goes last. */
  function Set<V>(d: Dict<V>, k: string, v: V): Dict<V> {
    if d == [] then [(k, v)]
    else if d[0].0 == k then [(k, v)] + d[1..]
    else [d[0]] + Set(d[1..], k, v)
  }

  /** `d.update(e)`: the entries of `e` are assigned one after the other. */
  function Update<V>(d: Dict<V>, e: Dict<V>): Dict<V>
    decreases |e|
  {
    if e == [] then d else Update(Set(d, e[0].0, e[0].1), e[1..])
  }

  lemma {:induction false} GetSome<V>(d: Dict<V>, k: string)
    ensures Get(d, k).Some? <==> k in Keys(d)
  {
    if d != [] {
      GetSome(d[1..], k);
      assert Keys(d) == [d[0].0] + Keys(d[1..]);
    }
  }

  /** After `d[k] = v`, reading `k` gives `v` and every other key reads as before. */
  lemma {:induction false} GetSet<V>(d: Dict<V>, k: string, v: V, k': string)
    ensures Get(Set(d, k, v), k') == if k' == k then Some(v) else Get(d, k')
  {
    if d != [] && d[0].0 != k {
      GetSet(d[1..], k, v, k');
    }
  }

  /** `d[k] = v` replaces the value in place when `k` is present and appends it otherwise. */
  lemma {:induction false} SetKeys<V>(d: Dict<V>, k: string, v: V)
    ensures Keys(Set(d, k, v)) == if k in Keys(d) then Keys(d) else Keys(d) + [k]
  {
    if d != [] {
      assert Keys(d) == [d[0].0] + Keys(d[1..]);
      if d[0].0 != k {
        SetKeys(d[1..], k, v);
        assert Keys(Set(d, k, v)) == [d[0].0] + Keys(Set(d[1..], k, v));
      }
    }
  }

  lemma {:induction false} SetUnique<V>(d: Dict<V>, k: string, v: V)
    requires UniqueKeys(d)
    ensures UniqueKeys(Set(d, k, v))
  {
    SetKeys(d, k, v);
    var r := Set(d, k, v);
    var ks := Keys(r);
    forall i, j | 0 <= i < j < |r| ensures r[i].0 != r[j].0 {
      assert ks[i] == r[i].0 && ks[j] == r[j].0;
      if k !in Keys(d) && j == |d| {
        assert ks[i] == Keys(d)[i];
      } else {
        assert ks[i] == Keys(d)[i] && ks[j] == Keys(d)[j];
      }
    }
  }

  /** `d.update(e)` makes every key of `e` read as its last value in `e`, and
      leaves keys that `e` does not mention untouched. */
  lemma {:induction false} GetUpdate<V>(d: Dict<V>, e: Dict<V>, k: string)
    ensures Get(Update(d, e), k) == if k in Keys(e) then Some(LastValue(e, k)) else Get(d, k)
    decreases |e|
  {
    if e != [] {
      GetUpdate(Set(d, e[0].0, e[0].1), e[1..], k);
      GetSet(d, e[0].0, e[0].1, k);
      assert Keys(e) == [e[0].0] + Keys(e[1..]);
    }
  }

  /** The value the last entry for `k` in `e` carries. */
  function LastValue<V>(e: Dict<V>, k: string): V
    requires k in Keys(e)
    decreases |e|
  {
    assert Keys(e) == [e[0].0] + Keys(e[1..]);
    if k in Keys(e[1..]) then LastValue(e[1..], k) else e[0].1
  }
}
