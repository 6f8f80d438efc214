/**
 * Python dictionaries as association lists: keys in insertion order,
 * assigning to an existing key keeps its position, a new key goes last.
 */
module Dict {
  import opened Wrappers

  type Dict<K, V> = seq<(K, V)>

  function Keys<K, V>(d: Dict<K, V>): (ks: seq<K>)
    ensures |ks| == |d| && forall i :: 0 <= i < |d| ==> ks[i] == d[i].0
  {
    if d == [] then [] else [d[0].0] + Keys(d[1..])
  }

  function Values<K, V>(d: Dict<K, V>): (vs: seq<V>)
    ensures |vs| == |d| && forall i :: 0 <= i < |d| ==> vs[i] == d[i].1
  {
    seq(|d|, i requires 0 <= i < |d| => d[i].1)
  }

  /** No key occurs twice, as in every Python dict. */
  predicate Unique<K(==), V>(d: Dict<K, V>) {
    forall i, j :: 0 <= i < j < |d| ==> d[i].0 != d[j].0
  }

  /** `d.get(k)`. */
  function Get<K(==), V>(d: Dict<K, V>, k: K): (r: Option<V>)
  {
    if d == [] then None
    else if d[0].0 == k then Some(d[0].1)
    else Get(d[1..], k)
  }

  /** `d.get(k)` is `None` exactly when no entry has key `k`. */
  lemma {:induction false} GetNone<K, V>(d: Dict<K, V>, k: K)
    ensures Get(d, k).None? <==> forall i :: 0 <= i < |d| ==> d[i].0 != k
  {
    if d != [] && d[0].0 != k {
      GetNone(d[1..], k);
      assert forall i :: 1 <= i < |d| ==> d[i] == d[1..][i - 1];
    }
  }

  /** What `d.get(k)` finds is an entry of `d`. */
  lemma {:induction false} GetFound<K, V>(d: Dict<K, V>, k: K)
    requires Get(d, k).Some?
    ensures (k, Get(d, k).value) in d
  {
    if d[0].0 != k {
      GetFound(d[1..], k);
    }
  }

  /** `d.get(k, default)`. */
  function GetOr<K(==), V>(d: Dict<K, V>, k: K, default: V): V {
    match Get(d, k)
    case Some(v) => v
    case None => default
  }

  /** `d[k] = v`. */
  function Set<K(==), V>(d: Dict<K, V>, k: K, v: V): (r: Dict<K, V>)
    ensures Get(r, k) == Some(v)
    ensures |r| == if Get(d, k).Some? then |d| else |d| + 1
  {
    if d == [] then [(k, v)]
    else if d[0].0 == k then [(k, v)] + d[1..]
    else
      var t := Set(d[1..], k, v);
      assert ([d[0]] + t)[1..] == t;
      [d[0]] + t
  }

  /** Setting `k` leaves every other key's value as it was. */
  lemma {:induction false} SetOther<K, V>(d: Dict<K, V>, k: K, v: V, k': K)
    requires k' != k
    ensures Get(Set(d, k, v), k') == Get(d, k')
  {
    if d != [] && d[0].0 != k {
      var t := Set(d[1..], k, v);
      assert Set(d, k, v) == [d[0]] + t;
      assert ([d[0]] + t)[1..] == t;
      SetOther(d[1..], k, v, k');
    } else if d != [] {
      assert Set(d, k, v)[1..] == d[1..];
    }
  }

  /** Setting an existing key keeps the key order; a new key is appended. */
  lemma {:induction false} SetKeys<K, V>(d: Dict<K, V>, k: K, v: V)
    ensures Keys(Set(d, k, v)) == if k in Keys(d) then Keys(d) else Keys(d) + [k]
  {
    if d != [] {
      if d[0].0 != k {
        var t := Set(d[1..], k, v);
        assert Set(d, k, v) == [d[0]] + t;
        assert ([d[0]] + t)[1..] == t;
        SetKeys(d[1..], k, v);
      } else {
        var r := [(k, v)] + d[1..];
        assert Set(d, k, v) == r;
        assert r[1..] == d[1..];
      }
    }
  }

  lemma SetUnique<K, V>(d: Dict<K, V>, k: K, v: V)
    requires Unique(d)
    ensures Unique(Set(d, k, v))
  {
    var r := Set(d, k, v);
    SetKeys(d, k, v);
    var kd, kr := Keys(d), Keys(r);
    forall i, j | 0 <= i < j < |r| ensures r[i].0 != r[j].0 {
      assert kr[i] == r[i].0 && kr[j] == r[j].0;
      if k in kd {
        assert kr == kd;
      } else {
        assert kr == kd + [k];
        if j < |d| { assert kd[i] == d[i].0 && kd[j] == d[j].0; }
      }
    }
  }

  /** `d.update(e)`: every entry of `e`, in order, assigned into `d`. */
  function Update<K(==), V>(d: Dict<K, V>, e: Dict<K, V>): Dict<K, V>
    decreases |e|
  {
    if e == [] then d else Update(Set(d, e[0].0, e[0].1), e[1..])
  }

  /** After `d.update(e)` a key has its value from `e` if `e` has it, else its value from `d`. */
  lemma {:induction false} UpdateGet<K, V>(d: Dict<K, V>, e: Dict<K, V>, k: K)
    requires Unique(e)
    ensures Get(Update(d, e), k) == if Get(e, k).Some? then Get(e, k) else Get(d, k)
    decreases |e|
  {
    if e != [] {
      var d' := Set(d, e[0].0, e[0].1);
      assert Unique(e[1..]);
      UpdateGet(d', e[1..], k);
      if e[0].0 == k {
        GetNone(e[1..], k);
        assert Get(e[1..], k).None?;
      } else {
        SetOther(d, e[0].0, e[0].1, k);
      }
    }
  }

  /** `sum(d.values())`. */
  function Sum<K>(d: Dict<K, int>): int {
    if d == [] then 0 else d[0].1 + Sum(d[1..])
  }

  /** Assigning `v` to a key replaces its old value (0 when absent) in the sum. */
  lemma {:induction false} SumSet<K>(d: Dict<K, int>, k: K, v: int)
    ensures Sum(Set(d, k, v)) == Sum(d) - GetOr(d, k, 0) + v
  {
    if d != [] && d[0].0 != k {
      var t := Set(d[1..], k, v);
      assert Set(d, k, v) == [d[0]] + t;
      assert ([d[0]] + t)[1..] == t;
      SumSet(d[1..], k, v);
    } else if d != [] {
      assert ([(k, v)] + d[1..])[1..] == d[1..];
    }
  }

  /** Adding `x` to the value of one key adds `x` to the sum of all values. */
  lemma SumAdd<K>(d: Dict<K, int>, k: K, x: int)
    ensures Sum(Set(d, k, GetOr(d, k, 0) + x)) == Sum(d) + x
  {
    SumSet(d, k, GetOr(d, k, 0) + x);
  }

  /** Looking a key up after appending an entry: earlier entries win. */
  lemma {:induction false} GetAppend<K, V>(d: Dict<K, V>, k: K, v: V, k': K)
    ensures Get(d + [(k, v)], k') == if Get(d, k').Some? then Get(d, k') else if k == k' then Some(v) else None
  {
    if d != [] {
      assert (d + [(k, v)])[1..] == d[1..] + [(k, v)];
      GetAppend(d[1..], k, v, k');
    }
  }

  /** Assigning a key the dict does not have appends it at the end. */
  lemma {:induction false} SetNew<K, V>(d: Dict<K, V>, k: K, v: V)
    requires Get(d, k).None?
    ensures Set(d, k, v) == d + [(k, v)]
  {
    if d != [] {
      SetNew(d[1..], k, v);
      assert [d[0]] + (d[1..] + [(k, v)]) == d + [(k, v)];
    }
  }

  /** Assigning a key twice keeps only the second value. */
  lemma {:induction false} SetSet<K, V>(d: Dict<K, V>, k: K, v: V, w: V)
    ensures Set(Set(d, k, v), k, w) == Set(d, k, w)
  {
    if d != [] && d[0].0 != k {
      var t := Set(d[1..], k, v);
      assert Set(d, k, v) == [d[0]] + t;
      assert ([d[0]] + t)[1..] == t;
      SetSet(d[1..], k, v, w);
    } else if d != [] {
      assert Set(d, k, v)[1..] == d[1..];
    }
  }

  /** In a dict without repeated keys, looking up an entry's key finds that entry. */
  lemma GetIndex<K, V>(d: Dict<K, V>, i: nat)
    requires Unique(d) && i < |d|
    ensures Get(d, d[i].0) == Some(d[i].1)
  {
    if i > 0 {
      assert d[0].0 != d[i].0;
      assert Unique(d[1..]);
      assert d[1..][i - 1] == d[i];
      GetIndex(d[1..], i - 1);
    }
  }

  /** Looking up a key finds its first entry. */
  lemma {:induction false} GetFirst<K, V>(d: Dict<K, V>, i: nat, k: K)
    requires i < |d| && d[i].0 == k
    requires forall j :: 0 <= j < i ==> d[j].0 != k
    ensures Get(d, k) == Some(d[i].1)
  {
    if i > 0 {
      assert d[1..][i - 1] == d[i];
      GetFirst(d[1..], i - 1, k);
    }
  }

  /** The dict built from a list of keys and a list of values of the same length. */
  function Zip<K, V>(ks: seq<K>, vs: seq<V>): (r: Dict<K, V>)
    requires |ks| == |vs|
    ensures |r| == |ks|
    ensures forall i :: 0 <= i < |ks| ==> r[i] == (ks[i], vs[i])
  {
    seq(|ks|, i requires 0 <= i < |ks| => (ks[i], vs[i]))
  }

  /** Looking up a key of a zipped dict finds the value of its first occurrence. */
  lemma ZipGet<K, V>(ks: seq<K>, vs: seq<V>, i: nat)
    requires |ks| == |vs| && i < |ks|
    requires forall j :: 0 <= j < i ==> ks[j] != ks[i]
    ensures Get(Zip(ks, vs), ks[i]) == Some(vs[i])
  {
    GetFirst(Zip(ks, vs), i, ks[i]);
  }

  /** A key that is not among the zipped keys is not found. */
  lemma ZipMissing<K, V>(ks: seq<K>, vs: seq<V>, k: K)
    requires |ks| == |vs| && k !in ks
    ensures Get(Zip(ks, vs), k).None?
  {
    GetNone(Zip(ks, vs), k);
  }
}
