/** JavaScript plain objects used as dictionaries (`Record<string, V>`): string
    keys kept in insertion order, as `Object.keys` and `Object.entries` report
    them. Assigning an existing key replaces its value in place; assigning a
    new key appends it; `delete` removes it. */
module Records {
  import opened Wrappers

  type Record<V> = seq<(string, V)>

  /** `Object.keys(r)`. */
  function Keys<V>(r: Record<V>): (ks: seq<string>)
    ensures |ks| == |r|
    ensures forall i :: 0 <= i < |r| ==> ks[i] == r[i].0
  {
    if |r| == 0 then [] else [r[0].0] + Keys(r[1..])
  }

  /** `k in r`. */
  predicate HasKey<V>(r: Record<V>, k: string)
  {
    k in Keys(r)
  }

  /** `r[k]`: the value under the key, or `undefined`. */
  function Get<V>(r: Record<V>, k: string): (v: Option<V>)
    ensures v.None? <==> !HasKey(r, k)
    ensures v.Some? ==> (k, v.value) in r
  {
    if |r| == 0 then None
    else if r[0].0 == k then Some(r[0].1)
    else Get(r[1..], k)
  }

  /** `r[k] = v`: replaces the value in place, or appends the key. */
  function Put<V>(r: Record<V>, k: string, v: V): (r': Record<V>)
    ensures |r'| == if HasKey(r, k) then |r| else |r| + 1
  {
    if |r| == 0 then [(k, v)]
    else if r[0].0 == k then [(k, v)] + r[1..]
    else [r[0]] + Put(r[1..], k, v)
  }

  /** `r[k] ??= v`: assigns only when the key holds nothing. */
  function PutIfAbsent<V>(r: Record<V>, k: string, v: V): (r': Record<V>)
    ensures HasKey(r, k) ==> r' == r
  {
    if HasKey(r, k) then r else Put(r, k, v)
  }

  /** `delete r[k]`. */
  function Delete<V>(r: Record<V>, k: string): (r': Record<V>)
    ensures !HasKey(r', k)
    ensures |r'| <= |r|
  {
    if |r| == 0 then []
    else if r[0].0 == k then Delete(r[1..], k)
    else [r[0]] + Delete(r[1..], k)
  }

  /** After `r[k] = v` the key holds `v` and every other key is untouched. */
  lemma {:induction false} PutGet<V>(r: Record<V>, k: string, v: V, k': string)
    ensures Get(Put(r, k, v), k') == if k' == k then Some(v) else Get(r, k')
  {
    if |r| > 0 && r[0].0 != k {
      PutGet(r[1..], k, v, k');
    }
  }

  /** Assigning an existing key keeps the key order; a new key goes last. */
  lemma {:induction false} PutKeys<V>(r: Record<V>, k: string, v: V)
    ensures Keys(Put(r, k, v)) == if HasKey(r, k) then Keys(r) else Keys(r) + [k]
  {
    if |r| > 0 && r[0].0 != k {
      PutKeys(r[1..], k, v);
      assert Keys(Put(r, k, v)) == [r[0].0] + Keys(Put(r[1..], k, v));
    }
  }

  /** `??=` on a key that holds nothing appends it with the value. */
  lemma PutIfAbsentNew<V>(r: Record<V>, k: string, v: V)
    requires !HasKey(r, k)
    ensures PutIfAbsent(r, k, v) == r + [(k, v)]
  {
    PutNew(r, k, v);
  }

  lemma {:induction false} PutNew<V>(r: Record<V>, k: string, v: V)
    requires !HasKey(r, k)
    ensures Put(r, k, v) == r + [(k, v)]
  {
    if |r| > 0 {
      PutNew(r[1..], k, v);
      assert [r[0]] + (r[1..] + [(k, v)]) == r + [(k, v)];
    }
  }

  /** `delete` leaves every other key untouched. */
  lemma {:induction false} DeleteGet<V>(r: Record<V>, k: string, k': string)
    requires k' != k
    ensures Get(Delete(r, k), k') == Get(r, k')
  {
    if |r| > 0 {
      DeleteGet(r[1..], k, k');
    }
  }
}
