/**
 * The ordered map `BTreeMap<i64, u32>` that holds the tempo map: a sequence of entries in
 * strictly increasing key order. Only the operations the ingest and the lookup use are
 * modelled: `get`, `insert`, `len` and `range(..=t).next_back()`.
 */
module OrderedMap {
  import opened Wrappers

  datatype Entry = Entry(key: int, value: int)

  predicate Sorted(m: seq<Entry>)
  {
    forall i, j :: 0 <= i < j < |m| ==> m[i].key < m[j].key
  }

  /** The map invariant of a BTreeMap: keys are strictly increasing, hence distinct. */
  type Map = m: seq<Entry> | Sorted(m)

  function Keys(m: seq<Entry>): set<int>
  {
    set e | e in m :: e.key
  }

  function Get(m: seq<Entry>, k: int): Option<int>
  {
    if m == [] then None
    else if m[0].key == k then Some(m[0].value)
    else Get(m[1..], k)
  }

  lemma {:induction false} KeysOfTail(m: seq<Entry>)
    requires m != []
    ensures Keys(m) == {m[0].key} + Keys(m[1..])
  {
    assert m == [m[0]] + m[1..];
    forall k | k in Keys(m) ensures k in {m[0].key} + Keys(m[1..]) {
      var e :| e in m && e.key == k;
      if e != m[0] {
        var i :| 0 <= i < |m| && m[i] == e;
        assert m[1..][i - 1] == e;
      }
    }
  }

  lemma {:induction false} KeysOfPrefix(m: seq<Entry>)
    requires m != []
    ensures Keys(m) == Keys(m[..|m| - 1]) + {m[|m| - 1].key}
  {
    assert m == m[..|m| - 1] + [m[|m| - 1]];
    forall k | k in Keys(m) ensures k in Keys(m[..|m| - 1]) + {m[|m| - 1].key} {
      var e :| e in m && e.key == k;
      if e != m[|m| - 1] {
        var i :| 0 <= i < |m| && m[i] == e;
        assert m[..|m| - 1][i] == e;
      }
    }
  }

  /** In a sorted map every key of the tail lies above the head key. */
  lemma TailKeysAbove(m: Map, k: int)
    requires m != [] && k in Keys(m[1..])
    ensures m[0].key < k
  {
    var e :| e in m[1..] && e.key == k;
    var i :| 0 <= i < |m[1..]| && m[1..][i] == e;
    assert m[i + 1] == e;
  }

  /** `get` finds exactly the stored value, and misses exactly the absent keys. */
  lemma {:induction false} GetSound(m: Map, k: int)
    ensures Get(m, k).Some? <==> k in Keys(m)
    ensures Get(m, k).Some? ==> Entry(k, Get(m, k).value) in m
    ensures forall e :: e in m && e.key == k ==> Get(m, k) == Some(e.value)
  {
    if m != [] {
      KeysOfTail(m);
      GetSound(m[1..], k);
      forall e | e in m && e.key == k ensures Get(m, k) == Some(e.value) {
        if e != m[0] {
          assert e in m[1..];
          assert k in Keys(m[1..]);
          TailKeysAbove(m, k);
        }
      }
    }
  }

  /** A sorted map holds one entry per key, so `len` counts its keys. */
  lemma {:induction false} LenIsKeyCount(m: Map)
    ensures |m| == |Keys(m)|
  {
    if m != [] {
      KeysOfTail(m);
      if m[0].key in Keys(m[1..]) {
        TailKeysAbove(m, m[0].key);
      }
      LenIsKeyCount(m[1..]);
    }
  }

  /** Every key of a sorted map lies at or above its first key. */
  lemma HeadIsLeast(m: Map, k: int)
    requires m != [] && k in Keys(m)
    ensures m[0].key <= k
  {
    KeysOfTail(m);
    if k != m[0].key { TailKeysAbove(m, k); }
  }

  /** An entry below every key of a sorted map can be put in front of it. */
  lemma ConsSorted(e: Entry, m: Map)
    requires forall k :: k in Keys(m) ==> e.key < k
    ensures Sorted([e] + m)
    ensures Keys([e] + m) == {e.key} + Keys(m)
  {
    var r := [e] + m;
    forall i, j | 0 <= i < j < |r| ensures r[i].key < r[j].key {
      assert r[j] == m[j - 1] && m[j - 1] in m;
      if i > 0 {
        assert r[i] == m[i - 1] && m[i - 1].key < m[j - 1].key;
      } else {
        assert m[j - 1].key in Keys(m);
      }
    }
    assert r[1..] == m;
    KeysOfTail(r);
  }

  /** `insert`: the key set gains the inserted key and nothing else, and the result is
      again strictly ordered. */
  function Insert(m: Map, k: int, v: int): (r: Map)
    ensures Keys(r) == Keys(m) + {k}
  {
    if m == [] then
      [Entry(k, v)]
    else if k < m[0].key then
      KeysOfTail(m);
      forall j | j in Keys(m) ensures k < j { HeadIsLeast(m, j); }
      ConsSorted(Entry(k, v), m);
      [Entry(k, v)] + m
    else if k == m[0].key then
      KeysOfTail(m);
      forall j | j in Keys(m[1..]) ensures k < j { TailKeysAbove(m, j); }
      ConsSorted(Entry(k, v), m[1..]);
      [Entry(k, v)] + m[1..]
    else
      var rest := Insert(m[1..], k, v);
      KeysOfTail(m);
      forall j | j in Keys(rest) ensures m[0].key < j {
        if j != k { TailKeysAbove(m, j); }
      }
      ConsSorted(m[0], rest);
      [m[0]] + rest
  }

  /** After `insert(k, v)` the key maps to `v`, overwriting any earlier value, and every
      other key is unaffected. */
  lemma {:induction false} InsertGet(m: Map, k: int, v: int, j: int)
    ensures Get(Insert(m, k, v), j) == if j == k then Some(v) else Get(m, j)
  {
    if m != [] && k > m[0].key {
      InsertGet(m[1..], k, v, j);
    }
  }

  /** `len` grows by one exactly when the inserted key was new. */
  lemma {:induction false} InsertLen(m: Map, k: int, v: int)
    ensures |Insert(m, k, v)| == if k in Keys(m) then |m| else |m| + 1
  {
    if m != [] {
      KeysOfTail(m);
      if k < m[0].key {
        if k in Keys(m[1..]) { TailKeysAbove(m, k); }
      } else if k > m[0].key {
        InsertLen(m[1..], k, v);
      }
    }
  }

  /** The entry with the greatest key not above `t`: the key of `range(..=t).next_back()`. */
  predicate IsFloorKey(m: seq<Entry>, t: int, f: int)
  {
    f in Keys(m) && f <= t && forall k :: k in Keys(m) && k <= t ==> k <= f
  }

  /** `range(..=t).next_back()`: walk from the largest key down to the first one not above `t`.
      It finds the floor entry, and finds nothing exactly when every key lies above `t`. */
  function Floor(m: Map, t: int): (r: Option<Entry>)
    ensures r.Some? ==> r.value in m && IsFloorKey(m, t, r.value.key)
    ensures r.None? <==> forall k :: k in Keys(m) ==> t < k
  {
    if m == [] then None
    else
      var n := |m| - 1;
      KeysOfPrefix(m);
      if m[n].key <= t then
        assert forall k :: k in Keys(m) ==> k <= m[n].key by {
          forall k | k in Keys(m) ensures k <= m[n].key {
            var e :| e in m && e.key == k;
            var i :| 0 <= i < |m| && m[i] == e;
          }
        }
        Some(m[n])
      else
        Floor(m[..n], t)
  }

  /** Applies a sequence of `insert(key, value)` calls in order. */
  function InsertAll(m: Map, writes: seq<Entry>): Map
    decreases |writes|
  {
    if writes == [] then m else InsertAll(Insert(m, writes[0].key, writes[0].value), writes[1..])
  }

  /** The value of the last write to `k` in `writes`, if any. */
  function LastWrite(writes: seq<Entry>, k: int): Option<int>
  {
    if writes == [] then None
    else
      match LastWrite(writes[1..], k)
      case Some(v) => Some(v)
      case None => if writes[0].key == k then Some(writes[0].value) else None
  }

  /** Repeated inserts: the last write to a key wins; keys never written keep their value. */
  lemma {:induction false} InsertAllGet(m: Map, writes: seq<Entry>, k: int)
    ensures Get(InsertAll(m, writes), k) == match LastWrite(writes, k)
                                            case Some(v) => Some(v)
                                            case None => Get(m, k)
    decreases |writes|
  {
    if writes != [] {
      InsertGet(m, writes[0].key, writes[0].value, k);
      InsertAllGet(Insert(m, writes[0].key, writes[0].value), writes[1..], k);
    }
  }

  /** Repeated inserts add exactly the written keys. */
  lemma {:induction false} InsertAllKeys(m: Map, writes: seq<Entry>)
    ensures Keys(InsertAll(m, writes)) == Keys(m) + Keys(writes)
    decreases |writes|
  {
    if writes != [] {
      InsertAllKeys(Insert(m, writes[0].key, writes[0].value), writes[1..]);
      KeysOfTail(writes);
    }
  }

  lemma {:induction false} InsertAllAppend(m: Map, a: seq<Entry>, b: seq<Entry>)
    ensures InsertAll(m, a + b) == InsertAll(InsertAll(m, a), b)
    decreases |a|
  {
    if a == [] {
      assert a + b == b;
    } else {
      assert (a + b)[1..] == a[1..] + b;
      InsertAllAppend(Insert(m, a[0].key, a[0].value), a[1..], b);
    }
  }

  /** A key that is never written has no last write. */
  lemma {:induction false} LastWriteOfUnwritten(writes: seq<Entry>, k: int)
    requires k !in Keys(writes)
    ensures LastWrite(writes, k) == None
    decreases |writes|
  {
    if writes != [] {
      KeysOfTail(writes);
      LastWriteOfUnwritten(writes[1..], k);
    }
  }
}
