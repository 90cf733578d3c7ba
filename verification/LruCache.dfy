/** A bounded cache in order of use: what it holds after any sequence of touches. */
module LruCache {
  import opened Distinctness
  import opened Options

  const MAX_CACHE_ENTRIES: nat := 512

  datatype Signature = Missing | Signature(mtime: int, size: int)

  datatype CacheKey = CacheKey(path: string, signature: Signature, page: nat)

  /** _cache_key: a missing path counts as empty, and a negative page as the first. */
  function CacheKeyOf(path: Option<string>, signature: Signature, page: int): (k: CacheKey)
    ensures path.None? ==> k.path == ""
    ensures path.Some? ==> k.path == path.value
    ensures page < 0 ==> k.page == 0
    ensures page >= 0 ==> k.page == page
    ensures k.signature == signature
  {
    CacheKey(if path.Some? then path.value else "", signature, if page < 0 then 0 else page)
  }

  datatype Entry<V> = Entry(key: CacheKey, value: V)

  ghost function Keys<V>(entries: seq<Entry<V>>): (r: seq<CacheKey>)
    ensures |r| == |entries|
    ensures forall i :: 0 <= i < |entries| ==> r[i] == entries[i].key
  {
    seq(|entries|, i requires 0 <= i < |entries| => entries[i].key)
  }

  /** The list without k. */
  ghost function Without(s: seq<CacheKey>, k: CacheKey): (r: seq<CacheKey>)
    ensures |r| <= |s|
  {
    if s == [] then [] else if s[0] == k then Without(s[1..], k) else [s[0]] + Without(s[1..], k)
  }

  /** The last n elements. */
  ghost function Last<T>(s: seq<T>, n: nat): (r: seq<T>)
    ensures |r| == if |s| <= n then |s| else n
  {
    if |s| <= n then s else s[|s| - n..]
  }

  /** The keys touched so far, each once, in the order in which they were last touched. */
  ghost function ByRecency(touches: seq<CacheKey>): seq<CacheKey> {
    if touches == [] then []
    else
      var k := touches[|touches| - 1];
      Without(ByRecency(touches[..|touches| - 1]), k) + [k]
  }

  lemma {:induction false} WithoutJoin(a: seq<CacheKey>, b: seq<CacheKey>, k: CacheKey)
    ensures Without(a + b, k) == Without(a, k) + Without(b, k)
  {
    if a == [] {
      assert a + b == b;
    } else {
      assert (a + b)[1..] == a[1..] + b && (a + b)[0] == a[0];
      WithoutJoin(a[1..], b, k);
    }
  }

  lemma {:induction false} WithoutAbsent(s: seq<CacheKey>, k: CacheKey)
    requires k !in s
    ensures Without(s, k) == s
  {
    if s != [] {
      WithoutAbsent(s[1..], k);
    }
  }

  lemma {:induction false} WithoutMembers(s: seq<CacheKey>, k: CacheKey)
    ensures forall y :: y in Without(s, k) <==> y in s && y != k
  {
    if s != [] {
      WithoutMembers(s[1..], k);
      assert forall y :: y in s <==> y == s[0] || y in s[1..];
    }
  }

  lemma TailDistinct(s: seq<CacheKey>)
    requires Distinct(s) && s != []
    ensures Distinct(s[1..]) && s[0] !in s[1..]
  {
    assert forall i :: 0 <= i < |s| - 1 ==> s[1..][i] == s[i + 1];
  }

  lemma {:induction false} WithoutDistinct(s: seq<CacheKey>, k: CacheKey)
    requires Distinct(s)
    ensures Distinct(Without(s, k))
    ensures k in s ==> |Without(s, k)| == |s| - 1
  {
    if s != [] {
      TailDistinct(s);
      WithoutDistinct(s[1..], k);
      WithoutMembers(s[1..], k);
      if s[0] == k {
        WithoutAbsent(s[1..], k);
      } else {
        assert k in s ==> k in s[1..];
      }
    }
  }

  lemma AppendDistinct(s: seq<CacheKey>, k: CacheKey)
    requires Distinct(s) && k !in s
    ensures Distinct(s + [k])
  {
  }

  lemma {:induction false} RecencyDistinct(touches: seq<CacheKey>)
    ensures Distinct(ByRecency(touches))
    ensures forall k :: k in ByRecency(touches) <==> k in touches
  {
    if touches != [] {
      var front, k := touches[..|touches| - 1], touches[|touches| - 1];
      RecencyDistinct(front);
      WithoutMembers(ByRecency(front), k);
      WithoutDistinct(ByRecency(front), k);
      AppendDistinct(Without(ByRecency(front), k), k);
      assert touches == front + [k];
    }
  }

  lemma LastOfJoin<T>(a: seq<T>, b: seq<T>, n: nat)
    ensures |b| >= n || a == [] ==> Last(a + b, n) == Last(b, n)
  {
    if a == [] {
      assert a + b == b;
    }
  }

  /** A list and what comes before its last n elements. */
  lemma LastSplit(d: seq<CacheKey>, n: nat) returns (front: seq<CacheKey>)
    ensures d == front + Last(d, n) && (front == [] || |Last(d, n)| == n)
  {
    front := d[..|d| - |Last(d, n)|];
  }

  lemma FrontDistinct(front: seq<CacheKey>, l: seq<CacheKey>, k: CacheKey)
    requires Distinct(front + l)
    ensures Distinct(l) && (k in l ==> k !in front)
  {
    assert forall i :: 0 <= i < |l| ==> (front + l)[|front| + i] == l[i];
    assert forall i :: 0 <= i < |front| ==> (front + l)[i] == front[i];
  }

  lemma Regroup(a: seq<CacheKey>, b: seq<CacheKey>, c: seq<CacheKey>)
    ensures (a + b) + c == a + (b + c)
  {
  }

  /** Touching a key that is among the last n moves it to the end of them. */
  lemma LastKept(d: seq<CacheKey>, k: CacheKey, n: nat)
    requires Distinct(d) && k in Last(d, n)
    ensures Last(Without(d, k) + [k], n) == Without(Last(d, n), k) + [k]
  {
    var l := Last(d, n);
    var front := LastSplit(d, n);
    FrontDistinct(front, l, k);
    WithoutJoin(front, l, k);
    WithoutAbsent(front, k);
    WithoutDistinct(l, k);
    Regroup(front, Without(l, k), [k]);
    LastOfJoin(front, Without(l, k) + [k], n);
  }

  /** Touching a key that is not among the last n adds it, and pushes out the oldest if they are n. */
  lemma LastAdded(d: seq<CacheKey>, k: CacheKey, n: nat)
    requires k !in Last(d, n)
    ensures Last(Without(d, k) + [k], n) == Last(Last(d, n) + [k], n)
  {
    var l := Last(d, n);
    var front := LastSplit(d, n);
    WithoutJoin(front, l, k);
    WithoutAbsent(l, k);
    Regroup(Without(front, k), l, [k]);
    LastOfJoin(Without(front, k), l + [k], n);
  }

  // --- The cache as a list of entries, oldest first ---

  ghost function Removed<V>(entries: seq<Entry<V>>, k: CacheKey): (r: seq<Entry<V>>)
    ensures |r| <= |entries|
  {
    if entries == [] then []
    else if entries[0].key == k then Removed(entries[1..], k)
    else [entries[0]] + Removed(entries[1..], k)
  }

  /** Storing a value: it becomes the newest entry, and the oldest go when there are too many. */
  ghost function Stored<V>(entries: seq<Entry<V>>, k: CacheKey, v: V): seq<Entry<V>> {
    Last(Removed(entries, k) + [Entry(k, v)], MAX_CACHE_ENTRIES)
  }

  /** The cache holds the keys touched last, in the order of use, each with what the reader gives for it. */
  ghost predicate Holds<V>(entries: seq<Entry<V>>, touches: seq<CacheKey>, reader: CacheKey -> V) {
    && Keys(entries) == Last(ByRecency(touches), MAX_CACHE_ENTRIES)
    && forall i :: 0 <= i < |entries| ==> entries[i].value == reader(entries[i].key)
  }

  lemma {:induction false} RemovedKeys<V>(entries: seq<Entry<V>>, k: CacheKey)
    ensures Keys(Removed(entries, k)) == Without(Keys(entries), k)
  {
    if entries != [] {
      RemovedKeys(entries[1..], k);
      assert Keys(entries)[1..] == Keys(entries[1..]);
      assert Keys(entries)[0] == entries[0].key;
    }
  }

  lemma {:induction false} RemovedEntries<V>(entries: seq<Entry<V>>, k: CacheKey)
    ensures forall e :: e in Removed(entries, k) ==> e in entries
  {
    if entries != [] {
      RemovedEntries(entries[1..], k);
    }
  }

  lemma LastKeys<V>(entries: seq<Entry<V>>, n: nat)
    ensures Keys(Last(entries, n)) == Last(Keys(entries), n)
  {
  }

  lemma KeysJoin<V>(entries: seq<Entry<V>>, e: Entry<V>)
    ensures Keys(entries + [e]) == Keys(entries) + [e.key]
  {
  }

  /** What a store does to the keys. */
  lemma StoredKeys<V>(entries: seq<Entry<V>>, touches: seq<CacheKey>, k: CacheKey, v: V)
    requires Keys(entries) == Last(ByRecency(touches), MAX_CACHE_ENTRIES)
    ensures Keys(Stored(entries, k, v)) == Last(ByRecency(touches + [k]), MAX_CACHE_ENTRIES)
  {
    var d, n := ByRecency(touches), MAX_CACHE_ENTRIES;
    RecencyDistinct(touches);
    assert (touches + [k])[..|touches|] == touches;
    assert ByRecency(touches + [k]) == Without(d, k) + [k];
    var rest := Removed(entries, k);
    RemovedKeys(entries, k);
    KeysJoin(rest, Entry(k, v));
    LastKeys(rest + [Entry(k, v)], n);
    if k in Last(d, n) {
      LastKept(d, k, n);
      LastDistinct(d, n);
      WithoutDistinct(Last(d, n), k);
    } else {
      LastAdded(d, k, n);
      WithoutAbsent(Last(d, n), k);
    }
  }

  lemma LastDistinct(d: seq<CacheKey>, n: nat)
    requires Distinct(d)
    ensures Distinct(Last(d, n))
  {
  }

  /** Storing what the reader gives keeps the cache in order. */
  lemma StoreHolds<V>(entries: seq<Entry<V>>, touches: seq<CacheKey>, reader: CacheKey -> V, k: CacheKey)
    requires Holds(entries, touches, reader)
    ensures Holds(Stored(entries, k, reader(k)), touches + [k], reader)
  {
    StoredKeys(entries, touches, k, reader(k));
    RemovedEntries(entries, k);
    var all := Removed(entries, k) + [Entry(k, reader(k))];
    forall e | e in Last(all, MAX_CACHE_ENTRIES)
      ensures e.value == reader(e.key)
    {
      assert e in all;
    }
  }

  /** The cache never holds more than its bound, and no key twice. */
  lemma Bounded<V>(entries: seq<Entry<V>>, touches: seq<CacheKey>, reader: CacheKey -> V)
    requires Holds(entries, touches, reader)
    ensures |entries| <= MAX_CACHE_ENTRIES && Distinct(Keys(entries))
    ensures |ByRecency(touches)| <= MAX_CACHE_ENTRIES ==> forall k :: k in Keys(entries) <==> k in touches
  {
    RecencyDistinct(touches);
    LastDistinct(ByRecency(touches), MAX_CACHE_ENTRIES);
  }
}
