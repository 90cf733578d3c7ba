/** The caches of the PDF metadata provider. */
module PdfMetadata {
  import opened Distinctness
  import opened LruCache
  import opened Options

  ghost predicate NotIn<V>(entries: seq<Entry<V>>, k: CacheKey, n: nat)
    requires n <= |entries|
  {
    forall i :: 0 <= i < n ==> entries[i].key != k
  }

  lemma {:induction false} RemovedNone<V>(entries: seq<Entry<V>>, k: CacheKey)
    requires NotIn(entries, k, |entries|)
    ensures Removed(entries, k) == entries
  {
    if entries != [] {
      RemovedNone(entries[1..], k);
    }
  }

  lemma KeysTail<V>(entries: seq<Entry<V>>)
    requires entries != [] && Distinct(Keys(entries))
    ensures Distinct(Keys(entries[1..])) && NotIn(entries[1..], entries[0].key, |entries| - 1)
  {
    assert Keys(entries)[1..] == Keys(entries[1..]);
    TailDistinct(Keys(entries));
    assert forall i :: 0 <= i < |entries| - 1 ==> Keys(entries[1..])[i] == entries[1..][i].key;
  }

  lemma {:induction false} RemovedOne<V>(entries: seq<Entry<V>>, k: CacheKey, i: nat)
    requires i < |entries| && Distinct(Keys(entries)) && entries[i].key == k
    ensures Removed(entries, k) == entries[..i] + entries[i + 1..]
  {
    KeysTail(entries);
    if i == 0 {
      RemovedNone(entries[1..], k);
    } else {
      assert Keys(entries)[0] != Keys(entries)[i];
      RemovedOne(entries[1..], k, i - 1);
      assert entries == [entries[0]] + entries[1..];
    }
  }

  /** An insertion-ordered dictionary, oldest entry first. */
  class OrderedDict<V> {
    var entries: seq<Entry<V>>

    constructor ()
      ensures entries == []
    {
      entries := [];
    }

    /** The position of a key, or the number of entries. */
    method Find(k: CacheKey) returns (i: nat)
      ensures i <= |entries| && NotIn(entries, k, i)
      ensures i < |entries| ==> entries[i].key == k
    {
      i := 0;
      while i < |entries|
        invariant 0 <= i <= |entries| && NotIn(entries, k, i)
      {
        if entries[i].key == k {
          return;
        }
        i := i + 1;
      }
    }

    /** Assignment to a key: in place if it is there, else at the end. */
    method Set(k: CacheKey, v: V) returns (i: nat)
      modifies this
      ensures i <= |old(entries)| && NotIn(old(entries), k, i)
      ensures if i < |old(entries)| then old(entries)[i].key == k && entries == old(entries)[i := Entry(k, v)]
              else entries == old(entries) + [Entry(k, v)]
    {
      i := Find(k);
      if i < |entries| {
        entries := entries[i := Entry(k, v)];
      } else {
        entries := entries + [Entry(k, v)];
      }
    }

    /** move_to_end. */
    method MoveToEnd(k: CacheKey, ghost at: nat)
      requires at < |entries| && entries[at].key == k && NotIn(entries, k, at)
      modifies this
      ensures entries == old(entries[..at] + entries[at + 1..] + [entries[at]])
    {
      var i := Find(k);
      assert i == at;
      entries := entries[..i] + entries[i + 1..] + [entries[i]];
    }

    /** Assignment and move_to_end: the key becomes the newest. */
    method Refresh(k: CacheKey, v: V)
      requires Distinct(Keys(entries))
      modifies this
      ensures entries == Removed(old(entries), k) + [Entry(k, v)]
    {
      ghost var before := entries;
      var i := Set(k, v);
      if i < |before| {
        RemovedOne(before, k, i);
      } else {
        RemovedNone(before, k);
      }
      MoveToEnd(k, i);
    }

    /** The eviction loop: the oldest entries go until the bound is met. */
    method Evict()
      modifies this
      ensures entries == Last(old(entries), MAX_CACHE_ENTRIES)
    {
      while |entries| > MAX_CACHE_ENTRIES
        invariant |entries| <= |old(entries)| && entries == old(entries)[|old(entries)| - |entries|..]
        invariant |entries| >= MAX_CACHE_ENTRIES || entries == old(entries)
      {
        entries := entries[1..];
      }
    }

    /** _store_lru. */
    method StoreLru(k: CacheKey, v: V)
      requires Distinct(Keys(entries))
      modifies this
      ensures entries == Stored(old(entries), k, v)
    {
      Refresh(k, v);
      Evict();
    }

    /** The lookup half of the getters: a hit becomes the newest entry. */
    method LookUp(k: CacheKey) returns (found: bool, v: Option<V>)
      requires Distinct(Keys(entries)) && |entries| <= MAX_CACHE_ENTRIES
      modifies this
      ensures found <==> exists i :: 0 <= i < |old(entries)| && old(entries)[i].key == k
      ensures !found ==> v == None && entries == old(entries)
      ensures found ==> v.Some? && Entry(k, v.value) in old(entries) && entries == Stored(old(entries), k, v.value)
    {
      var i := Find(k);
      if i == |entries| {
        return false, None;
      }
      found, v := true, Some(entries[i].value);
      RemovedOne(entries, k, i);
      MoveToEnd(k, i);
    }
  }

  /** The page-info cache; page infos are immutable and handed out as they are. */
  class ValueCache<V> {
    const dict: OrderedDict<V>
    ghost var touches: seq<CacheKey>

    ghost predicate InOrder(reader: CacheKey -> V)
      reads this, dict
    {
      Holds(dict.entries, touches, reader)
    }

    constructor (reader: CacheKey -> V)
      ensures InOrder(reader) && fresh(dict) && touches == []
    {
      dict := new OrderedDict<V>();
      touches := [];
      new;
      assert Keys(dict.entries) == [];
    }

    /** The first locked section of get_page_info. */
    method LookUp(k: CacheKey, ghost reader: CacheKey -> V) returns (cached: Option<V>)
      requires InOrder(reader)
      modifies this, dict
      ensures InOrder(reader)
      ensures cached.Some? <==> k in old(Keys(dict.entries))
      ensures if cached.Some? then cached.value == reader(k) && touches == old(touches) + [k]
              else dict.entries == old(dict.entries) && touches == old(touches)
    {
      ghost var before := dict.entries;
      Bounded(dict.entries, touches, reader);
      var found;
      found, cached := dict.LookUp(k);
      if found {
        StoreHolds(before, touches, reader, k);
        touches := touches + [k];
        assert k in Keys(before);
      }
    }

    /** The second locked section of get_page_info. */
    method Store(k: CacheKey, v: V, ghost reader: CacheKey -> V)
      requires InOrder(reader) && v == reader(k)
      modifies this, dict
      ensures InOrder(reader) && touches == old(touches) + [k]
    {
      Bounded(dict.entries, touches, reader);
      StoreHolds(dict.entries, touches, reader, k);
      dict.StoreLru(k, v);
      touches := touches + [k];
    }

    /** get_page_info, when nobody else comes between: the reader's answer, from the cache or fresh. */
    method Get(k: CacheKey, read: CacheKey -> V) returns (v: V)
      requires InOrder(read)
      modifies this, dict
      ensures InOrder(read) && v == read(k) && touches == old(touches) + [k]
    {
      var cached := LookUp(k, read);
      if cached.Some? {
        return cached.value;
      }
      v := read(k);
      Store(k, v, read);
    }
  }

  /** A list object, which whoever holds it may change. */
  class PyList<T> {
    var items: seq<T>

    constructor (items: seq<T>)
      ensures this.items == items
    {
      this.items := items;
    }
  }

  /** The contents of the cached lists. */
  ghost function Contents<T>(entries: seq<Entry<PyList<T>>>): (r: seq<Entry<seq<T>>>)
    reads Lists(entries)
    ensures |r| == |entries|
    ensures forall i :: 0 <= i < |entries| ==> r[i] == Entry(entries[i].key, entries[i].value.items)
    ensures Keys(r) == Keys(entries)
  {
    seq(|entries|, i requires 0 <= i < |entries| reads Lists(entries) => Entry(entries[i].key, entries[i].value.items))
  }

  ghost function Lists<T>(entries: seq<Entry<PyList<T>>>): set<PyList<T>> {
    set i | 0 <= i < |entries| :: entries[i].value
  }

  lemma {:induction false} ContentsRemoved<T>(entries: seq<Entry<PyList<T>>>, k: CacheKey)
    ensures Lists(Removed(entries, k)) <= Lists(entries)
    ensures Contents(Removed(entries, k)) == Removed(Contents(entries), k)
  {
    if entries != [] {
      ContentsRemoved(entries[1..], k);
      assert Contents(entries)[1..] == Contents(entries[1..]);
      assert Contents(entries)[0] == Entry(entries[0].key, entries[0].value.items);
    }
    RemovedEntries(entries, k);
    forall i | 0 <= i < |Removed(entries, k)|
      ensures Removed(entries, k)[i].value in Lists(entries)
    {
      var e := Removed(entries, k)[i];
      assert e in entries;
      var j :| 0 <= j < |entries| && entries[j] == e;
    }
  }

  /** Storing a list stores its contents. */
  lemma ContentsStored<T>(entries: seq<Entry<PyList<T>>>, k: CacheKey, l: PyList<T>)
    ensures Lists(Stored(entries, k, l)) <= Lists(entries) + {l}
    ensures Contents(Stored(entries, k, l)) == Stored(Contents(entries), k, l.items)
  {
    ContentsRemoved(entries, k);
    var all := Removed(entries, k) + [Entry(k, l)];
    assert Contents(all) == Removed(Contents(entries), k) + [Entry(k, l.items)];
    assert Contents(Last(all, MAX_CACHE_ENTRIES)) == Last(Contents(all), MAX_CACHE_ENTRIES);
    forall i | 0 <= i < |all|
      ensures all[i].value in Lists(entries) + {l}
    {
      if i < |all| - 1 {
        assert all[i] in Removed(entries, k);
        RemovedEntries(entries, k);
      }
    }
  }

  /** The text-run and segment caches: lists are copied on the way in and on the way out. */
  class ListCache<T> {
    const dict: OrderedDict<PyList<T>>
    ghost var touches: seq<CacheKey>

    ghost function Cached(): set<PyList<T>>
      reads this, dict
    {
      Lists(dict.entries)
    }

    ghost predicate InOrder(reader: CacheKey -> seq<T>)
      reads this, dict, Cached()
    {
      Holds(Contents(dict.entries), touches, reader)
    }

    constructor (reader: CacheKey -> seq<T>)
      ensures InOrder(reader) && fresh(dict) && touches == [] && Cached() == {}
    {
      dict := new OrderedDict<PyList<T>>();
      touches := [];
    }

    /** The dict lookup of the list getters. */
    method Touch(k: CacheKey, ghost reader: CacheKey -> seq<T>) returns (cached: Option<PyList<T>>)
      requires InOrder(reader)
      modifies this, dict
      ensures InOrder(reader) && Cached() <= old(Cached())
      ensures cached.Some? <==> k in old(Keys(dict.entries))
      ensures cached.Some? ==> cached.value in old(Cached()) && cached.value.items == reader(k)
      ensures touches == if cached.Some? then old(touches) + [k] else old(touches)
    {
      ghost var before := dict.entries;
      Bounded(Contents(dict.entries), touches, reader);
      var found;
      found, cached := dict.LookUp(k);
      if found {
        Hit(before, k, cached.value, reader);
        ghost var after := Contents(Stored(before, k, cached.value));
        touches := touches + [k];
        assert Contents(dict.entries) == after;
      }
    }

    /** The first locked section of the list getters: on a hit, a copy of the cached list. */
    method LookUp(k: CacheKey, ghost reader: CacheKey -> seq<T>) returns (copy: Option<PyList<T>>)
      requires InOrder(reader)
      modifies this, dict
      ensures InOrder(reader) && Cached() <= old(Cached())
      ensures copy.Some? <==> k in old(Keys(dict.entries))
      ensures copy.Some? ==> fresh(copy.value) && copy.value !in Cached() && copy.value.items == reader(k)
      ensures touches == if copy.Some? then old(touches) + [k] else old(touches)
    {
      var cached := Touch(k, reader);
      if cached.None? {
        return None;
      }
      var l := new PyList(cached.value.items);
      copy := Some(l);
    }

    lemma Hit(before: seq<Entry<PyList<T>>>, k: CacheKey, l: PyList<T>, reader: CacheKey -> seq<T>)
      requires Holds(Contents(before), touches, reader) && Entry(k, l) in before
      ensures k in Keys(before) && l in Lists(before) && l.items == reader(k)
      ensures Holds(Contents(Stored(before, k, l)), touches + [k], reader)
      ensures Lists(Stored(before, k, l)) <= Lists(before)
    {
      var i :| 0 <= i < |before| && before[i] == Entry(k, l);
      assert Keys(before)[i] == k && Contents(before)[i].value == l.items;
      StoreHolds(Contents(before), touches, reader, k);
      ContentsStored(before, k, l);
    }

    /** The second locked section: one copy goes into the cache, another one to the caller. */
    method Store(k: CacheKey, runs: PyList<T>, ghost reader: CacheKey -> seq<T>) returns (copy: PyList<T>)
      requires InOrder(reader) && runs.items == reader(k)
      modifies this, dict
      ensures InOrder(reader) && touches == old(touches) + [k]
      ensures fresh(copy) && copy.items == reader(k) && copy !in Cached()
      ensures forall l :: l in Cached() ==> l in old(Cached()) || fresh(l)
    {
      ghost var before := dict.entries;
      var kept := new PyList(runs.items);
      copy := new PyList(runs.items);
      Keeps(before, k, kept, reader);
      ghost var after := Contents(Stored(before, k, kept));
      dict.StoreLru(k, kept);
      touches := touches + [k];
      assert Contents(dict.entries) == after;
    }

    lemma Keeps(before: seq<Entry<PyList<T>>>, k: CacheKey, l: PyList<T>, reader: CacheKey -> seq<T>)
      requires Holds(Contents(before), touches, reader) && l.items == reader(k)
      ensures |before| <= MAX_CACHE_ENTRIES && Distinct(Keys(before))
      ensures Holds(Contents(Stored(before, k, l)), touches + [k], reader)
      ensures Lists(Stored(before, k, l)) <= Lists(before) + {l}
    {
      Bounded(Contents(before), touches, reader);
      StoreHolds(Contents(before), touches, reader, k);
      ContentsStored(before, k, l);
    }

    /** Whatever a caller does to a list that is not the cache's own, the cache does not notice. */
    method CallerWrites(l: PyList<T>, items: seq<T>, ghost reader: CacheKey -> seq<T>)
      requires InOrder(reader) && l !in Cached()
      modifies l
      ensures InOrder(reader) && dict.entries == old(dict.entries)
      ensures Contents(dict.entries) == old(Contents(dict.entries))
    {
      l.items := items;
    }
  }
}
