/** Several threads using one cache: lookup, reading and storing are separate steps that interleave freely. */
module LruThreads {
  import opened Distinctness
  import opened LruCache
  import opened Options

  /** How far a thread's request has come; only Look and Store hold the lock. */
  datatype Request<V> =
    | Asked(key: CacheKey)
    | Reading(key: CacheKey)
    | Read(key: CacheKey, value: V)
    | Answered(key: CacheKey, value: V)

  datatype State<V> = State(entries: seq<Entry<V>>, touches: seq<CacheKey>, requests: map<nat, Request<V>>)

  datatype Label = Ask(thread: nat, key: CacheKey) | Look(thread: nat) | Read(thread: nat) | Store(thread: nat)

  ghost predicate Enabled<V>(s: State<V>, l: Label) {
    match l
    case Ask(t, _) => t in s.requests ==> s.requests[t].Answered?
    case Look(t) => t in s.requests && s.requests[t].Asked?
    case Read(t) => t in s.requests && s.requests[t].Reading?
    case Store(t) => t in s.requests && s.requests[t].Read?
  }

  /** The value cached under a key. */
  ghost function Find<V>(entries: seq<Entry<V>>, k: CacheKey): (v: Option<V>)
    ensures v.Some? <==> k in Keys(entries)
    ensures v.Some? ==> Entry(k, v.value) in entries
  {
    if entries == [] then None
    else if entries[0].key == k then Some(entries[0].value)
    else
      assert Keys(entries)[1..] == Keys(entries[1..]);
      Find(entries[1..], k)
  }

  ghost function Next<V>(s: State<V>, l: Label, reader: CacheKey -> V): State<V>
    requires Enabled(s, l)
  {
    match l
    case Ask(t, k) => s.(requests := s.requests[t := Asked(k)])
    case Look(t) =>
      var k := s.requests[t].key;
      (match Find(s.entries, k)
       case None => s.(requests := s.requests[t := Reading(k)])
       case Some(v) => State(Stored(s.entries, k, v), s.touches + [k], s.requests[t := Answered(k, v)]))
    case Read(t) =>
      var k := s.requests[t].key;
      s.(requests := s.requests[t := Request.Read(k, reader(k))])
    case Store(t) =>
      var k, v := s.requests[t].key, s.requests[t].value;
      State(Stored(s.entries, k, v), s.touches + [k], s.requests[t := Answered(k, v)])
  }

  /** Whatever a thread has read or was answered is what the reader gives for its key. */
  ghost predicate Truthful<V>(s: State<V>, reader: CacheKey -> V) {
    forall t :: t in s.requests ==>
      match s.requests[t]
      case Read(k, v) => v == reader(k)
      case Answered(k, v) => v == reader(k)
      case _ => true
  }

  ghost predicate Sound<V>(s: State<V>, reader: CacheKey -> V) {
    Holds(s.entries, s.touches, reader) && Truthful(s, reader)
  }

  lemma NextSound<V>(s: State<V>, l: Label, reader: CacheKey -> V)
    requires Sound(s, reader) && Enabled(s, l)
    ensures Sound(Next(s, l, reader), reader)
  {
    match l
    case Ask(_, _) =>
    case Look(t) =>
      var k := s.requests[t].key;
      var found := Find(s.entries, k);
      if found.Some? {
        var i :| 0 <= i < |s.entries| && s.entries[i] == Entry(k, found.value);
        StoreHolds(s.entries, s.touches, reader, k);
      }
    case Read(_) =>
    case Store(t) =>
      StoreHolds(s.entries, s.touches, reader, s.requests[t].key);
  }

  ghost predicate IsRun<V>(states: seq<State<V>>, labels: seq<Label>, reader: CacheKey -> V) {
    && |states| == |labels| + 1 && states[0] == State([], [], map[])
    && forall i :: 0 <= i < |labels| ==>
         Enabled(states[i], labels[i]) && states[i + 1] == Next(states[i], labels[i], reader)
  }

  /**
   * In every interleaving of every number of threads, the cache holds exactly the keys touched
   * last, at most 512 of them and none twice, in the order of their last use, and every answer is
   * the reader's own.
   */
  lemma {:induction false} CacheIsExact<V>(states: seq<State<V>>, labels: seq<Label>, reader: CacheKey -> V, i: nat)
    requires IsRun(states, labels, reader) && i < |states|
    ensures Sound(states[i], reader)
    ensures |states[i].entries| <= MAX_CACHE_ENTRIES && Distinct(Keys(states[i].entries))
  {
    if i > 0 {
      CacheIsExact(states, labels, reader, i - 1);
      NextSound(states[i - 1], labels[i - 1], reader);
    } else {
      assert Keys(states[0].entries) == [];
    }
    Bounded(states[i].entries, states[i].touches, reader);
  }
}
