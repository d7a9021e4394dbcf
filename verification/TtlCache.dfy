/** The in-process TTL cache: computes run outside the lock, so a generation fence decides
    whether their result may still be published (`_cache.py`). */
module TtlCache {
  import opened Prelude

  datatype Entry<K, V> = Entry(key: K, at: int, value: V)

  /** The dict in insertion order, and the generation. */
  datatype State<K, V> = State(entries: seq<Entry<K, V>>, generation: nat)

  predicate Distinct<K(==), V>(entries: seq<Entry<K, V>>) {
    forall i, j | 0 <= i < j < |entries| :: entries[i].key != entries[j].key
  }

  function Lookup<K(==), V>(entries: seq<Entry<K, V>>, key: K): Option<Entry<K, V>> {
    if entries == [] then None
    else if entries[0].key == key then Some(entries[0])
    else Lookup(entries[1..], key)
  }

  function Without<K(==), V>(entries: seq<Entry<K, V>>, key: K): seq<Entry<K, V>> {
    if entries == [] then []
    else if entries[0].key == key then Without(entries[1..], key)
    else [entries[0]] + Without(entries[1..], key)
  }

  function Evict<K, V>(entries: seq<Entry<K, V>>, max: int): seq<Entry<K, V>> {
    if |entries| <= max then entries else if max < 0 then [] else entries[|entries| - max..]
  }

  /** A negative bound leaves room for nothing, and every eviction fails on the empty dict. */
  function Capacity(max: int): nat { if max < 0 then 0 else max }

  predicate Live<K, V>(e: Entry<K, V>, now: int, ttl: int) { now - e.at < ttl }

  function Moved<K(==), V>(s: State<K, V>, e: Entry<K, V>): State<K, V> {
    s.(entries := Without(s.entries, e.key) + [e])
  }

  function Stored<K(==), V>(s: State<K, V>, key: K, value: V, now: int, max: int): State<K, V> {
    s.(entries := Evict(Without(s.entries, key) + [Entry(key, now, value)], max))
  }

  /** The locked first half of `get_or_compute`: a live entry is returned and becomes the newest. */
  function Begun<K(==), V>(s: State<K, V>, key: K, now: int, ttl: int): State<K, V> {
    var e := Lookup(s.entries, key);
    if e.Some? && Live(e.value, now, ttl) then Moved(s, e.value) else s
  }

  /** The locked second half: published only in the generation the compute began in. */
  function Published<K(==), V>(s: State<K, V>, key: K, value: V, generation: nat, now: int, max: int): State<K, V> {
    if generation != s.generation then s else Stored(s, key, value, now, max)
  }

  function Peeked<K(==), V>(s: State<K, V>, key: K, now: int, ttl: int): State<K, V> {
    var e := Lookup(s.entries, key);
    if e.None? then s
    else if Live(e.value, now, ttl) then Moved(s, e.value)
    else s.(entries := Without(s.entries, key))
  }

  function Written<K(==), V>(s: State<K, V>, key: K, value: V, now: int, max: int): State<K, V> {
    Stored(s, key, value, now, max).(generation := s.generation + 1)
  }

  function Invalidated<K(==), V>(s: State<K, V>, key: Option<K>): State<K, V> {
    State(if key.None? then [] else Without(s.entries, key.value), s.generation + 1)
  }

  // ---- the ordered dict -----------------------------------------------------------------

  lemma {:induction false} WithoutKeeps<K, V>(entries: seq<Entry<K, V>>, key: K)
    requires Distinct(entries)
    ensures Distinct(Without(entries, key)) && |Without(entries, key)| <= |entries|
    ensures forall e :: e in Without(entries, key) <==> e in entries && e.key != key
    ensures forall i | 0 <= i < |Without(entries, key)| :: Without(entries, key)[i].key != key && Without(entries, key)[i] in entries
    ensures Lookup(entries, key).Some? ==> |Without(entries, key)| < |entries|
    ensures forall e | e in entries && e.key == key :: Lookup(entries, key) == Some(e)
    ensures Lookup(entries, key).Some? ==> Lookup(entries, key).value in entries && Lookup(entries, key).value.key == key
  {
    if entries != [] {
      var rest := entries[1..];
      WithoutKeeps(rest, key);
      assert forall e | e in rest :: e.key != entries[0].key;
      assert forall e :: e in entries <==> e == entries[0] || e in rest;
      var kept := Without(rest, key);
      forall i | 0 <= i < |kept| ensures kept[i].key != entries[0].key {
        assert kept[i] in rest;
      }
    }
  }

  /** Dropping a key cuts out its one entry and keeps the others in order. */
  lemma {:induction false} WithoutIsCut<K, V>(entries: seq<Entry<K, V>>, key: K, i: nat)
    requires Distinct(entries) && i <= |entries|
    requires i < |entries| ==> entries[i].key == key
    requires i == |entries| ==> forall j | 0 <= j < |entries| :: entries[j].key != key
    ensures Without(entries, key) == if i < |entries| then entries[..i] + entries[i + 1..] else entries
  {
    if entries != [] {
      var rest := entries[1..];
      if i == 0 {
        WithoutIsCut(rest, key, |rest|);
      } else {
        WithoutIsCut(rest, key, i - 1);
        CutAfterFirst(entries, i);
      }
    }
  }

  lemma CutAfterFirst<T>(s: seq<T>, i: nat)
    requires 0 < i <= |s|
    ensures s == [s[0]] + s[1..]
    ensures i < |s| ==> s[..i] + s[i + 1..] == [s[0]] + (s[1..][..i - 1] + s[1..][i..])
  {
    if i < |s| {
      assert s[..i] == [s[0]] + s[1..][..i - 1] && s[i + 1..] == s[1..][i..];
    }
  }

  /** A full cache drops exactly the oldest of the other entries, as many as it is over the bound. */
  lemma StoreDropsOldest<K, V>(s: State<K, V>, key: K, value: V, now: int, max: int)
    requires max >= 1
    ensures var others := Without(s.entries, key);
      var over := if |others| + 1 > max then |others| + 1 - max else 0;
      Stored(s, key, value, now, max).entries == others[over..] + [Entry(key, now, value)]
  {
  }

  lemma DistinctAppend<K, V>(entries: seq<Entry<K, V>>, e: Entry<K, V>)
    requires Distinct(entries) && forall i | 0 <= i < |entries| :: entries[i].key != e.key
    ensures Distinct(entries + [e])
    ensures forall x :: x in entries + [e] <==> x in entries || x == e
  {
  }

  /** Storing keeps keys distinct and the size within bounds; the stored entry is there unless the
      cache holds nothing at all, and every other entry was there before. */
  lemma StoreKeeps<K, V>(s: State<K, V>, key: K, value: V, now: int, max: int)
    requires Distinct(s.entries)
    ensures var after := Stored(s, key, value, now, max).entries;
      && Distinct(after) && |after| <= Capacity(max)
      && (max >= 1 ==> Entry(key, now, value) in after)
      && (forall e | e in after :: e == Entry(key, now, value) || (e in s.entries && e.key != key))
      && (|s.entries| < max ==> forall e | e in s.entries && e.key != key :: e in after)
  {
    WithoutKeeps(s.entries, key);
    var kept := Without(s.entries, key);
    var all := kept + [Entry(key, now, value)];
    var after := Evict(all, max);
    DistinctAppend(kept, Entry(key, now, value));
    assert forall e | e in after :: e in all;
    if max >= 1 {
      assert after[|after| - 1] == Entry(key, now, value);
    }
    if |s.entries| < max {
      assert forall e | e in kept :: e in all;
    }
  }

  lemma MoveKeeps<K, V>(s: State<K, V>, e: Entry<K, V>)
    requires Distinct(s.entries) && Lookup(s.entries, e.key) == Some(e)
    ensures Distinct(Moved(s, e).entries) && |Moved(s, e).entries| <= |s.entries|
    ensures forall x :: x in Moved(s, e).entries <==> x in s.entries
  {
    WithoutKeeps(s.entries, e.key);
    DistinctAppend(Without(s.entries, e.key), e);
    forall x ensures x in Moved(s, e).entries <==> x in s.entries {
      assert x in s.entries && x.key == e.key ==> x == e;
    }
  }

  // ---- the cache in place ---------------------------------------------------------------

  class TTLCache<K(==), V> {
    const ttl: int
    const max: int
    var store: seq<Entry<K, V>>
    var generation: nat

    constructor (ttl: int, max: int)
      ensures this.ttl == ttl && this.max == max && Contents() == State([], 0) && Valid()
    {
      this.ttl, this.max := ttl, max;
      store, generation := [], 0;
    }

    function Contents(): State<K, V>
      reads this
    {
      State(store, generation)
    }

    predicate Valid()
      reads this
    {
      Distinct(store) && |store| <= Capacity(max)
    }

    /** `_store.pop(key, None)` and insertion at the end, then eviction of the oldest; `raised` is
        the eviction from an empty dict. */
    method Put(key: K, value: V, now: int) returns (raised: bool)
      requires Distinct(store)
      modifies this`store
      ensures Valid() && Contents() == Stored(old(Contents()), key, value, now, max)
      ensures raised <==> max < 0
    {
      StoreKeeps(Contents(), key, value, now, max);
      var all := Without(store, key) + [Entry(key, now, value)];
      store := all;
      ghost var dropped := 0;
      while |store| > max
        invariant dropped <= |all| && store == all[dropped..]
        invariant dropped > 0 ==> |store| >= max
        decreases |store|
      {
        if store == [] { return true; }
        store := store[1..];
        dropped := dropped + 1;
      }
      raised := false;
    }

    /** The first locked section of `get_or_compute`. */
    method Begin(key: K, now: int) returns (hit: Option<V>, began: nat)
      requires Valid()
      modifies this`store
      ensures Valid() && Contents() == Begun(old(Contents()), key, now, ttl)
      ensures began == generation == old(generation)
      ensures hit.Some? <==> exists e :: e in old(store) && e.key == key && Live(e, now, ttl) && hit == Some(e.value)
      ensures hit.None? <==> forall e | e in old(store) && e.key == key :: !Live(e, now, ttl)
      ensures hit.None? <==> forall e | e in old(store) && e.key == key :: now >= e.at + ttl
      ensures hit.Some? ==> store != [] && store[|store| - 1].key == key && hit == Some(store[|store| - 1].value)
    {
      began := generation;
      hit := None;
      WithoutKeeps(store, key);
      var e := Lookup(store, key);
      if e.Some? && Live(e.value, now, ttl) {
        MoveKeeps(Contents(), e.value);
        store := Without(store, key) + [e.value];
        hit := Some(e.value.value);
      }
    }

    /** The second locked section. */
    method Publish(key: K, value: V, began: nat, now: int) returns (stored: bool, raised: bool)
      requires Valid()
      modifies this`store
      ensures Valid() && Contents() == Published(old(Contents()), key, value, began, now, max)
      ensures stored == (began == old(generation)) && (!stored ==> store == old(store))
      ensures stored && max >= 1 ==> Entry(key, now, value) in store
      ensures raised <==> stored && max < 0
    {
      StoreKeeps(Contents(), key, value, now, max);
      stored := began == generation;
      raised := false;
      if stored { raised := Put(key, value, now); }
    }

    method Peek(key: K, now: int) returns (value: Option<V>)
      requires Valid()
      modifies this`store
      ensures Valid() && Contents() == Peeked(old(Contents()), key, now, ttl)
      ensures value.None? <==> forall e | e in old(store) && e.key == key :: !Live(e, now, ttl)
      ensures value.Some? ==> exists e :: e in old(store) && e.key == key && Live(e, now, ttl) && value == Some(e.value)
      ensures value.None? <==> forall e | e in old(store) && e.key == key :: now >= e.at + ttl
      ensures value.None? ==> forall e | e in store :: e.key != key
      ensures value.Some? ==> store != [] && store[|store| - 1].key == key && value == Some(store[|store| - 1].value)
    {
      WithoutKeeps(store, key);
      var e := Lookup(store, key);
      if e.None? { return None; }
      if !Live(e.value, now, ttl) {
        store := Without(store, key);
        return None;
      }
      MoveKeeps(Contents(), e.value);
      store := Without(store, key) + [e.value];
      value := Some(e.value.value);
    }

    method Set(key: K, value: V, now: int) returns (raised: bool)
      requires Valid()
      modifies this
      ensures Valid() && Contents() == Written(old(Contents()), key, value, now, max)
      ensures max >= 1 ==> Entry(key, now, value) in store
      ensures raised <==> max < 0
    {
      StoreKeeps(Contents(), key, value, now, max);
      generation := generation + 1;
      raised := Put(key, value, now);
    }

    method Invalidate(key: Option<K>)
      requires Valid()
      modifies this
      ensures Valid() && Contents() == Invalidated(old(Contents()), key)
      ensures forall e :: e in store <==> e in old(store) && key.Some? && e.key != key.value
    {
      generation := generation + 1;
      if key.None? {
        store := [];
      } else {
        WithoutKeeps(store, key.value);
        store := Without(store, key.value);
      }
    }
  }

  // ---- every interleaving ---------------------------------------------------------------

  datatype Event =
    | Begins(key: int, now: int)
    | Publishes(began: nat, now: int)
    | Peeks(key: int, now: int)
    | Sets(key: int, now: int)
    | Invalidates(which: Option<int>)

  /** What a cached value records here: the event at which its compute began, or a `set`. */
  datatype Origin = Computed(began: nat) | WrittenBySet

  /** `pending` are the computes begun so far, by the event that began them. */
  datatype Run = Run(cache: State<int, Origin>, pending: map<nat, (int, nat)>)

  predicate Bumps(e: Event) { e.Sets? || e.Invalidates? }

  predicate Clears(e: Event, key: int) {
    (e.Sets? && e.key == key) || (e.Invalidates? && (e.which.None? || e.which.value == key))
  }

  predicate Possible(r: Run, e: Event) { e.Publishes? ==> e.began in r.pending }

  /** The `n`-th event; a begin that hits computes nothing. */
  function Step(r: Run, e: Event, n: nat, ttl: int, max: int): Run
    requires Possible(r, e)
  {
    match e
    case Begins(key, now) =>
      var hit := Lookup(r.cache.entries, key);
      Run(Begun(r.cache, key, now, ttl),
          if hit.Some? && Live(hit.value, now, ttl) then r.pending else r.pending[n := (key, r.cache.generation)])
    case Publishes(began, now) =>
      var (key, generation) := r.pending[began];
      r.(cache := Published(r.cache, key, Computed(began), generation, now, max))
    case Peeks(key, now) => r.(cache := Peeked(r.cache, key, now, ttl))
    case Sets(key, now) => r.(cache := Written(r.cache, key, WrittenBySet, now, max))
    case Invalidates(which) => r.(cache := Invalidated(r.cache, which))
  }

  function After(events: seq<Event>, ttl: int, max: int): Option<Run> {
    if events == [] then Some(Run(State([], 0), map[]))
    else
      var n := |events| - 1;
      var before := After(events[..n], ttl, max);
      if before.None? || !Possible(before.value, events[n]) then None
      else Some(Step(before.value, events[n], n, ttl, max))
  }

  function BumpCount(events: seq<Event>): nat {
    if events == [] then 0
    else BumpCount(events[..|events| - 1]) + if Bumps(events[|events| - 1]) then 1 else 0
  }

  /** Two counts agree exactly when nothing was bumped in between. */
  lemma {:induction false} BumpsBetween(events: seq<Event>, i: nat)
    requires i <= |events|
    ensures BumpCount(events[..i]) <= BumpCount(events)
    ensures BumpCount(events[..i]) == BumpCount(events) <==> forall j | i <= j < |events| :: !Bumps(events[j])
  {
    if i == |events| {
      assert events[..i] == events;
    } else {
      var front := events[..|events| - 1];
      BumpsBetween(front, i);
      assert front[..i] == events[..i];
      assert forall j | i <= j < |front| :: front[j] == events[j];
    }
  }

  /** Every cached result of a compute for `key` began after the last clear of `key`. */
  predicate NothingStale(events: seq<Event>, entries: seq<Entry<int, Origin>>) {
    forall e | e in entries && e.value.Computed? ::
      && e.value.began < |events| && events[e.value.began].Begins? && events[e.value.began].key == e.key
      && forall j | e.value.began < j < |events| :: !Clears(events[j], e.key)
  }

  predicate PendingOk(events: seq<Event>, pending: map<nat, (int, nat)>) {
    forall i | i in pending ::
      && i < |events| && events[i].Begins? && events[i].key == pending[i].0
      && pending[i].1 == BumpCount(events[..i])
  }

  predicate RunOk(events: seq<Event>, r: Run, max: int) {
    && Distinct(r.cache.entries) && |r.cache.entries| <= Capacity(max)
    && r.cache.generation == BumpCount(events)
    && PendingOk(events, r.pending) && NothingStale(events, r.cache.entries)
  }

  /** No stale publication: in every interleaving of begins, publications, peeks, sets and
      invalidations. */
  lemma {:induction false} NoStalePublication(events: seq<Event>, ttl: int, max: int)
    requires After(events, ttl, max).Some?
    ensures RunOk(events, After(events, ttl, max).value, max)
  {
    if events != [] {
      var n := |events| - 1;
      NoStalePublication(events[..n], ttl, max);
      StepKeepsOk(events[..n], After(events[..n], ttl, max).value, events[n], ttl, max);
      assert events[..n] + [events[n]] == events;
    }
  }

  lemma OlderEventsStay(events: seq<Event>, e: Event, i: nat)
    requires i <= |events|
    ensures (events + [e])[..i] == events[..i]
    ensures BumpCount(events + [e]) == BumpCount(events) + if Bumps(e) then 1 else 0
  {
    assert (events + [e])[..|events|] == events;
  }

  lemma PendingExtends(events: seq<Event>, e: Event, pending: map<nat, (int, nat)>)
    requires PendingOk(events, pending)
    ensures PendingOk(events + [e], pending)
  {
    forall i | i in pending { OlderEventsStay(events, e, i); }
  }

  /** What stays, and is not cleared by the next event, is still not stale. */
  lemma StaysFresh(events: seq<Event>, e: Event, before: seq<Entry<int, Origin>>, after: seq<Entry<int, Origin>>)
    requires NothingStale(events, before)
    requires forall x | x in after && x.value.Computed? :: x in before && !Clears(e, x.key)
    ensures NothingStale(events + [e], after)
  {
  }

  lemma PublishIsFresh(events: seq<Event>, e: Event, x: Entry<int, Origin>, generation: nat)
    requires x.value.Computed? && PendingOk(events, map[x.value.began := (x.key, generation)])
    requires e.Publishes? && generation == BumpCount(events)
    ensures NothingStale(events + [e], [x])
  {
    var i := x.value.began;
    assert i in map[i := (x.key, generation)];
    BumpsBetween(events, i);
  }

  /** Reading an entry moves or drops it. */
  lemma ReadKeeps(s: State<int, Origin>, key: int)
    requires Distinct(s.entries)
    ensures var e, kept := Lookup(s.entries, key), Without(s.entries, key);
      && Distinct(kept) && |kept| <= |s.entries| && (forall x | x in kept :: x in s.entries)
      && (e.Some? ==> e.value.key == key)
      && (e.Some? ==> Distinct(kept + [e.value]) && |kept| < |s.entries| && forall x | x in kept + [e.value] :: x in s.entries)
  {
    WithoutKeeps(s.entries, key);
    var e := Lookup(s.entries, key);
    if e.Some? { MoveKeeps(s, e.value); }
  }

  lemma PublishKeepsOk(events: seq<Event>, r: Run, e: Event, ttl: int, max: int)
    requires RunOk(events, r, max) && e.Publishes? && Possible(r, e)
    ensures NothingStale(events + [e], Step(r, e, |events|, ttl, max).cache.entries)
    ensures Distinct(Step(r, e, |events|, ttl, max).cache.entries) && |Step(r, e, |events|, ttl, max).cache.entries| <= Capacity(max)
  {
    var (key, generation) := r.pending[e.began];
    var x := Entry(key, e.now, Computed(e.began));
    StoreKeeps(r.cache, key, x.value, e.now, max);
    StaysFresh(events, e, r.cache.entries, r.cache.entries);
    if generation == r.cache.generation {
      PublishIsFresh(events, e, x, generation);
      FreshTogether(events + [e], r.cache.entries, x, Stored(r.cache, key, x.value, e.now, max).entries);
    }
  }

  lemma FreshTogether(events: seq<Event>, old': seq<Entry<int, Origin>>, x: Entry<int, Origin>, all: seq<Entry<int, Origin>>)
    requires NothingStale(events, old') && NothingStale(events, [x])
    requires forall y | y in all :: y in old' || y == x
    ensures NothingStale(events, all)
  {
    assert x in [x];
  }

  lemma StepKeepsOk(events: seq<Event>, r: Run, e: Event, ttl: int, max: int)
    requires RunOk(events, r, max) && Possible(r, e)
    ensures RunOk(events + [e], Step(r, e, |events|, ttl, max), max)
  {
    OlderEventsStay(events, e, |events|);
    PendingExtends(events, e, r.pending);
    var before, after := r.cache.entries, Step(r, e, |events|, ttl, max).cache.entries;
    match e
    case Begins(key, now) =>
      ReadKeeps(r.cache, key);
      StaysFresh(events, e, before, after);
    case Peeks(key, now) =>
      ReadKeeps(r.cache, key);
      StaysFresh(events, e, before, after);
    case Publishes(began, now) =>
      PublishKeepsOk(events, r, e, ttl, max);
    case Sets(key, now) =>
      StoreKeeps(r.cache, key, WrittenBySet, now, max);
      StaysFresh(events, e, before, after);
    case Invalidates(which) =>
      if which.Some? { WithoutKeeps(before, which.value); }
      StaysFresh(events, e, before, after);
  }

  /** A compute is published exactly when nothing was set or invalidated since it began. */
  lemma PublishedIffUndisturbed(events: seq<Event>, began: nat, now: int, ttl: int, max: int)
    requires max >= 1 && After(events, ttl, max).Some?
    requires began in After(events, ttl, max).value.pending
    ensures var r := After(events, ttl, max).value;
      var e := Entry(r.pending[began].0, now, Computed(began));
      var after := Step(r, Publishes(began, now), |events|, ttl, max);
      if forall j | began < j < |events| :: !Bumps(events[j])
      then e in after.cache.entries
      else after == r
  {
    var r := After(events, ttl, max).value;
    NoStalePublication(events, ttl, max);
    BumpsBetween(events, began);
    StoreKeeps(r.cache, r.pending[began].0, Computed(began), now, max);
    assert !Bumps(events[began]);
    assert (forall j | began < j < |events| :: !Bumps(events[j])) <==> r.pending[began].1 == r.cache.generation;
  }
}
