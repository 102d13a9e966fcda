/** The TTL cache in front of the realized-state graph
    (internal/backend/state_engine_graph_cache.go:18-108).  The clock is a parameter. */
module GraphCache {
  import opened CacheKey

  datatype Entry<S> = Entry(snapshot: S, expiresAt: int)

  type Entries<S> = map<string, Entry<S>>

  /** Entries that stay are unchanged. */
  predicate Kept<S(==)>(before: Entries<S>, after: Entries<S>) {
    forall k :: k in after ==> k in before && after[k] == before[k]
  }

  /** What `get` may do to the entries and answer. */
  predicate GetEffect<S(==)>(before: Entries<S>, after: Entries<S>, key: string, now: int, hit: bool, snapshot: S) {
    && (hit <==> key in before && before[key].expiresAt > now)
    && (hit ==> after == before && snapshot == before[key].snapshot)
    && (!hit ==> after == before - {key})
  }

  function Live<S>(entries: Entries<S>, now: int): (live: Entries<S>) {
    map k | k in entries && entries[k].expiresAt > now :: entries[k]
  }

  /** No other entry expires before `k` does. */
  predicate ExpiresFirst<S>(entries: Entries<S>, k: string) {
    k in entries && forall l :: l in entries ==> entries[k].expiresAt <= entries[l].expiresAt
  }

  /** What `put` does: the expired entries go; at capacity one live entry goes, one that
      expires first, even when the key replaces its own entry; then the snapshot is stored. */
  predicate PutEffect<S(==)>(before: Entries<S>, after: Entries<S>, key: string, entry: Entry<S>, now: int,
                        maxEntries: int) {
    var live := Live(before, now);
    if |live| < maxEntries then after == live[key := entry]
    else exists k :: k in live && ExpiresFirst(live, k) && after == (live - {k})[key := entry]
  }

  /** What a `put` leaves: the new entry, and else only live entries as they were; all of them
      when there is room, and otherwise all but one, which no other live entry expires before. */
  lemma PutKeepsTheLive<S>(before: Entries<S>, after: Entries<S>, key: string, entry: Entry<S>, now: int,
                              maxEntries: int)
    requires PutEffect(before, after, key, entry, now, maxEntries)
    ensures key in after && after[key] == entry
    ensures forall k :: k in after && k != key ==> k in before && after[k] == before[k] && before[k].expiresAt > now
    ensures |set k | k in before && before[k].expiresAt > now| < maxEntries ==>
              forall k :: k in before && before[k].expiresAt > now ==> k in after
    ensures forall k :: k in before && before[k].expiresAt > now && k !in after ==>
              forall l :: l in before && before[l].expiresAt > now ==>
                before[k].expiresAt <= before[l].expiresAt && (l != k ==> l in after)
  {
    var live := Live(before, now);
    assert live.Keys == set k | k in before && before[k].expiresAt > now;
  }

  class Cache<S(==)> {
    const maxEntries: int
    const ttl: int
    var entries: Entries<S>

    /** Cached keys come from `Key`, so none is empty; the cache never outgrows its bound. */
    predicate Valid()
      reads this
    {
      maxEntries > 0 && ttl > 0 && |entries| <= maxEntries && "" !in entries
    }

    constructor (maxEntries: int, ttl: int)
      requires maxEntries > 0 && ttl > 0
      ensures Valid() && entries == map[] && this.maxEntries == maxEntries && this.ttl == ttl
    {
      this.maxEntries := maxEntries;
      this.ttl := ttl;
      entries := map[];
    }

    method Get(stateId: string, serial: int, now: int, default: S) returns (snapshot: S, hit: bool)
      requires Valid()
      modifies this
      ensures Valid()
      ensures GetEffect(old(entries), entries, Key(stateId, serial), now, hit, snapshot)
      ensures hit <==> Key(stateId, serial) in old(entries) && old(entries)[Key(stateId, serial)].expiresAt > now
      ensures hit ==> entries == old(entries) && snapshot == entries[Key(stateId, serial)].snapshot
      ensures !hit ==> entries == old(entries) - {Key(stateId, serial)} && snapshot == default
    {
      var key := Key(stateId, serial);
      if key !in entries {
        assert entries - {key} == entries;
        return default, false;
      }
      if entries[key].expiresAt <= now {
        SmallerWithout(entries, key);
        entries := entries - {key};
        return default, false;
      }
      return entries[key].snapshot, true;
    }

    method Put(stateId: string, serial: int, snapshot: S, now: int)
      requires Valid()
      modifies this
      ensures Valid()
      ensures PutEffect(old(entries), entries, Key(stateId, serial), Entry(snapshot, now + ttl), now, maxEntries)
      ensures forall k :: k in entries ==> entries[k].expiresAt > now
    {
      var key := Key(stateId, serial);
      PurgeExpired(now);
      if |entries| >= maxEntries {
        EvictOne();
      }
      assert key != "" by { assert key[|stateId|] == '|'; }
      GrowsByOne(entries, key, Entry(snapshot, now + ttl));
      entries := entries[key := Entry(snapshot, now + ttl)];
    }

    /** `purgeExpiredLocked`: exactly the live entries remain. */
    method PurgeExpired(now: int)
      requires Valid()
      modifies this
      ensures Valid()
      ensures entries == map k | k in old(entries) && old(entries)[k].expiresAt > now :: old(entries)[k]
    {
      var todo := entries.Keys;
      while todo != {}
        invariant todo <= old(entries).Keys
        invariant Valid() && Kept(old(entries), entries)
        invariant entries.Keys == set k | k in old(entries) && (k in todo || old(entries)[k].expiresAt > now)
        decreases todo
      {
        var k :| k in todo;
        todo := todo - {k};
        if entries[k].expiresAt <= now {
          SmallerWithout(entries, k);
          entries := entries - {k};
        }
      }
    }

    /** `evictOneLocked`: the entry that expires first goes. */
    method EvictOne()
      requires Valid()
      modifies this
      ensures Valid() && Kept(old(entries), entries)
      ensures old(entries) != map[] ==>
                exists k :: k in old(entries) && ExpiresFirst(old(entries), k) && entries == old(entries) - {k}
      ensures old(entries) != map[] ==> |entries| == |old(entries)| - 1
    {
      var oldestKey, oldestAt := "", 0;
      var todo := entries.Keys;
      while todo != {}
        invariant todo <= entries.Keys
        invariant oldestKey == "" <==> todo == entries.Keys
        invariant oldestKey != "" ==> oldestKey in entries && entries[oldestKey].expiresAt == oldestAt
        invariant oldestKey != "" ==> forall l :: l in entries.Keys - todo ==> oldestAt <= entries[l].expiresAt
      {
        var k :| k in todo;
        todo := todo - {k};
        if oldestKey == "" || entries[k].expiresAt < oldestAt {
          oldestKey, oldestAt := k, entries[k].expiresAt;
        }
      }
      if oldestKey != "" {
        SmallerWithout(entries, oldestKey);
        entries := entries - {oldestKey};
      }
    }
  }

  lemma SmallerWithout<S>(m: Entries<S>, k: string)
    requires k in m
    ensures |m - {k}| == |m| - 1
  {
    assert (m - {k}).Keys == m.Keys - {k};
  }

  lemma GrowsByOne<S>(m: Entries<S>, k: string, e: Entry<S>)
    ensures |m[k := e]| <= |m| + 1
    ensures k in m ==> |m[k := e]| == |m|
  {
    assert m[k := e].Keys == m.Keys + {k};
  }
}

/** Requests that resolve, look up, load and store while commits land in between. */
module GraphCacheFreshness {
  import opened CacheKey
  import opened GraphCache

  type RequestId = nat

  /** A graph, named by the state and serial it was read at. */
  datatype Graph = Graph(stateId: string, serial: int)

  datatype Phase =
    | Idle
    | Resolved(stateId: string, serial: int)
    | Missed(stateId: string, serial: int)
    | Loaded(stateId: string, serial: int, graph: Graph)
    | Answered(stateId: string, serial: int, graph: Graph, hit: bool)

  datatype World = World(now: int, current: map<string, int>, entries: Entries<Graph>, requests: map<RequestId, Phase>)
  {
    function Phase(r: RequestId): Phase { if r in requests then requests[r] else Idle }
    function Go(r: RequestId, p: Phase): World { this.(requests := requests[r := p]) }
  }

  datatype Step =
    | Commit(stateId: string, newSerial: int)
    | Tick(d: nat)
    | Resolve(r: RequestId, id: string)
    | Get(r: RequestId)
    | Load(r: RequestId)
    | Put(r: RequestId, ttl: int, maxEntries: int)

  /** `loadStateEngineGraphSnapshot`, one store or cache call at a time. */
  ghost predicate Next(w: World, s: Step, w': World) {
    match s
    case Commit(id, serial) => id in w.current && serial > w.current[id] && w' == w.(current := w.current[id := serial])
    case Tick(d) => w' == w.(now := w.now + d)
    case Resolve(r, id) => id in w.current && w.Phase(r).Idle? && w' == w.Go(r, Resolved(id, w.current[id]))
    case Get(r) =>
      && w.Phase(r).Resolved?
      && var p := w.Phase(r);
         exists hit, g :: GetEffect(w.entries, w'.entries, Key(p.stateId, p.serial), w.now, hit, g)
           && w' == w.Go(r, if hit then Answered(p.stateId, p.serial, g, true) else Missed(p.stateId, p.serial))
                     .(entries := w'.entries)
    case Load(r) =>
      && w.Phase(r).Missed? && w.Phase(r).stateId in w.current
      && var p := w.Phase(r);
         w' == w.Go(r, Loaded(p.stateId, p.serial, Graph(p.stateId, w.current[p.stateId])))
    case Put(r, ttl, maxEntries) =>
      && w.Phase(r).Loaded?
      && var p := w.Phase(r);
         PutEffect(w.entries, w'.entries, Key(p.stateId, p.serial), Entry(p.graph, w.now + ttl), w.now, maxEntries)
         && w' == w.Go(r, Answered(p.stateId, p.serial, p.graph, false)).(entries := w'.entries)
  }

  predicate PhaseFresh(current: map<string, int>, p: Phase) {
    && (!p.Idle? ==> p.stateId in current && p.serial <= current[p.stateId])
    && (p.Loaded? || p.Answered? ==>
          p.graph.stateId == p.stateId && p.serial <= p.graph.serial <= current[p.stateId])
  }

  /** Every entry holds a graph of its own state, at least as new as its key says. */
  ghost predicate Fresh(w: World) {
    && (forall r: RequestId {:trigger w.Phase(r)} :: PhaseFresh(w.current, w.Phase(r)))
    && (forall id, serial {:trigger Key(id, serial)} :: Key(id, serial) in w.entries ==>
          var g := w.entries[Key(id, serial)].snapshot;
          g.stateId == id && id in w.current && serial <= g.serial <= w.current[id])
  }

  ghost predicate Initial(w: World) {
    w.entries == map[] && w.requests == map[]
  }

  lemma FreshStep(w: World, s: Step, w': World)
    requires Fresh(w) && Next(w, s, w')
    ensures Fresh(w')
  {
    forall r: RequestId ensures PhaseFresh(w'.current, w'.Phase(r)) {
      assert PhaseFresh(w.current, w.Phase(r));
      if s.Get? && s.r == r {
        var p := w.Phase(r);
        assert Key(p.stateId, p.serial) in w.entries ==>
          w.entries[Key(p.stateId, p.serial)].snapshot.stateId == p.stateId;
      }
    }
    forall id, serial | Key(id, serial) in w'.entries
      ensures var g := w'.entries[Key(id, serial)].snapshot;
              g.stateId == id && id in w'.current && serial <= g.serial <= w'.current[id]
    {
      if s.Put? && Key(id, serial) == Key(w.Phase(s.r).stateId, w.Phase(s.r).serial) {
        KeyInjective(id, serial, w.Phase(s.r).stateId, w.Phase(s.r).serial);
        assert PhaseFresh(w.current, w.Phase(s.r));
      } else if s.Put? {
        var k := Key(id, serial);
        assert k in Live(w.entries, w.now) && w'.entries[k] == w.entries[k];
      }
    }
  }

  ghost predicate IsRun(ws: seq<World>, steps: seq<Step>) {
    && |ws| == |steps| + 1
    && Initial(ws[0])
    && forall k :: 0 <= k < |steps| ==> Next(ws[k], steps[k], ws[k + 1])
  }

  lemma {:induction false} FreshHolds(ws: seq<World>, steps: seq<Step>, k: nat)
    requires IsRun(ws, steps) && k < |ws|
    ensures Fresh(ws[k])
  {
    if k > 0 {
      FreshHolds(ws, steps, k - 1);
      FreshStep(ws[k - 1], steps[k - 1], ws[k]);
    }
  }

  /** Freshness under concurrency.  However commits interleave with the calls of any number
      of requests, a request is answered, from the cache or not, with a graph of the state it
      asked for that is no older than the serial it resolved. */
  lemma AnswersAreFresh(ws: seq<World>, steps: seq<Step>, r: RequestId)
    requires IsRun(ws, steps)
    ensures var w := ws[|ws| - 1];
            w.Phase(r).Answered? ==>
              && w.Phase(r).graph.stateId == w.Phase(r).stateId && w.Phase(r).stateId in w.current
              && w.Phase(r).serial <= w.Phase(r).graph.serial <= w.current[w.Phase(r).stateId]
  {
    FreshHolds(ws, steps, |ws| - 1);
    assert PhaseFresh(ws[|ws| - 1].current, ws[|ws| - 1].Phase(r));
  }
}
