/** The target's bounded, expiring cache from request id to sandbox id. */
module Dedup {
  import opened Common

  datatype Entry = Entry(sandboxID: string, at: int)

  type Cache = map<string, Entry>

  /** Entries no older than the lifetime. */
  function Unexpired(m: Cache, ttl: int, now: int): Cache {
    map k | k in m && now - m[k].at <= ttl :: m[k]
  }

  function Hit(m: Cache, ttl: int, id: string, now: int): Option<string> {
    if id in m && now - m[id].at <= ttl then Some(m[id].sandboxID) else None
  }

  /** `k` is a key with the oldest time. */
  ghost predicate Oldest(m: Cache, k: string) {
    k in m && forall j | j in m :: m[k].at <= m[j].at
  }

  /** `r` is the cache after a put: expired entries swept, an oldest one evicted if the cache is
      still full, then the new entry written. */
  ghost predicate PutResult(m: Cache, ttl: int, max: int, id: string, sandboxID: string, now: int, r: Cache) {
    var swept := Unexpired(m, ttl, now);
    if |swept| < max then r == swept[id := Entry(sandboxID, now)]
    else if swept == map[] then r == map[id := Entry(sandboxID, now)]
    else exists k :: Oldest(swept, k) && r == (swept - {k})[id := Entry(sandboxID, now)]
  }

  /** The entry is written; what else stays was there, unexpired; an unexpired entry goes only from a full cache:
      one alone, an oldest. */
  lemma PutMeans(m: Cache, ttl: int, max: int, id: string, sandboxID: string, now: int, r: Cache)
    requires PutResult(m, ttl, max, id, sandboxID, now, r)
    ensures id in r && r[id] == Entry(sandboxID, now)
    ensures forall k | k in r && k != id :: k in m && r[k] == m[k] && now <= m[k].at + ttl
    ensures forall k | k in m && now <= m[k].at + ttl && k !in r ::
              |Unexpired(m, ttl, now)| >= max && forall j | j in m && now <= m[j].at + ttl :: m[k].at <= m[j].at
    ensures forall j, k | j in m && k in m && j !in r && k !in r && now <= m[j].at + ttl && now <= m[k].at + ttl :: j == k
  {
    var swept := Unexpired(m, ttl, now);
    if |swept| >= max && swept != map[] {
      var k :| Oldest(swept, k) && r == (swept - {k})[id := Entry(sandboxID, now)];
      assert forall j | j in m && now <= m[j].at + ttl :: j in swept;
    }
  }

  class DedupCache {
    var m: Cache
    const ttl: int
    const max: int

    constructor (ttl: int, max: int)
      ensures m == map[] && this.ttl == ttl && this.max == max
    {
      m, this.ttl, this.max := map[], ttl, max;
    }

    /** An expired entry is dropped by the lookup that finds it. */
    method Get(id: string, now: int) returns (r: Option<string>)
      modifies this
      ensures r == Hit(old(m), ttl, id, now)
      ensures r.Some? <==> id in old(m) && now <= old(m)[id].at + ttl
      ensures r.Some? ==> r.value == old(m)[id].sandboxID
      ensures m == if id in old(m) && r.None? then old(m) - {id} else old(m)
    {
      if id !in m {
        return None;
      }
      if now - m[id].at > ttl {
        m := m - {id};
        return None;
      }
      r := Some(m[id].sandboxID);
    }

    method Sweep(now: int)
      modifies this
      ensures m == Unexpired(old(m), ttl, now)
    {
      var todo := m.Keys;
      while todo != {}
        invariant todo <= m.Keys <= old(m).Keys
        invariant forall k | k in m :: m[k] == old(m)[k]
        invariant forall k | k in old(m) :: k in m || now - old(m)[k].at > ttl
        invariant forall k | k in m :: k in todo || now - m[k].at <= ttl
        decreases todo
      {
        var k :| k in todo;
        todo := todo - {k};
        if now - m[k].at > ttl {
          m := m - {k};
        }
      }
    }

    method Put(id: string, sandboxID: string, now: int)
      modifies this
      ensures PutResult(old(m), ttl, max, id, sandboxID, now, m)
      ensures id in m && m[id] == Entry(sandboxID, now)
      ensures forall k | k in m && k != id :: k in old(m) && m[k] == old(m)[k] && now <= m[k].at + ttl
      ensures forall k | k in old(m) && now <= old(m)[k].at + ttl && k !in m ::
                |Unexpired(old(m), ttl, now)| >= max
                && forall j | j in old(m) && now <= old(m)[j].at + ttl :: old(m)[k].at <= old(m)[j].at
      ensures forall j, k | j in old(m) && k in old(m) && j !in m && k !in m
                            && now <= old(m)[j].at + ttl && now <= old(m)[k].at + ttl :: j == k
    {
      Sweep(now);
      if |m| >= max {
        var oldestKey := "";
        var oldestAt, first := 0, true;
        var todo := m.Keys;
        while todo != {}
          invariant todo <= m.Keys
          invariant first ==> todo == m.Keys
          invariant !first ==> oldestKey in m && m[oldestKey].at == oldestAt
          invariant !first ==> forall k | k in m && k !in todo :: oldestAt <= m[k].at
          decreases todo
        {
          var k :| k in todo;
          todo := todo - {k};
          if first || m[k].at < oldestAt {
            oldestKey, oldestAt, first := k, m[k].at, false;
          }
        }
        assert m != map[] ==> Oldest(m, oldestKey) by { assert m.Keys == {} ==> m == map[]; }
        m := m - {oldestKey};
      }
      m := m[id := Entry(sandboxID, now)];
      assert PutResult(old(m), ttl, max, id, sandboxID, now, m);
      PutMeans(old(m), ttl, max, id, sandboxID, now, m);
    }
  }

  // ---- the cache against the full history ----

  /** A put or a lookup, at its time. */
  datatype Event = PutAt(id: string, sandboxID: string, now: int) | GetAt(id: string, now: int)

  ghost predicate EventResult(m: Cache, ttl: int, max: int, e: Event, r: Cache) {
    match e
    case PutAt(id, sandboxID, now) => PutResult(m, ttl, max, id, sandboxID, now, r)
    case GetAt(id, now) => r == if id in m && Hit(m, ttl, id, now).None? then m - {id} else m
  }

  /** `states` are the caches before, between and after the events. */
  ghost predicate History(states: seq<Cache>, events: seq<Event>, ttl: int, max: int) {
    && |states| == |events| + 1
    && forall i | 0 <= i < |events| :: StepAt(states, events, ttl, max, i)
  }

  ghost predicate StepAt(states: seq<Cache>, events: seq<Event>, ttl: int, max: int, i: int)
    requires |states| == |events| + 1 && 0 <= i < |events|
  {
    EventResult(states[i], ttl, max, events[i], states[i + 1])
  }

  /** The last put for `id` among the first `n` events. */
  function LastPut(events: seq<Event>, n: nat, id: string): Option<Entry>
    requires n <= |events|
  {
    if n == 0 then None
    else if events[n - 1].PutAt? && events[n - 1].id == id then
      Some(Entry(events[n - 1].sandboxID, events[n - 1].now))
    else LastPut(events, n - 1, id)
  }

  lemma PutFacts(m: Cache, ttl: int, max: int, id: string, sandboxID: string, now: int, r: Cache)
    requires PutResult(m, ttl, max, id, sandboxID, now, r)
    ensures id in r && r[id] == Entry(sandboxID, now)
    ensures forall k | k in r && k != id :: k in m && r[k] == m[k]
    ensures max >= 1 && |m| <= max ==> |r| <= max
  {
    var swept := Unexpired(m, ttl, now);
    SubsetSize(swept.Keys, m.Keys);
    if |swept| >= max && swept != map[] {
      var k :| Oldest(swept, k) && r == (swept - {k})[id := Entry(sandboxID, now)];
      assert |swept - {k}| == |swept| - 1;
    }
  }

  /** Everything held is the last value put for its key. */
  ghost predicate Faithful(m: Cache, events: seq<Event>, n: nat)
    requires n <= |events|
  {
    forall id | id in m :: LastPut(events, n, id) == Some(m[id])
  }

  lemma RefineStep(states: seq<Cache>, events: seq<Event>, ttl: int, max: int, n: nat)
    requires History(states, events, ttl, max) && 0 < n <= |events| && max >= 1
    requires |states[n - 1]| <= max && Faithful(states[n - 1], events, n - 1)
    ensures |states[n]| <= max && Faithful(states[n], events, n)
  {
    assert StepAt(states, events, ttl, max, n - 1);
    var e := events[n - 1];
    if e.PutAt? {
      PutFacts(states[n - 1], ttl, max, e.id, e.sandboxID, e.now, states[n]);
    } else {
      SubsetSize(states[n].Keys, states[n - 1].Keys);
    }
  }

  /** The cache never exceeds its bound, and whatever it holds for a key is the last value put
      for it: a hit can be stale in age, never in value. */
  lemma {:induction false} CacheRefinesHistory(states: seq<Cache>, events: seq<Event>, ttl: int, max: int, n: nat)
    requires History(states, events, ttl, max) && states[0] == map[] && max >= 1 && n <= |events|
    ensures |states[n]| <= max && Faithful(states[n], events, n)
    decreases n
  {
    if n > 0 {
      CacheRefinesHistory(states, events, ttl, max, n - 1);
      RefineStep(states, events, ttl, max, n);
    }
  }

  /** An answer is the last value put for the request, and it was put within the lifetime. */
  lemma AnsweredWithinLifetime(states: seq<Cache>, events: seq<Event>, ttl: int, max: int, n: nat, id: string, now: int)
    requires History(states, events, ttl, max) && states[0] == map[] && max >= 1 && n <= |events|
    ensures Hit(states[n], ttl, id, now).Some? ==>
              exists i | 0 <= i < n :: events[i] == PutAt(id, Hit(states[n], ttl, id, now).value, events[i].now)
                                       && now <= events[i].now + ttl
                                       && forall j | i < j < n :: !(events[j].PutAt? && events[j].id == id)
  {
    CacheRefinesHistory(states, events, ttl, max, n);
    if Hit(states[n], ttl, id, now).Some? {
      var i := LastPutAt(events, n, id);
    }
  }

  lemma {:induction false} LastPutAt(events: seq<Event>, n: nat, id: string) returns (i: nat)
    requires n <= |events| && LastPut(events, n, id).Some?
    ensures i < n && events[i] == PutAt(id, LastPut(events, n, id).value.sandboxID, LastPut(events, n, id).value.at)
    ensures forall j | i < j < n :: !(events[j].PutAt? && events[j].id == id)
    decreases n
  {
    i := n - 1;
    if !(events[i].PutAt? && events[i].id == id) { i := LastPutAt(events, n - 1, id); }
  }

  // ---- how long an entry survives ----

  /** Keys of entries newer than `t`. */
  ghost function Newer(m: Cache, t: int): set<string> { set k | k in m && m[k].at > t }

  /** Number of puts among the events. */
  function Puts(events: seq<Event>): nat {
    if events == [] then 0 else Puts(events[..|events| - 1]) + if events[|events| - 1].PutAt? then 1 else 0
  }

  /** If everything else in a cache is newer than an entry, the cache is larger than the number
      of newer entries by at most one. */
  lemma NewerCount(m: Cache, id: string)
    requires id in m && forall k | k in m && k != id :: m[k].at > m[id].at
    ensures |m| == |Newer(m, m[id].at)| + 1
  {
    assert m.Keys == Newer(m, m[id].at) + {id};
  }

  /** One put: a live entry survives if fewer than `max - 1` newer ones are present, and the
      number of newer entries grows by at most one. */
  lemma PutSparesRecent(m: Cache, ttl: int, max: int, e: Event, r: Cache, id: string)
    requires e.PutAt? && PutResult(m, ttl, max, e.id, e.sandboxID, e.now, r)
    requires id in m && e.id != id && m[id].at < e.now && e.now - m[id].at <= ttl
    requires forall k | k in m && k != id :: m[k].at != m[id].at
    requires |Newer(m, m[id].at)| < max - 1
    ensures id in r && r[id] == m[id]
    ensures |Newer(r, m[id].at)| <= |Newer(m, m[id].at)| + 1
    ensures forall k | k in r && k != id :: r[k].at != m[id].at
  {
    var t := m[id].at;
    PutMeans(m, ttl, max, e.id, e.sandboxID, e.now, r);
    if id !in r {
      var swept := Unexpired(m, ttl, e.now);
      NewerCount(swept, id);
      SubsetSize(Newer(swept, t), Newer(m, t));
      assert false;
    }
    SubsetSize(Newer(r, t), Newer(m, t) + {e.id});
  }

  /** Retention: an entry stays retrievable, with its value, through any `max - 1` later puts
      for other requests and any lookups, as long as its lifetime has not passed. */
  lemma {:induction false} EntrySurvives(states: seq<Cache>, events: seq<Event>, ttl: int, max: int, id: string, n: nat)
    requires History(states, events, ttl, max) && n <= |events|
    requires id in states[0] && Newer(states[0], states[0][id].at) == {}
    requires forall k | k in states[0] && k != id :: states[0][k].at != states[0][id].at
    requires forall e | e in events :: states[0][id].at < e.now && e.now - states[0][id].at <= ttl
    requires forall e | e in events && e.PutAt? :: e.id != id
    requires Puts(events[..n]) < max
    ensures id in states[n] && states[n][id] == states[0][id]
    ensures |Newer(states[n], states[0][id].at)| <= Puts(events[..n])
    ensures forall k | k in states[n] && k != id :: states[n][k].at != states[0][id].at
    decreases n
  {
    if n > 0 {
      var e := events[n - 1];
      assert e in events;
      assert events[..n][..n - 1] == events[..n - 1];
      EntrySurvives(states, events, ttl, max, id, n - 1);
      assert StepAt(states, events, ttl, max, n - 1);
      if e.PutAt? {
        PutSparesRecent(states[n - 1], ttl, max, e, states[n], id);
      } else {
        SubsetSize(Newer(states[n], states[0][id].at), Newer(states[n - 1], states[0][id].at));
      }
    }
  }

  /** Puts of distinct new keys within the lifetime of an entry that is the newest of its cache. */
  ghost predicate Crowding(m: Cache, id: string, events: seq<Event>, ttl: int) {
    && id in m && (forall k | k in m && k != id :: m[k].at < m[id].at)
    && (forall e | e in events :: e.PutAt? && e.id !in m && m[id].at < e.now && e.now - m[id].at <= ttl)
    && (forall i, j | 0 <= i < j < |events| :: events[i].id != events[j].id)
  }

  /** The keys of the first `n` puts. */
  function CrowdKeys(events: seq<Event>, n: nat): set<string>
    requires n <= |events|
  {
    if n == 0 then {} else CrowdKeys(events, n - 1) + {events[n - 1].id}
  }

  lemma {:induction false} CrowdSize(m: Cache, id: string, events: seq<Event>, ttl: int, n: nat)
    requires Crowding(m, id, events, ttl) && n <= |events|
    ensures |CrowdKeys(events, n)| == n && CrowdKeys(events, n) !! m.Keys
    ensures forall j | n <= j < |events| :: events[j].id !in CrowdKeys(events, n)
    ensures |CrowdKeys(events, n) + {id}| == n + 1
    decreases n
  {
    if n > 0 {
      CrowdSize(m, id, events, ttl, n - 1);
      assert events[n - 1] in events;
    }
  }

  /** The entry and all later puts are there, later ones newer; whatever else is there is older. */
  ghost predicate Crowded(m: Cache, first: Cache, id: string, events: seq<Event>, n: nat)
    requires n <= |events| && id in first
  {
    && id in m && m[id] == first[id]
    && (forall k | k in CrowdKeys(events, n) :: k in m && m[k].at > m[id].at)
    && (forall k | k in m && k != id && k !in CrowdKeys(events, n) :: m[k].at < m[id].at && k in first)
  }

  lemma CrowdGrows(first: Cache, m: Cache, id: string, events: seq<Event>, ttl: int, n: nat, gone: set<string>)
    requires 0 < n <= |events| && Crowding(first, id, events, ttl) && Crowded(m, first, id, events, n - 1)
    requires gone !! CrowdKeys(events, n - 1) + {id}
    ensures var e := events[n - 1];
            e.PutAt? && Crowded((Unexpired(m, ttl, e.now) - gone)[e.id := Entry(e.sandboxID, e.now)], first, id, events, n)
  {
    assert events[n - 1] in events;
    CrowdSize(first, id, events, ttl, n - 1);
    SweptKeepsCrowd(m, ttl, events[n - 1].now, id, CrowdKeys(events, n - 1));
  }

  lemma FullStep(first: Cache, m: Cache, id: string, events: seq<Event>, ttl: int, max: int, n: nat, k: string)
    requires 0 < n <= |events| && n <= max && Crowding(first, id, events, ttl)
    requires |m| <= max && Crowded(m, first, id, events, n - 1)
    requires var swept := Unexpired(m, ttl, events[n - 1].now); |swept| >= max && Oldest(swept, k)
    ensures k !in CrowdKeys(events, n - 1) && (k == id <==> n == max)
  {
    var e, crowd := events[n - 1], CrowdKeys(events, n - 1);
    assert e in events;
    var swept := Unexpired(m, ttl, e.now);
    CrowdSize(first, id, events, ttl, n - 1);
    SweptKeepsCrowd(m, ttl, e.now, id, crowd);
    SubsetSize(swept.Keys, m.Keys);
    EvictsOlder(swept, id, crowd, max, n, k);
  }

  lemma RoomStep(first: Cache, m: Cache, id: string, events: seq<Event>, ttl: int, max: int, n: nat)
    requires 0 < n <= |events| && Crowding(first, id, events, ttl) && Crowded(m, first, id, events, n - 1)
    requires |Unexpired(m, ttl, events[n - 1].now)| < max
    ensures n < max
  {
    assert events[n - 1] in events;
    CrowdSize(first, id, events, ttl, n - 1);
    SweptKeepsCrowd(m, ttl, events[n - 1].now, id, CrowdKeys(events, n - 1));
    SubsetSize(CrowdKeys(events, n - 1) + {id}, Unexpired(m, ttl, events[n - 1].now).Keys);
  }

  /** Below the bound the next put evicts something older, at the bound it evicts the entry. */
  lemma CrowdStep(first: Cache, m: Cache, id: string, events: seq<Event>, ttl: int, max: int, n: nat, r: Cache)
    requires 0 < n <= |events| && n <= max && Crowding(first, id, events, ttl)
    requires |m| <= max && Crowded(m, first, id, events, n - 1)
    requires EventResult(m, ttl, max, events[n - 1], r)
    ensures n < max ==> Crowded(r, first, id, events, n)
    ensures id in r <==> n < max
  {
    var e := events[n - 1];
    assert e in events;
    var swept := Unexpired(m, ttl, e.now);
    assert id in swept;
    if |swept| >= max {
      var k :| Oldest(swept, k) && r == (swept - {k})[e.id := Entry(e.sandboxID, e.now)];
      FullStep(first, m, id, events, ttl, max, n, k);
      if n < max { CrowdGrows(first, m, id, events, ttl, n, {k}); }
    } else {
      RoomStep(first, m, id, events, ttl, max, n);
      CrowdGrows(first, m, id, events, ttl, n, {});
      assert swept - {} == swept;
    }
  }

  /** What is newer than a live entry is live. */
  lemma SweptKeepsCrowd(m: Cache, ttl: int, now: int, id: string, crowd: set<string>)
    requires id in m && now - m[id].at <= ttl && forall k | k in crowd :: k in m && m[k].at > m[id].at
    ensures crowd + {id} <= Unexpired(m, ttl, now).Keys
  {}

  /** A full cache evicts the entry if it holds nothing older, and something older else. */
  lemma EvictsOlder(swept: Cache, id: string, crowd: set<string>, max: int, n: nat, k: string)
    requires Oldest(swept, k) && max == |swept| && n <= max && id in swept && |crowd + {id}| == n
    requires forall j | j in swept && j != id && j !in crowd :: swept[j].at < swept[id].at
    requires forall j | j in swept && j in crowd :: swept[j].at > swept[id].at
    requires n == max ==> crowd + {id} <= swept.Keys
    ensures k !in crowd && (k == id <==> n == max)
  {
    if n == max {
      SameSize(crowd + {id}, swept.Keys);
    } else if forall j | j in swept :: j == id || j in crowd {
      SubsetSize(swept.Keys, crowd + {id});
      assert false;
    } else {
      var j :| j in swept && j != id && j !in crowd;
      assert swept[k].at <= swept[j].at;
    }
  }

  lemma SameSize(a: set<string>, b: set<string>)
    requires a <= b && |a| == |b|
    ensures a == b
  {
    assert b == a + (b - a) && |b| == |a| + |b - a|;
  }

  /** The bound is tight: from any cache within its bound whose newest entry it is, `max` later puts of
      distinct new keys within its lifetime push the entry out, and not one fewer. */
  lemma {:induction false} EntryEvicted(states: seq<Cache>, events: seq<Event>, ttl: int, max: int, id: string, n: nat)
    requires max >= 1 && History(states, events, ttl, max) && n <= |events| && n <= max
    requires Crowding(states[0], id, events, ttl) && |states[0]| <= max
    ensures n < max ==> Crowded(states[n], states[0], id, events, n)
    ensures |states[n]| <= max && (id in states[n] <==> n < max)
    decreases n
  {
    if n > 0 {
      EntryEvicted(states, events, ttl, max, id, n - 1);
      assert StepAt(states, events, ttl, max, n - 1);
      var e := events[n - 1];
      assert e in events;
      CrowdStep(states[0], states[n - 1], id, events, ttl, max, n, states[n]);
      PutFacts(states[n - 1], ttl, max, e.id, e.sandboxID, e.now, states[n]);
    }
  }
}
