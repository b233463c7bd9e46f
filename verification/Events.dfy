/** The node's event bus: a replay ring, bounded subscriber queues, and what a watcher receives. */
module Events {
  import opened Common

  const QUEUE_SLOTS: nat := 64
  const DEFAULT_RING: nat := 256

  datatype Event = Event(seqNo: nat, kind: string, sandboxID: string, payload: string)

  datatype Filter = Filter(types: seq<string>, sandboxID: string)

  predicate Matches(f: Filter, e: Event) {
    && (f.sandboxID == "" || e.sandboxID == f.sandboxID)
    && (f.types == [] || e.kind in f.types)
  }

  datatype Subscription = Subscription(filter: Filter, queue: seq<Event>)

  /** The bus as a value. The log is everything ever published; the program keeps only the ring. */
  datatype State = State(size: nat, log: seq<Event>, ring: seq<Event>, subs: map<nat, Subscription>, nextID: nat)

  function Last(s: seq<Event>, n: nat): seq<Event> { if |s| <= n then s else s[|s| - n..] }

  /** Sequence numbers count from one, without gaps. */
  predicate Numbered(log: seq<Event>) { forall i | 0 <= i < |log| :: log[i].seqNo == i + 1 }

  predicate Ok(b: State) {
    && 0 < b.size
    && Numbered(b.log)
    && b.ring == Last(b.log, b.size)
    && (forall id | id in b.subs :: id < b.nextID && |b.subs[id].queue| <= QUEUE_SLOTS)
  }

  function Offered(s: Subscription, e: Event): Subscription {
    if Matches(s.filter, e) && |s.queue| < QUEUE_SLOTS then s.(queue := s.queue + [e]) else s
  }

  function Minted(b: State, kind: string, sandboxID: string, payload: string): Event {
    Event(|b.log| + 1, kind, sandboxID, payload)
  }

  function Published(b: State, e: Event): (r: State)
    requires Ok(b) && e.seqNo == |b.log| + 1
    ensures Ok(r)
  {
    b.(log := b.log + [e], ring := Last(b.log + [e], b.size),
       subs := map id | id in b.subs :: Offered(b.subs[id], e))
  }

  function Subscribed(b: State, f: Filter): (r: State)
    requires Ok(b)
    ensures Ok(r) && b.nextID !in b.subs
  {
    b.(subs := b.subs[b.nextID := Subscription(f, [])], nextID := b.nextID + 1)
  }

  function Cancelled(b: State, id: nat): (r: State)
    requires Ok(b)
    ensures Ok(r)
  {
    b.(subs := b.subs - {id})
  }

  function Received(b: State, id: nat): (r: State)
    requires Ok(b) && id in b.subs && b.subs[id].queue != []
    ensures Ok(r)
  {
    b.(subs := b.subs[id := b.subs[id].(queue := b.subs[id].queue[1..])])
  }

  // What a reader is owed.

  /** The events past `lo` up to `upTo`, and those past `from` that were not missed. */
  datatype Window = Window(lo: int, upTo: nat, from: nat, missed: set<nat>)

  predicate Wanted(f: Filter, w: Window, e: Event) {
    && Matches(f, e)
    && (w.lo < e.seqNo <= w.upTo || (w.from < e.seqNo && e.seqNo !in w.missed))
  }

  /** The wanted events, in order. */
  function Chosen(s: seq<Event>, f: Filter, w: Window): seq<Event> {
    if s == [] then []
    else
      var last := s[|s| - 1];
      Chosen(s[..|s| - 1], f, w) + (if Wanted(f, w, last) then [last] else [])
  }

  /** Everything past `lo` in a log of `n` events. */
  function Past(lo: int, n: nat): Window { Window(lo, n, n, {}) }

  lemma {:induction false} ChosenMembers(s: seq<Event>, f: Filter, w: Window, e: Event)
    ensures e in Chosen(s, f, w) <==> e in s && Wanted(f, w, e)
    decreases |s|
  {
    if s != [] {
      ChosenMembers(s[..|s| - 1], f, w, e);
      assert s == s[..|s| - 1] + [s[|s| - 1]];
    }
  }

  lemma {:induction false} ChosenAgree(s: seq<Event>, f: Filter, v: Window, w: Window)
    requires forall e | e in s :: Wanted(f, v, e) <==> Wanted(f, w, e)
    ensures Chosen(s, f, v) == Chosen(s, f, w)
    decreases |s|
  {
    if s != [] { ChosenAgree(s[..|s| - 1], f, v, w); }
  }

  lemma {:induction false} ChosenConcat(a: seq<Event>, b: seq<Event>, f: Filter, w: Window)
    ensures Chosen(a + b, f, w) == Chosen(a, f, w) + Chosen(b, f, w)
    decreases |b|
  {
    if b == [] {
      assert a + b == a;
    } else {
      assert (a + b)[..|a + b| - 1] == a + b[..|b| - 1];
      ChosenConcat(a, b[..|b| - 1], f, w);
    }
  }

  lemma {:induction false} ChosenNone(s: seq<Event>, f: Filter, w: Window)
    requires forall e | e in s :: !Wanted(f, w, e)
    ensures Chosen(s, f, w) == []
    decreases |s|
  {
    if s != [] { ChosenNone(s[..|s| - 1], f, w); }
  }

  predicate Increasing(s: seq<Event>) { forall i, j | 0 <= i < j < |s| :: s[i].seqNo < s[j].seqNo }

  lemma {:induction false} ChosenIncreasing(log: seq<Event>, f: Filter, w: Window)
    requires Numbered(log)
    ensures Increasing(Chosen(log, f, w))
    decreases |log|
  {
    if log != [] {
      var front := log[..|log| - 1];
      ChosenIncreasing(front, f, w);
      forall i | 0 <= i < |Chosen(front, f, w)| ensures Chosen(front, f, w)[i].seqNo < |log| {
        ChosenMembers(front, f, w, Chosen(front, f, w)[i]);
      }
    }
  }

  /** Replaying the ring gives what is wanted of the whole log, cut at the oldest event retained. */
  lemma RingReplays(b: State, f: Filter, since: nat)
    requires Ok(b)
    ensures Chosen(b.ring, f, Past(since, |b.log|)) == Chosen(b.log, f, Past(Oldest(b, since), |b.log|))
  {
    var n := |b.log|;
    var cut := n - |b.ring|;
    var w := Past(Oldest(b, since), n);
    assert b.log == b.log[..cut] + b.ring;
    ChosenConcat(b.log[..cut], b.ring, f, w);
    ChosenNone(b.log[..cut], f, w);
    ChosenAgree(b.ring, f, Past(since, n), w);
  }

  /** The last event a reader that has seen `since` cannot be replayed. */
  function Oldest(b: State, since: nat): int {
    if |b.log| - b.size <= since then since else |b.log| - b.size
  }

  /** Exactly the queues with room whose filter leaves the event's sandbox and type open, or names them, get it. */
  lemma OfferMeans(b: State, e: Event, r: State)
    requires Ok(b) && r.subs == (map id | id in b.subs :: Offered(b.subs[id], e))
    ensures r.subs.Keys == b.subs.Keys
    ensures forall id | id in r.subs ::
              var was := b.subs[id];
              r.subs[id] == if (was.filter.sandboxID == "" || was.filter.sandboxID == e.sandboxID)
                               && (was.filter.types == [] || e.kind in was.filter.types) && |was.queue| < 64
                            then was.(queue := was.queue + [e]) else was
  {}

  // The bus.

  class Bus {
    const size: nat
    var seqNo: nat
    var ring: seq<Event>
    var subs: map<nat, Subscription>
    var nextID: nat
    ghost var log: seq<Event>

    ghost function Now(): State
      reads this
    {
      State(size, log, ring, subs, nextID)
    }

    ghost predicate Valid()
      reads this
    {
      Ok(Now()) && seqNo == |log|
    }

    constructor (bufSize: int)
      ensures Valid() && Now() == State(if bufSize <= 0 then 256 else bufSize, [], [], map[], 0)
    {
      size := if bufSize <= 0 then DEFAULT_RING else bufSize;
      seqNo, ring, subs, nextID, log := 0, [], map[], 0, [];
    }

    /** Never waits: a subscriber whose queue is full misses the event, and no other one is affected. */
    method Offer(e: Event)
      modifies this`subs
      ensures subs == map id | id in old(subs) :: Offered(old(subs)[id], e)
    {
      ghost var was := subs;
      var todo := subs.Keys;
      while todo != {}
        invariant todo <= subs.Keys == was.Keys
        invariant forall id | id in subs :: subs[id] == if id in todo then was[id] else Offered(was[id], e)
        decreases todo
      {
        HasMember(todo);
        var pick :| pick in todo;
        var s := subs[pick];
        if Matches(s.filter, e) && |s.queue| < QUEUE_SLOTS {
          subs := subs[pick := s.(queue := s.queue + [e])];
        }
        todo := todo - {pick};
      }
    }

    method Publish(kind: string, sandboxID: string, payload: string) returns (e: Event)
      requires Valid()
      modifies this
      ensures Valid()
      ensures e == Minted(old(Now()), kind, sandboxID, payload) && Now() == Published(old(Now()), e)
      ensures |ring| == (if |log| < size then |log| else size) && ring == log[|log| - |ring|..]
      ensures log == old(log) + [e] && e.seqNo == |log| && e.kind == kind && e.sandboxID == sandboxID
      ensures subs.Keys == old(subs).Keys
      ensures forall id | id in subs ::
                var was := old(subs)[id];
                subs[id] == if (was.filter.sandboxID == "" || was.filter.sandboxID == sandboxID)
                               && (was.filter.types == [] || kind in was.filter.types) && |was.queue| < 64
                            then was.(queue := was.queue + [e]) else was
    {
      ghost var was := Now();
      seqNo := seqNo + 1;
      e := Event(seqNo, kind, sandboxID, payload);
      log := log + [e];
      ring := ring + [e];
      if |ring| > size {
        ring := ring[|ring| - size..];
      }
      assert ring == Last(log, size);
      Offer(e);
      assert Now() == Published(was, e);
      OfferMeans(was, e, Now());
    }

    method Replay(f: Filter, since: nat) returns (out: seq<Event>)
      requires Valid()
      ensures out == Chosen(log, f, Past(Oldest(Now(), since), |log|))
      ensures forall e :: e in out <==>
                && e in log && (f.sandboxID == "" || e.sandboxID == f.sandboxID) && (f.types == [] || e.kind in f.types)
                && since < e.seqNo && |log| - size < e.seqNo
    {
      out := [];
      for i := 0 to |ring|
        invariant out == Chosen(ring[..i], f, Past(since, |log|))
      {
        assert ring[..i + 1][..i] == ring[..i];
        if ring[i].seqNo > since && Matches(f, ring[i]) {
          out := out + [ring[i]];
        }
      }
      assert ring[..|ring|] == ring;
      RingReplays(Now(), f, since);
      forall e ensures e in out <==> e in log && Wanted(f, Past(Oldest(Now(), since), |log|), e) {
        ChosenMembers(log, f, Past(Oldest(Now(), since), |log|), e);
      }
    }

    method Subscribe(f: Filter) returns (id: nat)
      requires Valid()
      modifies this
      ensures Valid() && id == old(nextID) && id !in old(subs) && Now() == Subscribed(old(Now()), f)
      ensures subs == old(subs)[id := Subscription(f, [])] && log == old(log) && ring == old(ring)
    {
      id := nextID;
      nextID := nextID + 1;
      subs := subs[id := Subscription(f, [])];
    }

    method Cancel(id: nat)
      requires Valid()
      modifies this
      ensures Valid() && Now() == Cancelled(old(Now()), id)
      ensures subs == old(subs) - {id} && log == old(log) && ring == old(ring)
    {
      if id in subs {
        subs := subs - {id};
      }
      assert subs == old(subs) - {id};
    }

    method Receive(id: nat) returns (e: Event)
      requires Valid() && id in subs && subs[id].queue != []
      modifies this
      ensures Valid() && e == old(subs[id].queue[0]) && Now() == Received(old(Now()), id)
      ensures subs == old(subs)[id := old(subs)[id].(queue := old(subs)[id].queue[1..])] && log == old(log) && ring == old(ring)
    {
      e := subs[id].queue[0];
      subs := subs[id := subs[id].(queue := subs[id].queue[1..])];
    }
  }

  // A watcher among publishers and other subscribers, in any interleaving.

  datatype Phase = Arriving | Replayed | Live

  /** What it has sent on, and the window that describes it: a record kept for the proof. */
  datatype Watcher = Watcher(filter: Filter, since: nat, phase: Phase, id: nat, sent: seq<Event>, window: Window)

  datatype System = System(bus: State, watcher: Watcher)

  datatype Step =
    | Publish(kind: string, sandboxID: string, payload: string)
    | OtherSubscribes(filter: Filter)
    | OtherCancels(id: nat)
    | OtherReceives(id: nat)
    | WatcherReplays
    | WatcherSubscribes
    | WatcherReceives

  predicate Enabled(s: System, step: Step) {
    var w := s.watcher;
    match step
    case Publish(_, _, _) => true
    case OtherSubscribes(_) => true
    case OtherCancels(id) => w.phase.Live? ==> id != w.id
    case OtherReceives(id) => id in s.bus.subs && s.bus.subs[id].queue != [] && (w.phase.Live? ==> id != w.id)
    case WatcherReplays => w.phase.Arriving?
    case WatcherSubscribes => w.phase.Replayed?
    case WatcherReceives => w.phase.Live? && w.id in s.bus.subs && s.bus.subs[w.id].queue != []
  }

  predicate Misses(s: System, e: Event) {
    && s.watcher.id in s.bus.subs
    && Matches(s.watcher.filter, e)
    && |s.bus.subs[s.watcher.id].queue| >= QUEUE_SLOTS
  }

  /** The window follows publication: what falls between replay and subscription is skipped, what meets a full queue is missed. */
  function Tracked(s: System, e: Event): Window {
    match s.watcher.phase
    case Arriving => s.watcher.window
    case Replayed => s.watcher.window.(from := e.seqNo)
    case Live => if Misses(s, e) then s.watcher.window.(missed := s.watcher.window.missed + {e.seqNo}) else s.watcher.window
  }

  function Next(s: System, step: Step): (t: System)
    requires Ok(s.bus) && Enabled(s, step)
    ensures Ok(t.bus)
  {
    var w := s.watcher;
    match step
    case Publish(kind, sandboxID, payload) =>
      var e := Minted(s.bus, kind, sandboxID, payload);
      System(Published(s.bus, e), w.(window := Tracked(s, e)))
    case OtherSubscribes(f) => s.(bus := Subscribed(s.bus, f))
    case OtherCancels(id) => s.(bus := Cancelled(s.bus, id))
    case OtherReceives(id) => s.(bus := Received(s.bus, id))
    case WatcherReplays =>
      s.(watcher := w.(phase := Replayed, window := Past(Oldest(s.bus, w.since), |s.bus.log|),
                       sent := w.sent + Chosen(s.bus.ring, w.filter, Past(w.since, |s.bus.log|))))
    case WatcherSubscribes => System(Subscribed(s.bus, w.filter), w.(phase := Live, id := s.bus.nextID))
    case WatcherReceives => System(Received(s.bus, w.id), w.(sent := w.sent + [s.bus.subs[w.id].queue[0]]))
  }

  ghost predicate Run(s: System, steps: seq<Step>, t: System)
    requires Ok(s.bus)
    decreases |steps|
  {
    if steps == [] then s == t else Enabled(s, steps[0]) && Run(Next(s, steps[0]), steps[1..], t)
  }

  /** Sent on or waiting in the queue. */
  function Pipeline(s: System): seq<Event> {
    s.watcher.sent + (if s.watcher.phase.Live? && s.watcher.id in s.bus.subs then s.bus.subs[s.watcher.id].queue else [])
  }

  predicate WindowOk(s: System) {
    var v, n := s.watcher.window, |s.bus.log|;
    && v.upTo <= v.from <= n
    && v.lo == (if v.upTo - s.bus.size <= s.watcher.since then s.watcher.since else v.upTo - s.bus.size)
    && (s.watcher.phase.Replayed? ==> v.from == n && v.missed == {})
    && (forall k | k in v.missed :: v.from < k <= n && Matches(s.watcher.filter, s.bus.log[k - 1]))
  }

  predicate Inv(s: System) {
    var w := s.watcher;
    && Ok(s.bus)
    && (w.phase.Arriving? ==> w.sent == [])
    && (!w.phase.Arriving? ==> WindowOk(s) && Pipeline(s) == Chosen(s.bus.log, w.filter, w.window))
    && (w.phase.Live? ==> w.id in s.bus.subs && s.bus.subs[w.id].filter == w.filter)
  }

  /** Publishing adds at most the new event to what the window describes. */
  lemma TrackedChosen(s: System, e: Event)
    requires Ok(s.bus) && WindowOk(s) && !s.watcher.phase.Arriving? && e.seqNo == |s.bus.log| + 1
    ensures Chosen(s.bus.log + [e], s.watcher.filter, Tracked(s, e))
         == Chosen(s.bus.log, s.watcher.filter, s.watcher.window)
            + (if s.watcher.phase.Live? && Matches(s.watcher.filter, e) && !Misses(s, e) then [e] else [])
  {
    var w, log, v := s.watcher, s.bus.log, Tracked(s, e);
    forall d | d in log ensures Wanted(w.filter, w.window, d) <==> Wanted(w.filter, v, d) {
      var i :| 0 <= i < |log| && log[i] == d;
    }
    ChosenAgree(log, w.filter, w.window, v);
    assert (log + [e])[..|log|] == log;
  }

  lemma TrackedOk(s: System, e: Event)
    requires Ok(s.bus) && WindowOk(s) && !s.watcher.phase.Arriving? && e.seqNo == |s.bus.log| + 1
    ensures WindowOk(System(Published(s.bus, e), s.watcher.(window := Tracked(s, e))))
  {
    var log, v := s.bus.log, Tracked(s, e);
    forall k | k in v.missed ensures v.from < k <= |log| + 1 && Matches(s.watcher.filter, (log + [e])[k - 1]) {
      if k <= |log| { assert (log + [e])[k - 1] == log[k - 1]; }
    }
  }

  lemma PublishKeepsInv(s: System, e: Event)
    requires Inv(s) && !s.watcher.phase.Arriving? && e.seqNo == |s.bus.log| + 1
    ensures Inv(System(Published(s.bus, e), s.watcher.(window := Tracked(s, e))))
  {
    TrackedOk(s, e);
    TrackedChosen(s, e);
    var w := s.watcher;
    if w.phase.Live? {
      var q := s.bus.subs[w.id].queue;
      assert (w.sent + q) + [e] == w.sent + (q + [e]);
    }
  }

  /** Nothing another subscriber does reaches the watcher. */
  lemma OthersKeepInv(s: System, bus: State)
    requires Inv(s) && Ok(bus) && bus.log == s.bus.log && bus.size == s.bus.size
    requires s.watcher.phase.Live? ==> s.watcher.id in bus.subs && bus.subs[s.watcher.id] == s.bus.subs[s.watcher.id]
    ensures Inv(s.(bus := bus))
  {}

  lemma ReplayKeepsInv(s: System)
    requires Inv(s) && Enabled(s, WatcherReplays)
    ensures Inv(Next(s, WatcherReplays))
  {
    RingReplays(s.bus, s.watcher.filter, s.watcher.since);
  }

  lemma ReceiveKeepsInv(s: System)
    requires Inv(s) && Enabled(s, WatcherReceives)
    ensures Inv(Next(s, WatcherReceives))
  {
    var w := s.watcher;
    var q := s.bus.subs[w.id].queue;
    assert w.sent + q == (w.sent + [q[0]]) + q[1..];
  }

  lemma SubscribeKeepsInv(s: System)
    requires Inv(s) && Enabled(s, WatcherSubscribes)
    ensures Inv(Next(s, WatcherSubscribes))
  {}

  lemma StepKeepsInv(s: System, step: Step)
    requires Inv(s) && Enabled(s, step)
    ensures Inv(Next(s, step))
  {
    match step
    case Publish(kind, sandboxID, payload) =>
      if !s.watcher.phase.Arriving? { PublishKeepsInv(s, Minted(s.bus, kind, sandboxID, payload)); }
    case OtherSubscribes(f) => OthersKeepInv(s, Subscribed(s.bus, f));
    case OtherCancels(id) => OthersKeepInv(s, Cancelled(s.bus, id));
    case OtherReceives(id) => OthersKeepInv(s, Received(s.bus, id));
    case WatcherReplays => ReplayKeepsInv(s);
    case WatcherSubscribes => SubscribeKeepsInv(s);
    case WatcherReceives => ReceiveKeepsInv(s);
  }

  lemma {:induction false} RunKeepsInv(s: System, steps: seq<Step>, t: System)
    requires Inv(s) && Run(s, steps, t)
    ensures Inv(t)
    decreases |steps|
  {
    if steps != [] {
      StepKeepsInv(s, steps[0]);
      RunKeepsInv(Next(s, steps[0]), steps[1..], t);
    }
  }

  /** Nothing wanted fell between replay and subscription. */
  predicate QuietGap(s: System) {
    var v := s.watcher.window;
    forall i | v.upTo <= i < v.from && i < |s.bus.log| :: !Matches(s.watcher.filter, s.bus.log[i])
  }

  /** Where the stream starts; a reader that claims to be ahead of the node starts where the node is. */
  function Start(v: Window): int { if v.lo < v.upTo then v.lo else v.upTo }

  lemma CompleteIff(s: System)
    requires Inv(s) && s.watcher.phase.Live?
    ensures Pipeline(s) == Chosen(s.bus.log, s.watcher.filter, Past(Start(s.watcher.window), |s.bus.log|))
       <==> QuietGap(s) && s.watcher.window.missed == {}
  {
    var f, v, log := s.watcher.filter, s.watcher.window, s.bus.log;
    var all := Past(Start(v), |log|);
    if QuietGap(s) && v.missed == {} {
      forall e | e in log ensures Wanted(f, v, e) <==> Wanted(f, all, e) {
        var i :| 0 <= i < |log| && log[i] == e;
        assert log[e.seqNo - 1] == e;
      }
      ChosenAgree(log, f, v, all);
    }
    forall i | 0 <= i < |log| && Matches(f, log[i]) && (v.upTo <= i < v.from || i + 1 in v.missed)
      ensures Chosen(log, f, v) != Chosen(log, f, all)
    {
      ChosenMembers(log, f, v, log[i]);
      ChosenMembers(log, f, all, log[i]);
    }
    HasMember(v.missed);
    assert forall k | k in v.missed :: k == (k - 1) + 1 && Matches(f, log[k - 1]);
  }

  /** In every interleaving the stream is an increasing selection of the matching events, and it is all of
      them from the oldest one retained on exactly when the gap was quiet and no full queue was met. */
  lemma StreamOrder(s: System, steps: seq<Step>, t: System)
    requires Ok(s.bus) && s.watcher.phase.Arriving? && s.watcher.sent == [] && Run(s, steps, t)
    requires t.watcher.phase.Live?
    ensures Increasing(Pipeline(t))
    ensures forall e | e in Pipeline(t) :: e in t.bus.log && Matches(t.watcher.filter, e)
    ensures forall e | e in Pipeline(t) ::
              var f := t.watcher.filter;
              (f.sandboxID == "" || e.sandboxID == f.sandboxID) && (f.types == [] || e.kind in f.types)
    ensures QuietGap(t) && t.watcher.window.missed == {} ==>
              var f := t.watcher.filter;
              forall e | e in t.bus.log && Start(t.watcher.window) < e.seqNo && (f.sandboxID == "" || e.sandboxID == f.sandboxID)
                         && (f.types == [] || e.kind in f.types) :: e in Pipeline(t)
    ensures WindowOk(t)
    ensures Pipeline(t) == Chosen(t.bus.log, t.watcher.filter, Past(Start(t.watcher.window), |t.bus.log|))
       <==> QuietGap(t) && t.watcher.window.missed == {}
  {
    RunKeepsInv(s, steps, t);
    var f, v, log := t.watcher.filter, t.watcher.window, t.bus.log;
    ChosenIncreasing(log, f, v);
    forall e ensures e in Pipeline(t) <==> e in log && Wanted(f, v, e) { ChosenMembers(log, f, v, e); }
    CompleteIff(t);
    forall e ensures e in Chosen(log, f, Past(Start(v), |log|)) <==> e in log && Wanted(f, Past(Start(v), |log|), e) {
      ChosenMembers(log, f, Past(Start(v), |log|), e);
    }
  }
}
