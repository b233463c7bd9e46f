/** Placing one request: the coordinator tries the ranked nodes in turn, a remote target is
    called with one retry after an ambiguous error, and the target deduplicates by request id. */
module Placement {
  import opened Common
  import opened Dedup

  /** How a node's own admission and create end. */
  datatype Admission = Accept(id: string) | NoCapacity | UnknownKit | Broken

  /** One send of the request: whether it arrives, what the target finds, whether the reply arrives. */
  datatype Send = Send(requestLost: bool, cordoned: bool, admission: Admission, replyLost: bool, now: int)

  /** What a candidate's attempt meets: a route and connection or not, the two sends, and the
      other requests' cache traffic between them. */
  datatype Fate = Fate(reachable: bool, first: Send, between: seq<Event>, second: Send)

  datatype Reply = Accepted(id: string) | Declined | RpcError

  // ---- the target's handler ----

  function AdmissionReply(a: Admission): Reply {
    match a
    case Accept(id) => Accepted(id)
    case NoCapacity => Declined
    case UnknownKit => Declined
    case Broken => RpcError
  }

  function AdmissionRecords(a: Admission): set<string> { if a.Accept? then {a.id} else {} }

  /** The cordon is checked before the cache, the cache before admission. */
  function HandlerReply(hit: Option<string>, s: Send): Reply {
    if s.cordoned then Declined else if hit.Some? then Accepted(hit.value) else AdmissionReply(s.admission)
  }

  function HandlerRecords(hit: Option<string>, s: Send): set<string> {
    if s.cordoned || hit.Some? then {} else AdmissionRecords(s.admission)
  }

  function Seen(m: Cache, ttl: int, requestID: string, now: int): Option<string> {
    if requestID == "" then None else Hit(m, ttl, requestID, now)
  }

  class Target {
    const dedup: DedupCache
    var created: set<string>  // records this request has created here

    constructor (dedup: DedupCache)
      ensures this.dedup == dedup && created == {}
    {
      this.dedup, created := dedup, {};
    }

    method Provision(requestID: string, s: Send) returns (reply: Reply)
      modifies this, dedup
      ensures var hit := old(Seen(dedup.m, dedup.ttl, requestID, s.now));
              && reply == HandlerReply(hit, s)
              && created == old(created) + HandlerRecords(hit, s)
      ensures s.cordoned ==> reply == Declined && created == old(created) && dedup.m == old(dedup.m)
      ensures !s.cordoned && requestID != "" && requestID in old(dedup.m) && s.now - old(dedup.m)[requestID].at <= dedup.ttl ==>
                reply == Accepted(old(dedup.m)[requestID].sandboxID) && created == old(created)
      ensures !s.cordoned && (requestID == "" || requestID !in old(dedup.m) || s.now - old(dedup.m)[requestID].at > dedup.ttl) ==>
                match s.admission
                case Accept(id) => reply == Accepted(id) && created == old(created) + {id}
                case Broken => reply == RpcError && created == old(created)
                case _ => reply == Declined && created == old(created)
      ensures forall k | k in dedup.m && k != requestID :: k in old(dedup.m) && dedup.m[k] == old(dedup.m[k])
      ensures HandlerRecords(old(Seen(dedup.m, dedup.ttl, requestID, s.now)), s) == {} && requestID !in old(dedup.m) ==>
                requestID !in dedup.m
      ensures requestID != "" && HandlerRecords(old(Seen(dedup.m, dedup.ttl, requestID, s.now)), s) != {} ==>
                requestID in dedup.m && dedup.m[requestID] == Entry(s.admission.id, s.now)
    {
      if s.cordoned {
        return Declined;
      }
      if requestID != "" {
        var hit := dedup.Get(requestID, s.now);
        if hit.Some? {
          return Accepted(hit.value);
        }
      }
      reply := AdmissionReply(s.admission);
      if s.admission.Accept? {
        created := created + {s.admission.id};
        if requestID != "" {
          ghost var m := dedup.m;
          dedup.Put(requestID, s.admission.id, s.now);
          PutFacts(m, dedup.ttl, dedup.max, requestID, s.admission.id, s.now, dedup.m);
        }
      }
    }
  }

  // ---- the wire ----

  /** A lost request or reply is an error to the caller; only a lost reply leaves effects. */
  function ExchangeReply(hit: Option<string>, s: Send): Reply {
    if s.requestLost || s.replyLost then RpcError else HandlerReply(hit, s)
  }

  function ExchangeRecords(hit: Option<string>, s: Send): set<string> {
    if s.requestLost then {} else HandlerRecords(hit, s)
  }

  method Exchange(t: Target, requestID: string, s: Send) returns (reply: Reply)
    modifies t, t.dedup
    ensures var hit := old(Seen(t.dedup.m, t.dedup.ttl, requestID, s.now));
            && reply == ExchangeReply(hit, s)
            && t.created == old(t.created) + ExchangeRecords(hit, s)
            && (ExchangeRecords(hit, s) == {} && requestID !in old(t.dedup.m) ==> requestID !in t.dedup.m)
            && (requestID != "" && ExchangeRecords(hit, s) != {} ==>
                  requestID in t.dedup.m && t.dedup.m[requestID] == Entry(s.admission.id, s.now))
    ensures forall k | k in t.dedup.m && k != requestID :: k in old(t.dedup.m) && t.dedup.m[k] == old(t.dedup.m[k])
  {
    if s.requestLost {
      return RpcError;
    }
    reply := t.Provision(requestID, s);
    if s.replyLost {
      reply := RpcError;
    }
  }

  /** Other requests use the target's cache. */
  method Traffic(d: DedupCache, events: seq<Event>) returns (ghost states: seq<Cache>)
    modifies d
    ensures History(states, events, d.ttl, d.max)
    ensures states[0] == old(d.m) && states[|events|] == d.m
  {
    states := [d.m];
    for i := 0 to |events|
      invariant |states| == i + 1 && states[0] == old(d.m) && states[i] == d.m
      invariant forall j | 0 <= j < i :: EventResult(states[j], d.ttl, d.max, events[j], states[j + 1])
    {
      match events[i] {
        case PutAt(id, sandboxID, now) => d.Put(id, sandboxID, now);
        case GetAt(id, now) => var _ := d.Get(id, now);
      }
      states := states + [d.m];
    }
  }

  // ---- one call with its retry ----

  predicate Retries(requestID: string, f: Fate) { requestID != "" && ExchangeReply(None, f.first).RpcError? }

  /** `again` is what the cache answers the second send. */
  function CallReply(requestID: string, again: Option<string>, f: Fate): Reply {
    if Retries(requestID, f) then ExchangeReply(again, f.second) else ExchangeReply(None, f.first)
  }

  function CallRecords(requestID: string, again: Option<string>, f: Fate): set<string> {
    ExchangeRecords(None, f.first) + if Retries(requestID, f) then ExchangeRecords(again, f.second) else {}
  }

  /** The reply tells the truth about the records: an accepted id is the only record, a decline
      leaves none, an error leaves at most one. */
  predicate Clean(reply: Reply, records: set<string>) {
    match reply
    case Accepted(id) => records == {id}
    case Declined => records == {}
    case RpcError => |records| <= 1
  }

  /** The cache can only answer the second send with what the first one put there. */
  predicate Answers(again: Option<string>, f: Fate) {
    if ExchangeRecords(None, f.first) == {} then again.None?
    else again.None? || again.value == f.first.admission.id
  }

  /** Sandbox ids are minted fresh. */
  predicate FreshIds(f: Fate) {
    f.first.admission.Accept? && f.second.admission.Accept? ==> f.first.admission.id != f.second.admission.id
  }

  /** The accepted double-fault window: the first send created a record and its reply was lost,
      the second arrives, and either a cordon set meanwhile makes the target decline, or the
      cache entry is gone and the target creates again or declines. */
  predicate DoubleFault(requestID: string, again: Option<string>, f: Fate) {
    && requestID != ""
    && !f.first.requestLost && !f.first.cordoned && f.first.admission.Accept? && f.first.replyLost
    && !f.second.requestLost
    && (if f.second.cordoned then !f.second.replyLost
        else again.None? && !f.second.admission.Broken? && (f.second.admission.Accept? || !f.second.replyLost))
  }

  /** One call is clean exactly outside the double-fault window, for every pattern of lost
      requests and lost replies. */
  lemma CallCleanIff(requestID: string, again: Option<string>, f: Fate)
    requires Answers(again, f) && FreshIds(f)
    ensures Clean(CallReply(requestID, again, f), CallRecords(requestID, again, f)) <==>
            !DoubleFault(requestID, again, f)
  {
    var a, b := ExchangeRecords(None, f.first), ExchangeRecords(again, f.second);
    if a != {} && b != {} && DoubleFault(requestID, again, f) {
      assert {f.first.admission.id, f.second.admission.id} == CallRecords(requestID, again, f);
    }
  }

  /** The cordon does not flip between the sends, and the entry outlives the pause: fewer than
      `max` other puts, all within the lifetime. */
  ghost predicate Benign(requestID: string, f: Fate, ttl: int, max: int) {
    && f.second.cordoned == f.first.cordoned
    && f.first.now < f.second.now && f.second.now - f.first.now <= ttl
    && Puts(f.between) < max
    && forall e | e in f.between :: e.id != requestID && f.first.now < e.now <= f.second.now
  }

  ghost predicate OlderThan(m: Cache, now: int) { forall k | k in m :: m[k].at < now }

  lemma BenignRetains(states: seq<Cache>, requestID: string, f: Fate, ttl: int, max: int)
    requires Benign(requestID, f, ttl, max) && History(states, f.between, ttl, max)
    requires requestID in states[0] && states[0][requestID].at == f.first.now
    requires forall k | k in states[0] && k != requestID :: states[0][k].at < f.first.now
    ensures var m := states[|f.between|]; requestID in m && m[requestID] == states[0][requestID]
  {
    var n := |f.between|;
    assert Newer(states[0], f.first.now) == {};
    assert f.between[..n] == f.between;
    EntrySurvives(states, f.between, ttl, max, requestID, n);
  }

  /** Traffic for other requests keeps this request's entry as it is, or drops it. */
  lemma {:induction false} TrafficOnlyDrops(states: seq<Cache>, events: seq<Event>, ttl: int, max: int, id: string, n: nat)
    requires History(states, events, ttl, max) && n <= |events|
    requires forall e | e in events :: e.id != id
    ensures id in states[n] ==> id in states[0] && states[n][id] == states[0][id]
    decreases n
  {
    if n > 0 {
      TrafficOnlyDrops(states, events, ttl, max, id, n - 1);
      assert StepAt(states, events, ttl, max, n - 1);
      var e := events[n - 1];
      assert e in events;
      if e.PutAt? { PutFacts(states[n - 1], ttl, max, e.id, e.sandboxID, e.now, states[n]); }
    }
  }

  /** The requests handled between the two sends are other ones. */
  predicate OthersBetween(requestID: string, f: Fate) { forall e | e in f.between :: e.id != requestID }

  /** The entry was put at `now`, everything else before. */
  ghost predicate JustPut(m: Cache, id: string, now: int) {
    id in m && m[id].at == now && forall k | k in m && k != id :: m[k].at < now
  }

  /** The pause between the sends: the request's entry stays or is dropped, and stays if all is benign. */
  method Pause(d: DedupCache, requestID: string, f: Fate)
    requires OthersBetween(requestID, f)
    modifies d
    ensures requestID in d.m ==> requestID in old(d.m) && d.m[requestID] == old(d.m[requestID])
    ensures Benign(requestID, f, d.ttl, d.max) && JustPut(old(d.m), requestID, f.first.now) ==> requestID in d.m
  {
    ghost var states := Traffic(d, f.between);
    TrafficOnlyDrops(states, f.between, d.ttl, d.max, requestID, |f.between|);
    if Benign(requestID, f, d.ttl, d.max) && JustPut(old(d.m), requestID, f.first.now) {
      BenignRetains(states, requestID, f, d.ttl, d.max);
    }
  }

  lemma BenignIsClean(requestID: string, again: Option<string>, f: Fate, ttl: int, max: int)
    requires Answers(again, f) && Benign(requestID, f, ttl, max)
    requires Retries(requestID, f) && ExchangeRecords(None, f.first) != {} ==> again.Some?
    ensures !DoubleFault(requestID, again, f)
  {}

  /** The same target is called once more after an error, and only with a request id; `again` is what its
      cache answers then, the entry of the first send under benign circumstances. */
  method TwoSends(t: Target, requestID: string, f: Fate) returns (reply: Reply, ghost again: Option<string>)
    requires requestID !in t.dedup.m && OthersBetween(requestID, f)
    modifies t, t.dedup
    ensures reply == CallReply(requestID, again, f) && Answers(again, f)
    ensures t.created == old(t.created) + CallRecords(requestID, again, f)
    ensures old(OlderThan(t.dedup.m, f.first.now)) && Benign(requestID, f, t.dedup.ttl, t.dedup.max) ==>
              (Retries(requestID, f) && ExchangeRecords(None, f.first) != {} ==> again.Some?)
  {
    again := None;
    reply := Exchange(t, requestID, f.first);
    if reply.RpcError? && requestID != "" {
      Pause(t.dedup, requestID, f);
      again := Seen(t.dedup.m, t.dedup.ttl, requestID, f.second.now);
      reply := Exchange(t, requestID, f.second);
    }
  }

  /** A first send that arrives, at a target that is not cordoned and accepts it. */
  predicate Taken(s: Send, id: string) { !s.requestLost && !s.cordoned && s.admission == Accept(id) }

  /** A first send that arrives, is declined, and the reply arrives. */
  predicate Refused(s: Send) {
    !s.requestLost && !s.replyLost && (s.cordoned || s.admission.NoCapacity? || s.admission.UnknownKit?)
  }

  /** What a call comes to. One exchange decides it unless that was lost; a lost reply is made good by the
      second send, from the cache. */
  lemma CallMeans(requestID: string, again: Option<string>, f: Fate, id: string)
    requires Answers(again, f)
    ensures Taken(f.first, id) && !f.first.replyLost ==>
              CallReply(requestID, again, f) == Accepted(id) && CallRecords(requestID, again, f) == {id}
    ensures Refused(f.first) ==> CallReply(requestID, again, f) == Declined && CallRecords(requestID, again, f) == {}
    ensures Taken(f.first, id) && f.first.replyLost && requestID != "" && again.Some?
            && !f.second.requestLost && !f.second.cordoned && !f.second.replyLost ==>
              CallReply(requestID, again, f) == Accepted(id) && CallRecords(requestID, again, f) == {id}
    ensures f.first.requestLost && requestID != "" && Taken(f.second, id) && !f.second.replyLost ==>
              CallReply(requestID, again, f) == Accepted(id) && CallRecords(requestID, again, f) == {id}
    ensures requestID == "" && (f.first.requestLost || f.first.replyLost) ==> CallReply(requestID, again, f) == RpcError
  {}

  /** The reply tells the truth exactly outside the double-fault window, which benign circumstances exclude. */
  method CallProvisionWithRetry(t: Target, requestID: string, f: Fate) returns (reply: Reply, ghost again: Option<string>)
    requires requestID !in t.dedup.m && OthersBetween(requestID, f) && FreshIds(f)
    modifies t, t.dedup
    ensures reply == CallReply(requestID, again, f) && Answers(again, f)
    ensures t.created == old(t.created) + CallRecords(requestID, again, f)
    ensures Clean(reply, CallRecords(requestID, again, f)) <==> !DoubleFault(requestID, again, f)
    ensures old(OlderThan(t.dedup.m, f.first.now)) && Benign(requestID, f, t.dedup.ttl, t.dedup.max) ==>
              !DoubleFault(requestID, again, f)
    ensures old(OlderThan(t.dedup.m, f.first.now)) && Benign(requestID, f, t.dedup.ttl, t.dedup.max) && requestID != ""
            && f.first.admission.Accept? && Taken(f.first, f.first.admission.id) && !f.second.requestLost && !f.second.replyLost ==>
              reply == Accepted(f.first.admission.id) && t.created == old(t.created) + {f.first.admission.id}
  {
    reply, again := TwoSends(t, requestID, f);
    CallCleanIff(requestID, again, f);
    if old(OlderThan(t.dedup.m, f.first.now)) && Benign(requestID, f, t.dedup.ttl, t.dedup.max) {
      BenignIsClean(requestID, again, f, t.dedup.ttl, t.dedup.max);
    }
  }

  // ---- the coordinator ----

  datatype Result = Placed(id: string) | Nack | Failed

  /** The result tells the truth about the records it left. */
  predicate Honest(r: Result, created: set<string>) {
    match r
    case Placed(id) => created == {id}
    case Nack => created == {}
    case Failed => |created| <= 1
  }

  /** A remote attempt in the double-fault window; `again` is what the target's cache answered its second send. */
  predicate Faulty(isSelf: bool, requestID: string, again: Option<string>, f: Fate) {
    !isSelf && f.reachable && DoubleFault(requestID, again, f)
  }

  /** The result of an attempt: of the node's own admission, a NACK when there is no way to reach the peer, or
      what the call's reply says. */
  predicate Answered(r: Result, made: set<string>, isSelf: bool, requestID: string, again: Option<string>, f: Fate) {
    if isSelf then
      (match f.first.admission
       case Accept(id) => r == Placed(id) && made == {id}
       case Broken => r == Failed && made == {}
       case _ => r == Nack && made == {})
    else if !f.reachable then r == Nack && made == {}
    else
      && made == CallRecords(requestID, again, f)
      && match CallReply(requestID, again, f)
         case Accepted(id) => r == Placed(id)
         case Declined => r == Nack
         case RpcError => r == Failed
  }

  /** A local attempt is admitted directly; an unknown or unreachable peer is a NACK. The result is honest
      exactly when the attempt is not a remote one in the double-fault window. */
  method Attempt(t: Target, isSelf: bool, requestID: string, f: Fate) returns (r: Result, ghost again: Option<string>)
    requires t.created == {}
    requires isSelf || (requestID !in t.dedup.m && OthersBetween(requestID, f) && FreshIds(f))
    modifies t, t.dedup
    ensures Answered(r, t.created, isSelf, requestID, again, f)
    ensures isSelf && f.first.admission.Accept? ==> r == Placed(f.first.admission.id) && t.created == {f.first.admission.id}
    ensures isSelf && (f.first.admission.NoCapacity? || f.first.admission.UnknownKit?) ==> r == Nack && t.created == {}
    ensures isSelf && f.first.admission.Broken? ==> r == Failed && t.created == {}
    ensures !isSelf && !f.reachable ==> r == Nack && t.created == {}
    ensures Honest(r, t.created) <==> !Faulty(isSelf, requestID, again, f)
    ensures !isSelf && f.reachable ==> Answers(again, f)
    ensures !isSelf && old(OlderThan(t.dedup.m, f.first.now)) && Benign(requestID, f, t.dedup.ttl, t.dedup.max) ==>
              !Faulty(isSelf, requestID, again, f)
  {
    if isSelf {
      match f.first.admission {
        case Accept(id) =>
          t.created := t.created + {id};
          return Placed(id), None;
        case NoCapacity => return Nack, None;
        case UnknownKit => return Nack, None;
        case Broken => return Failed, None;
      }
    }
    if !f.reachable {
      return Nack, None;
    }
    var reply;
    reply, again := CallProvisionWithRetry(t, requestID, f);
    match reply {
      case Accepted(id) => r := Placed(id);
      case Declined => r := Nack;
      case RpcError => r := Failed;
    }
  }

  /** Different nodes are different objects with different caches. */
  ghost predicate Separate(nodes: seq<Target>) {
    forall i, j | 0 <= i < j < |nodes| :: nodes[i] != nodes[j] && nodes[i].dedup != nodes[j].dedup
  }

  /** The cache a target started with, its lifetime and its bound. */
  datatype Start = Start(m: Cache, ttl: int, max: int)

  ghost function StartOf(t: Target): Start
    reads t, t.dedup
  {
    Start(t.dedup.m, t.dedup.ttl, t.dedup.max)
  }

  /** What a remote attempt may count on: the target never saw the request, and handles others in between. */
  predicate Prepared(s: Start, requestID: string, f: Fate) {
    requestID !in s.m && OthersBetween(requestID, f) && FreshIds(f)
  }

  /** The circumstances of a remote attempt are benign. */
  ghost predicate Calm(s: Start, requestID: string, f: Fate) {
    OlderThan(s.m, f.first.now) && Benign(requestID, f, s.ttl, s.max)
  }

  /** An attempt made: what the target's cache answered the second send, the result, and the records it left. */
  datatype Tried = Tried(again: Option<string>, r: Result, made: set<string>)

  /** The entry is true to its fate, and benign circumstances exclude the double-fault window. */
  ghost predicate Entered(t: Tried, isSelf: bool, requestID: string, f: Fate, start: Start) {
    && Answered(t.r, t.made, isSelf, requestID, t.again, f)
    && (!isSelf && f.reachable ==> Answers(t.again, f))
    && (!isSelf && Calm(start, requestID, f) ==> !Faulty(isSelf, requestID, t.again, f))
  }

  /** The attempts of a placement: in turn, each but the last declined. */
  ghost predicate Log(order: seq<string>, self: string, fates: seq<Fate>, starts: seq<Start>, requestID: string, log: seq<Tried>)
    requires |log| <= |order| == |fates| == |starts|
  {
    log == [] ||
    (var n := |log| - 1;
     && Log(order, self, fates, starts, requestID, log[..n]) && (n > 0 ==> log[n - 1].r.Nack?)
     && Entered(log[n], order[n] == self, requestID, fates[n], starts[n]))
  }

  lemma {:induction false} LogMeans(order: seq<string>, self: string, fates: seq<Fate>, starts: seq<Start>, requestID: string, log: seq<Tried>)
    requires |log| <= |order| == |fates| == |starts| && Log(order, self, fates, starts, requestID, log)
    ensures forall i | 0 <= i < |log| :: Entered(log[i], order[i] == self, requestID, fates[i], starts[i])
    ensures forall i | 0 <= i < |log| - 1 :: log[i].r.Nack?
    decreases |log|
  {
    if log != [] {
      var n := |log| - 1;
      LogMeans(order, self, fates, starts, requestID, log[..n]);
      assert forall i | 0 <= i < n :: log[..n][i] == log[i];
    }
  }

  /** One of the attempts made met the double-fault window. */
  predicate SomeFaulty(order: seq<string>, self: string, fates: seq<Fate>, requestID: string, log: seq<Tried>)
    requires |log| <= |order| == |fates|
  {
    exists i | 0 <= i < |log| :: Faulty(order[i] == self, requestID, log[i].again, fates[i])
  }

  /** The records of a candidate are those its attempt left; those not tried have none. */
  ghost predicate Left(nodes: seq<Target>, log: seq<Tried>)
    reads nodes
  {
    && |log| <= |nodes|
    && (forall i | 0 <= i < |log| :: nodes[i].created == log[i].made)
    && (forall i | |log| <= i < |nodes| :: nodes[i].created == {})
  }

  /** Whatever the placement created, the candidate tried last has it, and the result is honest about it. */
  ghost predicate Truthful(nodes: seq<Target>, log: seq<Tried>)
    requires log != [] && |log| <= |nodes|
    reads nodes
  {
    && (forall i | 0 <= i < |nodes| && i != |log| - 1 :: nodes[i].created == {})
    && Honest(log[|log| - 1].r, nodes[|log| - 1].created)
  }

  /** Such an entry is honest exactly outside the double-fault window. */
  lemma HonestIff(t: Tried, isSelf: bool, requestID: string, f: Fate, start: Start)
    requires Entered(t, isSelf, requestID, f, start) && (isSelf || FreshIds(f))
    ensures Honest(t.r, t.made) <==> !Faulty(isSelf, requestID, t.again, f)
  {
    if !isSelf && f.reachable { CallCleanIff(requestID, t.again, f); }
  }

  lemma TruthfulIff(order: seq<string>, self: string, nodes: seq<Target>, fates: seq<Fate>, starts: seq<Start>,
                    requestID: string, log: seq<Tried>)
    requires |log| <= |order| == |fates| == |starts| == |nodes| && Log(order, self, fates, starts, requestID, log) && Left(nodes, log) && log != []
    requires forall i | 0 <= i < |order| && order[i] != self :: FreshIds(fates[i])
    ensures Truthful(nodes, log) <==> !SomeFaulty(order, self, fates, requestID, log)
  {
    LogMeans(order, self, fates, starts, requestID, log);
    forall i | 0 <= i < |log| ensures Honest(log[i].r, log[i].made) <==> !Faulty(order[i] == self, requestID, log[i].again, fates[i]) {
      HonestIff(log[i], order[i] == self, requestID, fates[i], starts[i]);
    }
  }

  /** The candidate declines: its own admission does, it cannot be reached, or its reply says so. */
  predicate Declines(isSelf: bool, f: Fate) {
    if isSelf then f.first.admission.NoCapacity? || f.first.admission.UnknownKit? else !f.reachable || Refused(f.first)
  }

  /** The candidate takes the request as sandbox `id`, and the answer gets back. */
  predicate Takes(isSelf: bool, f: Fate, id: string) {
    if isSelf then f.first.admission == Accept(id) else f.reachable && Taken(f.first, id) && !f.first.replyLost
  }

  lemma {:induction false} DeclinesNack(t: Tried, isSelf: bool, requestID: string, f: Fate, start: Start)
    requires Entered(t, isSelf, requestID, f, start)
    ensures Declines(isSelf, f) ==> t.r == Nack && t.made == {}
    ensures forall id | Takes(isSelf, f, id) :: t.r == Placed(id) && t.made == {id}
  {
    if !isSelf && f.reachable {
      CallMeans(requestID, t.again, f, "");
      forall id | Takes(isSelf, f, id) ensures t.r == Placed(id) && t.made == {id} { CallMeans(requestID, t.again, f, id); }
    }
  }

  /** The first candidate that does not decline decides: if it takes the request, it gets the sandbox. */
  lemma FirstTaker(order: seq<string>, self: string, fates: seq<Fate>, starts: seq<Start>, requestID: string,
                   log: seq<Tried>, k: nat, id: string)
    requires k < |order| == |fates| == |starts| && |log| <= |order| && Log(order, self, fates, starts, requestID, log)
    requires log != [] && (log[|log| - 1].r.Nack? ==> |log| == |order|)
    requires TakenBy(order, self, fates, k, id)
    ensures |log| == k + 1 && log[k].r == Placed(id) && log[k].made == {id}
    ensures forall i | 0 <= i < k :: log[i].made == {}
  {
    LogMeans(order, self, fates, starts, requestID, log);
    forall i | 0 <= i < |log| && i <= k
      ensures i < k ==> log[i].r == Nack && log[i].made == {}
      ensures i == k ==> log[i].r == Placed(id) && log[i].made == {id}
    {
      DeclinesNack(log[i], order[i] == self, requestID, fates[i], starts[i]);
    }
  }

  lemma AllDecline(order: seq<string>, self: string, fates: seq<Fate>, starts: seq<Start>, requestID: string, log: seq<Tried>)
    requires |log| <= |order| == |fates| == |starts| && Log(order, self, fates, starts, requestID, log)
    requires forall i | 0 <= i < |order| :: Declines(order[i] == self, fates[i])
    ensures forall i | 0 <= i < |log| :: log[i].r == Nack && log[i].made == {}
  {
    LogMeans(order, self, fates, starts, requestID, log);
    forall i | 0 <= i < |log| ensures log[i].r == Nack && log[i].made == {} {
      DeclinesNack(log[i], order[i] == self, requestID, fates[i], starts[i]);
    }
  }

  /** The candidates before `k` decline and `k` takes the request. */
  ghost predicate TakenBy(order: seq<string>, self: string, fates: seq<Fate>, k: nat, id: string)
    requires k < |order| == |fates|
  {
    Takes(order[k] == self, fates[k], id) && forall i | 0 <= i < k :: Declines(order[i] == self, fates[i])
  }

  ghost predicate OnlyAt(nodes: seq<Target>, k: int, id: string)
    reads nodes
  {
    forall i | 0 <= i < |nodes| :: nodes[i].created == if i == k then {id} else {}
  }

  /** The sandbox goes to the first candidate that does not decline, if that one takes it; if all decline nobody
      has it and the result says so. */
  ghost predicate FirstServed(order: seq<string>, self: string, nodes: seq<Target>, fates: seq<Fate>, r: Result)
    requires |order| == |nodes| == |fates|
    reads nodes
  {
    && (forall k: nat, id | k < |order| && TakenBy(order, self, fates, k, id) :: r == Placed(id) && OnlyAt(nodes, k, id))
    && ((forall i | 0 <= i < |order| :: Declines(order[i] == self, fates[i])) ==> r == Nack && OnlyAt(nodes, -1, ""))
  }

  lemma FirstIsServed(order: seq<string>, self: string, nodes: seq<Target>, fates: seq<Fate>, starts: seq<Start>,
                      requestID: string, log: seq<Tried>, r: Result)
    requires |log| <= |order| == |fates| == |starts| == |nodes| && Log(order, self, fates, starts, requestID, log) && Left(nodes, log)
    requires if log == [] then order == [] && r.Nack? else r == log[|log| - 1].r
    requires r.Nack? ==> |log| == |order|
    ensures FirstServed(order, self, nodes, fates, r)
  {
    forall k: nat, id | k < |order| && TakenBy(order, self, fates, k, id) ensures r == Placed(id) && OnlyAt(nodes, k, id) {
      FirstTaker(order, self, fates, starts, requestID, log, k, id);
    }
    if forall i | 0 <= i < |order| :: Declines(order[i] == self, fates[i]) {
      AllDecline(order, self, fates, starts, requestID, log);
    }
  }

  lemma LogMore(order: seq<string>, self: string, fates: seq<Fate>, starts: seq<Start>, requestID: string, log: seq<Tried>, entry: Tried)
    requires |log| < |order| == |fates| == |starts| && Log(order, self, fates, starts, requestID, log)
    requires log == [] || log[|log| - 1].r.Nack?
    requires Entered(entry, order[|log|] == self, requestID, fates[|log|], starts[|log|])
    ensures Log(order, self, fates, starts, requestID, log + [entry])
  {
    assert (log + [entry])[..|log|] == log;
  }

  /** The next attempt and the log with its entry. */
  method Try(t: Target, order: seq<string>, self: string, fates: seq<Fate>, requestID: string,
             ghost starts: seq<Start>, ghost log: seq<Tried>, i: nat)
    returns (r: Result, ghost log': seq<Tried>)
    requires i == |log| < |order| == |fates| == |starts| && Log(order, self, fates, starts, requestID, log)
    requires i > 0 ==> log[i - 1].r.Nack?
    requires t.created == {} && starts[i] == StartOf(t) && (order[i] == self || Prepared(starts[i], requestID, fates[i]))
    modifies t, t.dedup
    ensures |log'| == i + 1 && (forall j | 0 <= j < i :: log'[j] == log[j]) && Log(order, self, fates, starts, requestID, log')
    ensures log'[i].r == r && log'[i].made == t.created
  {
    ghost var again;
    r, again := Attempt(t, order[i] == self, requestID, fates[i]);
    ghost var entry := Tried(again, r, t.created);
    log' := log + [entry];
    LogMore(order, self, fates, starts, requestID, log, entry);
  }

  /** The candidates in turn, until one does not decline. */
  method TryInTurn(order: seq<string>, self: string, nodes: seq<Target>, fates: seq<Fate>, requestID: string,
                   ghost starts: seq<Start>)
    returns (r: Result, ghost log: seq<Tried>)
    requires |nodes| == |order| == |fates| == |starts| && Separate(nodes)
    requires forall i | 0 <= i < |nodes| :: starts[i] == StartOf(nodes[i])
    requires forall i | 0 <= i < |nodes| :: nodes[i].created == {}
    requires forall i | 0 <= i < |nodes| && order[i] != self :: Prepared(starts[i], requestID, fates[i])
    modifies nodes, set i | 0 <= i < |nodes| :: nodes[i].dedup
    ensures |log| <= |order| && Log(order, self, fates, starts, requestID, log) && Left(nodes, log)
    ensures if log == [] then order == [] && r.Nack? else r == log[|log| - 1].r
    ensures r.Nack? ==> |log| == |order|
  {
    log, r := [], Nack;
    for i := 0 to |order|
      invariant |log| == i && r.Nack? && (i > 0 ==> log[i - 1].r == r)
      invariant Log(order, self, fates, starts, requestID, log) && Left(nodes, log)
      invariant forall j | i <= j < |order| :: starts[j] == StartOf(nodes[j])
    {
      label before:
      r, log := Try(nodes[i], order, self, fates, requestID, starts, log, i);
      assert forall j | 0 <= j < |nodes| && j != i ::
        nodes[j].created == old@before(nodes[j].created) && StartOf(nodes[j]) == old@before(StartOf(nodes[j]));
      assert Left(nodes, log);
      if !r.Nack? {
        break;
      }
    }
  }

  /** At most once: for every pattern of lost requests and lost replies, one placement over the ranked
      candidates leaves at most one new record in the whole swarm (no other node is touched), at the node
      tried last; a returned id names it, and when every candidate declined there is none. That holds
      exactly when no attempt made met the double-fault window, which a benign one does not. And it is the
      first candidate that does not decline who gets the sandbox. */
  method Provision(order: seq<string>, self: string, nodes: seq<Target>, fates: seq<Fate>, requestID: string,
                   ghost starts: seq<Start>)
    returns (r: Result, ghost log: seq<Tried>)
    requires |nodes| == |order| == |fates| == |starts| && Separate(nodes)
    requires forall i | 0 <= i < |nodes| :: starts[i] == StartOf(nodes[i])
    requires forall i | 0 <= i < |nodes| :: nodes[i].created == {}
    requires forall i | 0 <= i < |nodes| && order[i] != self :: Prepared(starts[i], requestID, fates[i])
    modifies nodes, set i | 0 <= i < |nodes| :: nodes[i].dedup
    ensures |log| <= |order| && Log(order, self, fates, starts, requestID, log) && Left(nodes, log)
    ensures if log == [] then order == [] && r.Nack? else r == log[|log| - 1].r
    ensures r.Nack? ==> |log| == |order|
    ensures log != [] ==> (Truthful(nodes, log) <==> !SomeFaulty(order, self, fates, requestID, log))
    ensures FirstServed(order, self, nodes, fates, r)
  {
    r, log := TryInTurn(order, self, nodes, fates, requestID, starts);
    if log != [] { TruthfulIff(order, self, nodes, fates, starts, requestID, log); }
    FirstIsServed(order, self, nodes, fates, starts, requestID, log, r);
  }
}
