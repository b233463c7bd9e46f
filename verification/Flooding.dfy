/** Revocation as a flooding protocol over a fixed fleet. A node whose denylist grows
    starts a push/pull with every other member; a push/pull snapshots both sides and
    each side merges the other's snapshot later, in any order. */
module Flooding {
  import opened Common
  import opened Sorting
  import opened Membership

  /** A snapshot of `src`'s advertised state on its way to `dst`. */
  datatype Packet = Packet(src: nat, dst: nat, payload: NodeState)

  /** `pending` holds the push/pulls still to be started, `wire` the snapshots not merged yet. */
  datatype Swarm = Swarm(nodes: seq<View>, pending: multiset<(nat, nat)>, wire: multiset<Packet>)

  datatype Step =
    | RevokeAt(i: nat, id: string)
    | Begin(i: nat, j: nat)
    | Deliver(p: Packet, persistOk: bool)

  predicate Enabled(s: Swarm, step: Step) {
    match step
    case RevokeAt(i, _) => i < |s.nodes|
    case Begin(i, j) => (i, j) in s.pending && i < |s.nodes| && j < |s.nodes|
    case Deliver(p, _) => p in s.wire && p.dst < |s.nodes|
  }

  /** One push/pull with each of the first `n` members other than `i`. */
  function FanOut(i: nat, n: nat): multiset<(nat, nat)> {
    if n == 0 then multiset{}
    else FanOut(i, n - 1) + (if i == n - 1 then multiset{} else multiset{(i, n - 1)})
  }

  /** Installs a node's new view; a grown denylist is fanned out. */
  function Installed(s: Swarm, i: nat, v: View): Swarm
    requires i < |s.nodes|
  {
    s.(nodes := s.nodes[i := v],
       pending := if v.revoked == s.nodes[i].revoked then s.pending else s.pending + FanOut(i, |s.nodes|))
  }

  ghost function Next(s: Swarm, step: Step): Swarm
    requires Enabled(s, step)
  {
    match step
    case RevokeAt(i, id) => Installed(s, i, Revoked(s.nodes[i], id))
    case Begin(i, j) =>
      s.(pending := s.pending - multiset{(i, j)},
         wire := s.wire + multiset{Packet(i, j, s.nodes[i].local), Packet(j, i, s.nodes[j].local)})
    case Deliver(p, ok) =>
      Installed(s.(wire := s.wire - multiset{p}), p.dst, Merged(s.nodes[p.dst], p.payload, ok))
  }

  /** Every step of the run can happen where it stands. */
  ghost predicate Runs(s: Swarm, steps: seq<Step>)
    decreases |steps|
  {
    steps == [] || (Enabled(s, steps[0]) && Runs(Next(s, steps[0]), steps[1..]))
  }

  ghost function Run(s: Swarm, steps: seq<Step>): Swarm
    requires Runs(s, steps)
    decreases |steps|
  {
    if steps == [] then s else Run(Next(s, steps[0]), steps[1..])
  }

  predicate Quiet(s: Swarm) { s.pending == multiset{} && s.wire == multiset{} }

  // ---- the invariant ----

  /** The node speaks our protocol, belongs to swarm `x` or to none yet, and its lists agree. */
  ghost predicate NodeOk(v: View, x: string) {
    && v.local.protocol == PROTOCOL_VERSION
    && v.identity.swarmID in {"", x} && v.local.swarmID in {"", x}
    && "" !in v.revoked
    && v.local.revoked == Listing(v.revoked)
  }

  ghost predicate PacketOk(s: Swarm, p: Packet, x: string) {
    && p.src < |s.nodes| && p.dst < |s.nodes|
    && p.payload.protocol == PROTOCOL_VERSION
    && p.payload.swarmID in {"", x}
    && Ids(p.payload.revoked) <= s.nodes[p.src].revoked
  }

  /** `i`'s denylist has reached `j`, or is still owed to it. */
  ghost predicate Covered(s: Swarm, i: nat, j: nat)
    requires i < |s.nodes| && j < |s.nodes|
  {
    || s.nodes[i].revoked <= s.nodes[j].revoked
    || (i, j) in s.pending
    || exists p :: p in s.wire && p.src == i && p.dst == j && s.nodes[i].revoked <= Ids(p.payload.revoked)
  }

  ghost predicate AllCovered(s: Swarm) {
    forall i: nat, j: nat | i < |s.nodes| && j < |s.nodes| :: Covered(s, i, j)
  }

  ghost predicate Inv(s: Swarm, x: string) {
    && (forall i | 0 <= i < |s.nodes| :: NodeOk(s.nodes[i], x))
    && (forall e | e in s.pending :: e.0 < |s.nodes| && e.1 < |s.nodes|)
    && (forall p | p in s.wire :: PacketOk(s, p, x))
    && AllCovered(s)
  }

  lemma {:induction false} FanOutMembers(i: nat, n: nat)
    ensures forall a: nat, b: nat :: (a, b) in FanOut(i, n) <==> a == i && b < n && b != i
    ensures |FanOut(i, n)| <= n
    ensures i < n ==> |FanOut(i, n)| <= n - 1
  {
    if n > 0 { FanOutMembers(i, n - 1); }
  }

  lemma MergedInSwarm(v: View, r: NodeState, x: string, ok: bool)
    requires v.identity.swarmID in {"", x} && v.local.swarmID in {"", x} && r.swarmID in {"", x}
    ensures var w := Merged(v, r, ok);
            w.identity.swarmID in {"", x} && w.local.swarmID in {"", x}
  {}

  /** Within the swarm every snapshot passes both gates, so a delivery is a union. */
  lemma DeliveryUnites(v: View, r: NodeState, x: string, ok: bool)
    requires NodeOk(v, x) && r.protocol == PROTOCOL_VERSION && r.swarmID in {"", x} && "" !in r.revoked
    ensures var w := Merged(v, r, ok);
            NodeOk(w, x) && w.revoked == v.revoked + Ids(r.revoked)
  {
    MergedIds(v, r, ok);
    MergedListing(v, r, ok);
    MergedInSwarm(v, r, x, ok);
  }

  lemma RevocationAdds(v: View, id: string, x: string)
    requires NodeOk(v, x)
    ensures var w := Revoked(v, id);
            NodeOk(w, x) && w.revoked == v.revoked + (if Revocable(v, id) then {id} else {})
  {
    RevokedIds(v, id);
    AbsorbedIds(v, [id]);
  }

  /** Growing one node and fanning out keeps every pair covered. */
  lemma GrowthCovered(s: Swarm, d: nat, v: View)
    requires d < |s.nodes| && s.nodes[d].revoked <= v.revoked
    requires forall i: nat, j: nat | i < |s.nodes| && j < |s.nodes| && j != d :: Covered(s, i, j)
    requires forall i: nat | i < |s.nodes| && i != d :: Covered(s, i, d) || s.nodes[i].revoked <= v.revoked
    ensures AllCovered(Installed(s, d, v))
  {
    FanOutMembers(d, |s.nodes|);
    var t := Installed(s, d, v);
    forall i: nat, j: nat | i < |t.nodes| && j < |t.nodes| ensures Covered(t, i, j) {
      if i != d {
        assert Covered(s, i, j) || (j == d && s.nodes[i].revoked <= v.revoked);
      } else if j != d && v.revoked == s.nodes[d].revoked {
        assert Covered(s, i, j);
      }
    }
  }

  lemma PayloadHasNoEmptyId(s: Swarm, p: Packet, x: string)
    requires Inv(s, x) && p in s.wire
    ensures "" !in p.payload.revoked
  {
    assert PacketOk(s, p, x);
    assert "" !in Ids(p.payload.revoked);
  }

  /** Taking a packet off the wire uncovers nothing that its delivery does not cover. */
  lemma RemovalCovered(s: Swarm, p: Packet, v: View, i: nat, j: nat)
    requires i < |s.nodes| && j < |s.nodes| && p.dst < |s.nodes|
    requires Covered(s, i, j) && Ids(p.payload.revoked) <= v.revoked
    ensures Covered(s.(wire := s.wire - multiset{p}), i, j) || (j == p.dst && s.nodes[i].revoked <= v.revoked)
  {
    if !(s.nodes[i].revoked <= s.nodes[j].revoked) && (i, j) !in s.pending {
      var q :| q in s.wire && q.src == i && q.dst == j && s.nodes[i].revoked <= Ids(q.payload.revoked);
      assert q == p || q in s.wire - multiset{p};
    }
  }

  /** Installing a larger denylist keeps the non-coverage part of the invariant. */
  lemma InstallKeepsShape(s: Swarm, d: nat, v: View, x: string)
    requires d < |s.nodes| && NodeOk(v, x) && s.nodes[d].revoked <= v.revoked
    requires forall i | 0 <= i < |s.nodes| :: NodeOk(s.nodes[i], x)
    requires forall e | e in s.pending :: e.0 < |s.nodes| && e.1 < |s.nodes|
    requires forall p | p in s.wire :: PacketOk(s, p, x)
    ensures var t := Installed(s, d, v);
            && (forall i | 0 <= i < |t.nodes| :: NodeOk(t.nodes[i], x))
            && (forall e | e in t.pending :: e.0 < |t.nodes| && e.1 < |t.nodes|)
            && (forall p | p in t.wire :: PacketOk(t, p, x))
  {
    FanOutMembers(d, |s.nodes|);
    var t := Installed(s, d, v);
    forall e | e in t.pending ensures e.0 < |t.nodes| && e.1 < |t.nodes| {
      assert e == (e.0, e.1);
      assert e in s.pending || e in FanOut(d, |s.nodes|);
    }
    forall p | p in t.wire ensures PacketOk(t, p, x) { assert PacketOk(s, p, x); }
  }

  lemma DeliverKeepsInv(s: Swarm, p: Packet, ok: bool, x: string)
    requires Inv(s, x) && Enabled(s, Deliver(p, ok))
    ensures Inv(Next(s, Deliver(p, ok)), x)
  {
    assert PacketOk(s, p, x);
    PayloadHasNoEmptyId(s, p, x);
    DeliveryUnites(s.nodes[p.dst], p.payload, x, ok);
    var v := Merged(s.nodes[p.dst], p.payload, ok);
    var mid := s.(wire := s.wire - multiset{p});
    forall i: nat, j: nat | i < |s.nodes| && j < |s.nodes|
      ensures Covered(mid, i, j) || (j == p.dst && s.nodes[i].revoked <= v.revoked)
    {
      RemovalCovered(s, p, v, i, j);
    }
    GrowthCovered(mid, p.dst, v);
    forall q | q in mid.wire ensures PacketOk(mid, q, x) { assert PacketOk(s, q, x); }
    InstallKeepsShape(mid, p.dst, v, x);
  }

  lemma RevokeKeepsInv(s: Swarm, i: nat, id: string, x: string)
    requires Inv(s, x) && i < |s.nodes|
    ensures Inv(Next(s, RevokeAt(i, id)), x)
  {
    RevocationAdds(s.nodes[i], id, x);
    var v := Revoked(s.nodes[i], id);
    GrowthCovered(s, i, v);
    InstallKeepsShape(s, i, v, x);
  }

  /** A started push/pull is owed no longer, but its snapshot is on the wire. */
  lemma BeginCovers(s: Swarm, i: nat, j: nat, a: nat, b: nat)
    requires Enabled(s, Begin(i, j)) && a < |s.nodes| && b < |s.nodes| && Covered(s, a, b)
    requires Ids(s.nodes[i].local.revoked) == s.nodes[i].revoked
    ensures Covered(Next(s, Begin(i, j)), a, b)
  {
    var t := Next(s, Begin(i, j));
    if (a, b) == (i, j) {
      assert Packet(i, j, s.nodes[i].local) in t.wire;
    } else if !(s.nodes[a].revoked <= s.nodes[b].revoked) && (a, b) !in s.pending {
      var p :| p in s.wire && p.src == a && p.dst == b && s.nodes[a].revoked <= Ids(p.payload.revoked);
      assert p in t.wire;
    }
  }

  lemma BeginKeepsPackets(s: Swarm, i: nat, j: nat, x: string, q: Packet)
    requires Inv(s, x) && Enabled(s, Begin(i, j)) && q in Next(s, Begin(i, j)).wire
    ensures PacketOk(Next(s, Begin(i, j)), q, x)
  {
    if q in s.wire {
      assert PacketOk(s, q, x);
    } else {
      ListingElements(s.nodes[i].local.revoked, s.nodes[i].revoked);
      ListingElements(s.nodes[j].local.revoked, s.nodes[j].revoked);
    }
  }

  lemma BeginKeepsInv(s: Swarm, i: nat, j: nat, x: string)
    requires Inv(s, x) && Enabled(s, Begin(i, j))
    ensures Inv(Next(s, Begin(i, j)), x)
  {
    var t := Next(s, Begin(i, j));
    ListingElements(s.nodes[i].local.revoked, s.nodes[i].revoked);
    forall a: nat, b: nat | a < |t.nodes| && b < |t.nodes| ensures Covered(t, a, b) {
      BeginCovers(s, i, j, a, b);
    }
    forall q | q in t.wire ensures PacketOk(t, q, x) { BeginKeepsPackets(s, i, j, x, q); }
  }

  lemma StepKeepsInv(s: Swarm, step: Step, x: string)
    requires Inv(s, x) && Enabled(s, step)
    ensures Inv(Next(s, step), x)
  {
    match step {
      case RevokeAt(i, id) => RevokeKeepsInv(s, i, id, x);
      case Begin(i, j) => BeginKeepsInv(s, i, j, x);
      case Deliver(p, ok) => DeliverKeepsInv(s, p, ok, x);
    }
  }

  // ---- what the fleet knows ----

  /** All ids on any node's denylist. */
  ghost function Known(s: Swarm): set<string> {
    set i, id | 0 <= i < |s.nodes| && id in s.nodes[i].revoked :: id
  }

  ghost function RevokedBy(s: Swarm, steps: seq<Step>): set<string>
    requires Runs(s, steps)
    decreases |steps|
  {
    if steps == [] then {}
    else RevokedIn(s, steps[0]) + RevokedBy(Next(s, steps[0]), steps[1..])
  }

  ghost function RevokedIn(s: Swarm, step: Step): set<string>
    requires Enabled(s, step)
  {
    if step.RevokeAt? && Revocable(s.nodes[step.i], step.id) then {step.id} else {}
  }

  lemma KnownAfterInstall(s: Swarm, d: nat, v: View, extra: set<string>)
    requires d < |s.nodes|
    requires s.nodes[d].revoked + extra <= v.revoked <= Known(s) + extra
    ensures Known(Installed(s, d, v)) == Known(s) + extra
  {
    var t := Installed(s, d, v);
    forall id ensures id in Known(t) <==> id in Known(s) + extra {
      if id in Known(t) {
        var i :| 0 <= i < |t.nodes| && id in t.nodes[i].revoked;
        assert i == d || id in s.nodes[i].revoked;
      }
      if id in Known(s) {
        var i :| 0 <= i < |s.nodes| && id in s.nodes[i].revoked;
        assert id in t.nodes[i].revoked;
      }
      if id in extra { assert id in t.nodes[d].revoked; }
    }
  }

  /** No id appears out of nowhere and none is forgotten. */
  lemma StepKnown(s: Swarm, step: Step, x: string)
    requires Inv(s, x) && Enabled(s, step)
    ensures Known(Next(s, step)) == Known(s) + RevokedIn(s, step)
  {
    match step {
      case RevokeAt(i, id) =>
        RevocationAdds(s.nodes[i], id, x);
        KnownAfterInstall(s, i, Revoked(s.nodes[i], id), RevokedIn(s, step));
      case Begin(i, j) =>
        assert Next(s, step).nodes == s.nodes;
      case Deliver(p, ok) =>
        assert PacketOk(s, p, x);
        PayloadHasNoEmptyId(s, p, x);
        DeliveryUnites(s.nodes[p.dst], p.payload, x, ok);
        KnownAfterInstall(s.(wire := s.wire - multiset{p}), p.dst, Merged(s.nodes[p.dst], p.payload, ok), {});
    }
  }

  lemma QuietAgrees(s: Swarm, x: string)
    requires Inv(s, x) && Quiet(s)
    ensures forall i | 0 <= i < |s.nodes| :: s.nodes[i].revoked == Known(s)
  {
    forall i: nat | i < |s.nodes| ensures s.nodes[i].revoked == Known(s) {
      forall id | id in Known(s) ensures id in s.nodes[i].revoked {
        var j: nat :| j < |s.nodes| && id in s.nodes[j].revoked;
        assert Covered(s, j, i);
      }
    }
  }

  lemma {:induction false} RunFacts(s: Swarm, steps: seq<Step>, x: string)
    requires Inv(s, x) && Runs(s, steps)
    ensures Inv(Run(s, steps), x)
    ensures Known(Run(s, steps)) == Known(s) + RevokedBy(s, steps)
    decreases |steps|
  {
    if steps != [] {
      StepKeepsInv(s, steps[0], x);
      StepKnown(s, steps[0], x);
      RunFacts(Next(s, steps[0]), steps[1..], x);
      assert Run(s, steps) == Run(Next(s, steps[0]), steps[1..]);
    }
  }

  /** Convergence: in every run, once nothing is pending or in flight, all nodes hold the
      same denylist, namely everything known at the start plus everything revoked since.
      Along the way no node takes a swarm id other than `x`. */
  lemma FloodingConverges(s: Swarm, steps: seq<Step>, x: string)
    requires Inv(s, x) && Runs(s, steps)
    ensures var t := Run(s, steps);
            && (forall i | 0 <= i < |t.nodes| :: t.nodes[i].identity.swarmID in {"", x})
            && Known(t) == Known(s) + RevokedBy(s, steps)
            && (Quiet(t) ==> forall i | 0 <= i < |t.nodes| :: t.nodes[i].revoked == Known(s) + RevokedBy(s, steps))
  {
    RunFacts(s, steps, x);
    var t := Run(s, steps);
    assert forall i | 0 <= i < |t.nodes| :: NodeOk(t.nodes[i], x);
    if Quiet(t) { QuietAgrees(t, x); }
  }

  // ---- termination ----

  /** Ids of `all` still missing, summed over the nodes. */
  ghost function Missing(nodes: seq<View>, all: set<string>): nat {
    if nodes == [] then 0 else |all - nodes[0].revoked| + Missing(nodes[1..], all)
  }

  lemma {:induction false} MissingUpdate(nodes: seq<View>, all: set<string>, d: nat, v: View)
    requires d < |nodes|
    ensures Missing(nodes[d := v], all) == Missing(nodes, all) - |all - nodes[d].revoked| + |all - v.revoked|
  {
    if d > 0 {
      MissingUpdate(nodes[1..], all, d - 1, v);
      assert nodes[d := v][1..] == nodes[1..][d - 1 := v];
    } else {
      assert nodes[d := v][1..] == nodes[1..];
    }
  }

  /** `m` missing ids can each cost one round of `n` push/pulls of three steps. */
  function Weight(n: nat, m: nat): nat { if m == 0 then 0 else 3 * n + Weight(n, m - 1) }

  /** An upper bound on the exchanges a fleet can still perform without a new revocation. */
  ghost function Work(s: Swarm): nat {
    Weight(|s.nodes|, Missing(s.nodes, Known(s))) + 3 * |s.pending| + |s.wire|
  }

  lemma GrowthShrinksMissing(nodes: seq<View>, all: set<string>, d: nat, v: View)
    requires d < |nodes| && nodes[d].revoked < v.revoked <= all
    ensures Missing(nodes[d := v], all) < Missing(nodes, all)
  {
    MissingUpdate(nodes, all, d, v);
    var id :| id in v.revoked && id !in nodes[d].revoked;
    assert all - v.revoked <= (all - nodes[d].revoked) - {id};
    SubsetSize(all - v.revoked, (all - nodes[d].revoked) - {id});
  }

  lemma {:induction false} WeightStep(n: nat, less: nat, more: nat)
    requires less < more
    ensures Weight(n, less) + 3 * n <= Weight(n, more)
  {
    if less < more - 1 { WeightStep(n, less, more - 1); }
  }

  /** What a grown denylist fans out is paid for by the ids it no longer misses. */
  lemma FanOutPaid(nodes: seq<View>, all: set<string>, d: nat, v: View)
    requires d < |nodes| && nodes[d].revoked <= v.revoked <= all
    ensures Weight(|nodes|, Missing(nodes[d := v], all))
            + (if v.revoked == nodes[d].revoked then 0 else 3 * |FanOut(d, |nodes|)|)
            <= Weight(|nodes|, Missing(nodes, all))
  {
    if v.revoked == nodes[d].revoked {
      MissingUpdate(nodes, all, d, v);
    } else {
      GrowthShrinksMissing(nodes, all, d, v);
      WeightStep(|nodes|, Missing(nodes[d := v], all), Missing(nodes, all));
      FanOutMembers(d, |nodes|);
    }
  }

  lemma InstallShrinksWork(s: Swarm, p: Packet, v: View)
    requires p in s.wire && p.dst < |s.nodes|
    requires s.nodes[p.dst].revoked <= v.revoked <= Known(s)
    ensures Work(Installed(s.(wire := s.wire - multiset{p}), p.dst, v)) < Work(s)
  {
    var mid := s.(wire := s.wire - multiset{p});
    var t := Installed(mid, p.dst, v);
    assert Known(mid) == Known(s);
    KnownAfterInstall(mid, p.dst, v, {});
    assert Known(t) == Known(s) && |t.wire| == |s.wire| - 1;
    FanOutPaid(s.nodes, Known(s), p.dst, v);
  }

  lemma DeliverShrinksWork(s: Swarm, p: Packet, ok: bool, x: string)
    requires Inv(s, x) && Enabled(s, Deliver(p, ok))
    ensures Work(Next(s, Deliver(p, ok))) < Work(s)
  {
    var v := Merged(s.nodes[p.dst], p.payload, ok);
    assert PacketOk(s, p, x);
    PayloadHasNoEmptyId(s, p, x);
    DeliveryUnites(s.nodes[p.dst], p.payload, x, ok);
    forall id | id in v.revoked ensures id in Known(s) {
      assert id in s.nodes[p.dst].revoked || id in s.nodes[p.src].revoked;
    }
    InstallShrinksWork(s, p, v);
  }

  lemma StepShrinksWork(s: Swarm, step: Step, x: string)
    requires Inv(s, x) && Enabled(s, step) && !step.RevokeAt?
    ensures Work(Next(s, step)) < Work(s)
  {
    match step {
      case Begin(i, j) =>
        var t := Next(s, step);
        assert Known(t) == Known(s) by { StepKnown(s, step, x); }
        assert t.nodes == s.nodes && |t.pending| == |s.pending| - 1 && |t.wire| == |s.wire| + 2;
      case Deliver(p, ok) => DeliverShrinksWork(s, p, ok, x);
    }
  }

  /** Termination: without a new revocation, no schedule of exchanges is longer than `Work`,
      and a run that reaches that many steps ends with nothing left to do. */
  lemma {:induction false} FloodingTerminates(s: Swarm, steps: seq<Step>, x: string)
    requires Inv(s, x) && Runs(s, steps)
    requires forall step | step in steps :: !step.RevokeAt?
    ensures |steps| + Work(Run(s, steps)) <= Work(s)
    decreases |steps|
  {
    if steps != [] {
      assert steps[0] in steps;
      StepKeepsInv(s, steps[0], x);
      StepShrinksWork(s, steps[0], x);
      FloodingTerminates(Next(s, steps[0]), steps[1..], x);
    }
  }

  /** A fleet with anything pending or in flight can always move. */
  lemma NeverStuck(s: Swarm, x: string)
    requires Inv(s, x) && !Quiet(s)
    ensures exists step :: Enabled(s, step) && !step.RevokeAt?
  {
    if s.pending != multiset{} {
      var e :| e in s.pending;
      assert e == (e.0, e.1);
      assert Enabled(s, Begin(e.0, e.1));
    } else {
      var p :| p in s.wire;
      assert PacketOk(s, p, x);
      assert Enabled(s, Deliver(p, true));
    }
  }

  /** A fleet of empty denylists with nothing in flight satisfies the invariant. */
  lemma FreshFleet(s: Swarm, x: string)
    requires Quiet(s)
    requires forall i | 0 <= i < |s.nodes| :: NodeOk(s.nodes[i], x) && s.nodes[i].revoked == {}
    ensures Inv(s, x)
  {}
}
