/** A node's gossip state: the grow-only denylist, the swarm identity and the
    effect of merging a peer's advertised state. `Cluster` is the mutable object;
    the functions above it say what each of its methods does to the node's `View`. */
module Membership {
  import opened Common
  import opened Sorting

  const PROTOCOL_VERSION := 1
  const STATE_VERSION_MODULUS := 0x1_0000_0000_0000_0000

  datatype Mode = Standalone | PendingJoin | Rejoin

  datatype SwarmIdentity = SwarmIdentity(swarmID: string, swarmName: string, mode: Mode)

  /** The persisted swarm.json, as the next start finds it. */
  datatype SwarmFile = Absent | Unreadable | Corrupt | Stored(swarmID: string, swarmName: string)

  /** The part of the advertised node state that a merge reads. */
  datatype NodeState = NodeState(nodeID: string, addr: string, pubKey: string, stateVersion: nat,
                                 protocol: nat, swarmID: string, swarmName: string, revoked: seq<string>)

  datatype Route = Route(addr: string, pubKey: string)

  /** Everything a merge, a revocation or a restart can touch on one node. */
  datatype View = View(local: NodeState, peers: map<string, NodeState>, routes: map<string, Route>,
                       identity: SwarmIdentity, file: SwarmFile,
                       hasStore: bool, bucket: set<string>, revoked: set<string>)

  function Ids(l: seq<string>): set<string> { set x | x in l }

  // ---- the denylist ----

  /** The ids of the list that are non-empty and not on the denylist yet. */
  function NewIds(v: View, ids: seq<string>): set<string> {
    set x | x in ids && x != "" && x !in v.revoked
  }

  /** Folds ids into the union; store and advertised list follow when it grows. */
  ghost function Absorbed(v: View, ids: seq<string>): View {
    var added := NewIds(v, ids);
    if added == {} then v
    else
      var all := v.revoked + added;
      v.(revoked := all,
         bucket := if v.hasStore then v.bucket + added else v.bucket,
         local := v.local.(revoked := Listing(all),
                           stateVersion := (v.local.stateVersion + 1) % STATE_VERSION_MODULUS))
  }

  /** A node refuses to revoke the empty id and itself. */
  predicate Revocable(v: View, id: string) { id != "" && id != v.local.nodeID }

  ghost function Revoked(v: View, id: string): View {
    if Revocable(v, id) then Absorbed(v, [id]) else v
  }

  // ---- swarm identity ----

  /** Only two distinct non-empty swarm ids are a mismatch. */
  predicate GuardJoin(localID: string, peerID: string) {
    localID == "" || peerID == "" || localID == peerID
  }

  /** The id is taken over in memory even when persisting it fails; only a persisted
      adoption ends the pending-join mode and is advertised. */
  function Adopted(v: View, id: string, name: string, persistOk: bool): View {
    if persistOk then
      v.(identity := SwarmIdentity(id, name, Rejoin), file := Stored(id, name), local := v.local.(swarmID := id))
    else
      v.(identity := v.identity.(swarmID := id, swarmName := name))
  }

  /** What the start-up rules make of the persisted file. */
  function LoadOrInit(file: SwarmFile, seeds: seq<string>, minted: string, persistOk: bool)
    : Option<(SwarmIdentity, SwarmFile)>
  {
    match file
    case Stored(id, name) => Some((SwarmIdentity(id, name, Rejoin), file))
    case Unreadable => None
    case Corrupt => None
    case Absent =>
      if seeds != [] then Some((SwarmIdentity("", "", PendingJoin), Absent))
      else if persistOk then Some((SwarmIdentity(minted, "", Standalone), Stored(minted, "")))
      else None
  }

  // ---- merging a peer's state ----

  function Upserted(routes: map<string, Route>, r: NodeState): map<string, Route> {
    var pinned := if r.nodeID in routes then routes[r.nodeID].pubKey else "";
    routes[r.nodeID := Route(r.addr, if r.pubKey != "" then r.pubKey else pinned)]
  }

  /** The merge, given the swarm id and mode that were read before it: the code
      reads both under the lock, releases it, and adopts later. */
  ghost function MergedAfterReading(v: View, r: NodeState, seenID: string, seenPending: bool, persistOk: bool): View {
    if r.protocol != PROTOCOL_VERSION || !GuardJoin(seenID, r.swarmID) then v
    else
      var w := Absorbed(v.(peers := v.peers[r.nodeID := r]), r.revoked);
      var u := w.(routes := Upserted(w.routes, r));
      if seenPending && r.swarmID != "" then Adopted(u, r.swarmID, r.swarmName, persistOk) else u
  }

  /** A merge that no other merge on the same node overlaps. */
  ghost function Merged(v: View, r: NodeState, persistOk: bool): View {
    MergedAfterReading(v, r, v.identity.swarmID, v.identity.mode == PendingJoin, persistOk)
  }

  /** The peer's state gets past the protocol gate and the swarm guard. */
  predicate Accepted(v: View, r: NodeState) {
    r.protocol == PROTOCOL_VERSION && GuardJoin(v.identity.swarmID, r.swarmID)
  }

  /** A new process over the same store and file. */
  ghost function Booted(v: View, identity: SwarmIdentity, file: SwarmFile): View {
    var seeded := if v.hasStore then v.bucket else {};
    v.(local := v.local.(stateVersion := 0, swarmID := identity.swarmID, swarmName := identity.swarmName,
                         revoked := Listing(seeded)),
       peers := map[], routes := map[], identity := identity, file := file, revoked := seeded)
  }

  // ---- the object ----

  class Cluster {
    var local: NodeState
    var peers: map<string, NodeState>
    var routes: map<string, Route>
    var identity: SwarmIdentity
    var file: SwarmFile
    const hasStore: bool
    var bucket: set<string>
    var revoked: set<string>

    ghost function Now(): View
      reads this
    {
      View(local, peers, routes, identity, file, hasStore, bucket, revoked)
    }

    /** Builds a node over a store; the denylist is seeded from its bucket. */
    constructor (local: NodeState, identity: SwarmIdentity, file: SwarmFile, hasStore: bool, bucket: set<string>)
      requires local.revoked == []
      ensures Now() == View(local.(revoked := Listing(revoked)), map[], map[], identity, file, hasStore, bucket,
                            if hasStore then bucket else {})
    {
      this.local, this.identity, this.file, this.hasStore, this.bucket := local, identity, file, hasStore, bucket;
      peers, routes, revoked := map[], map[], {};
      new;
      if hasStore {
        revoked := bucket;
      }
      if |revoked| > 0 {
        var l := SortedKeys(revoked);
        ListingUnique(l, Listing(revoked), revoked);
        this.local := this.local.(revoked := l);
      } else {
        ListingUnique([], Listing(revoked), revoked);
      }
    }

    method AddRevoked(ids: seq<string>) returns (grew: bool)
      modifies this
      ensures Now() == Absorbed(old(Now()), ids)
      ensures grew <==> old(revoked) != revoked
      ensures revoked == old(revoked) + (set x | x in ids && x != "")
      ensures local.stateVersion == if grew then (old(local.stateVersion) + 1) % STATE_VERSION_MODULUS else old(local.stateVersion)
    {
      grew := false;
      ghost var v := Now();
      for i := 0 to |ids|
        invariant revoked == v.revoked + NewIds(v, ids[..i])
        invariant bucket == if hasStore then v.bucket + NewIds(v, ids[..i]) else v.bucket
        invariant Now() == v.(revoked := revoked, bucket := bucket)
        invariant grew <==> NewIds(v, ids[..i]) != {}
      {
        assert ids[..i + 1] == ids[..i] + [ids[i]];
        var id := ids[i];
        if id == "" || id in revoked {
          assert NewIds(v, ids[..i + 1]) == NewIds(v, ids[..i]);
          continue;
        }
        assert NewIds(v, ids[..i + 1]) == NewIds(v, ids[..i]) + {id};
        revoked := revoked + {id};
        if hasStore {
          bucket := bucket + {id};
        }
        grew := true;
      }
      assert ids[..|ids|] == ids;
      if grew {
        var l := SortedKeys(revoked);
        ListingUnique(l, Listing(revoked), revoked);
        local := local.(revoked := l, stateVersion := (local.stateVersion + 1) % STATE_VERSION_MODULUS);
      }
    }

    /** Returns whether the id was accepted, and whether a push/pull with every member follows. */
    method Revoke(nodeID: string) returns (ok: bool, fanOut: bool)
      modifies this
      ensures ok <==> nodeID != "" && nodeID != old(local.nodeID)
      ensures Now() == Revoked(old(Now()), nodeID)
      ensures fanOut <==> old(revoked) != revoked
    {
      if nodeID == "" || nodeID == local.nodeID {
        return false, false;
      }
      fanOut := AddRevoked([nodeID]);
      ok := true;
    }

    /** `remote` is None when the received bytes do not decode. */
    method MergeRemoteState(remote: Option<NodeState>, persistOk: bool) returns (fanOut: bool)
      modifies this
      ensures Now() == if remote.None? then old(Now()) else Merged(old(Now()), remote.value, persistOk)
      ensures fanOut <==> old(revoked) != revoked
      ensures remote.Some? && persistOk && old(identity.mode) == PendingJoin && old(identity.swarmID) == ""
              && remote.value.protocol == PROTOCOL_VERSION && remote.value.swarmID != "" ==>
                file == Stored(remote.value.swarmID, remote.value.swarmName)
    {
      if remote.None? || remote.value.protocol != PROTOCOL_VERSION {
        return false;
      }
      var r := remote.value;
      if !GuardJoin(identity.swarmID, r.swarmID) {
        return false;
      }
      peers := peers[r.nodeID := r];
      var isPending := identity.mode == PendingJoin;
      fanOut := AddRevoked(r.revoked);
      routes := Upserted(routes, r);
      if isPending && r.swarmID != "" {
        identity := identity.(swarmID := r.swarmID, swarmName := r.swarmName);
        if persistOk {
          file := Stored(r.swarmID, r.swarmName);
          local := local.(swarmID := r.swarmID);
          identity := identity.(mode := Rejoin);
        }
      }
    }
  }

  // ---- one node's life: revocations, merges and restarts in any order ----

  datatype LifeStep =
    | DoRevoke(id: string)
    | DoMerge(remote: Option<NodeState>, persistOk: bool)
    | DoRestart(seeds: seq<string>, minted: string, mintOk: bool)

  ghost function LifeNext(v: View, step: LifeStep): View {
    match step
    case DoRevoke(id) => Revoked(v, id)
    case DoMerge(remote, ok) => if remote.None? then v else Merged(v, remote.value, ok)
    case DoRestart(seeds, minted, ok) =>
      var start := LoadOrInit(v.file, seeds, minted, ok);
      if start.None? then v else Booted(v, start.value.0, start.value.1)
  }

  ghost function Life(v: View, steps: seq<LifeStep>): View
    decreases |steps|
  {
    if steps == [] then v else Life(LifeNext(v, steps[0]), steps[1..])
  }

  /** The ids a step brings in from outside the node. */
  ghost function Introduced(v: View, step: LifeStep): set<string> {
    match step
    case DoRevoke(id) => if Revocable(v, id) then {id} else {}
    case DoMerge(remote, _) =>
      if remote.Some? && Accepted(v, remote.value) then Ids(remote.value.revoked) - {""} else {}
    case DoRestart(_, _, _) => {}
  }

  ghost function IntroducedBy(v: View, steps: seq<LifeStep>): set<string>
    decreases |steps|
  {
    if steps == [] then {}
    else Introduced(v, steps[0]) + IntroducedBy(LifeNext(v, steps[0]), steps[1..])
  }

  /** Memory, store and advertised list denote the same denylist. */
  ghost predicate Consistent(v: View) {
    && v.local.revoked == Listing(v.revoked)
    && (v.hasStore ==> v.bucket == v.revoked)
  }

  lemma AbsorbedIds(v: View, ids: seq<string>)
    ensures Absorbed(v, ids).revoked == v.revoked + (Ids(ids) - {""})
    ensures Consistent(v) ==> Consistent(Absorbed(v, ids))
  {}

  /** Even without a store the advertised list stays the sorted denylist. */
  lemma MergedListing(v: View, r: NodeState, persistOk: bool)
    requires v.local.revoked == Listing(v.revoked)
    ensures Merged(v, r, persistOk).local.revoked == Listing(Merged(v, r, persistOk).revoked)
  {
    if Accepted(v, r) {
      var w := Absorbed(v.(peers := v.peers[r.nodeID := r]), r.revoked);
      AdoptedKeepsDenylist(w.(routes := Upserted(w.routes, r)), r.swarmID, r.swarmName, persistOk);
    }
  }

  lemma AdoptedKeepsDenylist(v: View, id: string, name: string, persistOk: bool)
    ensures var w := Adopted(v, id, name, persistOk);
            && w.revoked == v.revoked && w.bucket == v.bucket && w.hasStore == v.hasStore
            && w.local.revoked == v.local.revoked && w.local.nodeID == v.local.nodeID
            && w.local.protocol == v.local.protocol
  {}

  /** A merge adds the peer's ids exactly when the peer's state is accepted. */
  lemma MergedIds(v: View, r: NodeState, persistOk: bool)
    ensures var w := Merged(v, r, persistOk);
            && w.revoked == v.revoked + (if Accepted(v, r) then Ids(r.revoked) - {""} else {})
            && w.hasStore == v.hasStore && w.local.nodeID == v.local.nodeID
            && w.local.protocol == v.local.protocol
            && (Consistent(v) ==> Consistent(w))
  {
    if Accepted(v, r) {
      var w := Absorbed(v.(peers := v.peers[r.nodeID := r]), r.revoked);
      AbsorbedIds(v.(peers := v.peers[r.nodeID := r]), r.revoked);
      AdoptedKeepsDenylist(w.(routes := Upserted(w.routes, r)), r.swarmID, r.swarmName, persistOk);
    }
  }

  lemma RevokedIds(v: View, id: string)
    ensures var w := Revoked(v, id);
            && w.revoked == v.revoked + (if Revocable(v, id) then {id} else {})
            && w.hasStore == v.hasStore && w.local.nodeID == v.local.nodeID
            && w.local.protocol == v.local.protocol
            && (Consistent(v) ==> Consistent(w))
  {
    AbsorbedIds(v, [id]);
  }

  lemma DurableStep(v: View, step: LifeStep)
    requires v.hasStore && Consistent(v)
    ensures var w := LifeNext(v, step);
            w.hasStore && Consistent(w) && w.revoked == v.revoked + Introduced(v, step)
  {
    match step {
      case DoRevoke(id) => RevokedIds(v, id);
      case DoMerge(remote, ok) => if remote.Some? { MergedIds(v, remote.value, ok); }
      case DoRestart(seeds, minted, ok) =>
        var start := LoadOrInit(v.file, seeds, minted, ok);
        if start.Some? {
          assert LifeNext(v, step) == Booted(v, start.value.0, start.value.1);
        }
    }
  }

  /** The denylist survives any life of the node, restarts included: it stays equal to the
      store and to the advertised list, never shrinks, and holds exactly what it started
      with plus what a revocation or an accepted merge introduced. */
  lemma {:induction false} RevocationDurable(v: View, steps: seq<LifeStep>)
    requires v.hasStore && Consistent(v)
    ensures var w := Life(v, steps);
            && w.hasStore && Consistent(w)
            && w.revoked == v.revoked + IntroducedBy(v, steps)
            && Ids(w.local.revoked) == w.bucket == w.revoked
    decreases |steps|
  {
    DurableStep(v, if steps == [] then DoRevoke("") else steps[0]);
    if steps != [] {
      RevocationDurable(LifeNext(v, steps[0]), steps[1..]);
    }
    var w := Life(v, steps);
    ListingElements(w.local.revoked, w.revoked);
  }

  // ---- swarm identity over a process's life ----

  /** The advertised swarm id is empty or the node's own. */
  predicate AdvertisesOwn(v: View) {
    v.local.swarmID == "" || v.local.swarmID == v.identity.swarmID
  }

  lemma IdentityStep(v: View, step: LifeStep)
    requires AdvertisesOwn(v) && !step.DoRestart?
    ensures var w := LifeNext(v, step);
            && AdvertisesOwn(w)
            && (v.identity.swarmID != "" ==> w.identity.swarmID == v.identity.swarmID)
  {}

  /** Within one process, whatever is merged and whichever persists fail, a non-empty
      swarm id never changes and is the only one ever advertised. */
  lemma {:induction false} SwarmIdentityStable(v: View, steps: seq<LifeStep>)
    requires AdvertisesOwn(v)
    requires forall s | s in steps :: !s.DoRestart?
    ensures var w := Life(v, steps);
            && AdvertisesOwn(w)
            && (v.identity.swarmID != "" ==> w.identity.swarmID == v.identity.swarmID)
            && (v.local.swarmID != "" ==> w.local.swarmID == v.local.swarmID)
    decreases |steps|
  {
    if steps != [] {
      var first := steps[0];
      assert first in steps;
      IdentityStep(v, first);
      var w := LifeNext(v, first);
      SwarmIdentityStable(w, steps[1..]);
    }
  }

  /** The node has an identity and the file holds it. */
  predicate Persisted(v: View, id: string, name: string) {
    && v.file == Stored(id, name)
    && v.identity.swarmID == id && v.identity.swarmName == name && v.identity.mode != PendingJoin
  }

  /** A persisted swarm identity stays for good: through every revocation, merge and restart, whatever seeds
      a restart is given and whichever writes fail. */
  lemma {:induction false} PersistedForever(v: View, steps: seq<LifeStep>, id: string, name: string)
    requires Persisted(v, id, name)
    ensures Persisted(Life(v, steps), id, name)
    ensures (exists i :: 0 <= i < |steps| && steps[i].DoRestart?) ==> Life(v, steps).identity.mode == Rejoin
    ensures steps != [] && steps[0].DoRestart? ==> Life(v, steps).local.swarmID == id
    decreases |steps|
  {
    if steps != [] {
      var w := LifeNext(v, steps[0]);
      PersistedForever(w, steps[1..], id, name);
      if steps[0].DoRestart? { RejoinedStays(w, steps[1..]); }
      if i :| 0 <= i < |steps| && steps[i].DoRestart? {
        assert i > 0 ==> steps[1..][i - 1].DoRestart?;
      }
    }
  }

  /** A member in rejoin mode that advertises its id keeps doing so. */
  lemma {:induction false} RejoinedStays(v: View, steps: seq<LifeStep>)
    requires v.identity.mode == Rejoin && v.local.swarmID == v.identity.swarmID
    requires v.file == Stored(v.identity.swarmID, v.identity.swarmName)
    ensures var w := Life(v, steps); w.identity == v.identity && w.local.swarmID == v.identity.swarmID
    decreases |steps|
  {
    if steps != [] { RejoinedStays(LifeNext(v, steps[0]), steps[1..]); }
  }

  /** A pending node that merges a peer with a swarm id it can take, and persists it, is a member of that swarm
      from then on, restarts included; one whose write failed is pending again after a restart with seeds. */
  lemma AdoptionLasts(v: View, r: NodeState, seeds: seq<string>, minted: string, mintOk: bool, steps: seq<LifeStep>)
    requires v.identity.mode == PendingJoin && r.protocol == PROTOCOL_VERSION
    requires r.swarmID != "" && (v.identity.swarmID == "" || v.identity.swarmID == r.swarmID)
    ensures var w := Life(LifeNext(v, DoMerge(Some(r), true)), steps);
            && w.file == Stored(r.swarmID, r.swarmName)
            && w.identity == SwarmIdentity(r.swarmID, r.swarmName, Rejoin) && w.local.swarmID == r.swarmID
    ensures LifeNext(LifeNext(v, DoMerge(Some(r), true)), DoRestart(seeds, minted, mintOk)).identity
            == SwarmIdentity(r.swarmID, r.swarmName, Rejoin)
    ensures v.file == Absent && seeds != [] ==>
              LifeNext(LifeNext(v, DoMerge(Some(r), false)), DoRestart(seeds, minted, mintOk)).identity
              == SwarmIdentity("", "", PendingJoin)
  {
    var w := LifeNext(v, DoMerge(Some(r), true));
    RejoinedStays(w, steps);
    PersistedForever(w, steps, r.swarmID, r.swarmName);
  }

  /** A node started without seeds and without a file founds a swarm and stays in it. */
  lemma FoundingLasts(v: View, minted: string, steps: seq<LifeStep>)
    requires v.file == Absent
    ensures Persisted(Life(LifeNext(v, DoRestart([], minted, true)), steps), minted, "")
  {
    PersistedForever(LifeNext(v, DoRestart([], minted, true)), steps, minted, "");
  }

  /** A file that cannot be read or parsed stops the start: nothing is minted over it. */
  lemma BrokenFileStays(v: View, seeds: seq<string>, minted: string, mintOk: bool)
    requires v.file == Unreadable || v.file == Corrupt
    ensures LifeNext(v, DoRestart(seeds, minted, mintOk)) == v
  {}

  /** What a merge is for: a peer of another protocol version or of another swarm changes nothing; any other
      one is remembered and routed to, with its key or else the one pinned before, and nobody else's
      entry changes. */
  lemma MergeRoutes(v: View, r: NodeState, persistOk: bool)
    ensures r.protocol != PROTOCOL_VERSION
            || (v.identity.swarmID != "" && r.swarmID != "" && v.identity.swarmID != r.swarmID) ==>
              Merged(v, r, persistOk) == v
    ensures r.protocol == PROTOCOL_VERSION
            && (v.identity.swarmID == "" || r.swarmID == "" || v.identity.swarmID == r.swarmID) ==>
              var w := Merged(v, r, persistOk);
              && w.peers == v.peers[r.nodeID := r]
              && r.nodeID in w.routes && w.routes[r.nodeID].addr == r.addr
              && (r.pubKey != "" ==> w.routes[r.nodeID].pubKey == r.pubKey)
              && (r.pubKey == "" && r.nodeID in v.routes ==> w.routes[r.nodeID].pubKey == v.routes[r.nodeID].pubKey)
              && w.routes - {r.nodeID} == v.routes - {r.nodeID}
              && (v.identity.mode != PendingJoin ==> w.identity == v.identity && w.file == v.file)
  {
    var w := Merged(v, r, persistOk);
    assert w.routes - {r.nodeID} == v.routes - {r.nodeID};
  }

  // ---- merges that overlap ----

  /** A merge folded into the view `i` of a run, with the swarm id and the mode read at earlier views. */
  datatype Overlap = Overlap(remote: NodeState, idAt: nat, modeAt: nat, persistOk: bool)

  ghost predicate MergesTo(views: seq<View>, o: Overlap, i: nat)
    requires i + 1 < |views| && o.idAt <= i && o.modeAt <= i
  {
    views[i + 1] == MergedAfterReading(views[i], o.remote, views[o.idAt].identity.swarmID,
                                       views[o.modeAt].identity.mode == PendingJoin, o.persistOk)
  }

  /** The views of a node through any number of merges, each with readings as old as it likes. */
  ghost predicate Overlapping(views: seq<View>, merges: seq<Overlap>) {
    && |views| == |merges| + 1
    && (forall i | 0 <= i < |merges| :: merges[i].idAt <= i && merges[i].modeAt <= i)
    && (forall i | 0 <= i < |merges| :: MergesTo(views, merges[i], i))
  }

  /** The merge read "pending" and an id its peer is compatible with, but the node has another one by now. */
  predicate Late(v: View, r: NodeState, seenID: string, seenPending: bool) {
    && v.identity.swarmID != "" && seenPending
    && r.protocol == PROTOCOL_VERSION && GuardJoin(seenID, r.swarmID)
    && r.swarmID != "" && r.swarmID != v.identity.swarmID
  }

  ghost predicate LateAt(views: seq<View>, merges: seq<Overlap>, i: nat)
    requires Overlapping(views, merges) && i < |merges|
  {
    Late(views[i], merges[i].remote, views[merges[i].idAt].identity.swarmID,
         views[merges[i].modeAt].identity.mode == PendingJoin)
  }

  /** One merge keeps a non-empty id exactly when it is not late. */
  lemma MergeKeepsIdIff(v: View, r: NodeState, seenID: string, seenPending: bool, persistOk: bool)
    requires v.identity.swarmID != ""
    ensures MergedAfterReading(v, r, seenID, seenPending, persistOk).identity.swarmID == v.identity.swarmID
       <==> !Late(v, r, seenID, seenPending)
  {}

  /** From the first non-empty id on, through merges none of which is late, the id stays. */
  lemma {:induction false} IdStays(views: seq<View>, merges: seq<Overlap>, i: nat, j: nat)
    requires Overlapping(views, merges) && i <= j < |views| && views[i].identity.swarmID != ""
    requires forall k | 0 <= k < |merges| :: !LateAt(views, merges, k)
    ensures views[j].identity.swarmID == views[i].identity.swarmID
    decreases j
  {
    if i < j {
      IdStays(views, merges, i, j - 1);
      var o := merges[j - 1];
      assert MergesTo(views, o, j - 1) && !LateAt(views, merges, j - 1);
      MergeKeepsIdIff(views[j - 1], o.remote, views[o.idAt].identity.swarmID,
                      views[o.modeAt].identity.mode == PendingJoin, o.persistOk);
    }
  }

  /** Over any run of overlapping merges a non-empty swarm id never changes if and only if no merge of the
      run is late. */
  lemma OverlappingMergesKeepIdentityIff(views: seq<View>, merges: seq<Overlap>)
    requires Overlapping(views, merges)
    ensures (forall i, j | 0 <= i <= j < |views| && views[i].identity.swarmID != "" ::
               views[j].identity.swarmID == views[i].identity.swarmID)
       <==> (forall k | 0 <= k < |merges| :: !LateAt(views, merges, k))
  {
    if forall k | 0 <= k < |merges| :: !LateAt(views, merges, k) {
      forall i, j | 0 <= i <= j < |views| && views[i].identity.swarmID != ""
        ensures views[j].identity.swarmID == views[i].identity.swarmID
      {
        IdStays(views, merges, i, j);
      }
    } else {
      var k :| 0 <= k < |merges| && LateAt(views, merges, k);
      var o := merges[k];
      assert MergesTo(views, o, k);
      MergeKeepsIdIff(views[k], o.remote, views[o.idAt].identity.swarmID,
                      views[o.modeAt].identity.mode == PendingJoin, o.persistOk);
      assert views[k + 1].identity.swarmID != views[k].identity.swarmID;
    }
  }

  /** Merges that do not overlap read where they fold, and none of them is late. */
  lemma SerialMergesAreNotLate(views: seq<View>, merges: seq<Overlap>)
    requires Overlapping(views, merges)
    requires forall k | 0 <= k < |merges| :: merges[k].idAt == k && merges[k].modeAt == k
    ensures forall k | 0 <= k < |merges| :: !LateAt(views, merges, k)
  {}

  /** Two merges that both read "pending, no id" are such a run: the second adoption replaces the id the
      first one installed. */
  lemma OverlappingMergesChangeIdentity(v: View, x: NodeState, y: NodeState)
    requires v.identity == SwarmIdentity("", "", PendingJoin)
    requires x.protocol == y.protocol == PROTOCOL_VERSION
    requires x.swarmID != "" && y.swarmID != "" && x.swarmID != y.swarmID
    ensures var first := MergedAfterReading(v, x, "", true, true);
            var second := MergedAfterReading(first, y, "", true, true);
            && Overlapping([v, first, second], [Overlap(x, 0, 0, true), Overlap(y, 0, 0, true)])
            && first.identity.swarmID == x.swarmID && second.identity.swarmID == y.swarmID
  {
    var first := MergedAfterReading(v, x, "", true, true);
    var second := MergedAfterReading(first, y, "", true, true);
    var views, merges := [v, first, second], [Overlap(x, 0, 0, true), Overlap(y, 0, 0, true)];
    assert MergesTo(views, merges[0], 0) && MergesTo(views, merges[1], 1);
  }

  /** A file that holds an empty id puts the node in rejoin mode without an id, and no
      sequence of merges ever gives it one. */
  lemma {:induction false} EmptyFileNeverAdopts(v: View, steps: seq<LifeStep>)
    requires v.identity.mode == Rejoin && v.identity.swarmID == ""
    requires forall s | s in steps :: !s.DoRestart?
    ensures Life(v, steps).identity == v.identity
    decreases |steps|
  {
    if steps != [] {
      assert steps[0] in steps;
      EmptyFileNeverAdopts(LifeNext(v, steps[0]), steps[1..]);
    }
  }
}
