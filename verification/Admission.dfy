/** Concurrent creates, commits, starts, stops, deletes and reconciles on one node, as interleaved steps.
    Every lock-free gap of the code is a gap between steps: listing and committing, the backend call
    of a start and its mark, the two listings of a reconcile, its marks and its base update. What a run
    must respect for the guarantees is `Orderly`; `AdmissionFailures` shows what happens else. */
module Admission {
  import opened Common
  import opened Resources
  import opened CapacityTracker
  import opened SandboxManager

  /** A listing of the records: their sum, and what the proof remembers since: the creates saved, with their
      costs, and the cost of the live records deleted or lost. */
  datatype Listing = Listing(sum: Res, since: map<int, Res>, left: Res)

  /** An in-flight create, filed under its reservation. */
  datatype Phase =
    | Reserved(spec: Spec)               // capacity reserved
    | Placed(spec: Spec, id: string)     // the backend created sandbox `id`
    | Saved(cost: Res)                   // the record is stored
    | Listed(cost: Res, l: Listing)      // records summed up

  /** The reconciler: backend listed (and what it created since), or records listed and being marked. */
  datatype Reconcile =
    | Idle
    | Heard(alive: set<string>, born: set<string>)
    | Marking(snap: Store, todo: set<string>, since: map<int, Res>, left: Res)

  /** A start or stop whose backend call succeeded; `swept` once a reconcile marked the record lost. */
  datatype Call = Call(id: string, status: Status, swept: bool)

  datatype Node = Node(ledger: Ledger, store: Store, backend: set<string>, defaults: Defaults,
                       inflight: map<int, Phase>, reconcile: Reconcile, calls: map<int, Call>, issued: set<string>)

  datatype Step =
    | Admit(request: Spec)
    | BackendCreate(r: int, id: string)
    | GiveUp(r: int)                   // backend or store failed: release
    | Save(r: int, status: Status, labels: map<string, string>, now: int)
    | ListForCommit(r: int)
    | CommitBase(r: int)
    | CommitFallback(r: int)           // the listing failed
    | CallBackend(c: int, id: string, status: Status)
    | MarkStatus(c: int)
    | Bump(id: string, now: int)
    | Vanish(name: string)             // the daemon loses a sandbox, or a delete removes it
    | Drop(id: string)                 // a delete drops the record
    | ListBackend
    | ListRecords
    | MarkLost(id: string)
    | SetBase
    | Abandon                          // the reconcile fails half-way

  predicate Unsaved?(p: Phase) { p.Reserved? || p.Placed? }

  function Cost(p: Phase): Res { if Unsaved?(p) then CostOf(p.spec) else p.cost }

  /** Every open listing takes note of a save, and of a live record that goes. */
  function Noted(p: Phase, r: int, cost: Res): Phase {
    if p.Listed? then p.(l := p.l.(since := p.l.since[r := cost])) else p
  }

  function Lowered(p: Phase, cost: Res): Phase {
    if p.Listed? then p.(l := p.l.(left := p.l.left.Plus(cost))) else p
  }

  function LoweredIn(inflight: map<int, Phase>, cost: Res): map<int, Phase> {
    map q | q in inflight :: Lowered(inflight[q], cost)
  }

  /** What a record adds to the live total. */
  function LiveCost(store: Store, id: string): Res {
    if id in store && store[id].status != Lost then CostOf(store[id].spec) else ZERO
  }

  function Marked(store: Store, id: string, status: Status): Store {
    if id in store then store[id := store[id].(status := status)] else store
  }

  /** What the code can do. */
  ghost predicate Enabled(n: Node, step: Step) {
    match step
    case BackendCreate(r, id) => r in n.inflight && n.inflight[r].Reserved? && id !in n.issued
    case GiveUp(r) => r in n.inflight && Unsaved?(n.inflight[r])
    case Save(r, status, _, _) => r in n.inflight && n.inflight[r].Placed? && status != Lost
    case ListForCommit(r) => r in n.inflight && n.inflight[r].Saved?
    case CommitBase(r) => r in n.inflight && n.inflight[r].Listed?
    case CommitFallback(r) => r in n.inflight && n.inflight[r].Saved?
    case CallBackend(c, id, status) =>
      c !in n.calls && id in n.store && id in n.backend && (status == Running || status == Stopped)
    case MarkStatus(c) => c in n.calls
    case Drop(id) => id !in n.backend
    case ListBackend => n.reconcile.Idle?
    case ListRecords => n.reconcile.Heard?
    case MarkLost(id) => n.reconcile.Marking? && id in n.reconcile.todo
    case SetBase => n.reconcile.Marking? && n.reconcile.todo == {}
    case _ => true
  }

  ghost function Next(n: Node, step: Step): Node
    requires Enabled(n, step)
  {
    match step
    case Admit(request) =>
      var spec := EffectiveSpec(request, n.defaults);
      if n.ledger.Admits(CostOf(spec)) then
        n.(ledger := n.ledger.Reserved(CostOf(spec)), inflight := n.inflight[n.ledger.next := Reserved(spec)])
      else n
    case BackendCreate(r, id) =>
      n.(backend := n.backend + {id}, issued := n.issued + {id},
         inflight := n.inflight[r := Placed(n.inflight[r].spec, id)],
         reconcile := if n.reconcile.Heard? then n.reconcile.(born := n.reconcile.born + {id}) else n.reconcile)
    case GiveUp(r) => n.(ledger := n.ledger.Released(r), inflight := n.inflight - {r})
    case Save(r, status, labels, now) =>
      var p := n.inflight[r];
      n.(store := n.store[p.id := Record(p.id, p.id, p.spec, status, now, labels)],
         inflight := SavedIn(n.inflight, r),
         reconcile := if n.reconcile.Marking? then n.reconcile.(since := n.reconcile.since[r := Cost(p)]) else n.reconcile)
    case ListForCommit(r) => n.(inflight := n.inflight[r := Listed(n.inflight[r].cost, Listing(LiveTotal(n.store), map[], ZERO))])
    case CommitBase(r) => n.(ledger := n.ledger.Rebased(n.inflight[r].l.sum, r), inflight := n.inflight - {r})
    case CommitFallback(r) => n.(ledger := n.ledger.Committed(r), inflight := n.inflight - {r})
    case CallBackend(c, id, status) => n.(calls := n.calls[c := Call(id, status, false)])
    case MarkStatus(c) =>
      n.(store := Marked(n.store, n.calls[c].id, n.calls[c].status), calls := n.calls - {c})
    case Bump(id, now) => n.(store := Bumped(n.store, id, now))
    case Vanish(name) => n.(backend := n.backend - {name})
    case Drop(id) =>
      var c := LiveCost(n.store, id);
      n.(store := n.store - {id}, inflight := LoweredIn(n.inflight, c),
         reconcile := if n.reconcile.Marking? then n.reconcile.(left := n.reconcile.left.Plus(c)) else n.reconcile)
    case ListBackend => n.(reconcile := Heard(n.backend, {}))
    case ListRecords => n.(reconcile := Marking(n.store, Missing(n.store, n.reconcile.alive), map[], ZERO))
    case MarkLost(id) =>
      var rest := n.reconcile.(todo := n.reconcile.todo - {id});
      if id !in n.store then n.(reconcile := rest)   // deleted meanwhile: its cost stays in the snapshot
      else
        n.(store := Marked(n.store, id, Lost), reconcile := rest.(snap := Marked(rest.snap, id, Lost)),
           inflight := LoweredIn(n.inflight, LiveCost(n.store, id)),
           calls := map c | c in n.calls :: n.calls[c].(swept := n.calls[c].swept || n.calls[c].id == id))
    case SetBase => n.(ledger := n.ledger.(base := LiveTotal(n.reconcile.snap)), reconcile := Idle)
    case Abandon => n.(reconcile := Idle)
  }

  function SavedIn(inflight: map<int, Phase>, r: int): map<int, Phase>
    requires r in inflight
  {
    map q | q in inflight :: if q == r then Saved(Cost(inflight[r])) else Noted(inflight[q], r, Cost(inflight[r]))
  }

  /** The records a reconcile is going to mark: not lost yet and not among the listed sandboxes. */
  function Missing(store: Store, alive: set<string>): set<string> {
    set id | id in store && store[id].status != Lost && store[id].backendName !in alive
  }

  // ---- what a run must respect ----

  /** Reservations of creates saved before the listing and still open: the sum counts them a second time. */
  ghost function Early(inflight: map<int, Phase>, since: map<int, Res>): map<int, Res> {
    map q | q in inflight && !Unsaved?(inflight[q]) && q !in since :: Cost(inflight[q])
  }

  /** What the creates saved since a listing cost that have dropped their reservation already is made up for by
      reservations the listing counts twice and by records it counts that are gone. Nothing dropped is the
      plain case. */
  ghost predicate Backed(inflight: map<int, Phase>, l: Listing) {
    Total(l.since - inflight.Keys).AtMost(Total(Early(inflight, l.since)).Plus(l.left))
  }

  /** The listing a reconcile's base update uses. */
  ghost function SnapListing(r: Reconcile): Listing
    requires r.Marking?
  {
    Listing(LiveTotal(r.snap), r.since, r.left)
  }

  /** Heedful: records of sandboxes created since the backend was listed are not listed while alive, and a
      start or stop does not mark a record swept since its call. */
  ghost predicate Heedful(n: Node, step: Step)
    requires Enabled(n, step)
  {
    match step
    case ListRecords =>
      forall id | id in n.reconcile.born && id in n.store && n.store[id].status != Lost :: id !in n.backend
    case MarkStatus(c) => n.calls[c].swept ==> n.calls[c].id !in n.store
    case _ => true
  }

  /** Orderly: heedful, and a base update is backed. */
  ghost predicate Orderly(n: Node, step: Step)
    requires Enabled(n, step)
  {
    match step
    case CommitBase(r) => Backed(n.inflight - {r}, n.inflight[r].l)
    case SetBase => Backed(n.inflight, SnapListing(n.reconcile))
    case _ => Heedful(n, step)
  }

  /** The part of the discipline about starts and stops. */
  ghost predicate Unswept(n: Node, step: Step)
    requires Enabled(n, step)
  {
    step.MarkStatus? && n.calls[step.c].swept ==> n.calls[step.c].id !in n.store
  }

  ghost predicate To(n: Node, step: Step, m: Node) { Enabled(n, step) && m == Next(n, step) }

  ghost function Next?(n: Node, step: Step): Node { if Enabled(n, step) then Next(n, step) else n }

  /** A run of the code from `n` to `m`. */
  ghost predicate Leads(n: Node, steps: seq<Step>, m: Node)
    decreases |steps|
  {
    if steps == [] then m == n else To(n, steps[0], Next?(n, steps[0])) && Leads(Next?(n, steps[0]), steps[1..], m)
  }

  ghost predicate HeedfulRun(n: Node, steps: seq<Step>)
    decreases |steps|
  {
    steps == [] || (Enabled(n, steps[0]) && Heedful(n, steps[0]) && HeedfulRun(Next?(n, steps[0]), steps[1..]))
  }

  ghost predicate OrderlyRun(n: Node, steps: seq<Step>)
    decreases |steps|
  {
    steps == [] || (Enabled(n, steps[0]) && Orderly(n, steps[0]) && OrderlyRun(Next?(n, steps[0]), steps[1..]))
  }

  // ---- the invariant ----

  ghost function Costs(inflight: map<int, Phase>): map<int, Res> { map r | r in inflight :: Cost(inflight[r]) }

  ghost function UnsavedCosts(inflight: map<int, Phase>): map<int, Res> {
    map r | r in inflight && Unsaved?(inflight[r]) :: Cost(inflight[r])
  }

  /** What the node has promised: live records plus reservations that are not records yet. */
  ghost function Need(n: Node): Res { LiveTotal(n.store).Plus(Total(UnsavedCosts(n.inflight))) }

  ghost predicate LedgerShape(n: Node) {
    && Convertible(n.defaults)
    && n.ledger.resv == Costs(n.inflight)
    && (forall r | r in n.inflight :: r < n.ledger.next && Cost(n.inflight[r]).NonNegative())
  }

  ghost predicate StoreShape(n: Node) {
    && Filed(n.store)
    && (forall id | id in n.store :: CostOf(n.store[id].spec).NonNegative() && id in n.issued)
    && n.backend <= n.issued
  }

  /** An id handed to the backend names at most one create and has no record before it is saved. */
  ghost predicate PlacedShape(n: Node) {
    && (forall r | r in n.inflight && n.inflight[r].Placed? :: n.inflight[r].id in n.issued && n.inflight[r].id !in n.store)
    && (forall r, q | r in n.inflight && q in n.inflight && r != q && n.inflight[r].Placed? && n.inflight[q].Placed? ::
          n.inflight[r].id != n.inflight[q].id)
  }

  /** The backend does not know the sandbox of a lost record. */
  ghost predicate LostAbsent(n: Node) {
    forall id | id in n.store && n.store[id].status == Lost :: id !in n.backend
  }

  /** A call was made for a record of a known sandbox; that record is lost now exactly if it was swept since. */
  ghost predicate CallsShape(n: Node) {
    && (forall c | c in n.calls ::
          && n.calls[c].status != Lost && n.calls[c].id in n.issued
          && (n.calls[c].id in n.store ==> (n.store[n.calls[c].id].status == Lost <==> n.calls[c].swept)))
    && (forall c, r | c in n.calls && r in n.inflight && n.inflight[r].Placed? :: n.calls[c].id != n.inflight[r].id)
  }

  /** A record to be marked is gone from the backend for good and still what the snapshot says. */
  ghost predicate ToMark(n: Node, snap: Store, id: string) {
    && id !in n.backend && id in n.issued
    && id in snap && snap[id].status != Lost
    && (id in n.store ==> n.store[id].status != Lost && n.store[id].spec == snap[id].spec)
  }

  ghost predicate ReconcileShape(n: Node) {
    match n.reconcile
    case Idle => true
    case Heard(alive, born) => n.backend <= alive + born && alive <= n.issued && alive !! born
    case Marking(snap, todo, _, _) =>
      && (forall id | id in todo :: ToMark(n, snap, id))
      && (forall r | r in n.inflight && n.inflight[r].Placed? :: n.inflight[r].id !in todo)
  }

  /** The creates saved since a listing: each with the cost of its reservation, as long as that is open. */
  ghost predicate SinceOk(inflight: map<int, Phase>, next: int, since: map<int, Res>) {
    forall k | k in since ::
      && k < next && since[k].NonNegative()
      && (k in inflight ==> !Unsaved?(inflight[k]) && Cost(inflight[k]) == since[k])
  }

  ghost predicate SinceShape(n: Node) {
    && (forall r | r in n.inflight && n.inflight[r].Listed? ::
          r !in n.inflight[r].l.since && SinceOk(n.inflight, n.ledger.next, n.inflight[r].l.since))
    && (n.reconcile.Marking? ==> SinceOk(n.inflight, n.ledger.next, n.reconcile.since))
  }

  /** The live total is the listed sum, plus what was saved since, minus what left since. */
  ghost predicate Balanced(live: Res, l: Listing) {
    live.Plus(l.left) == l.sum.Plus(Total(l.since)) && l.left.NonNegative()
  }

  ghost predicate SumsExact(n: Node) {
    && (forall r | r in n.inflight && n.inflight[r].Listed? :: Balanced(LiveTotal(n.store), n.inflight[r].l))
    && (n.reconcile.Marking? ==> Balanced(LiveTotal(n.store), SnapListing(n.reconcile)))
  }

  ghost predicate Budget(n: Node) {
    Need(n).AtMost(n.ledger.Used()) && Need(n).Within(n.ledger.limits)
  }

  ghost predicate Inv(n: Node) {
    && LedgerShape(n) && StoreShape(n) && PlacedShape(n) && LostAbsent(n) && CallsShape(n) && ReconcileShape(n)
    && SinceShape(n) && SumsExact(n) && Budget(n)
  }

  // ---- shape ----

  lemma AdmitKeepsLedger(n: Node, request: Spec)
    requires LedgerShape(n)
    ensures LedgerShape(Next(n, Admit(request)))
  {
    EffectiveSpecTracksAll(request, n.defaults);
    var m := Next(n, Admit(request));
    assert m.ledger.resv == Costs(m.inflight);
  }

  lemma LoweredCosts(inflight: map<int, Phase>, cost: Res)
    ensures Costs(LoweredIn(inflight, cost)) == Costs(inflight)
    ensures UnsavedCosts(LoweredIn(inflight, cost)) == UnsavedCosts(inflight)
  {
    forall q | q in inflight ensures Cost(Lowered(inflight[q], cost)) == Cost(inflight[q]) {}
  }

  lemma LedgerShapeKept(n: Node, step: Step)
    requires LedgerShape(n) && Enabled(n, step)
    ensures LedgerShape(Next(n, step))
  {
    if step.Admit? {
      AdmitKeepsLedger(n, step.request);
    } else if step.Save? {
      assert Costs(SavedIn(n.inflight, step.r)) == Costs(n.inflight);
    } else if step.Drop? || step.MarkLost? {
      LoweredCosts(n.inflight, LiveCost(n.store, step.id));
    }
  }

  lemma StoreShapeKept(n: Node, step: Step)
    requires LedgerShape(n) && StoreShape(n) && PlacedShape(n) && Enabled(n, step)
    ensures StoreShape(Next(n, step))
  {}

  lemma PlacedShapeKept(n: Node, step: Step)
    requires StoreShape(n) && PlacedShape(n) && Enabled(n, step)
    ensures PlacedShape(Next(n, step))
  {}

  lemma LostAbsentKept(n: Node, step: Step)
    requires StoreShape(n) && PlacedShape(n) && LostAbsent(n) && ReconcileShape(n) && CallsShape(n)
    requires Enabled(n, step)
    ensures LostAbsent(Next(n, step))
  {}

  lemma CallsShapeKept(n: Node, step: Step)
    requires StoreShape(n) && PlacedShape(n) && LostAbsent(n) && CallsShape(n) && Enabled(n, step) && Unswept(n, step)
    ensures CallsShape(Next(n, step))
  {}

  /** A start or stop leaves every lost record lost, exactly when it is orderly. */
  lemma MarkStatusIff(n: Node, c: int)
    requires CallsShape(n) && Enabled(n, MarkStatus(c))
    ensures (forall id | id in n.store && n.store[id].status == Lost :: Next(n, MarkStatus(c)).store[id].status == Lost)
       <==> Orderly(n, MarkStatus(c))
  {}

  /** The record listing finds nothing alive to mark, exactly when it is orderly. */
  lemma ListRecordsIff(n: Node)
    requires StoreShape(n) && ReconcileShape(n) && Enabled(n, ListRecords)
    ensures Missing(n.store, n.reconcile.alive) !! n.backend <==> Orderly(n, ListRecords)
  {}

  lemma ReconcileShapeKept(n: Node, step: Step)
    requires StoreShape(n) && PlacedShape(n) && ReconcileShape(n) && CallsShape(n)
    requires Enabled(n, step) && Heedful(n, step)
    ensures ReconcileShape(Next(n, step))
  {
    if step.ListRecords? { ListRecordsIff(n); }
  }

  lemma SaveKeepsSince(n: Node, step: Step)
    requires LedgerShape(n) && SinceShape(n) && Enabled(n, step) && step.Save?
    ensures SinceShape(Next(n, step))
  {
    var m := Next(n, step);
    forall r | r in m.inflight && m.inflight[r].Listed?
      ensures r !in m.inflight[r].l.since && SinceOk(m.inflight, m.ledger.next, m.inflight[r].l.since)
    {
      assert n.inflight[r].Listed? && SinceOk(n.inflight, n.ledger.next, n.inflight[r].l.since);
    }
  }

  lemma SinceOkLowered(inflight: map<int, Phase>, next: int, since: map<int, Res>, cost: Res)
    requires SinceOk(inflight, next, since)
    ensures SinceOk(LoweredIn(inflight, cost), next, since)
  {}

  lemma LowerKeepsSince(n: Node, step: Step)
    requires SinceShape(n) && Enabled(n, step) && (step.Drop? || step.MarkLost?)
    ensures SinceShape(Next(n, step))
  {
    var m, c := Next(n, step), LiveCost(n.store, step.id);
    forall r | r in m.inflight && m.inflight[r].Listed?
      ensures r !in m.inflight[r].l.since && SinceOk(m.inflight, m.ledger.next, m.inflight[r].l.since)
    {
      SinceOkLowered(n.inflight, n.ledger.next, n.inflight[r].l.since, c);
    }
    if m.reconcile.Marking? { SinceOkLowered(n.inflight, n.ledger.next, n.reconcile.since, c); }
  }

  lemma SinceShapeKept(n: Node, step: Step)
    requires LedgerShape(n) && SinceShape(n) && Enabled(n, step)
    ensures SinceShape(Next(n, step))
  {
    if step.Save? {
      SaveKeepsSince(n, step);
    } else if step.Drop? || step.MarkLost? {
      LowerKeepsSince(n, step);
    } else {
      var m := Next(n, step);
      forall r | r in m.inflight && m.inflight[r].Listed?
        ensures r !in m.inflight[r].l.since && SinceOk(m.inflight, m.ledger.next, m.inflight[r].l.since)
      {
        assert step == ListForCommit(r) || (r in n.inflight && m.inflight[r] == n.inflight[r]);
      }
    }
  }

  // ---- live totals ----

  lemma LiveTotalAdd(store: Store, rec: Record)
    requires rec.id !in store && rec.status != Lost
    ensures LiveTotal(store[rec.id := rec]) == LiveTotal(store).Plus(CostOf(rec.spec))
  {
    LiveTotalRemove(store[rec.id := rec], rec.id);
    assert store[rec.id := rec] - {rec.id} == store;
  }

  /** Losing or deleting a record takes exactly its live cost out. */
  lemma LiveTotalLose(store: Store, id: string)
    requires id in store
    ensures LiveTotal(store) == LiveTotal(Marked(store, id, Lost)).Plus(LiveCost(store, id))
  {
    LiveTotalRemove(store, id);
    LiveTotalRemove(Marked(store, id, Lost), id);
    assert Marked(store, id, Lost) - {id} == store - {id};
    PlusLaws(LiveTotal(store - {id}), ZERO, ZERO);
  }

  lemma LiveTotalDrop(store: Store, id: string)
    ensures LiveTotal(store) == LiveTotal(store - {id}).Plus(LiveCost(store, id))
  {
    PlusLaws(LiveTotal(store - {id}), ZERO, ZERO);
    if id in store { LiveTotalRemove(store, id); } else { assert store - {id} == store; }
  }

  // ---- the sums ----

  /** A save raises the live total and what a listing knows to be saved since by the same cost. */
  lemma BalanceSave(live: Res, more: Res, l: Listing, r: int, cost: Res)
    requires Balanced(live, l) && r !in l.since && more == live.Plus(cost)
    ensures Balanced(more, l.(since := l.since[r := cost]))
  {
    TotalPut(l.since, r, cost);
    SaveArithmetic(live, l.left, l.sum, Total(l.since), cost);
  }

  lemma SaveArithmetic(live: Res, left: Res, sum: Res, since: Res, cost: Res)
    requires live.Plus(left) == sum.Plus(since)
    ensures live.Plus(cost).Plus(left) == sum.Plus(since.Plus(cost))
  {}

  /** A live record that goes lowers the live total and raises what left by the same cost. */
  lemma BalanceLose(live: Res, less: Res, l: Listing, cost: Res)
    requires Balanced(live, l) && live == less.Plus(cost) && cost.NonNegative()
    ensures Balanced(less, l.(left := l.left.Plus(cost)))
  {
    PlusGroups(less, l.left, cost);
  }

  /** A mark takes the same cost out of the store and out of the snapshot. */
  lemma BalanceMark(live: Res, less: Res, l: Listing, sum: Res, cost: Res)
    requires Balanced(live, l) && live == less.Plus(cost) && l.sum == sum.Plus(cost)
    ensures Balanced(less, l.(sum := sum))
  {
    MarkArithmetic(less, l.left, sum, Total(l.since), cost);
  }

  lemma MarkArithmetic(less: Res, left: Res, sum: Res, since: Res, cost: Res)
    requires less.Plus(cost).Plus(left) == sum.Plus(cost).Plus(since)
    ensures less.Plus(left) == sum.Plus(since)
  {}

  /** A listing just taken is exact. */
  lemma BalanceFresh(live: Res)
    ensures Balanced(live, Listing(live, map[], ZERO))
  {}

  lemma SaveRaises(n: Node, step: Step)
    requires PlacedShape(n) && Enabled(n, step) && step.Save?
    ensures LiveTotal(Next(n, step).store) == LiveTotal(n.store).Plus(Cost(n.inflight[step.r]))
  {
    var p := n.inflight[step.r];
    LiveTotalAdd(n.store, Record(p.id, p.id, p.spec, step.status, step.now, step.labels));
  }

  lemma SaveKeepsSums(n: Node, step: Step)
    requires PlacedShape(n) && SinceShape(n) && SumsExact(n) && Enabled(n, step) && step.Save?
    ensures SumsExact(Next(n, step))
  {
    var s, c, m := step.r, Cost(n.inflight[step.r]), Next(n, step);
    SaveRaises(n, step);
    forall r | r in m.inflight && m.inflight[r].Listed? ensures Balanced(LiveTotal(m.store), m.inflight[r].l) {
      assert SinceOk(n.inflight, n.ledger.next, n.inflight[r].l.since);
      BalanceSave(LiveTotal(n.store), LiveTotal(m.store), n.inflight[r].l, s, c);
    }
    if m.reconcile.Marking? {
      BalanceSave(LiveTotal(n.store), LiveTotal(m.store), SnapListing(n.reconcile), s, c);
    }
  }

  /** The listings of creates when a live record goes. */
  lemma LowerKeepsSums(n: Node, m: Node, cost: Res)
    requires SumsExact(n) && m.inflight == LoweredIn(n.inflight, cost)
    requires LiveTotal(n.store) == LiveTotal(m.store).Plus(cost) && cost.NonNegative()
    ensures forall r | r in m.inflight && m.inflight[r].Listed? :: Balanced(LiveTotal(m.store), m.inflight[r].l)
  {
    forall r | r in m.inflight && m.inflight[r].Listed? ensures Balanced(LiveTotal(m.store), m.inflight[r].l) {
      BalanceLose(LiveTotal(n.store), LiveTotal(m.store), n.inflight[r].l, cost);
    }
  }

  lemma LiveCostNonNegative(n: Node, id: string)
    requires StoreShape(n)
    ensures LiveCost(n.store, id).NonNegative()
  {}

  /** A record is deleted, or marked lost. */
  predicate Goes(n: Node, step: Step) { step.Drop? || (step.MarkLost? && step.id in n.store) }

  lemma GoingLowers(n: Node, step: Step) returns (cost: Res)
    requires StoreShape(n) && Enabled(n, step) && Goes(n, step)
    ensures var m := Next(n, step);
            && m.ledger == n.ledger && m.inflight == LoweredIn(n.inflight, cost) && cost.NonNegative()
            && LiveTotal(n.store) == LiveTotal(m.store).Plus(cost)
            && cost == LiveCost(n.store, step.id)
  {
    cost := LiveCost(n.store, step.id);
    LiveCostNonNegative(n, step.id);
    if step.Drop? { LiveTotalDrop(n.store, step.id); } else { LiveTotalLose(n.store, step.id); }
  }

  lemma DropListing(r: Reconcile, live: Res, less: Res, cost: Res)
    requires r.Marking? && Balanced(live, SnapListing(r)) && live == less.Plus(cost) && cost.NonNegative()
    ensures Balanced(less, SnapListing(r.(left := r.left.Plus(cost))))
  {
    BalanceLose(live, less, SnapListing(r), cost);
  }

  lemma DropKeepsSums(n: Node, id: string)
    requires StoreShape(n) && SumsExact(n) && Enabled(n, Drop(id))
    ensures SumsExact(Next(n, Drop(id)))
  {
    var m := Next(n, Drop(id));
    var c := GoingLowers(n, Drop(id));
    LowerKeepsSums(n, m, c);
    if m.reconcile.Marking? { DropListing(n.reconcile, LiveTotal(n.store), LiveTotal(m.store), c); }
  }

  lemma MarkLostKeepsSums(n: Node, id: string)
    requires StoreShape(n) && ReconcileShape(n) && SumsExact(n) && Enabled(n, MarkLost(id))
    ensures SumsExact(Next(n, MarkLost(id)))
  {
    var m := Next(n, MarkLost(id));
    assert ToMark(n, n.reconcile.snap, id);
    if id in n.store {
      var c := GoingLowers(n, MarkLost(id));
      LiveTotalLose(n.reconcile.snap, id);
      LowerKeepsSums(n, m, c);
      BalanceMark(LiveTotal(n.store), LiveTotal(m.store), SnapListing(n.reconcile), LiveTotal(m.reconcile.snap), c);
    }
  }

  /** The other steps neither raise nor lower the live total, and leave listings alone or take a new one. */
  predicate Level(step: Step) { !step.Save? && !step.Drop? && !step.MarkLost? }

  lemma LevelLeavesLive(n: Node, step: Step)
    requires CallsShape(n) && Enabled(n, step) && Unswept(n, step) && Level(step)
    ensures LiveCosts(Next(n, step).store) == LiveCosts(n.store)
  {
    var m := Next(n, step);
    if !step.MarkStatus? && !step.Bump? { assert m.store == n.store; }
  }

  lemma LevelLeavesListings(n: Node, step: Step)
    requires Enabled(n, step) && Level(step)
    ensures var m := Next(n, step);
            && (forall r | r in m.inflight && m.inflight[r].Listed? ::
                  || (r in n.inflight && m.inflight[r] == n.inflight[r])
                  || m.inflight[r].l == Listing(LiveTotal(n.store), map[], ZERO))
            && (m.reconcile.Marking? ==>
                  n.reconcile == m.reconcile || SnapListing(m.reconcile) == Listing(LiveTotal(n.store), map[], ZERO))
  {}

  lemma LevelKeepsSums(n: Node, step: Step)
    requires CallsShape(n) && SumsExact(n) && Enabled(n, step) && Unswept(n, step) && Level(step)
    ensures SumsExact(Next(n, step))
  {
    LevelLeavesLive(n, step);
    LevelLeavesListings(n, step);
    BalanceFresh(LiveTotal(n.store));
    LevelSums(n, Next(n, step), LiveTotal(n.store));
  }

  lemma LevelSums(n: Node, m: Node, live: Res)
    requires SumsExact(n) && live == LiveTotal(n.store) == LiveTotal(m.store) && Balanced(live, Listing(live, map[], ZERO))
    requires forall r | r in m.inflight && m.inflight[r].Listed? ::
               (r in n.inflight && m.inflight[r] == n.inflight[r]) || m.inflight[r].l == Listing(live, map[], ZERO)
    requires m.reconcile.Marking? ==> n.reconcile == m.reconcile || SnapListing(m.reconcile) == Listing(live, map[], ZERO)
    ensures SumsExact(m)
  {}

  /** Every open listing stays exact through every step that marks no swept record. */
  lemma SumsKept(n: Node, step: Step)
    requires StoreShape(n) && PlacedShape(n) && CallsShape(n) && ReconcileShape(n) && SinceShape(n) && SumsExact(n)
    requires Enabled(n, step) && Unswept(n, step)
    ensures SumsExact(Next(n, step))
  {
    if step.Save? {
      SaveKeepsSums(n, step);
    } else if step.Drop? {
      DropKeepsSums(n, step.id);
    } else if step.MarkLost? {
      MarkLostKeepsSums(n, step.id);
    } else {
      LevelKeepsSums(n, step);
    }
  }

  // ---- the budget ----

  /** Creates saved since the listing whose reservation is still open. */
  ghost function Kept(inflight: map<int, Phase>, since: map<int, Res>): map<int, Res> {
    map k | k in since && k in inflight :: since[k]
  }

  ghost function SavedCosts(inflight: map<int, Phase>): map<int, Res> {
    map r | r in inflight && !Unsaved?(inflight[r]) :: Cost(inflight[r])
  }

  lemma CostsParts(inflight: map<int, Phase>)
    ensures Parts(Costs(inflight), UnsavedCosts(inflight), SavedCosts(inflight))
  {}

  lemma SavedParts(inflight: map<int, Phase>, next: int, since: map<int, Res>)
    requires SinceOk(inflight, next, since)
    ensures Parts(SavedCosts(inflight), Early(inflight, since), Kept(inflight, since))
  {
    var saved, early, kept := SavedCosts(inflight), Early(inflight, since), Kept(inflight, since);
    forall k ensures k in saved <==> k in early || k in kept {
      if k in since { assert k in inflight ==> !Unsaved?(inflight[k]); }
    }
    assert saved.Keys == early.Keys + kept.Keys;
  }

  lemma SinceParts(inflight: map<int, Phase>, since: map<int, Res>)
    ensures Parts(since, since - inflight.Keys, Kept(inflight, since))
  {}

  /** The arithmetic of a base update: of what was saved since, `gone` has dropped its reservation and `kept` has
      not; `early` is counted twice; `left` is no longer there. */
  lemma RebaseArithmetic(live: Res, left: Res, unsaved: Res, early: Res, kept: Res, gone: Res, sum: Res)
    requires live.Plus(left) == sum.Plus(gone.Plus(kept))
    ensures var need, used := live.Plus(unsaved), sum.Plus(unsaved.Plus(early.Plus(kept)));
            need.AtMost(used) <==> gone.AtMost(early.Plus(left))
  {}

  /** Installing a listed sum as the base covers what is promised if and only if the listing is backed. */
  lemma RebaseIff(live: Res, inflight: map<int, Phase>, next: int, l: Listing)
    requires SinceOk(inflight, next, l.since) && Balanced(live, l)
    ensures var need := live.Plus(Total(UnsavedCosts(inflight)));
            var used := l.sum.Plus(Total(Costs(inflight)));
            need.AtMost(used) <==> Backed(inflight, l)
  {
    var since := l.since;
    CostsParts(inflight);
    SavedParts(inflight, next, since);
    SinceParts(inflight, since);
    TotalParts(Costs(inflight), UnsavedCosts(inflight), SavedCosts(inflight));
    TotalParts(SavedCosts(inflight), Early(inflight, since), Kept(inflight, since));
    TotalParts(since, since - inflight.Keys, Kept(inflight, since));
    RebaseArithmetic(live, l.left, Total(UnsavedCosts(inflight)), Total(Early(inflight, since)),
                     Total(Kept(inflight, since)), Total(since - inflight.Keys), l.sum);
  }

  lemma UnsavedPut(inflight: map<int, Phase>, r: int, p: Phase)
    requires r !in inflight && Unsaved?(p)
    ensures Total(UnsavedCosts(inflight[r := p])) == Total(UnsavedCosts(inflight)).Plus(Cost(p))
  {
    TotalPut(UnsavedCosts(inflight), r, Cost(p));
    assert UnsavedCosts(inflight[r := p]) == UnsavedCosts(inflight)[r := Cost(p)];
  }

  /** A create stops being unsaved, by giving up or by being saved. */
  lemma UnsavedDrop(inflight: map<int, Phase>, r: int)
    requires r in inflight && Unsaved?(inflight[r])
    ensures Total(UnsavedCosts(inflight - {r})).Plus(Cost(inflight[r])) == Total(UnsavedCosts(inflight))
    ensures UnsavedCosts(SavedIn(inflight, r)) == UnsavedCosts(inflight - {r})
  {
    TotalTake(UnsavedCosts(inflight), r);
    assert UnsavedCosts(inflight) - {r} == UnsavedCosts(inflight - {r});
  }

  lemma Ease(need: Res, less: Res, used: Res, limits: Res)
    requires less.AtMost(need) && need.AtMost(used) && need.Within(limits)
    ensures less.AtMost(used) && less.Within(limits)
  {}

  /** With the ledger and the unsaved reservations as they were, a live total that does not rise is fine. */
  lemma BudgetEases(n: Node, m: Node)
    requires Budget(n) && m.ledger == n.ledger && UnsavedCosts(m.inflight) == UnsavedCosts(n.inflight)
    requires LiveTotal(m.store).AtMost(LiveTotal(n.store))
    ensures Budget(m)
  {
    Ease(Need(n), Need(m), n.ledger.Used(), n.ledger.limits);
  }

  lemma AdmitArithmetic(need: Res, used: Res, cost: Res, limits: Res)
    requires need.AtMost(used) && used.Plus(cost).Within(limits)
    ensures need.Plus(cost).AtMost(used.Plus(cost)) && need.Plus(cost).Within(limits)
  {}

  lemma ReserveKeepsBudget(n: Node, spec: Spec)
    requires LedgerShape(n) && Budget(n) && n.ledger.Admits(CostOf(spec))
    ensures Budget(n.(ledger := n.ledger.Reserved(CostOf(spec)),
                      inflight := n.inflight[n.ledger.next := Reserved(spec)]))
  {
    var cost, live, unsaved := CostOf(spec), LiveTotal(n.store), Total(UnsavedCosts(n.inflight));
    UnsavedPut(n.inflight, n.ledger.next, Reserved(spec));
    LedgerConserves(n.ledger, n.ledger.next, cost);
    AdmitArithmetic(Need(n), n.ledger.Used(), cost, n.ledger.limits);
    PlusGroups(live, unsaved, cost);
  }

  lemma GiveUpArithmetic(live: Res, unsaved: Res, base: Res, resv: Res, cost: Res, limits: Res)
    requires live.Plus(unsaved.Plus(cost)).AtMost(base.Plus(cost.Plus(resv)))
    requires live.Plus(unsaved.Plus(cost)).Within(limits) && cost.NonNegative()
    ensures live.Plus(unsaved).AtMost(base.Plus(resv)) && live.Plus(unsaved).Within(limits)
  {}

  lemma GiveUpKeepsBudget(n: Node, r: int)
    requires LedgerShape(n) && Budget(n) && Enabled(n, GiveUp(r))
    ensures Budget(Next(n, GiveUp(r)))
  {
    UnsavedDrop(n.inflight, r);
    TotalTake(n.ledger.resv, r);
    GiveUpArithmetic(LiveTotal(n.store), Total(UnsavedCosts(n.inflight - {r})), n.ledger.base,
                     Total(n.ledger.resv - {r}), Cost(n.inflight[r]), n.ledger.limits);
  }

  lemma SaveKeepsBudget(n: Node, step: Step)
    requires PlacedShape(n) && Budget(n) && Enabled(n, step) && step.Save?
    ensures Budget(Next(n, step))
  {
    UnsavedDrop(n.inflight, step.r);
    SaveRaises(n, step);
    PlusGroups(LiveTotal(n.store), Total(UnsavedCosts(n.inflight - {step.r})), Cost(n.inflight[step.r]));
    assert Need(Next(n, step)) == Need(n);
  }

  lemma DropSaved(n: Node, r: int)
    requires LedgerShape(n) && SinceShape(n) && r in n.inflight && !Unsaved?(n.inflight[r])
    ensures UnsavedCosts(n.inflight - {r}) == UnsavedCosts(n.inflight)
    ensures n.ledger.resv - {r} == Costs(n.inflight - {r})
    ensures n.inflight[r].Listed? ==> SinceOk(n.inflight - {r}, n.ledger.next, n.inflight[r].l.since)
  {}

  /** A commit that installs its listed sum keeps what is promised covered if and only if it is backed. */
  lemma CommitIff(n: Node, r: int)
    requires LedgerShape(n) && SinceShape(n) && SumsExact(n) && Enabled(n, CommitBase(r))
    ensures var m := Next(n, CommitBase(r));
            Need(m) == Need(n) && (Need(m).AtMost(m.ledger.Used()) <==> Orderly(n, CommitBase(r)))
  {
    DropSaved(n, r);
    RebaseIff(LiveTotal(n.store), n.inflight - {r}, n.ledger.next, n.inflight[r].l);
  }

  /** The same for the base update of a reconcile. */
  lemma SetBaseIff(n: Node)
    requires LedgerShape(n) && SinceShape(n) && SumsExact(n) && Enabled(n, SetBase)
    ensures var m := Next(n, SetBase);
            Need(m) == Need(n) && (Need(m).AtMost(m.ledger.Used()) <==> Orderly(n, SetBase))
  {
    RebaseIff(LiveTotal(n.store), n.inflight, n.ledger.next, SnapListing(n.reconcile));
  }

  lemma FallbackKeepsBudget(n: Node, r: int)
    requires LedgerShape(n) && SinceShape(n) && Budget(n) && Enabled(n, CommitFallback(r))
    ensures Budget(Next(n, CommitFallback(r)))
  {
    DropSaved(n, r);
    LedgerConserves(n.ledger, r, ZERO);
  }

  /** Steps that change neither the ledger nor what is promised. */
  predicate Pass(step: Step) {
    || step.BackendCreate? || step.ListForCommit? || step.CallBackend? || step.MarkStatus? || step.Bump?
    || step.Vanish? || step.ListBackend? || step.ListRecords? || step.Abandon?
  }

  lemma PassLeavesCosts(n: Node, step: Step)
    requires Enabled(n, step) && Pass(step)
    ensures Next(n, step).ledger == n.ledger && UnsavedCosts(Next(n, step).inflight) == UnsavedCosts(n.inflight)
  {}

  lemma PassKeepsBudget(n: Node, step: Step)
    requires CallsShape(n) && Budget(n) && Enabled(n, step) && Unswept(n, step) && Pass(step)
    ensures Budget(Next(n, step))
  {
    PassLeavesCosts(n, step);
    LevelLeavesLive(n, step);
  }

  lemma LowerKeepsBudget(n: Node, m: Node, cost: Res)
    requires Budget(n) && m.ledger == n.ledger && m.inflight == LoweredIn(n.inflight, cost)
    requires LiveTotal(n.store) == LiveTotal(m.store).Plus(cost) && cost.NonNegative()
    ensures Budget(m)
  {
    LoweredCosts(n.inflight, cost);
    Grows(LiveTotal(m.store), cost);
    BudgetEases(n, m);
  }

  lemma Grows(x: Res, cost: Res)
    requires cost.NonNegative()
    ensures x.AtMost(x.Plus(cost))
  {}

  lemma GoingKeepsBudget(n: Node, step: Step)
    requires StoreShape(n) && Budget(n) && Enabled(n, step) && Goes(n, step)
    ensures Budget(Next(n, step))
  {
    var c := GoingLowers(n, step);
    LowerKeepsBudget(n, Next(n, step), c);
  }

  lemma BudgetKept(n: Node, step: Step)
    requires Inv(n) && Enabled(n, step) && Orderly(n, step)
    ensures Budget(Next(n, step))
  {
    if Pass(step) {
      PassKeepsBudget(n, step);
    } else {
      match step {
        case Admit(request) =>
          var spec := EffectiveSpec(request, n.defaults);
          if n.ledger.Admits(CostOf(spec)) { ReserveKeepsBudget(n, spec); }
        case GiveUp(r) => GiveUpKeepsBudget(n, r);
        case Save(_, _, _, _) => SaveKeepsBudget(n, step);
        case CommitBase(r) => CommitIff(n, r);
        case CommitFallback(r) => FallbackKeepsBudget(n, r);
        case Drop(_) => GoingKeepsBudget(n, step);
        case MarkLost(id) => if id in n.store { GoingKeepsBudget(n, step); }
        case SetBase => SetBaseIff(n);
      }
    }
  }

  lemma StepKeepsInv(n: Node, step: Step)
    requires Inv(n) && Enabled(n, step) && Orderly(n, step)
    ensures Inv(Next(n, step))
  {
    LedgerShapeKept(n, step);
    StoreShapeKept(n, step);
    PlacedShapeKept(n, step);
    LostAbsentKept(n, step);
    CallsShapeKept(n, step);
    ReconcileShapeKept(n, step);
    SinceShapeKept(n, step);
    SumsKept(n, step);
    BudgetKept(n, step);
  }

  // ---- the theorems ----

  /** A reconciled node with nothing in flight and its load within the limits. */
  ghost predicate Reconciled?(n: Node) {
    && n.inflight == map[] && n.ledger.resv == map[] && n.reconcile.Idle? && n.calls == map[]
    && Convertible(n.defaults) && StoreShape(n) && LostAbsent(n)
    && n.ledger.base == LiveTotal(n.store)
    && n.ledger.base.Within(n.ledger.limits)
  }

  lemma ReconciledInv(n: Node)
    requires Reconciled?(n)
    ensures Inv(n)
  {
    assert UnsavedCosts(n.inflight) == map[];
    assert Costs(n.inflight) == map[];
    PlusLaws(LiveTotal(n.store), ZERO, ZERO);
  }

  lemma {:induction false} InvForever(n: Node, steps: seq<Step>, m: Node)
    requires Inv(n) && Leads(n, steps, m) && OrderlyRun(n, steps)
    ensures Inv(m) && m.ledger.limits == n.ledger.limits
    decreases |steps|
  {
    if steps != [] {
      StepKeepsInv(n, steps[0]);
      InvForever(Next(n, steps[0]), steps[1..], m);
    }
  }

  /** Admission never overcommits: in every orderly interleaving live records and open promises
      together stay within what the tracker counts and within every limit. */
  lemma {:induction false} NeverOvercommits(n: Node, steps: seq<Step>, m: Node)
    requires Reconciled?(n) && Leads(n, steps, m) && OrderlyRun(n, steps)
    ensures Need(m).AtMost(m.ledger.Used())
    ensures Need(m).Within(n.ledger.limits)
    ensures LiveTotal(m.store).Within(n.ledger.limits)
  {
    ReconciledInv(n);
    InvForever(n, steps, m);
    assert AllNonNegative(UnsavedCosts(m.inflight));
    TotalNonNegative(UnsavedCosts(m.inflight));
    LiveWithin(LiveTotal(m.store), Total(UnsavedCosts(m.inflight)), n.ledger.limits);
  }

  lemma LiveWithin(live: Res, unsaved: Res, limits: Res)
    requires live.Plus(unsaved).Within(limits) && unsaved.NonNegative()
    ensures live.Within(limits)
  {}

  /** What the live records ask for, and the requests that are not records yet: cores, KB and GB. */
  ghost function AskedLive(store: Store): map<string, Res> {
    map id | id in store && store[id].status != Lost ::
      Res(store[id].spec.cpus as real, store[id].spec.memoryBytes as real / 1024.0, store[id].spec.diskGB)
  }

  ghost function AskedOpen(inflight: map<int, Phase>): map<int, Res> {
    map r | r in inflight && (inflight[r].Reserved? || inflight[r].Placed?) ::
      Res(inflight[r].spec.cpus as real, inflight[r].spec.memoryBytes as real / 1024.0, inflight[r].spec.diskGB)
  }

  lemma OpenAsked(inflight: map<int, Phase>)
    ensures AskedOpen(inflight) == UnsavedCosts(inflight)
  {
    var a, b := AskedOpen(inflight), UnsavedCosts(inflight);
    forall r ensures r in a <==> r in b {
      if r in inflight { assert Unsaved?(inflight[r]) <==> inflight[r].Reserved? || inflight[r].Placed?; }
    }
    forall r | r in a ensures a[r] == b[r] {
      assert b[r] == CostOf(inflight[r].spec);
    }
  }

  lemma LiveAsked(store: Store)
    ensures AskedLive(store) == LiveCosts(store)
  {}

  /** The same per resource, in what the requests ask for: cores, memory in KB and disk in GB each stay
      within their limit, unless that is zero. */
  lemma {:induction false} LimitsHold(n: Node, steps: seq<Step>, m: Node)
    requires Reconciled?(n) && Leads(n, steps, m) && OrderlyRun(n, steps)
    ensures var live, open, limits := AskedLive(m.store), AskedOpen(m.inflight), n.ledger.limits;
            && (limits.cpu != 0.0 ==> Sum(Cpus(live)) + Sum(Cpus(open)) <= limits.cpu)
            && (limits.mem != 0.0 ==> Sum(Mems(live)) + Sum(Mems(open)) <= limits.mem)
            && (limits.disk != 0.0 ==> Sum(Disks(live)) + Sum(Disks(open)) <= limits.disk)
  {
    NeverOvercommits(n, steps, m);
    LiveAsked(m.store);
    OpenAsked(m.inflight);
    WithinEach(AskedLive(m.store), AskedOpen(m.inflight), n.ledger.limits);
  }

  /** What is promised is covered in every state the run goes through. */
  ghost predicate CoveredRun(n: Node, steps: seq<Step>)
    decreases |steps|
  {
    && Need(n).AtMost(n.ledger.Used())
    && (steps == [] || (Enabled(n, steps[0]) && CoveredRun(Next(n, steps[0]), steps[1..])))
  }

  /** Over whole runs: among heedful runs, those that keep every promise covered at every moment are exactly
      the orderly ones, in which every base update is backed. */
  lemma {:induction false} CoveredIffOrderly(n: Node, steps: seq<Step>, m: Node)
    requires Inv(n) && Leads(n, steps, m) && HeedfulRun(n, steps)
    ensures CoveredRun(n, steps) <==> OrderlyRun(n, steps)
    decreases |steps|
  {
    if steps != [] {
      var next := Next(n, steps[0]);
      if Orderly(n, steps[0]) {
        StepKeepsInv(n, steps[0]);
        CoveredIffOrderly(next, steps[1..], m);
      } else {
        UnbackedUncovers(n, steps[0]);
        assert !CoveredRun(next, steps[1..]);
      }
    }
  }

  lemma UnbackedUncovers(n: Node, step: Step)
    requires Inv(n) && Enabled(n, step) && Heedful(n, step) && !Orderly(n, step)
    ensures !Need(Next(n, step)).AtMost(Next(n, step).ledger.Used())
  {
    if step.CommitBase? { CommitIff(n, step.r); } else { SetBaseIff(n); }
  }

  lemma PositiveTotal(m: map<int, Res>, k: int)
    requires k in m && m[k].mem > 0.0 && AllNonNegative(m)
    ensures !Total(m).AtMost(ZERO)
  {
    TotalTake(m, k);
    assert AllNonNegative(m - {k});
    TotalNonNegative(m - {k});
    TooMuch(m[k], Total(m - {k}));
  }

  lemma TooMuch(c: Res, rest: Res)
    requires c.mem > 0.0 && rest.NonNegative()
    ensures !c.Plus(rest).AtMost(ZERO)
  {}

  /** In the plain case, with no reservation counted twice and nothing gone, a base update is backed exactly
      when no create saved since its listing has dropped its reservation. */
  lemma BackedIffNoneDropped(inflight: map<int, Phase>, l: Listing)
    requires Early(inflight, l.since) == map[] && l.left == ZERO
    requires forall k | k in l.since :: l.since[k].NonNegative() && l.since[k].mem > 0.0
    ensures Backed(inflight, l) <==> l.since.Keys <= inflight.Keys
  {
    var dropped, out := l.since - inflight.Keys, l.since.Keys - inflight.Keys;
    PlusLaws(ZERO, ZERO, ZERO);
    assert Total(Early(inflight, l.since)).Plus(l.left) == ZERO;
    if out == {} {
      assert dropped == map[];
      assert l.since.Keys <= inflight.Keys by {
        forall k | k in l.since.Keys ensures k in inflight.Keys { assert k !in out; }
      }
    } else {
      HasMember(out);
      var k :| k in out;
      PositiveTotal(dropped, k);
    }
  }

  /** A listing whose creates saved since are all open is backed in any case. */
  lemma NoneDroppedIsBacked(inflight: map<int, Phase>, l: Listing)
    requires l.since.Keys <= inflight.Keys && AllNonNegative(Costs(inflight)) && l.left.NonNegative()
    ensures Backed(inflight, l)
  {
    assert l.since - inflight.Keys == map[];
    assert AllNonNegative(Early(inflight, l.since)) by {
      forall q | q in Early(inflight, l.since) ensures Early(inflight, l.since)[q].NonNegative() {
        assert Costs(inflight)[q].NonNegative();
      }
    }
    TotalNonNegative(Early(inflight, l.since));
  }

  /** The id was used, its sandbox is gone, and its record is lost or deleted. */
  ghost predicate Dead(n: Node, id: string) {
    && id in n.issued && id !in n.backend
    && (id in n.store ==> n.store[id].status == Lost)
    && forall r | r in n.inflight && n.inflight[r].Placed? :: n.inflight[r].id != id
  }

  lemma DeadStays(n: Node, step: Step, id: string)
    requires StoreShape(n) && CallsShape(n) && Enabled(n, step) && Unswept(n, step) && Dead(n, id)
    ensures Dead(Next(n, step), id)
  {
    var m := Next(n, step);
    assert id in m.store ==> id in n.store;
    assert id !in m.backend;
  }

  /** Lost is terminal: in no orderly run does a start, stop, activity, reconcile or create bring a lost or
      deleted sandbox back, and its cost never enters the live total again. (A base update may still bring in
      a sum listed before the loss, until the next one.) */
  lemma {:induction false} LostIsTerminal(n: Node, steps: seq<Step>, m: Node, id: string)
    requires Inv(n) && Leads(n, steps, m) && OrderlyRun(n, steps) && Dead(n, id)
    ensures Dead(m, id) && id !in LiveCosts(m.store)
    decreases |steps|
  {
    if steps != [] {
      StepKeepsInv(n, steps[0]);
      DeadStays(n, steps[0], id);
      LostIsTerminal(Next(n, steps[0]), steps[1..], m, id);
    }
  }

  /** In every reachable state a lost record is dead in this sense, and so is a dropped one. */
  lemma LostAndDeletedAreDead(n: Node, id: string)
    requires Inv(n) && id in n.store
    ensures n.store[id].status == Lost ==> Dead(n, id)
    ensures Enabled(n, Drop(id)) ==> Dead(Next(n, Drop(id)), id)
  {}
}
