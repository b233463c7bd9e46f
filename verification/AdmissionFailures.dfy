/** Runs of the code that leave the discipline of `Admission`: a commit whose listing is out of date, a
    reconcile whose backend listing is, and a start that a sweep overtakes. */
module AdmissionFailures {
  import opened Common
  import opened Resources
  import opened CapacityTracker
  import opened SandboxManager
  import opened Admission

  /** Some run of the code leads from `n` to `m`. */
  ghost predicate Reaches(n: Node, m: Node) { exists steps :: Leads(n, steps, m) }

  lemma {:induction false} Chain(n: Node, a: seq<Step>, p: Node, b: seq<Step>, m: Node)
    requires Leads(n, a, p) && Leads(p, b, m)
    ensures Leads(n, a + b, m)
    decreases |a|
  {
    if a == [] {
      assert a + b == b;
    } else {
      assert (a + b)[1..] == a[1..] + b;
      Chain(Next(n, a[0]), a[1..], p, b, m);
    }
  }

  lemma AndThen(n: Node, p: Node, m: Node)
    requires Reaches(n, p) && Reaches(p, m)
    ensures Reaches(n, m)
  {
    var a :| Leads(n, a, p);
    var b :| Leads(p, b, m);
    Chain(n, a, p, b, m);
  }

  lemma OneStep(n: Node, step: Step, m: Node)
    requires To(n, step, m)
    ensures Reaches(n, m)
  {
    assert Leads(m, [step][1..], m);
    assert Leads(n, [step], m);
  }

  lemma TwoSteps(n: Node, s1: Step, n1: Node, s2: Step, m: Node)
    requires To(n, s1, n1) && To(n1, s2, m)
    ensures Reaches(n, m)
  {
    OneStep(n, s1, n1);
    OneStep(n1, s2, m);
    AndThen(n, n1, m);
  }

  lemma ThreeSteps(n: Node, s1: Step, n1: Node, s2: Step, n2: Node, s3: Step, m: Node)
    requires To(n, s1, n1) && To(n1, s2, n2) && To(n2, s3, m)
    ensures Reaches(n, m)
  {
    TwoSteps(n, s1, n1, s2, n2);
    OneStep(n2, s3, m);
    AndThen(n, n2, m);
  }

  /** `m` is `n` after one whole create up to its listing, with other listings taking note. */
  ghost predicate Created(n: Node, m: Node, id: string, spec: Spec) {
    var r, c := n.ledger.next, CostOf(spec);
    && m.store == n.store[id := Record(id, id, spec, Running, 0, map[])]
    && m.backend == n.backend + {id} && m.issued == n.issued + {id}
    && m.ledger == n.ledger.Reserved(c) && m.calls == n.calls && m.defaults == n.defaults
    && m.inflight == (map q | q in n.inflight :: Noted(n.inflight[q], r, c))[r := Listed(c, Listing(LiveTotal(m.store), map[], ZERO))]
    && m.reconcile == if n.reconcile.Heard? then n.reconcile.(born := n.reconcile.born + {id}) else n.reconcile
  }

  /** A request that leaves nothing to fill in and finds room, for an id not used yet. */
  ghost predicate Welcome(n: Node, id: string, spec: Spec) {
    && EffectiveSpec(spec, n.defaults) == spec && n.ledger.Admits(CostOf(spec))
    && id !in n.issued && n.ledger.next !in n.inflight && !n.reconcile.Marking?
  }

  lemma CreateStates(n: Node, id: string, spec: Spec) returns (n1: Node, n2: Node)
    requires Welcome(n, id, spec)
    ensures var r := n.ledger.next;
            && To(n, Admit(spec), n1) && To(n1, BackendCreate(r, id), n2)
            && n2.inflight == n.inflight[r := Placed(spec, id)] && n2.ledger == n.ledger.Reserved(CostOf(spec))
            && n2.backend == n.backend + {id} && n2.issued == n.issued + {id} && n2.store == n.store
            && n2.calls == n.calls && n2.defaults == n.defaults
            && n2.reconcile == if n.reconcile.Heard? then n.reconcile.(born := n.reconcile.born + {id}) else n.reconcile
  {
    n1 := Next(n, Admit(spec));
    n2 := Next(n1, BackendCreate(n.ledger.next, id));
  }

  lemma SaveStates(n: Node, r: int, id: string, spec: Spec) returns (n1: Node, m: Node)
    requires r in n.inflight && n.inflight[r] == Placed(spec, id) && !n.reconcile.Marking?
    ensures var c := CostOf(spec);
            && To(n, Save(r, Running, map[], 0), n1) && To(n1, ListForCommit(r), m)
            && m.store == n.store[id := Record(id, id, spec, Running, 0, map[])]
            && m.inflight == (map q | q in n.inflight - {r} :: Noted(n.inflight[q], r, c))[r := Listed(c, Listing(LiveTotal(m.store), map[], ZERO))]
            && m.backend == n.backend && m.issued == n.issued && m.ledger == n.ledger && m.calls == n.calls
            && m.defaults == n.defaults && m.reconcile == n.reconcile
  {
    n1 := Next(n, Save(r, Running, map[], 0));
    m := Next(n1, ListForCommit(r));
  }

  lemma CreateFacts(n: Node, id: string, spec: Spec) returns (n1: Node, n2: Node, n3: Node, m: Node)
    requires Welcome(n, id, spec)
    ensures var r := n.ledger.next;
            && To(n, Admit(spec), n1) && To(n1, BackendCreate(r, id), n2)
            && To(n2, Save(r, Running, map[], 0), n3) && To(n3, ListForCommit(r), m)
    ensures Created(n, m, id, spec)
  {
    n1, n2 := CreateStates(n, id, spec);
    n3, m := SaveStates(n2, n.ledger.next, id, spec);
    assert n2.inflight - {n.ledger.next} == n.inflight;
  }

  lemma CreateRun(n: Node, id: string, spec: Spec) returns (m: Node)
    requires Welcome(n, id, spec)
    ensures Reaches(n, m) && Created(n, m, id, spec)
  {
    var r := n.ledger.next;
    var n1, n2, n3;
    n1, n2, n3, m := CreateFacts(n, id, spec);
    TwoSteps(n, Admit(spec), n1, BackendCreate(r, id), n2);
    TwoSteps(n2, Save(r, Running, map[], 0), n3, ListForCommit(r), m);
    AndThen(n, n2, m);
  }

  /** An empty node that never did anything, with room for two sandboxes of a kind. */
  ghost predicate RoomForTwoOf(n: Node, spec: Spec) {
    && Reconciled?(n) && n.store == map[] && n.issued == {} && n.ledger.next == 0
    && spec.cpus > 0 && spec.memoryBytes > 0 && spec.diskGB > 0.0
    && n.ledger.limits == Res(2.0 * spec.cpus as real, 0.0, 0.0)
  }

  lemma EmptyNodeHasRoom(n: Node, spec: Spec)
    requires RoomForTwoOf(n, spec)
    ensures LiveTotal(n.store) == ZERO
    ensures n.ledger.Admits(CostOf(spec)) && n.ledger.Reserved(CostOf(spec)).Admits(CostOf(spec))
  {
    assert LiveTotal(n.store) == ZERO by { assert LiveCosts(n.store) == map[]; }
    RoomForTwo(n.ledger, CostOf(spec));
  }

  lemma OneMore(n: Node, m: Node, id: string, spec: Spec)
    requires Created(n, m, id, spec) && id !in n.store
    ensures LiveTotal(m.store) == LiveTotal(n.store).Plus(CostOf(spec))
  {
    LiveTotalAdd(n.store, Record(id, id, spec, Running, 0, map[]));
  }

  /** Two creates of one cost: the first listed before the second was saved, the second after. */
  function StaleAndFresh(c: Res, sum: Res, live: Res): map<int, Phase> {
    map[0 := Listed(c, Listing(sum, map[1 := c], ZERO)), 1 := Listed(c, Listing(live, map[], ZERO))]
  }

  lemma FirstCreate(n: Node, spec: Spec) returns (m: Node)
    requires n.store == map[] && n.inflight == map[] && n.ledger.next == 0 && Welcome(n, "a", spec)
    ensures Reaches(n, m) && Created(n, m, "a", spec)
    ensures LiveTotal(m.store) == ZERO.Plus(CostOf(spec))
    ensures m.inflight == map[0 := Listed(CostOf(spec), Listing(ZERO.Plus(CostOf(spec)), map[], ZERO))]
  {
    assert LiveCosts(n.store) == map[];
    m := CreateRun(n, "a", spec);
    OneMore(n, m, "a", spec);
  }

  lemma SecondCreate(n: Node, spec: Spec) returns (m: Node)
    requires n.inflight == map[0 := Listed(CostOf(spec), Listing(ZERO.Plus(CostOf(spec)), map[], ZERO))] && n.ledger.next == 1
    requires LiveTotal(n.store) == ZERO.Plus(CostOf(spec)) && "b" !in n.store && Welcome(n, "b", spec)
    ensures Reaches(n, m) && m.ledger == n.ledger.Reserved(CostOf(spec))
    ensures var c := CostOf(spec);
            && m.inflight == StaleAndFresh(c, ZERO.Plus(c), LiveTotal(m.store))
            && LiveTotal(m.store) == ZERO.Plus(c).Plus(c)
  {
    m := CreateRun(n, "b", spec);
    OneMore(n, m, "b", spec);
    SecondInflight(n, m, CostOf(spec), spec);
  }

  lemma SecondInflight(n: Node, m: Node, c: Res, spec: Spec)
    requires Created(n, m, "b", spec) && c == CostOf(spec)
    requires n.inflight == map[0 := Listed(c, Listing(ZERO.Plus(c), map[], ZERO))] && n.ledger.next == 1
    ensures m.inflight == StaleAndFresh(c, ZERO.Plus(c), LiveTotal(m.store))
  {
    assert map[][1 := c] == map[1 := c];
    assert Noted(n.inflight[0], 1, c) == Listed(c, Listing(ZERO.Plus(c), map[1 := c], ZERO));
  }

  /** Two creates up to their listings, the second one's save after the first one's listing. */
  lemma TwoCreates(n: Node, spec: Spec) returns (m: Node)
    requires RoomForTwoOf(n, spec)
    ensures Reaches(n, m)
    ensures var c := CostOf(spec);
            && m.inflight == StaleAndFresh(c, ZERO.Plus(c), LiveTotal(m.store))
            && m.ledger.resv.Keys == {0, 1} && m.ledger.limits == n.ledger.limits
            && LiveTotal(m.store) == ZERO.Plus(c).Plus(c)
  {
    EmptyNodeHasRoom(n, spec);
    var n1 := FirstCreate(n, spec);
    m := SecondCreate(n1, spec);
    AndThen(n, n1, m);
  }

  lemma BareNeed(n: Node)
    requires n.inflight == map[] && n.ledger.resv == map[]
    ensures Need(n) == LiveTotal(n.store).Plus(ZERO) && n.ledger.Used() == n.ledger.base.Plus(ZERO)
  {
    assert UnsavedCosts(n.inflight) == map[];
    assert Total(UnsavedCosts(n.inflight)) == ZERO && Total(n.ledger.resv) == ZERO;
  }

  lemma TwoCommits(n: Node, c: Res, sum: Res) returns (n1: Node, m: Node)
    requires n.inflight == StaleAndFresh(c, sum, LiveTotal(n.store))
    requires n.ledger.resv.Keys == {0, 1}
    ensures To(n, CommitBase(1), n1) && To(n1, CommitBase(0), m)
    ensures Need(m) == LiveTotal(n.store).Plus(ZERO) && m.ledger.Used() == sum.Plus(ZERO) && m.ledger.limits == n.ledger.limits
  {
    n1 := Next(n, CommitBase(1));
    m := Next(n1, CommitBase(0));
    assert m.ledger.resv == map[] && m.inflight == map[];
    BareNeed(m);
  }

  /** The counter-run for commits. The second create commits before the first, which then applies a sum
      listed before the second was saved: the tracker forgets a live record and admits a third sandbox. */
  lemma StaleCommitOvercommits(n: Node, spec: Spec) returns (listed: Node, half: Node, m: Node)
    requires RoomForTwoOf(n, spec)
    ensures Reaches(n, listed) && To(listed, CommitBase(1), half) && To(half, CommitBase(0), m)
    ensures listed.inflight == StaleAndFresh(CostOf(spec), ZERO.Plus(CostOf(spec)), LiveTotal(listed.store))
    ensures !Need(m).AtMost(m.ledger.Used())
    ensures m.ledger.Admits(CostOf(spec)) && !Need(m).Plus(CostOf(spec)).Within(m.ledger.limits)
  {
    listed := TwoCreates(n, spec);
    half, m := TwoCommits(listed, CostOf(spec), ZERO.Plus(CostOf(spec)));
    StaleArithmetic(CostOf(spec), n.ledger.limits);
  }

  lemma StaleArithmetic(c: Res, limits: Res)
    requires c.cpu > 0.0 && limits == Res(2.0 * c.cpu, 0.0, 0.0)
    ensures var need, used := ZERO.Plus(c).Plus(c).Plus(ZERO), ZERO.Plus(c).Plus(ZERO);
            && !need.AtMost(used) && used.Plus(c).Within(limits) && !need.Plus(c).Within(limits)
  {}

  /** One recorded sandbox, created after the backend listing of a reconcile under way. */
  ghost predicate BornLate(n: Node, rec: Record) {
    && rec.backendName == rec.id && rec.status == Running
    && n.store == map[rec.id := rec] && n.backend == {rec.id} && n.reconcile == Heard({}, {rec.id})
    && n.inflight == map[] && n.ledger.resv == map[] && n.calls == map[]
  }

  /** The reconcile takes the sandbox for missing: its record is lost while it runs. */
  lemma SweptAlive(n: Node, rec: Record) returns (m: Node)
    requires BornLate(n, rec)
    ensures Reaches(n, m)
    ensures var lost := map[rec.id := rec.(status := Lost)];
            m == n.(store := lost, reconcile := Marking(lost, {}, map[], ZERO)) && rec.id in m.backend
  {
    var n1 := Next(n, ListRecords);
    assert Missing(n.store, {}) == {rec.id};
    m := Next(n1, MarkLost(rec.id));
    TwoSteps(n, ListRecords, n1, MarkLost(rec.id), m);
    assert m.calls == map[] && m.store == map[rec.id := rec.(status := Lost)] && m.reconcile.todo == {};
  }

  /** An ordinary start then brings the lost record back, beyond the base just set. */
  lemma StartedAgain(n: Node, rec: Record) returns (n1: Node, n2: Node, m: Node)
    requires rec.status == Lost && n.store == map[rec.id := rec] && n.backend == {rec.id} && n.calls == map[]
    requires n.reconcile == Marking(n.store, {}, map[], ZERO) && n.inflight == map[] && n.ledger.resv == map[]
    ensures To(n, SetBase, n1) && To(n1, CallBackend(0, rec.id, Running), n2) && To(n2, MarkStatus(0), m)
    ensures m.store == map[rec.id := rec.(status := Running)]
    ensures m.inflight == map[] && m.ledger.resv == map[] && m.ledger.base == ZERO
  {
    assert LiveCosts(n.store) == map[];
    n1 := Next(n, SetBase);
    n2 := Next(n1, CallBackend(0, rec.id, Running));
    m := Next(n2, MarkStatus(0));
  }

  lemma OverBase(n: Node, rec: Record)
    requires rec.status == Running && n.store == map[rec.id := rec] && CostOf(rec.spec).cpu > 0.0
    requires n.inflight == map[] && n.ledger.resv == map[] && n.ledger.base == ZERO
    ensures !Need(n).AtMost(n.ledger.Used())
  {
    BareNeed(n);
    LiveTotalAdd(map[], rec);
    assert LiveCosts(map[]) == map[] && n.store == map[][rec.id := rec];
  }

  lemma BornLateRun(n: Node, spec: Spec) returns (m: Node)
    requires RoomForTwoOf(n, spec)
    ensures Reaches(n, m) && BornLate(m, Record("a", "a", spec, Running, 0, map[]))
  {
    EmptyNodeHasRoom(n, spec);
    assert n.backend == {};
    var n1 := Next(n, ListBackend);
    var n2 := FirstCreate(n1, spec);
    m := Next(n2, CommitBase(0));
    assert m.inflight == map[] && m.ledger.resv == map[];
    OneStep(n, ListBackend, n1);
    OneStep(n2, CommitBase(0), m);
    AndThen(n, n1, n2);
    AndThen(n, n2, m);
  }

  /** The counter-run for reconciles. Its backend listing comes first, as in the code; a create that runs
      to completion before the record listing is then marked lost while alive, and one ordinary start
      makes it running again: lost is not terminal, and the live total exceeds the base. */
  lemma StaleBackendListRevives(n: Node, spec: Spec) returns (born: Node, lost: Node, based: Node, called: Node, m: Node)
    requires RoomForTwoOf(n, spec)
    ensures Reaches(n, born) && Reaches(born, lost)
    ensures To(lost, SetBase, based) && To(based, CallBackend(0, "a", Running), called) && To(called, MarkStatus(0), m)
    ensures BornLate(born, Record("a", "a", spec, Running, 0, map[]))
    ensures "a" in lost.store && lost.store["a"].status == Lost && "a" in lost.backend
    ensures "a" in m.store && m.store["a"].status == Running && !Need(m).AtMost(m.ledger.Used())
  {
    var rec := Record("a", "a", spec, Running, 0, map[]);
    born := BornLateRun(n, spec);
    lost := SweptAlive(born, rec);
    based, called, m := StartedAgain(lost, rec.(status := Lost));
    OverBase(m, rec);
  }

  /** The counter-run for starts. The backend accepts the start, the sandbox vanishes, a whole sweep marks
      the record lost, and the start's own mark brings it back. */
  lemma InterleavedStartRevives(n: Node, id: string) returns (called: Node, lost: Node, m: Node)
    requires Reconciled?(n) && id in n.store && n.store[id].status == Running && id in n.backend
    ensures Reaches(n, called) && Reaches(called, lost) && To(lost, MarkStatus(0), m)
    ensures id in lost.store && lost.store[id].status == Lost && id !in lost.backend
    ensures id in m.store && m.store[id].status == Running && id !in m.backend
  {
    var n1 := Next(n, CallBackend(0, id, Running));
    called := Next(n1, Vanish(id));
    TwoSteps(n, CallBackend(0, id, Running), n1, Vanish(id), called);
    lost := SweptAfterCall(called, id);
    m := Next(lost, MarkStatus(0));
  }

  lemma SweptAfterCall(n: Node, id: string) returns (m: Node)
    requires Filed(n.store) && id in n.store && n.store[id].status == Running && id !in n.backend
    requires n.reconcile.Idle? && n.calls == map[0 := Call(id, Running, false)]
    ensures Reaches(n, m)
    ensures id in m.store && m.store[id].status == Lost && m.backend == n.backend
    ensures m.calls == map[0 := Call(id, Running, true)]
  {
    var n1 := Next(n, ListBackend);
    var n2 := Next(n1, ListRecords);
    m := Next(n2, MarkLost(id));
    ThreeSteps(n, ListBackend, n1, ListRecords, n2, MarkLost(id), m);
  }
}
