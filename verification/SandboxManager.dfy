/** The sandbox records of one node and the operations that change them. `Manager`
    drives a backend (the set of sandboxes the daemon knows) and the capacity tracker. */
module SandboxManager {
  import opened Common
  import opened Resources
  import opened CapacityTracker

  datatype Status = Running | Stopped | Failed | Lost

  /** Sizes as requested: cores, bytes, GB; non-positive means "use the default". */
  datatype Spec = Spec(cpus: int, memoryBytes: int, diskGB: real)

  /** Node-wide default sizes; cores may be fractional. `overflow` is what the platform's conversion to
      32 bits makes of a core count beyond them, which the language leaves open. */
  datatype Defaults = Defaults(cpuCores: real, memoryBytes: int, diskGB: real, overflow: int)

  datatype Record = Record(id: string, backendName: string, spec: Spec, status: Status,
                           lastActivity: int, labels: map<string, string>)

  type Store = map<string, Record>

  const FLOOR_CPU_CORES := 1
  const FLOOR_MEMORY_BYTES := 0x4000_0000
  const FLOOR_DISK_GB := 1.0

  const TWO_TO_THE_31 := 2147483648.0

  /** The default core count as a 32-bit integer; the fraction is cut off. */
  function Cores32(d: Defaults): int {
    if d.cpuCores < TWO_TO_THE_31 then d.cpuCores.Floor else d.overflow
  }

  /** Fills every unset size from the configured default, else the built-in floor. */
  function EffectiveSpec(s: Spec, d: Defaults): Spec {
    Spec(if s.cpus > 0 then s.cpus else if d.cpuCores > 0.0 then Cores32(d) else FLOOR_CPU_CORES,
         if s.memoryBytes > 0 then s.memoryBytes else if d.memoryBytes > 0 then d.memoryBytes else FLOOR_MEMORY_BYTES,
         if s.diskGB > 0.0 then s.diskGB else if d.diskGB > 0.0 then d.diskGB else FLOOR_DISK_GB)
  }

  /** Cost in cores, KB and GB. */
  function CostOf(s: Spec): Res { Res(s.cpus as real, s.memoryBytes as real / 1024.0, s.diskGB) }

  /** The configured core count survives the conversion, or does not turn negative. */
  predicate Convertible(d: Defaults) { d.cpuCores < TWO_TO_THE_31 || d.overflow >= 0 }

  /** "No untracked sandboxes" holds except for two configurations, and there only for a request that
      leaves the cores open: a default below one core, which is cut to zero, and a default beyond 32
      bits, which becomes whatever the conversion yields. Only the latter can cost less than zero. */
  lemma EffectiveSpecTracksAll(s: Spec, d: Defaults)
    ensures var c := CostOf(EffectiveSpec(s, d));
            && (c.NonNegative() <==> s.cpus > 0 || Convertible(d))
            && (c.cpu > 0.0 && c.mem > 0.0 && c.disk > 0.0 <==>
                s.cpus > 0 || d.cpuCores <= 0.0 || 1.0 <= d.cpuCores < TWO_TO_THE_31
                || (d.cpuCores >= TWO_TO_THE_31 && d.overflow > 0))
  {
    if d.cpuCores > 0.0 { assert d.cpuCores.Floor >= 1 <==> d.cpuCores >= 1.0; }
  }

  /** Sizes asked for are kept, an open one takes the configured default if there is one (of the cores, the whole
      ones) and else the floor, and filling a spec that is full changes nothing. */
  lemma EffectiveSpecFills(s: Spec, d: Defaults)
    ensures var e := EffectiveSpec(s, d);
            && (s.cpus > 0 ==> e.cpus == s.cpus) && (s.memoryBytes > 0 ==> e.memoryBytes == s.memoryBytes)
            && (s.diskGB > 0.0 ==> e.diskGB == s.diskGB)
            && (s.cpus <= 0 && 0.0 < d.cpuCores < TWO_TO_THE_31 ==> e.cpus as real <= d.cpuCores < e.cpus as real + 1.0)
            && (s.memoryBytes <= 0 < d.memoryBytes ==> e.memoryBytes == d.memoryBytes)
            && (s.diskGB <= 0.0 < d.diskGB ==> e.diskGB == d.diskGB)
            && (d.cpuCores <= 0.0 && d.memoryBytes <= 0 && d.diskGB <= 0.0 && s.cpus <= 0 && s.memoryBytes <= 0 && s.diskGB <= 0.0 ==>
                  CostOf(e) == Res(1.0, 1048576.0, 1.0))
            && (e.cpus > 0 ==> EffectiveSpec(e, d) == e)
  {}

  // ---- what the records cost ----

  ghost function LiveCosts(store: Store): map<string, Res> {
    map id | id in store && store[id].status != Lost :: CostOf(store[id].spec)
  }

  ghost function LiveTotal(store: Store): Res { Total(LiveCosts(store)) }

  /** Records are filed under their own id, which is also the backend name. */
  ghost predicate Filed(store: Store) {
    forall id | id in store :: store[id].id == id && store[id].backendName == id
  }

  /** `recs` lists the store, each record once. */
  ghost predicate Lists(recs: seq<Record>, store: Store) {
    && (forall i | 0 <= i < |recs| :: recs[i].id in store && store[recs[i].id] == recs[i])
    && (forall i, j | 0 <= i < j < |recs| :: recs[i].id != recs[j].id)
    && (forall id | id in store :: exists i :: 0 <= i < |recs| && recs[i].id == id)
  }

  /** The running sum over a list, lost records skipped. */
  function CostSumOf(recs: seq<Record>): Res {
    if recs == [] then ZERO
    else
      var rest := CostSumOf(recs[..|recs| - 1]);
      var last := recs[|recs| - 1];
      if last.status == Lost then rest else rest.Plus(CostOf(last.spec))
  }

  lemma ListsFront(recs: seq<Record>, store: Store)
    requires Lists(recs, store) && recs != []
    ensures Lists(recs[..|recs| - 1], store - {recs[|recs| - 1].id})
  {
    var n := |recs| - 1;
    forall id | id in store - {recs[n].id} ensures exists i :: 0 <= i < n && recs[..n][i].id == id {
      var i :| 0 <= i < |recs| && recs[i].id == id;
      assert recs[..n][i].id == id;
    }
  }

  /** Listing order does not matter: the list adds up to the store's live total. */
  lemma {:induction false} CostSumIsLiveTotal(recs: seq<Record>, store: Store)
    requires Lists(recs, store)
    ensures CostSumOf(recs) == LiveTotal(store)
    decreases |recs|
  {
    if recs == [] {
      assert LiveCosts(store) == map[];
    } else {
      var last := recs[|recs| - 1];
      ListsFront(recs, store);
      CostSumIsLiveTotal(recs[..|recs| - 1], store - {last.id});
      LiveTotalRemove(store, last.id);
    }
  }

  lemma LiveTotalRemove(store: Store, id: string)
    requires id in store
    ensures LiveTotal(store) == if store[id].status == Lost then LiveTotal(store - {id})
                                else LiveTotal(store - {id}).Plus(CostOf(store[id].spec))
  {
    if store[id].status == Lost {
      assert LiveCosts(store) == LiveCosts(store - {id});
    } else {
      TotalTake(LiveCosts(store), id);
      assert LiveCosts(store) - {id} == LiveCosts(store - {id});
    }
  }

  // ---- what each operation does to the records ----

  function Reconciled(store: Store, alive: set<string>): Store {
    map id | id in store ::
      if store[id].status != Lost && store[id].backendName !in alive then store[id].(status := Lost) else store[id]
  }

  /** Start and Stop: the backend must know the sandbox, or nothing changes. */
  function Lifecycled(store: Store, backend: set<string>, id: string, status: Status): Store {
    if id in store && store[id].backendName in backend then store[id := store[id].(status := status)] else store
  }

  function Bumped(store: Store, id: string, now: int): Store {
    if id in store then store[id := store[id].(lastActivity := now)] else store
  }

  predicate Exempt(r: Record) { "idle-stop" in r.labels && r.labels["idle-stop"] == "off" }

  /** Running, not exempt, and its last activity lies more than the timeout back. */
  predicate Idle(r: Record, now: int, timeout: int) {
    timeout > 0 && r.status == Running && !Exempt(r) && now - r.lastActivity > timeout
  }

  /** A sweep has dealt with the first `n` records and not touched the others. */
  ghost predicate Swept(recs: seq<Record>, before: Store, alive: set<string>, n: int) {
    forall j | 0 <= j < |recs| ::
      recs[j].id in before && recs[j] == (if j < n then Reconciled(before, alive) else before)[recs[j].id]
  }

  lemma MarkKeepsLists(recs: seq<Record>, store: Store, i: nat)
    requires Lists(recs, store) && i < |recs|
    ensures Lists(recs[i := recs[i].(status := Lost)],
                  store[recs[i].id := store[recs[i].id].(status := Lost)])
  {
    var recs', store' := recs[i := recs[i].(status := Lost)], store[recs[i].id := store[recs[i].id].(status := Lost)];
    forall id | id in store' ensures exists j :: 0 <= j < |recs'| && recs'[j].id == id {
      var j :| 0 <= j < |recs| && recs[j].id == id;
      assert recs'[j].id == id;
    }
  }

  /** Dealing with record `i` moves the sweep one further. */
  lemma SweptStep(recs: seq<Record>, store: Store, before: Store, alive: set<string>, i: nat)
    requires Lists(recs, store) && Swept(recs, before, alive, i) && i < |recs|
    ensures if recs[i].status != Lost && recs[i].backendName !in alive
            then Swept(recs[i := recs[i].(status := Lost)], before, alive, i + 1)
            else Swept(recs, before, alive, i + 1)
  {}

  lemma SweptAll(recs: seq<Record>, store: Store, before: Store, alive: set<string>)
    requires Lists(recs, store) && Swept(recs, before, alive, |recs|) && store.Keys == before.Keys
    ensures store == Reconciled(before, alive)
  {
    forall id | id in store ensures store[id] == Reconciled(before, alive)[id] {
      var j :| 0 <= j < |recs| && recs[j].id == id;
    }
  }

  datatype CreateFate = BackendError | SaveError | Created(status: Status)

  class Manager {
    var store: Store
    var backend: set<string>
    const capacity: Capacity

    constructor (capacity: Capacity, store: Store, backend: set<string>)
      ensures this.capacity == capacity && this.store == store && this.backend == backend
    {
      this.capacity, this.store, this.backend := capacity, store, backend;
    }

    method List() returns (recs: seq<Record>)
      requires Filed(store)
      ensures Lists(recs, store)
    {
      recs := [];
      var todo := store.Keys;
      while todo != {}
        invariant todo <= store.Keys
        invariant Lists(recs, store - todo)
        decreases todo
      {
        var id :| id in todo;
        var more := recs + [store[id]];
        forall k | k in store - (todo - {id}) ensures exists i :: 0 <= i < |more| && more[i].id == k {
          if k == id {
            assert more[|recs|].id == k;
          } else {
            assert k in store - todo;
            var i :| 0 <= i < |recs| && recs[i].id == k;
            assert more[i].id == k;
          }
        }
        recs, todo := more, todo - {id};
      }
      assert store - todo == store;
    }

    static method CostSum(recs: seq<Record>) returns (sum: Res)
      ensures sum == CostSumOf(recs)
    {
      sum := ZERO;
      for i := 0 to |recs|
        invariant sum == CostSumOf(recs[..i])
      {
        assert recs[..i + 1][..i] == recs[..i];
        if recs[i].status == Lost { continue; }
        sum := sum.Plus(CostOf(recs[i].spec));
      }
      assert recs[..|recs|] == recs;
    }

    /** `id` is the freshly minted sandbox id; `fate` says how backend and store answer. */
    method Create(id: string, spec: Spec, labels: map<string, string>, fate: CreateFate, now: int)
      returns (ok: bool)
      modifies this
      ensures ok <==> fate.Created?
      ensures backend == if fate.BackendError? then old(backend) else old(backend) + {id}
      ensures store == if ok then old(store)[id := Record(id, id, spec, fate.status, now, labels)] else old(store)
    {
      match fate {
        case BackendError => ok := false;
        case SaveError =>
          backend := backend + {id};
          ok := false;
        case Created(status) =>
          backend := backend + {id};
          store := store[id := Record(id, id, spec, status, now, labels)];
          ok := true;
      }
    }

    /** Reserve, create, then commit or release. The tracker ends up with no trace of a
        failed create and with the exact live total after a listed commit. */
    method AdmitAndCreate(id: string, spec: Spec, labels: map<string, string>, fate: CreateFate, listOk: bool, now: int)
      returns (ok: bool)
      requires Filed(store) && id !in store
      requires forall k | k in capacity.resv :: k < capacity.next
      modifies this, capacity
      ensures ok <==> fate.Created? && old(capacity.Now().Admits(CostOf(spec)))
      ensures Filed(store)
      ensures backend == if fate.BackendError? || !old(capacity.Now().Admits(CostOf(spec))) then old(backend)
                         else old(backend) + {id}
      ensures ok ==> store == old(store)[id := Record(id, id, spec, fate.status, now, labels)]
      ensures !ok ==> store == old(store)
      ensures capacity.resv == old(capacity.resv)
      ensures !ok ==> capacity.base == old(capacity.base)
      ensures ok && listOk ==> capacity.base == LiveTotal(store)
      ensures ok && !listOk ==> capacity.base == old(capacity.base).Plus(CostOf(spec))
    {
      var r := capacity.TryReserve(CostOf(spec));
      if r.None? {
        return false;
      }
      assert capacity.resv - {r.value} == old(capacity.resv);
      ok := Create(id, spec, labels, fate, now);
      if !ok {
        capacity.Release(r.value);
        return;
      }
      if listOk {
        var recs := List();
        var sum := CostSum(recs);
        CostSumIsLiveTotal(recs, store);
        capacity.CommitBase(sum, r.value);
      } else {
        capacity.Commit(r.value);
      }
    }

    /** `callOk` is the backend's answer to the call for a sandbox it knows. */
    method SetStatus(id: string, status: Status, callOk: bool) returns (ok: bool)
      modifies this`store
      ensures ok <==> id in old(store) && old(store)[id].backendName in backend && callOk
      ensures store == if ok then Lifecycled(old(store), backend, id, status) else old(store)
      ensures ok ==> store == old(store)[id := old(store)[id].(status := status)]
    {
      if id !in store || store[id].backendName !in backend || !callOk {
        return false;
      }
      store := store[id := store[id].(status := status)];
      ok := true;
    }

    method BumpActivity(id: string, now: int) returns (ok: bool)
      modifies this`store
      ensures store == Bumped(old(store), id, now)
      ensures store == if id in old(store) then old(store)[id := old(store)[id].(lastActivity := now)] else old(store)
      ensures ok <==> id in old(store)
    {
      ok := id in store;
      if ok {
        store := store[id := store[id].(lastActivity := now)];
      }
    }

    /** Starting counts as activity. */
    method Start(id: string, now: int, callOk: bool) returns (ok: bool)
      modifies this`store
      ensures ok <==> id in old(store) && old(store)[id].backendName in backend && callOk
      ensures store == if ok then Bumped(Lifecycled(old(store), backend, id, Running), id, now) else old(store)
      ensures ok ==> store == old(store)[id := old(store)[id].(status := Running, lastActivity := now)]
    {
      ok := SetStatus(id, Running, callOk);
      if ok {
        var _ := BumpActivity(id, now);
      }
    }

    /** A record-less id is still removed from the backend by name; a failed removal keeps the record. */
    method Delete(id: string, removeOk: bool) returns (ok: bool)
      requires Filed(store)
      modifies this
      ensures ok <==> removeOk
      ensures store == if ok then old(store) - {id} else old(store)
      ensures backend == if ok then old(backend) - {id} else old(backend)
    {
      if !removeOk {
        return false;
      }
      ok := true;
      if id !in store {
        backend := backend - {id};
        return;
      }
      backend := backend - {store[id].backendName};
      store := store - {id};
    }

    /** Marks the records whose sandbox is not among the `alive`, in the store and in the list. */
    method MarkLost(alive: set<string>) returns (recs: seq<Record>)
      requires Filed(store)
      modifies this`store
      ensures Lists(recs, store) && store == Reconciled(old(store), alive)
    {
      recs := List();
      ghost var before := store;
      var n := |recs|;
      for i := 0 to n
        invariant |recs| == n
        invariant Lists(recs, store)
        invariant Swept(recs, before, alive, i)
        invariant store.Keys == before.Keys
      {
        var rec := recs[i];
        SweptStep(recs, store, before, alive, i);
        if rec.status != Lost && rec.backendName !in alive {
          MarkKeepsLists(recs, store, i);
          store := store[rec.id := store[rec.id].(status := Lost)];
          recs := recs[i := rec.(status := Lost)];
        }
      }
      SweptAll(recs, store, before, alive);
    }

    /** Marks the records whose sandbox the backend no longer knows and rebases the tracker. */
    method Reconcile()
      requires Filed(store)
      modifies this`store, capacity
      ensures Filed(store)
      ensures store == Reconciled(old(store), backend)
      ensures store.Keys == old(store).Keys
      ensures forall id | id in store :: store[id] ==
                if old(store)[id].backendName in backend then old(store)[id] else old(store)[id].(status := Lost)
      ensures capacity.Now() == old(capacity.Now()).(base := LiveTotal(store))
    {
      var recs := MarkLost(backend);
      var sum := CostSum(recs);
      CostSumIsLiveTotal(recs, store);
      capacity.SetBase(sum);
    }

    /** Exactly the idle records, each once. */
    method IdleRunning(now: int, timeout: int) returns (out: seq<Record>)
      requires Filed(store)
      ensures forall r :: r in out <==> r.id in store && store[r.id] == r && Idle(r, now, timeout)
      ensures forall r | r in out :: r.status == Running && r.lastActivity + timeout < now && 0 < timeout
                                     && ("idle-stop" in r.labels ==> r.labels["idle-stop"] != "off")
      ensures forall id | id in store && store[id] !in out ::
                || timeout <= 0 || store[id].status != Running || now <= store[id].lastActivity + timeout
                || ("idle-stop" in store[id].labels && store[id].labels["idle-stop"] == "off")
      ensures forall i, j | 0 <= i < j < |out| :: out[i].id != out[j].id
    {
      out := [];
      if timeout <= 0 {
        return;
      }
      var recs := List();
      for i := 0 to |recs|
        invariant forall r :: r in out <==> r in recs[..i] && Idle(r, now, timeout)
        invariant forall a, b | 0 <= a < b < |out| :: out[a].id != out[b].id
      {
        assert recs[..i + 1] == recs[..i] + [recs[i]];
        if Idle(recs[i], now, timeout) {
          assert forall a | 0 <= a < |out| :: out[a] in recs[..i];
          out := out + [recs[i]];
        }
      }
      assert recs[..|recs|] == recs;
      forall r ensures r in recs <==> r.id in store && store[r.id] == r {
        if r.id in store && store[r.id] == r {
          var i :| 0 <= i < |recs| && recs[i].id == r.id;
          assert recs[i] == r;
        }
      }
    }
  }
}
