/** Soft CPU/memory/disk accounting of one node. Amounts are exact reals. */
module Resources {
  datatype Res = Res(cpu: real, mem: real, disk: real) {
    function Plus(o: Res): Res { Res(cpu + o.cpu, mem + o.mem, disk + o.disk) }
    predicate AtMost(o: Res) { cpu <= o.cpu && mem <= o.mem && disk <= o.disk }
    predicate NonNegative() { 0.0 <= cpu && 0.0 <= mem && 0.0 <= disk }
    /** A zero limit does not bind. */
    predicate Within(limit: Res) {
      && (limit.cpu == 0.0 || cpu <= limit.cpu)
      && (limit.mem == 0.0 || mem <= limit.mem)
      && (limit.disk == 0.0 || disk <= limit.disk)
    }
  }

  const ZERO := Res(0.0, 0.0, 0.0)

  /** The sum of a finite map's amounts, in whatever order they are taken. */
  ghost function Total<K(!new)>(m: map<K, Res>): Res
    decreases |m|
  {
    if m == map[] then ZERO
    else
      var k :| k in m;
      assert |m - {k}| < |m|;
      m[k].Plus(Total(m - {k}))
  }

  lemma {:induction false} TotalTake<K(!new)>(m: map<K, Res>, k: K)
    requires k in m
    ensures Total(m) == m[k].Plus(Total(m - {k}))
    decreases |m|
  {
    var j :| j in m && Total(m) == m[j].Plus(Total(m - {j}));
    if j != k {
      var rest := (m - {j}) - {k};
      assert rest == (m - {k}) - {j};
      assert |m - {j}| < |m| && |m - {k}| < |m|;
      TotalTake(m - {j}, k);
      TotalTake(m - {k}, j);
      assert Total(m) == m[j].Plus(m[k].Plus(Total(rest)));
    }
  }

  lemma TotalPut<K(!new)>(m: map<K, Res>, k: K, r: Res)
    requires k !in m
    ensures Total(m[k := r]) == Total(m).Plus(r)
  {
    TotalTake(m[k := r], k);
    assert m[k := r] - {k} == m;
  }

  /** The sum of a finite map's numbers. */
  ghost function Sum<K(!new)>(m: map<K, real>): real
    decreases |m|
  {
    if m == map[] then 0.0
    else
      var k :| k in m;
      assert |m - {k}| < |m|;
      m[k] + Sum(m - {k})
  }

  lemma {:induction false} SumTake<K(!new)>(m: map<K, real>, k: K)
    requires k in m
    ensures Sum(m) == m[k] + Sum(m - {k})
    decreases |m|
  {
    var j :| j in m && Sum(m) == m[j] + Sum(m - {j});
    if j != k {
      var rest := (m - {j}) - {k};
      assert rest == (m - {k}) - {j};
      assert |m - {j}| < |m| && |m - {k}| < |m|;
      SumTake(m - {j}, k);
      SumTake(m - {k}, j);
    }
  }

  /** The amounts of one resource. */
  function Cpus<K>(m: map<K, Res>): map<K, real> { map k | k in m :: m[k].cpu }
  function Mems<K>(m: map<K, Res>): map<K, real> { map k | k in m :: m[k].mem }
  function Disks<K>(m: map<K, Res>): map<K, real> { map k | k in m :: m[k].disk }

  /** The sums of the three resources. */
  ghost function Sums<K(!new)>(m: map<K, Res>): Res { Res(Sum(Cpus(m)), Sum(Mems(m)), Sum(Disks(m))) }

  lemma SumsTake<K(!new)>(m: map<K, Res>, k: K)
    requires k in m
    ensures Sums(m) == Res(m[k].cpu + Sums(m - {k}).cpu, m[k].mem + Sums(m - {k}).mem, m[k].disk + Sums(m - {k}).disk)
  {
    var rest := m - {k};
    assert Cpus(m) - {k} == Cpus(rest) && Mems(m) - {k} == Mems(rest) && Disks(m) - {k} == Disks(rest);
    SumTake(Cpus(m), k);
    SumTake(Mems(m), k);
    SumTake(Disks(m), k);
  }

  /** The total holds the sum of each resource. */
  lemma {:induction false} TotalOfEach<K(!new)>(m: map<K, Res>)
    ensures Total(m) == Sums(m)
    decreases |m|
  {
    if m == map[] {
      assert Cpus(m) == map[] && Mems(m) == map[] && Disks(m) == map[];
    } else {
      var k :| k in m;
      TotalTake(m, k);
      TotalOfEach(m - {k});
      SumsTake(m, k);
    }
  }

  /** Two totals within the limits, said of each resource. */
  lemma WithinEach<J(!new), K(!new)>(a: map<J, Res>, b: map<K, Res>, limits: Res)
    requires Total(a).Plus(Total(b)).Within(limits)
    ensures limits.cpu != 0.0 ==> Sum(Cpus(a)) + Sum(Cpus(b)) <= limits.cpu
    ensures limits.mem != 0.0 ==> Sum(Mems(a)) + Sum(Mems(b)) <= limits.mem
    ensures limits.disk != 0.0 ==> Sum(Disks(a)) + Sum(Disks(b)) <= limits.disk
  {
    TotalOfEach(a);
    TotalOfEach(b);
  }

  ghost predicate AllNonNegative<K(!new)>(m: map<K, Res>) {
    forall k | k in m :: m[k].NonNegative()
  }

  lemma {:induction false} TotalNonNegative<K(!new)>(m: map<K, Res>)
    requires AllNonNegative(m)
    ensures Total(m).NonNegative()
    decreases |m|
  {
    if m != map[] {
      var k :| k in m;
      TotalTake(m, k);
      TotalNonNegative(m - {k});
    }
  }

  /** Part of a set of reservations never adds up to more than the whole. */
  lemma {:induction false} TotalPart<K(!new)>(part: map<K, Res>, all: map<K, Res>)
    requires AllNonNegative(all)
    requires forall k | k in part :: k in all && all[k] == part[k]
    ensures Total(part).AtMost(Total(all))
    decreases |part|
  {
    if part == map[] {
      TotalNonNegative(all);
    } else {
      var k :| k in part;
      TotalTake(part, k);
      TotalTake(all, k);
      TotalPart(part - {k}, all - {k});
    }
  }

  /** Two parts that share no key and make up the whole. */
  ghost predicate Parts<K(!new)>(all: map<K, Res>, a: map<K, Res>, b: map<K, Res>) {
    && all.Keys == a.Keys + b.Keys && a.Keys !! b.Keys
    && (forall k | k in a :: all[k] == a[k])
    && (forall k | k in b :: all[k] == b[k])
  }

  lemma PartsTake<K(!new)>(all: map<K, Res>, a: map<K, Res>, b: map<K, Res>, k: K)
    requires Parts(all, a, b) && k in b
    ensures Parts(all - {k}, a, b - {k}) && all[k] == b[k]
  {}

  lemma PlusLaws(x: Res, y: Res, z: Res)
    ensures x.Plus(ZERO) == x && y.Plus(x.Plus(z)) == x.Plus(y.Plus(z))
  {}

  lemma PlusGroups(x: Res, y: Res, z: Res)
    ensures x.Plus(y.Plus(z)) == x.Plus(y).Plus(z) == x.Plus(z).Plus(y)
  {}

  lemma {:induction false} TotalParts<K(!new)>(all: map<K, Res>, a: map<K, Res>, b: map<K, Res>)
    requires Parts(all, a, b)
    ensures Total(all) == Total(a).Plus(Total(b))
    decreases |b|
  {
    if b == map[] {
      assert all == a;
      PlusLaws(Total(a), ZERO, ZERO);
    } else {
      var k :| k in b;
      PartsTake(all, a, b, k);
      TotalParts(all - {k}, a, b - {k});
      TotalTake(all, k);
      TotalTake(b, k);
      PlusLaws(Total(a), b[k], Total(b - {k}));
    }
  }
}

module CapacityTracker {
  import opened Common
  import opened Resources

  /** The tracker's value: limits, reconciled base and open reservations. */
  datatype Ledger = Ledger(limits: Res, base: Res, resv: map<int, Res>, next: int) {
    ghost function Used(): Res { base.Plus(Total(resv)) }

    /** Whether a request is admitted on top of what is used. */
    ghost predicate Admits(cost: Res) { Used().Plus(cost).Within(limits) }

    function Reserved(cost: Res): Ledger { this.(resv := resv[next := cost], next := next + 1) }

    /** Drops the reservation; its cost moves into the base. */
    function Committed(id: int): Ledger {
      if id in resv then this.(base := base.Plus(resv[id]), resv := resv - {id}) else this
    }

    function Rebased(base: Res, id: int): Ledger { this.(base := base, resv := resv - {id}) }
    function Released(id: int): Ledger { this.(resv := resv - {id}) }
  }

  class Capacity {
    const limits: Res
    var base: Res
    var resv: map<int, Res>
    var next: int

    ghost function Now(): Ledger
      reads this
    {
      Ledger(limits, base, resv, next)
    }

    constructor (limits: Res)
      ensures Now() == Ledger(limits, ZERO, map[], 0)
    {
      this.limits, base, resv, next := limits, ZERO, map[], 0;
    }

    method Snapshot() returns (used: Res)
      ensures used == Now().Used()
      ensures used == Res(base.cpu + Sum(Cpus(resv)), base.mem + Sum(Mems(resv)), base.disk + Sum(Disks(resv)))
    {
      used := base;
      var todo := resv.Keys;
      ghost var rest := resv;
      ghost var all := Now().Used();
      while todo != {}
        invariant todo == rest.Keys && forall k | k in todo :: k in resv && resv[k] == rest[k]
        invariant used.Plus(Total(rest)) == all
        decreases todo
      {
        HasMember(todo);
        var k :| k in todo;
        TotalTake(rest, k);
        used, todo, rest := used.Plus(resv[k]), todo - {k}, rest - {k};
      }
      TotalOfEach(resv);
    }

    method TryReserve(cost: Res) returns (id: Option<int>)
      modifies this
      ensures id.Some? <==> old(Now().Admits(cost))
      ensures id.Some? <==>
              && (limits.cpu == 0.0 || old(base.cpu + Sum(Cpus(resv))) + cost.cpu <= limits.cpu)
              && (limits.mem == 0.0 || old(base.mem + Sum(Mems(resv))) + cost.mem <= limits.mem)
              && (limits.disk == 0.0 || old(base.disk + Sum(Disks(resv))) + cost.disk <= limits.disk)
      ensures id.Some? ==> id.value == old(next) && Now() == old(Now()).Reserved(cost)
      ensures id.None? ==> Now() == old(Now())
    {
      var used := Snapshot();
      TotalOfEach(resv);
      if !used.Plus(cost).Within(limits) {
        return None;
      }
      id := Some(next);
      resv, next := resv[next := cost], next + 1;
    }

    method Commit(id: int)
      modifies this
      ensures Now() == old(Now()).Committed(id)
      ensures id !in resv && base == if id in old(resv) then old(base).Plus(old(resv)[id]) else old(base)
    {
      if id in resv {
        base, resv := base.Plus(resv[id]), resv - {id};
      }
    }

    method CommitBase(newBase: Res, id: int)
      modifies this
      ensures Now() == old(Now()).Rebased(newBase, id)
      ensures base == newBase && resv == old(resv) - {id}
    {
      base, resv := newBase, resv - {id};
    }

    method Release(id: int)
      modifies this
      ensures Now() == old(Now()).Released(id)
      ensures base == old(base) && resv == old(resv) - {id}
    {
      resv := resv - {id};
    }

    method SetBase(newBase: Res)
      modifies this
      ensures Now() == old(Now()).(base := newBase)
    {
      base := newBase;
    }
  }

  /** A commit neither loses nor double-counts the reservation, and undoing a fresh
      reservation restores what was used. */
  lemma LedgerConserves(l: Ledger, id: int, cost: Res)
    requires forall k | k in l.resv :: k < l.next
    ensures l.Committed(id).Used() == l.Used()
    ensures l.Reserved(cost).Used() == l.Used().Plus(cost)
    ensures l.Reserved(cost).Released(l.next) == l.(next := l.next + 1)
  {
    TotalPut(l.resv, l.next, cost);
    if id in l.resv { TotalTake(l.resv, id); }
    assert l.resv[l.next := cost] - {l.next} == l.resv;
  }

  lemma OneReserved(l: Ledger, cost: Res)
    requires l.resv == map[] && l.base == ZERO
    ensures l.Used() == ZERO && l.Reserved(cost).Used() == ZERO.Plus(cost)
  {
    LedgerConserves(l, 0, cost);
  }

  lemma FitsTwice(l: Ledger, cost: Res)
    requires l.Used() == ZERO && l.Reserved(cost).Used() == ZERO.Plus(cost)
    requires l.limits == Res(2.0 * cost.cpu, 0.0, 0.0) && cost.NonNegative()
    ensures l.Admits(cost) && l.Reserved(cost).Admits(cost)
  {}

  /** An idle tracker limited to twice a cost admits it twice. */
  lemma RoomForTwo(l: Ledger, cost: Res)
    requires l.resv == map[] && l.base == ZERO
    requires l.limits == Res(2.0 * cost.cpu, 0.0, 0.0) && cost.NonNegative()
    ensures l.Admits(cost) && l.Reserved(cost).Admits(cost)
  {
    OneReserved(l, cost);
    FitsTwice(l, cost);
  }
}
