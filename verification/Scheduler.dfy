/** Constraint-based placement: filter the candidates, rank the survivors. */
module Scheduler {
  import opened Common
  import opened Sorting
  import ImageRef

  datatype Candidate = Candidate(nodeID: string, workspaces: set<string>, templates: set<string>, kits: set<string>,
                                 capabilities: set<string>, labels: map<string, string>,
                                 limitCPU: real, limitMem: real, limitDisk: real,
                                 allocCPU: real, allocMem: real, allocDisk: real,
                                 sandboxes: int, actualCPU: real, actualMem: real, cordoned: bool)

  datatype Request = Request(cpu: real, mem: real, disk: real, workspaces: seq<string>, template: string,
                             kits: seq<string>, capabilities: seq<string>, affinity: map<string, string>,
                             antiAffinity: map<string, string>, strategy: string, requestID: string, local: string)

  /** The tie-breaking hash of a node id, for the request at hand. */
  type Tie = string -> int

  // ---- filter ----

  /** A missing label reads as the empty string. */
  function Label(c: Candidate, key: string): string { if key in c.labels then c.labels[key] else "" }

  predicate CapFits(used: real, limit: real) { limit == 0.0 || used <= limit }

  /** The candidate advertises the template under either spelling. */
  predicate Holds(c: Candidate, ref: string) { ref in c.templates || ImageRef.Canonical(ref) in c.templates }

  predicate Fits(req: Request, c: Candidate) {
    && !c.cordoned
    && (forall w | w in req.workspaces :: w in c.workspaces)
    && (req.template == "" || ImageRef.Pullable(req.template) || Holds(c, req.template))
    && (forall k | k in req.kits :: k in c.kits)
    && (forall k | k in req.capabilities :: k in c.capabilities)
    && (forall k | k in req.affinity :: Label(c, k) == req.affinity[k])
    && (forall k | k in req.antiAffinity :: Label(c, k) != req.antiAffinity[k])
    && CapFits(c.allocCPU + req.cpu, c.limitCPU)
    && CapFits(c.allocMem + req.mem, c.limitMem)
    && CapFits(c.allocDisk + req.disk, c.limitDisk)
  }

  // ---- rank ----

  function Max(a: real, b: real): real { if b > a then b else a }

  /** An unknown limit counts as fully loaded. */
  function Ratio(used: real, limit: real): real { if limit == 0.0 then 1.0 else used / limit }

  function Score(req: Request, c: Candidate): real {
    if req.strategy == "spread" then c.sandboxes as real
    else if req.strategy == "least-actual-load" then Max(c.actualCPU, c.actualMem)
    else Max(Max(Ratio(c.allocCPU + req.cpu, c.limitCPU), Ratio(c.allocMem + req.mem, c.limitMem)),
             Ratio(c.allocDisk + req.disk, c.limitDisk))
  }

  /** Score first (fuller first for bin-pack), then holders of the image, then the entry node,
      then the hash. */
  predicate Before(req: Request, tie: Tie, a: Candidate, b: Candidate) {
    var sa, sb := Score(req, a), Score(req, b);
    if sa != sb then (if req.strategy == "bin-pack" then sa > sb else sa < sb)
    else
      var ha, hb := req.template != "" && Holds(a, req.template), req.template != "" && Holds(b, req.template);
      if ha != hb then ha
      else if (a.nodeID == req.local) != (b.nodeID == req.local) then a.nodeID == req.local
      else tie(a.nodeID) < tie(b.nodeID)
  }

  function Comparison(req: Request, tie: Tie): (Candidate, Candidate) -> bool {
    (a, b) => Before(req, tie, a, b)
  }

  lemma BeforeComparator(req: Request, tie: Tie)
    ensures Comparator(Comparison(req, tie))
  {}

  /** Candidates that the ranking cannot confuse: same id means same candidate, and the hash
      keeps different ids apart. */
  ghost predicate Distinct(cands: seq<Candidate>, tie: Tie) {
    && (forall a, b | a in cands && b in cands && a.nodeID == b.nodeID :: a == b)
    && (forall a, b | a in cands && b in cands && tie(a.nodeID) == tie(b.nodeID) :: a.nodeID == b.nodeID)
  }

  // ---- the schedule ----

  function Eligible(req: Request, cands: seq<Candidate>): seq<Candidate> {
    if cands == [] then []
    else
      var front := Eligible(req, cands[..|cands| - 1]);
      if Fits(req, cands[|cands| - 1]) then front + [cands[|cands| - 1]] else front
  }

  function NodeIDs(cs: seq<Candidate>): (ids: seq<string>)
    ensures |ids| == |cs|
    ensures forall i | 0 <= i < |cs| :: ids[i] == cs[i].nodeID
  {
    if cs == [] then [] else NodeIDs(cs[..|cs| - 1]) + [cs[|cs| - 1].nodeID]
  }

  /** `order` is the eligible candidates, best first. */
  ghost predicate Ranked(req: Request, tie: Tie, cands: seq<Candidate>, order: seq<Candidate>) {
    && multiset(order) == multiset(Eligible(req, cands))
    && Sorted(order, Comparison(req, tie))
  }

  /** None means no eligible node. */
  method Schedule(req: Request, tie: Tie, cands: seq<Candidate>)
    returns (out: Option<seq<string>>, ghost order: seq<Candidate>)
    ensures out.None? <==> forall c | c in cands :: !Fits(req, c)
    ensures out.Some? ==> Ranked(req, tie, cands, order) && out.value == NodeIDs(order)
  {
    var ok: seq<Candidate> := [];
    order := [];
    for i := 0 to |cands|
      invariant ok == Eligible(req, cands[..i])
    {
      assert cands[..i + 1][..i] == cands[..i];
      if Fits(req, cands[i]) {
        ok := ok + [cands[i]];
      }
    }
    assert cands[..|cands|] == cands;
    EligibleMembers(req, cands);
    if |ok| == 0 {
      assert forall c :: c !in ok;
      return None, [];
    }
    assert ok[0] in ok;
    BeforeComparator(req, tie);
    var sorted := SortSlice(ok, Comparison(req, tie));
    order := sorted;
    var ids: seq<string> := [];
    for i := 0 to |sorted|
      invariant ids == NodeIDs(sorted[..i])
    {
      assert sorted[..i + 1][..i] == sorted[..i];
      ids := ids + [sorted[i].nodeID];
    }
    assert sorted[..|sorted|] == sorted;
    out := Some(ids);
  }

  // ---- what filtering keeps ----

  lemma {:induction false} EligibleMembers(req: Request, cands: seq<Candidate>)
    ensures forall c :: c in Eligible(req, cands) <==> c in cands && Fits(req, c)
  {
    if cands != [] {
      EligibleMembers(req, cands[..|cands| - 1]);
      assert cands == cands[..|cands| - 1] + [cands[|cands| - 1]];
    }
  }

  lemma {:induction false} EligibleCount(req: Request, cands: seq<Candidate>)
    ensures forall c :: multiset(Eligible(req, cands))[c] == if Fits(req, c) then multiset(cands)[c] else 0
  {
    if cands != [] {
      EligibleCount(req, cands[..|cands| - 1]);
      assert cands == cands[..|cands| - 1] + [cands[|cands| - 1]];
    }
  }

  /** The filter does not depend on the order the candidates come in. */
  lemma EligiblePermutes(req: Request, a: seq<Candidate>, b: seq<Candidate>)
    requires multiset(a) == multiset(b)
    ensures multiset(Eligible(req, a)) == multiset(Eligible(req, b))
  {
    EligibleCount(req, a);
    EligibleCount(req, b);
    forall c ensures multiset(Eligible(req, a))[c] == multiset(Eligible(req, b))[c] {}
  }

  lemma DistinctSeparates(req: Request, tie: Tie, cands: seq<Candidate>, order: seq<Candidate>)
    requires Distinct(cands, tie) && Ranked(req, tie, cands, order)
    ensures Separates(order, Comparison(req, tie))
    ensures forall c :: c in order <==> c in cands && Fits(req, c)
  {
    EligibleMembers(req, cands);
    forall c ensures c in order <==> c in cands && Fits(req, c) {
      assert c in order <==> c in multiset(order);
      assert c in Eligible(req, cands) <==> c in multiset(Eligible(req, cands));
    }
  }

  /** The schedule is canonical: it depends on which candidates there are, not on the order
      they are listed in. */
  lemma ScheduleCanonical(req: Request, tie: Tie, a: seq<Candidate>, b: seq<Candidate>,
                          orderA: seq<Candidate>, orderB: seq<Candidate>)
    requires multiset(a) == multiset(b) && Distinct(a, tie)
    requires Ranked(req, tie, a, orderA) && Ranked(req, tie, b, orderB)
    ensures orderA == orderB
  {
    EligiblePermutes(req, a, b);
    DistinctSeparates(req, tie, a, orderA);
    SortedUnique(orderA, orderB, Comparison(req, tie));
  }

  /** All occurrences of one candidate taken out. */
  function Without(s: seq<Candidate>, c: Candidate): seq<Candidate> {
    if s == [] then []
    else
      var front := Without(s[..|s| - 1], c);
      if s[|s| - 1] == c then front else front + [s[|s| - 1]]
  }

  lemma {:induction false} WithoutMembers(s: seq<Candidate>, c: Candidate)
    ensures forall x :: multiset(Without(s, c))[x] == if x == c then 0 else multiset(s)[x]
    ensures forall x :: x in Without(s, c) <==> x in s && x != c
  {
    if s != [] {
      WithoutMembers(s[..|s| - 1], c);
      assert s == s[..|s| - 1] + [s[|s| - 1]];
    }
  }

  lemma {:induction false} WithoutSorted(s: seq<Candidate>, c: Candidate, less: (Candidate, Candidate) -> bool)
    requires Sorted(s, less)
    ensures Sorted(Without(s, c), less)
  {
    if s != [] {
      var front, last := s[..|s| - 1], s[|s| - 1];
      WithoutSorted(front, c, less);
      WithoutMembers(front, c);
      forall i | 0 <= i < |Without(front, c)| ensures !less(last, Without(front, c)[i]) {
        assert Without(front, c)[i] in front;
      }
    }
  }

  /** Adding or removing a candidate never reorders the others: the schedule without `c` is the
      schedule with `c`, minus `c`. */
  lemma OthersKeepTheirOrder(req: Request, tie: Tie, cands: seq<Candidate>, c: Candidate,
                             order: seq<Candidate>, orderWithout: seq<Candidate>)
    requires Distinct(cands, tie)
    requires Ranked(req, tie, cands, order) && Ranked(req, tie, Without(cands, c), orderWithout)
    ensures orderWithout == Without(order, c)
  {
    var less := Comparison(req, tie);
    WithoutSorted(order, c, less);
    EligibleCount(req, cands);
    EligibleCount(req, Without(cands, c));
    WithoutMembers(cands, c);
    WithoutMembers(order, c);
    forall x ensures multiset(orderWithout)[x] == multiset(Without(order, c))[x] {
      assert multiset(order)[x] == multiset(Eligible(req, cands))[x];
    }
    assert multiset(orderWithout) == multiset(Without(order, c));
    DistinctSeparates(req, tie, Without(cands, c), orderWithout);
    SortedUnique(orderWithout, Without(order, c), less);
  }

  // ---- what the answer means for the request ----

  lemma ScheduledMembers(req: Request, tie: Tie, cands: seq<Candidate>, order: seq<Candidate>)
    requires Ranked(req, tie, cands, order)
    ensures forall c :: c in order <==> c in cands && Fits(req, c)
  {
    EligibleMembers(req, cands);
    SameMembers(order, Eligible(req, cands));
  }

  /** A scheduled node is not cordoned, offers every workspace, kit and capability asked for, holds the template
      unless any node can pull it, has the wanted labels and none of the unwanted ones, and keeps each of
      its limits with the request on top; a candidate that is left out fails in one of these. */
  lemma ScheduledMeetsConstraints(req: Request, tie: Tie, cands: seq<Candidate>, order: seq<Candidate>, c: Candidate)
    requires Ranked(req, tie, cands, order) && c in cands
    ensures c in order ==>
              && !c.cordoned
              && (forall w | w in req.workspaces :: w in c.workspaces)
              && (forall k | k in req.kits :: k in c.kits)
              && (forall k | k in req.capabilities :: k in c.capabilities)
    ensures c in order && req.template != "" && !ImageRef.Pullable(req.template) ==>
              req.template in c.templates || ImageRef.Canonical(req.template) in c.templates
    ensures c in order ==>
              && (forall k | k in req.affinity :: (if k in c.labels then c.labels[k] else "") == req.affinity[k])
              && (forall k | k in req.antiAffinity :: (if k in c.labels then c.labels[k] else "") != req.antiAffinity[k])
    ensures c in order ==>
              && (c.limitCPU != 0.0 ==> c.allocCPU + req.cpu <= c.limitCPU)
              && (c.limitMem != 0.0 ==> c.allocMem + req.mem <= c.limitMem)
              && (c.limitDisk != 0.0 ==> c.allocDisk + req.disk <= c.limitDisk)
    ensures c !in order ==>
              || c.cordoned
              || (exists w :: w in req.workspaces && w !in c.workspaces)
              || (exists k :: k in req.kits && k !in c.kits)
              || (exists k :: k in req.capabilities && k !in c.capabilities)
              || (req.template != "" && !ImageRef.Pullable(req.template)
                  && req.template !in c.templates && ImageRef.Canonical(req.template) !in c.templates)
              || (exists k :: k in req.affinity && Label(c, k) != req.affinity[k])
              || (exists k :: k in req.antiAffinity && Label(c, k) == req.antiAffinity[k])
              || (c.limitCPU != 0.0 && c.allocCPU + req.cpu > c.limitCPU)
              || (c.limitMem != 0.0 && c.allocMem + req.mem > c.limitMem)
              || (c.limitDisk != 0.0 && c.allocDisk + req.disk > c.limitDisk)
  {
    ScheduledMembers(req, tie, cands, order);
  }

  /** How full each resource of a node would be; an unknown limit counts as full. */
  function Shares(req: Request, c: Candidate): seq<real> {
    [if c.limitCPU == 0.0 then 1.0 else (c.allocCPU + req.cpu) / c.limitCPU,
     if c.limitMem == 0.0 then 1.0 else (c.allocMem + req.mem) / c.limitMem,
     if c.limitDisk == 0.0 then 1.0 else (c.allocDisk + req.disk) / c.limitDisk]
  }

  /** Every number of `a` is matched by one of `b` that is at least as large. */
  predicate Below(a: seq<real>, b: seq<real>) { forall i | 0 <= i < |a| :: exists j :: 0 <= j < |b| && a[i] <= b[j] }

  lemma BelowMax(a: seq<real>, b: seq<real>, ma: real, mb: real, j: nat)
    requires forall i | 0 <= i < |a| :: a[i] <= ma
    requires j < |b| && b[j] == mb && ma <= mb
    ensures Below(a, b)
  {}

  lemma ShareMax(req: Request, c: Candidate) returns (j: nat)
    requires req.strategy != "spread" && req.strategy != "least-actual-load"
    ensures j < 3 && Shares(req, c)[j] == Score(req, c) && forall i | 0 <= i < 3 :: Shares(req, c)[i] <= Score(req, c)
  {
    j := if Shares(req, c)[0] == Score(req, c) then 0 else if Shares(req, c)[1] == Score(req, c) then 1 else 2;
  }

  /** Of two scheduled nodes the earlier one has no more sandboxes under "spread", no higher actual load under
      "least-actual-load", is at least as full in its fullest resource under "bin-pack", and at most as
      full otherwise. */
  lemma RankingMeans(req: Request, tie: Tie, cands: seq<Candidate>, order: seq<Candidate>, i: nat, j: nat)
    requires Ranked(req, tie, cands, order) && i < j < |order|
    ensures req.strategy == "spread" ==> order[i].sandboxes <= order[j].sandboxes
    ensures req.strategy == "least-actual-load" ==>
              Below([order[i].actualCPU, order[i].actualMem], [order[j].actualCPU, order[j].actualMem])
    ensures req.strategy == "bin-pack" ==> Below(Shares(req, order[j]), Shares(req, order[i]))
    ensures req.strategy != "spread" && req.strategy != "least-actual-load" && req.strategy != "bin-pack" ==>
              Below(Shares(req, order[i]), Shares(req, order[j]))
  {
    var a, b := order[i], order[j];
    assert !Before(req, tie, b, a);
    if req.strategy == "least-actual-load" {
      BelowMax([a.actualCPU, a.actualMem], [b.actualCPU, b.actualMem], Score(req, a), Score(req, b),
               if b.actualMem > b.actualCPU then 1 else 0);
    } else if req.strategy != "spread" {
      var x := ShareMax(req, a);
      var y := ShareMax(req, b);
      if req.strategy == "bin-pack" {
        BelowMax(Shares(req, b), Shares(req, a), Score(req, b), Score(req, a), x);
      } else {
        BelowMax(Shares(req, a), Shares(req, b), Score(req, a), Score(req, b), y);
      }
    }
  }

  /** Of two scheduled nodes with the same score a holder of the template comes first, then the entry node,
      then the smaller hash. */
  lemma TiesMean(req: Request, tie: Tie, cands: seq<Candidate>, order: seq<Candidate>, i: nat, j: nat)
    requires Ranked(req, tie, cands, order) && i < j < |order| && Score(req, order[i]) == Score(req, order[j])
    ensures var t := req.template; var held := ImageRef.Canonical(t);
            var first, second := t in order[i].templates || held in order[i].templates, t in order[j].templates || held in order[j].templates;
            && (t != "" && second ==> first)
            && (t == "" || first == second ==> (order[j].nodeID == req.local ==> order[i].nodeID == req.local))
            && ((t == "" || first == second) && (order[i].nodeID == req.local <==> order[j].nodeID == req.local) ==>
                  tie(order[i].nodeID) <= tie(order[j].nodeID))
  {
    assert !Before(req, tie, order[j], order[i]);
  }

  /** An unqualified template goes to nodes that hold it, and asking for the listed name of a
      saved template (outside "library/a/b") selects the holders of that very image. */
  lemma TemplateGoesToHolders(req: Request, tie: Tie, cands: seq<Candidate>, order: seq<Candidate>, saved: string)
    requires !ImageRef.Pullable(saved) && !ImageRef.BelowLibrary(saved)
    requires req.template == ImageRef.RequestableTemplate(ImageRef.Canonical(saved)) != ""
    requires Ranked(req, tie, cands, order)
    ensures forall c | c in order :: req.template in c.templates || ImageRef.Canonical(saved) in c.templates
  {
    ImageRef.RequestRoundTrip(saved);
    ImageRef.RequestStaysLocal(saved);
    EligibleMembers(req, cands);
    forall c | c in order ensures c in Eligible(req, cands) {
      assert c in multiset(order);
    }
  }
}
