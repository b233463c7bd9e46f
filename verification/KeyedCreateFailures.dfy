/** Why the discipline of `KeyedCreate` is what it is: a step outside it can be continued, by undisturbed
    retries and goroutines, to two live sandboxes of one key. Then such runs from a fresh node. */
module KeyedCreateFailures {
  import opened Common
  import opened Operations
  import opened KeyedCreate

  /** Two live sandboxes whose operations carry the same key. */
  predicate TwoLive(s: System, key: string, a: string, b: string) {
    a != b && LiveOf(s, key, a) && LiveOf(s, key, b)
  }

  // ---- names ----

  lemma {:induction false} LongestName(names: set<string>) returns (n: nat)
    ensures forall x | x in names :: |x| <= n
    decreases names
  {
    if names == {} {
      n := 0;
    } else {
      var x :| x in names;
      n := LongestName(names - {x});
      n := if |x| > n then |x| else n;
    }
  }

  /** There is always another name. */
  lemma AnotherName(names: set<string>) returns (x: string)
    ensures x !in names && x != ""
  {
    var n := LongestName(names);
    x := seq(n + 1, i => 'x');
  }

  lemma AnotherHandler(hs: set<nat>) returns (h: nat)
    ensures h !in hs
  {
    var n := Highest(hs);
    h := n + 1;
  }

  lemma {:induction false} Highest(hs: set<nat>) returns (n: nat)
    ensures forall h | h in hs :: h <= n
    decreases hs
  {
    if hs == {} {
      n := 0;
    } else {
      HasMember(hs);
      var h :| h in hs;
      var m := Highest(hs - {h});
      n := if h > m then h else m;
      forall x | x in hs ensures x <= n { if x != h { assert x in hs - {h}; } }
    }
  }

  // ---- from one create that may have a sandbox to two sandboxes ----

  /** Everything but the goroutine of `o` is as before, and records were only added. */
  ghost predicate Beyond(s: System, t: System, o: string) {
    && KindsKept(s.b.ops, t.b.ops)
    && (forall p | p in s.threads && p != o :: p in t.threads && t.threads[p] == s.threads[p])
    && (forall sb | sb in s.sandboxes :: sb in t.sandboxes && t.sandboxes[sb] == s.sandboxes[sb])
  }

  lemma PlaceHere(s: System, o: string, key: string, d: Discipline) returns (t: System, sb: string)
    requires Base(s) && Creates(s, o, key) && Keeps(d, key)
    requires o in s.threads && s.threads[o].Active? && s.threads[o].placed.None?
    ensures sb !in s.minted && sb != "" && To(s, Place(o, sb, true), t, d)
    ensures Base(t) && Beyond(s, t, o) && LiveOf(t, key, sb) && t.sandboxes[sb].op == o
  {
    sb := AnotherName(s.minted);
    t := Next(s, Place(o, sb, true));
    BaseStep(s, Place(o, sb, true));
  }

  lemma BeginHere(s: System, o: string, key: string, d: Discipline) returns (t: System)
    requires Base(s) && Creates(s, o, key) && Keeps(d, key) && o in s.threads && s.threads[o].Scheduled?
    ensures To(s, Begin(o), t, d) && Base(t) && Beyond(s, t, o) && Creates(t, o, key)
    ensures o in t.threads && t.threads[o].Active? && t.threads[o].placed.None?
  {
    t := Next(s, Begin(o));
    BaseStep(s, Begin(o));
    KindStays(s, Begin(o));
  }

  /** A create that has or may get a live sandbox gets to have one. */
  lemma MakesLive(s: System, o: string, key: string, d: Discipline) returns (steps: seq<Step>, t: System, sb: string)
    requires Base(s) && Creates(s, o, key) && Potent(s, o) && Keeps(d, key)
    ensures Leads(s, steps, t, d) && Base(t) && Beyond(s, t, o)
    ensures LiveOf(t, key, sb) && t.sandboxes[sb].op == o
  {
    if !Unplaced(s, o) {
      sb :| Live(s, sb) && s.sandboxes[sb].op == o;
      steps, t := [], s;
    } else if s.threads[o].Scheduled? {
      var s1 := BeginHere(s, o, key, d);
      t, sb := PlaceHere(s1, o, key, d);
      TwoSteps(s, Begin(o), s1, Place(o, sb, true), t, d);
      steps := [Begin(o)] + [Place(o, sb, true)];
    } else {
      t, sb := PlaceHere(s, o, key, d);
      OneStep(s, Place(o, sb, true), t, d);
      steps := [Place(o, sb, true)];
    }
  }

  /** The second start of a handler gives the unmapped key another create. */
  lemma StartsAgain(s: System, h: nat, key: string, d: Discipline) returns (t: System, id: string)
    requires Base(s) && h in s.handlers && s.handlers[h] == Again(key) && key !in s.b.idem && Keeps(d, key)
    ensures id !in s.b.ops && To(s, Retry(h, id), t, d) && Base(t)
    ensures Creates(t, id, key) && id in t.threads && t.threads[id].Scheduled?
    ensures KindsKept(s.b.ops, t.b.ops) && t.sandboxes == s.sandboxes && t.threads == s.threads[id := Scheduled]
  {
    id := AnotherName(s.b.ops.Keys);
    t := Next(s, Retry(h, id));
    BaseStep(s, Retry(h, id));
    KindStays(s, Retry(h, id));
  }

  lemma PotentAcross(s: System, t: System, o: string)
    requires Potent(s, o) && t.sandboxes == s.sandboxes
    requires o in s.threads ==> o in t.threads && t.threads[o] == s.threads[o]
    ensures Potent(t, o)
  {
    if !Unplaced(t, o) {
      var sb :| Live(s, sb) && s.sandboxes[sb].op == o;
      assert Live(t, sb);
    }
  }

  /** With the mapping to such a create dropped, the key gets a second live sandbox. */
  lemma Forks(s: System, o: string, h: nat, key: string, d: Discipline)
    returns (steps: seq<Step>, t: System, a: string, b: string)
    requires Base(s) && h in s.handlers && s.handlers[h] == Again(key) && key !in s.b.idem && Keeps(d, key)
    requires Creates(s, o, key) && Potent(s, o)
    ensures Leads(s, steps, t, d) && TwoLive(t, key, a, b)
  {
    var s1, id := StartsAgain(s, h, key, d);
    PotentAcross(s, s1, o);
    OneStep(s, Retry(h, id), s1, d);
    var first, s2;
    first, s2, a := MakesLive(s1, o, key, d);
    assert Unplaced(s2, id) && Creates(s2, id, key);
    var second;
    second, t, b := MakesLive(s2, id, key, d);
    Chain(s, [Retry(h, id)], s1, first, s2, d);
    Chain(s, [Retry(h, id)] + first, s2, second, t, d);
    steps := ([Retry(h, id)] + first) + second;
  }

  /** So does a handler that finds such a create's sandbox gone. */
  lemma GoneForks(s: System, key: string) returns (steps: seq<Step>, t: System, a: string, b: string)
    requires Base(s) && key in s.b.idem && Creates(s, s.b.idem[key], key)
    requires Potent(s, s.b.idem[key]) && SandboxGone(s, s.b.ops[s.b.idem[key]])
    ensures Leads(s, steps, t, Strict(key)) && TwoLive(t, key, a, b)
  {
    var h := AnotherHandler(s.handlers.Keys);
    var x := AnotherName(s.b.ops.Keys);
    var o := s.b.idem[key];
    var s1 := FindsGone(s, key, h, x);
    FoundBase(s, FindSteps(h, key, x), s1, Strict(key));
    PotentAcross(s, s1, o);
    var rest;
    rest, t, a, b := Forks(s1, o, h, key, Strict(key));
    Chain(s, FindSteps(h, key, x), s1, rest, t, Strict(key));
    steps := FindSteps(h, key, x) + rest;
  }

  lemma {:induction false} FoundBase(s: System, steps: seq<Step>, t: System, d: Discipline)
    requires Base(s) && Leads(s, steps, t, d)
    ensures Base(t)
    decreases |steps|
  {
    if steps != [] {
      BaseStep(s, steps[0]);
      FoundBase(Next(s, steps[0]), steps[1..], t, d);
    }
  }

  // ---- each part of the discipline is needed ----

  /** Whatever the key's handlers and goroutines do from here, undisturbed, it has at most one live sandbox. */
  ghost predicate Harmless(s: System, key: string) {
    forall steps, t | Leads(s, steps, t, Strict(key)) :: AtMostOne(t, key)
  }

  lemma HarmlessInv(s: System, key: string)
    requires Inv(s, key)
    ensures Harmless(s, key)
  {
    forall steps, t | Leads(s, steps, t, Strict(key)) ensures AtMostOne(t, key) {
      AtMostOneLivePerKey(s, steps, t, key, Strict(key));
    }
  }

  lemma ForkHarms(s: System, key: string, steps: seq<Step>, t: System, a: string, b: string)
    requires Leads(s, steps, t, Strict(key)) && TwoLive(t, key, a, b)
    ensures !Harmless(s, key)
  {
    assert !AtMostOne(t, key);
  }

  /** Dropping the mapping to a create that has or may get a live sandbox does harm. */
  lemma ClearHarms(s: System, h: nat, key: string)
    requires Inv(s, key) && Enabled(s, Clear(h)) && !Respects(s, Clear(h), Safe(key))
    ensures !Harmless(Next(s, Clear(h)), key)
  {
    var s1, o := Next(s, Clear(h)), s.b.idem[key];
    BaseStep(s, Clear(h));
    PotentIsCreate(s, o);
    PotentAcross(s, s1, o);
    var steps, t, a, b := Forks(s1, o, h, key, Strict(key));
    ForkHarms(s1, key, steps, t, a, b);
  }

  /** A remote placement, finished: the mapped create has a live sandbox that the lookup misses. */
  lemma RemoteStates(s: System, o: string, sb: string, key: string) returns (s1: System, s2: System)
    requires Inv(s, key) && Enabled(s, Place(o, sb, false)) && Creates(s, o, key)
    ensures s1 == Next(s, Place(o, sb, false)) && To(s1, Finish(o, RunOk(sb)), s2, Strict(key))
    ensures Base(s2) && key in s2.b.idem && s2.b.idem[key] == o && Creates(s2, o, key)
    ensures LiveOf(s2, key, sb) && s2.sandboxes[sb].op == o && SandboxGone(s2, s2.b.ops[o])
  {
    assert Unplaced(s, o) && Current(s, o);
    s1 := Next(s, Place(o, sb, false));
    BaseStep(s, Place(o, sb, false));
    s2 := Next(s1, Finish(o, RunOk(sb)));
    BaseStep(s1, Finish(o, RunOk(sb)));
  }

  /** Placing a keyed create's sandbox elsewhere does harm: once finished, the lookup misses it. */
  lemma PlaceHarms(s: System, o: string, sb: string, key: string)
    requires Inv(s, key) && Enabled(s, Place(o, sb, false)) && Creates(s, o, key)
    ensures !Harmless(Next(s, Place(o, sb, false)), key)
  {
    var end := Finish(o, RunOk(sb));
    var s1, s2 := RemoteStates(s, o, sb, key);
    OneStep(s1, end, s2, Strict(key));
    var steps, t, a, b := GoneForks(s2, key);
    Chain(s1, [end], s2, steps, t, Strict(key));
    ForkHarms(s1, key, [end] + steps, t, a, b);
  }

  /** The sandbox a rewritten create names goes away. */
  lemma ForeignGoes(s: System, o: string, key: string) returns (steps: seq<Step>, t: System)
    requires Base(s) && Creates(s, o, key) && Potent(s, o) && !Names(s, s.b.ops[o], o)
    ensures Leads(s, steps, t, Strict(key)) && Base(t) && t.b == s.b && Potent(t, o)
    ensures SandboxGone(t, t.b.ops[o])
  {
    var x := s.b.ops[o].sandboxID;
    t := Next(s, Delete(x));
    steps := [Delete(x)];
    OneStep(s, Delete(x), t, Strict(key));
    BaseStep(s, Delete(x));
    if !Unplaced(s, o) {
      var sb :| Live(s, sb) && s.sandboxes[sb].op == o;
      assert Live(t, sb) && t.sandboxes[sb].op == o;
    }
  }

  /** Another request that writes a foreign sandbox into a create that has or may get its own does harm. */
  lemma OtherRunHarms(s: System, step: Step, key: string)
    requires Inv(s, key) && step.OtherRuns? && Enabled(s, step) && !Respects(s, step, Safe(key))
    ensures !Harmless(Next(s, step), key)
  {
    var s1, o := Next(s, step), step.id;
    BaseStep(s, step);
    KindStays(s, step);
    PotentAcross(s, s1, o);
    assert Current(s, o);
    var first, s2 := ForeignGoes(s1, o, key);
    var steps, t, a, b := GoneForks(s2, key);
    Chain(s1, first, s2, steps, t, Strict(key));
    ForkHarms(s1, key, first + steps, t, a, b);
  }

  /** From every state within the invariant, a step of the code leaves the key with at most one live sandbox
      in every undisturbed continuation if and only if it is safe for the key. */
  lemma HarmlessIffSafe(s: System, step: Step, key: string)
    requires Inv(s, key) && Enabled(s, step)
    ensures Harmless(Next(s, step), key) <==> Respects(s, step, Safe(key))
  {
    if Respects(s, step, Safe(key)) {
      StepKeepsInv(s, step, key);
      HarmlessInv(Next(s, step), key);
    } else {
      match step {
        case Clear(h) => ClearHarms(s, h, key);
        case Place(o, sb, _) => PlaceHarms(s, o, sb, key);
        case OtherRuns(_, _, _, _) => OtherRunHarms(s, step, key);
      }
    }
  }

  /** Every state the run goes through is harmless. */
  ghost predicate HarmlessRun(s: System, steps: seq<Step>, key: string)
    decreases |steps|
  {
    Harmless(s, key) && (steps == [] || (Enabled(s, steps[0]) && HarmlessRun(Next(s, steps[0]), steps[1..], key)))
  }

  /** Over whole runs: a run of the code stays harmless for a key if and only if each of its steps is safe for it. */
  lemma {:induction false} HarmlessRunIffSafe(s: System, steps: seq<Step>, t: System, key: string)
    requires Inv(s, key) && Leads(s, steps, t, Any)
    ensures HarmlessRun(s, steps, key) <==> Leads(s, steps, t, Safe(key))
    decreases |steps|
  {
    HarmlessInv(s, key);
    if steps != [] {
      HarmlessIffSafe(s, steps[0], key);
      if Respects(s, steps[0], Safe(key)) {
        StepKeepsInv(s, steps[0], key);
        HarmlessRunIffSafe(Next(s, steps[0]), steps[1..], t, key);
      } else {
        assert !HarmlessRun(Next(s, steps[0]), steps[1..], key);
      }
    }
  }

  // ---- runs from a fresh node ----

  lemma FourSteps(s: System, w: Step, s1: System, x: Step, s2: System, y: Step, s3: System, z: Step, t: System)
    requires To(s, w, s1, Any) && To(s1, x, s2, Any) && To(s2, y, s3, Any) && To(s3, z, t, Any)
    ensures Leads(s, ([w] + [x]) + ([y] + [z]), t, Any)
  {
    TwoSteps(s, w, s1, x, s2, Any);
    TwoSteps(s2, y, s3, z, t, Any);
    Chain(s, [w] + [x], s2, [y] + [z], t, Any);
  }

  lemma {:induction false} AnyRun(s: System, steps: seq<Step>, t: System, d: Discipline)
    requires Leads(s, steps, t, d)
    ensures Leads(s, steps, t, Any)
    decreases |steps|
  {
    if steps != [] { AnyRun(Next(s, steps[0]), steps[1..], t, d); }
  }

  function ProvisionSteps(key: string, o: string, sb: string, here: bool): seq<Step> {
    ([Ask(0, key, o)] + [Begin(o)]) + ([Place(o, sb, here)] + [Finish(o, RunOk(sb))])
  }

  /** The node after one more finished create. */
  function Provisioned(s: System, key: string, o: string, sb: string, here: bool): System {
    s.(b := Buckets(s.b.ops[o := Operation(o, "provision", Done, sb, "", key)], s.b.idem[key := o]),
       sandboxes := s.sandboxes[sb := Sandbox(here, false, o)], minted := s.minted + {sb})
  }

  /** A fresh key and names. */
  predicate Vacant(s: System, key: string, o: string, sb: string) {
    && key != "" && key !in s.b.idem && o !in s.b.ops && o !in s.threads && 0 !in s.handlers
    && sb != "" && sb !in s.minted
  }

  lemma ProvisionStates(s: System, key: string, o: string, sb: string, here: bool) returns (s1: System, s2: System, s3: System)
    requires Vacant(s, key, o, sb)
    ensures To(s, Ask(0, key, o), s1, Any) && To(s1, Begin(o), s2, Any) && To(s2, Place(o, sb, here), s3, Any)
    ensures To(s3, Finish(o, RunOk(sb)), Provisioned(s, key, o, sb, here), Any)
  {
    var op := NewOp(o, "provision", key);
    s1 := s.(b := Buckets(s.b.ops[o := op], s.b.idem[key := o]), threads := s.threads[o := Scheduled]);
    s2 := Next(s1, Begin(o));
    s3 := Next(s2, Place(o, sb, here));
    assert s3.threads - {o} == s.threads;
    assert s3.b.ops[o := Finished(s3.threads[o].copy, RunOk(sb))] == Provisioned(s, key, o, sb, here).b.ops;
  }

  lemma ProvisionRun(s: System, key: string, o: string, sb: string, here: bool)
    requires Vacant(s, key, o, sb)
    ensures Leads(s, ProvisionSteps(key, o, sb, here), Provisioned(s, key, o, sb, here), Any)
  {
    var s1, s2, s3 := ProvisionStates(s, key, o, sb, here);
    FourSteps(s, Ask(0, key, o), s1, Begin(o), s2, Place(o, sb, here), s3, Finish(o, RunOk(sb)),
              Provisioned(s, key, o, sb, here));
  }

  function AgainSteps(key: string, x: string, id: string, sb: string, here: bool): seq<Step> {
    (FindSteps(0, key, x) + [Retry(0, id)]) + ([Begin(id)] + [Place(id, sb, here)])
  }

  lemma PlaceStates(s: System, id: string, sb: string, here: bool) returns (s1: System, t: System)
    requires id in s.threads && s.threads[id].Scheduled? && id in s.b.ops && sb !in s.minted && sb != ""
    ensures To(s, Begin(id), s1, Any) && To(s1, Place(id, sb, here), t, Any)
    ensures t.sandboxes == s.sandboxes[sb := Sandbox(here, false, id)]
    ensures t.b.ops == s.b.ops[id := s.b.ops[id].(state := Running)]
  {
    s1 := Next(s, Begin(id));
    t := Next(s1, Place(id, sb, here));
  }

  /** A retry that finds the first sandbox gone, although it is live, ends with two. */
  lemma RetryDuplicates(s: System, key: string, x: string, id: string, first: string, second: string, here: bool)
    returns (t: System)
    requires Mappings(s.b) && key in s.b.idem && SandboxGone(s, s.b.ops[s.b.idem[key]]) && LiveOf(s, key, first)
    requires 0 !in s.handlers && x !in s.b.ops && id !in s.b.ops && second !in s.minted && second != "" && second != first
    ensures Leads(s, AgainSteps(key, x, id, second, here), t, Any) && TwoLive(t, key, first, second)
  {
    var s1 := RetryAfterGone(s, key, 0, x, id);
    AnyRun(s, FindSteps(0, key, x) + [Retry(0, id)], s1, Strict(key));
    var s2;
    s2, t := PlaceStates(s1, id, second, here);
    AgainRun(s, FindSteps(0, key, x) + [Retry(0, id)], s1, Begin(id), s2, Place(id, second, here), t);
  }

  lemma AgainRun(s: System, steps: seq<Step>, s1: System, x: Step, s2: System, y: Step, t: System)
    requires Leads(s, steps, s1, Any) && To(s1, x, s2, Any) && To(s2, y, t, Any)
    ensures Leads(s, steps + ([x] + [y]), t, Any)
  {
    TwoSteps(s1, x, s2, y, t, Any);
    Chain(s, steps, s1, [x] + [y], t, Any);
  }

  /** With placement on another node the lookup misses the live sandbox, and a retry of the same key
      places a second one. */
  lemma RemotePlacementDuplicates(key: string, o: string, x: string, id: string, first: string, second: string)
    returns (t: System)
    requires key != "" && first != "" && second != "" && first != second && o != x && o != id
    ensures Leads(FRESH, ProvisionSteps(key, o, first, false) + AgainSteps(key, x, id, second, false), t, Any)
    ensures TwoLive(t, key, first, second)
  {
    var s := Provisioned(FRESH, key, o, first, false);
    ProvisionRun(FRESH, key, o, first, false);
    t := RetryDuplicates(s, key, x, id, first, second, false);
    Chain(FRESH, ProvisionSteps(key, o, first, false), s, AgainSteps(key, x, id, second, false), t, Any);
  }

  /** What an agent run on `sb` with the create's key does: it is handed the create's operation and runs it;
      later its sandbox is deleted. */
  function AgentSteps(key: string, o: string, x: string, sb: string): seq<Step> {
    ([StartOther("agent-run", key, x)] + [OtherRuns(o, Running, sb, "")]) + ([OtherRuns(o, Done, sb, "")] + [Delete(sb)])
  }

  lemma AgentStates(s: System, key: string, o: string, x: string, sb: string)
    returns (s1: System, s2: System, s3: System, t: System)
    requires Mappings(s.b) && key in s.b.idem && s.b.idem[key] == o && x !in s.b.ops && sb != ""
    ensures To(s, StartOther("agent-run", key, x), s1, Any) && To(s1, OtherRuns(o, Running, sb, ""), s2, Any)
    ensures To(s2, OtherRuns(o, Done, sb, ""), s3, Any) && To(s3, Delete(sb), t, Any)
    ensures o in s.b.ops && t.b == s.b.(ops := s.b.ops[o := s.b.ops[o].(state := Done, sandboxID := sb, error := "")])
    ensures t.sandboxes == s.sandboxes - {sb} && t.minted == s.minted && t.handlers == s.handlers
  {
    s1 := Next(s, StartOther("agent-run", key, x));
    s2 := Next(s1, OtherRuns(o, Running, sb, ""));
    s3 := Next(s2, OtherRuns(o, Done, sb, ""));
    t := Next(s3, Delete(sb));
  }

  /** Afterwards the create's own sandbox is still there, and its operation's is gone. */
  lemma AgentRun(s: System, key: string, o: string, x: string, sb: string) returns (t: System)
    requires Mappings(s.b) && key in s.b.idem && s.b.idem[key] == o && x !in s.b.ops && sb != ""
    ensures Leads(s, AgentSteps(key, o, x, sb), t, Any)
    ensures Mappings(t.b) && t.b.idem == s.b.idem && t.b.ops.Keys == s.b.ops.Keys && SandboxGone(t, t.b.ops[o])
    ensures forall f | LiveOf(s, key, f) && f != sb :: LiveOf(t, key, f)
    ensures t.minted == s.minted && t.handlers == s.handlers
  {
    var s1, s2, s3;
    s1, s2, s3, t := AgentStates(s, key, o, x, sb);
    FourSteps(s, StartOther("agent-run", key, x), s1, OtherRuns(o, Running, sb, ""), s2,
              OtherRuns(o, Done, sb, ""), s3, Delete(sb), t);
  }

  lemma TwoProvisioned(key: string, key2: string, o: string, o2: string, first: string, other: string) returns (s1: System, s2: System)
    requires key != "" && key2 != "" && key != key2 && o != o2 && first != "" && other != "" && first != other
    ensures Leads(FRESH, ProvisionSteps(key, o, first, true), s1, Any) && Leads(s1, ProvisionSteps(key2, o2, other, true), s2, Any)
    ensures Mappings(s2.b) && key in s2.b.idem && s2.b.idem[key] == o && s2.b.ops.Keys == {o, o2}
    ensures LiveOf(s2, key, first) && s2.minted == {first, other} && s2.handlers == map[]
  {
    s1 := Provisioned(FRESH, key, o, first, true);
    s2 := Provisioned(s1, key2, o2, other, true);
    ProvisionRun(FRESH, key, o, first, true);
    ProvisionRun(s1, key2, o2, other, true);
  }

  lemma FourRuns(s: System, a: seq<Step>, s1: System, b: seq<Step>, s2: System, c: seq<Step>, s3: System, d: seq<Step>, t: System)
    requires Leads(s, a, s1, Any) && Leads(s1, b, s2, Any) && Leads(s2, c, s3, Any) && Leads(s3, d, t, Any)
    ensures Leads(s, ((a + b) + c) + d, t, Any)
  {
    Chain(s, a, s1, b, s2, Any);
    Chain(s, a + b, s2, c, s3, Any);
    Chain(s, (a + b) + c, s3, d, t, Any);
  }

  /** Two sandboxes under two keys; an agent run on the second with the first one's key leaves the second
      one's name in the first one's operation. Once the second is deleted, a retry of the first key
      places a second sandbox beside the first. */
  lemma SharedKeyDuplicates(key: string, key2: string, o: string, o2: string, x: string, id: string,
                            first: string, other: string, second: string) returns (t: System)
    requires key != "" && key2 != "" && key != key2 && o != o2 && x !in {o, o2} && id !in {o, o2}
    requires first != "" && other != "" && second != "" && first != other && second !in {first, other}
    ensures Leads(FRESH, ((ProvisionSteps(key, o, first, true) + ProvisionSteps(key2, o2, other, true))
                          + AgentSteps(key, o, x, other)) + AgainSteps(key, x, id, second, true), t, Any)
    ensures TwoLive(t, key, first, second)
  {
    var s1, s2 := TwoProvisioned(key, key2, o, o2, first, other);
    var s3 := AgentRun(s2, key, o, x, other);
    t := RetryDuplicates(s3, key, x, id, first, second, true);
    FourRuns(FRESH, ProvisionSteps(key, o, first, true), s1, ProvisionSteps(key2, o2, other, true), s2,
              AgentSteps(key, o, x, other), s3, AgainSteps(key, x, id, second, true), t);
  }

  function AskTwice(key: string, x: string): seq<Step> { ([Ask(0, key, x)] + [Ask(1, key, x)]) + ([Check(0)] + [Check(1)]) }

  function ClearTwice(x: string, y: string): seq<Step> { ([Clear(0)] + [Retry(0, x)]) + ([Clear(1)] + [Retry(1, y)]) }

  /** Two handlers find the sandbox gone before either clears. */
  lemma AskTwiceRun(s: System, key: string, x: string) returns (t: System)
    requires Mappings(s.b) && key in s.b.idem && SandboxGone(s, s.b.ops[s.b.idem[key]]) && s.handlers == map[] && x !in s.b.ops
    ensures Leads(s, AskTwice(key, x), t, Any)
    ensures t == s.(handlers := map[0 := Clearing(key, s.b.idem[key]), 1 := Clearing(key, s.b.idem[key])])
  {
    var s1 := Next(s, Ask(0, key, x));
    var s2 := Next(s1, Ask(1, key, x));
    var s3 := Next(s2, Check(0));
    t := Next(s3, Check(1));
    FourSteps(s, Ask(0, key, x), s1, Ask(1, key, x), s2, Check(0), s3, Check(1), t);
  }

  /** The second one drops the mapping the first one made. */
  lemma ClearTwiceRun(s: System, key: string, o: string, x: string, y: string) returns (t: System)
    requires key != "" && x !in s.b.ops && y !in s.b.ops && x != y
    requires s.handlers == map[0 := Clearing(key, o), 1 := Clearing(key, o)]
    ensures Leads(s, ClearTwice(x, y), t, Any)
    ensures t.b.ops == s.b.ops[x := NewOp(x, "provision", key)][y := NewOp(y, "provision", key)]
    ensures t.threads == s.threads[x := Scheduled][y := Scheduled] && t.sandboxes == s.sandboxes && t.minted == s.minted
  {
    var s1 := Next(s, Clear(0));
    var s2 := Next(s1, Retry(0, x));
    var s3 := Next(s2, Clear(1));
    t := Next(s3, Retry(1, y));
    FourSteps(s, Clear(0), s1, Retry(0, x), s2, Clear(1), s3, Retry(1, y), t);
  }

  function BothPlace(x: string, first: string, y: string, second: string): seq<Step> {
    ([Begin(x)] + [Place(x, first, true)]) + ([Begin(y)] + [Place(y, second, true)])
  }

  lemma BothPlaceRun(s: System, key: string, x: string, y: string, first: string, second: string) returns (t: System)
    requires x != y && x in s.threads && s.threads[x].Scheduled? && y in s.threads && s.threads[y].Scheduled?
    requires x in s.b.ops && y in s.b.ops && s.b.ops[x].idempKey == key == s.b.ops[y].idempKey
    requires first !in s.minted && second !in s.minted && first != second && first != "" && second != ""
    ensures Leads(s, BothPlace(x, first, y, second), t, Any) && TwoLive(t, key, first, second)
  {
    var s1, s2 := PlaceStates(s, x, first, true);
    var s3;
    assert s2.threads[y] == s.threads[y] && s2.minted == s.minted + {first};
    s3, t := PlaceStates(s2, y, second, true);
    FourSteps(s, Begin(x), s1, Place(x, first, true), s2, Begin(y), s3, Place(y, second, true), t);
  }

  /** Two overlapping retries of a deleted sandbox: both pass the gone check, the second clears the mapping
      the first one just made, both get a fresh operation, and both place a sandbox. */
  lemma OverlappingRetriesFork(key: string, o: string, x: string, y: string, gone: string, first: string, second: string)
    returns (deleted: System, asked: System, cleared: System, t: System)
    requires key != "" && o != x && o != y && x != y
    requires gone != "" && first != "" && second != "" && gone != first && gone != second && first != second
    ensures Leads(FRESH, ProvisionSteps(key, o, gone, true) + [Delete(gone)], deleted, Any)
    ensures Leads(deleted, AskTwice(key, x), asked, Any) && Leads(asked, ClearTwice(x, y), cleared, Any)
    ensures Leads(cleared, BothPlace(x, first, y, second), t, Any) && TwoLive(t, key, first, second)
  {
    var s := Provisioned(FRESH, key, o, gone, true);
    ProvisionRun(FRESH, key, o, gone, true);
    deleted := Next(s, Delete(gone));
    OneStep(s, Delete(gone), deleted, Any);
    Chain(FRESH, ProvisionSteps(key, o, gone, true), s, [Delete(gone)], deleted, Any);
    asked := AskTwiceRun(deleted, key, x);
    cleared := ClearTwiceRun(asked, key, o, x, y);
    t := BothPlaceRun(cleared, key, x, y, first, second);
  }
}
