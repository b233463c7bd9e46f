/** Operations and the goroutines that run them. Some handlers run whatever operation their key is mapped
    to, so an operation can have several runs, each with its own copy of the operation. */
module OperationRuns {
  import opened Common
  import opened Operations

  /** A goroutine: started for an operation, or holding its copy of it. */
  datatype Thread = Scheduled(op: string) | Active(copy: Operation)

  datatype System = System(b: Buckets, threads: map<nat, Thread>)

  datatype Step =
    | Request(opType: string, key: string, id: string, t: nat, regardless: bool)
    | Clear(key: string)
    | Begin(t: nat)
    | Finish(t: nat, r: RunResult)
    | Restart                        // goroutines die; recovery runs at boot

  predicate Enabled(s: System, step: Step) {
    match step
    case Request(_, _, id, t, _) => id !in s.b.ops && t !in s.threads
    case Begin(t) => t in s.threads && s.threads[t].Scheduled?
    case Finish(t, _) => t in s.threads && s.threads[t].Active?
    case _ => true
  }

  /** The operation a request gets back. */
  function Answer(b: Buckets, key: string, id: string): string {
    if Mapped(b, key).Some? then Mapped(b, key).value.id else id
  }

  function Next(s: System, step: Step): System
    requires Enabled(s, step)
  {
    match step
    case Request(opType, key, id, t, regardless) =>
      System(Started(s.b, opType, key, id),
             if Mapped(s.b, key).None? || regardless then s.threads[t := Scheduled(Answer(s.b, key, id))] else s.threads)
    case Clear(key) => s.(b := Cleared(s.b, key))
    case Begin(t) =>
      var o := s.threads[t].op;
      if o !in s.b.ops then s.(threads := s.threads - {t})
      else
        var copy := s.b.ops[o].(state := Running);
        System(s.b.(ops := s.b.ops[o := copy]), s.threads[t := Active(copy)])
    case Finish(t, r) =>
      var copy := s.threads[t].copy;
      System(s.b.(ops := s.b.ops[copy.id := Finished(copy, r)]), s.threads - {t})
    case Restart => System(Recovered(s.b), map[])
  }

  /** Beginning a run on an operation that is neither finished nor running already. */
  predicate Timely(s: System, step: Step)
    requires Enabled(s, step)
  {
    step.Begin? && s.threads[step.t].op in s.b.ops ==>
      var o := s.threads[step.t].op;
      !Terminal(s.b.ops[o]) && forall u | u in s.threads && s.threads[u].Active? :: s.threads[u].copy.id != o
  }

  /** All steps can happen where they stand, every run beginning in time. */
  ghost predicate TimelyRun(s: System, steps: seq<Step>)
    decreases |steps|
  {
    steps == [] || (Enabled(s, steps[0]) && Timely(s, steps[0]) && TimelyRun(Next(s, steps[0]), steps[1..]))
  }

  ghost function Run(s: System, steps: seq<Step>): System
    decreases |steps|
  {
    if steps == [] || !Enabled(s, steps[0]) then s else Run(Next(s, steps[0]), steps[1..])
  }

  predicate Edge(a: OpState, b: OpState) {
    || a == b
    || (a == Pending && (b == Running || b == Error))
    || (a == Running && (b == Done || b == Error))
  }

  /** The step moves every operation along pending, running, done or error, and changes no finished one. */
  ghost predicate Conforms(s: System, step: Step)
    requires Enabled(s, step)
  {
    forall id | id in s.b.ops ::
      && id in Next(s, step).b.ops
      && Edge(s.b.ops[id].state, Next(s, step).b.ops[id].state)
      && (Terminal(s.b.ops[id]) ==> Next(s, step).b.ops[id] == s.b.ops[id])
  }

  /** So does every step of the run. */
  ghost predicate Conforming(s: System, steps: seq<Step>)
    decreases |steps|
  {
    steps == [] || (Enabled(s, steps[0]) && Conforms(s, steps[0]) && Conforming(Next(s, steps[0]), steps[1..]))
  }

  /** Mappings lead to operations with that key; a goroutine's copy is what is stored, and no two
      goroutines hold a copy of the same operation. */
  ghost predicate Sound(s: System) {
    && Filed(s.b)
    && (forall k | k in s.b.idem :: s.b.idem[k] in s.b.ops && s.b.ops[s.b.idem[k]].idempKey == k)
    && (forall t | t in s.threads && s.threads[t].Active? ::
          var copy := s.threads[t].copy;
          copy.state == Running && copy.id in s.b.ops && s.b.ops[copy.id] == copy)
    && (forall t, u | t in s.threads && u in s.threads && s.threads[t].Active? && s.threads[u].Active? && t != u ::
          s.threads[t].copy.id != s.threads[u].copy.id)
  }

  lemma ConformsStep(s: System, step: Step)
    requires Sound(s) && Enabled(s, step) && Timely(s, step)
    ensures Conforms(s, step)
  {}

  lemma SoundStep(s: System, step: Step)
    requires Sound(s) && Enabled(s, step) && Timely(s, step)
    ensures Sound(Next(s, step))
  {}

  /** In every run whose goroutines begin in time, every operation's history is a path pending, running,
      done or error, finished operations never change, mappings lead to operations, and a restart
      leaves nothing unfinished. */
  lemma {:induction false} OperationLifeCycle(s: System, steps: seq<Step>)
    requires Sound(s) && TimelyRun(s, steps)
    ensures Conforming(s, steps) && Sound(Run(s, steps))
    ensures steps != [] && steps[|steps| - 1].Restart? ==>
              forall o | o in Run(s, steps).b.ops :: Terminal(Run(s, steps).b.ops[o])
    decreases |steps|
  {
    if steps != [] {
      ConformsStep(s, steps[0]);
      SoundStep(s, steps[0]);
      OperationLifeCycle(Next(s, steps[0]), steps[1..]);
      assert steps[1..] != [] ==> steps[1..][|steps| - 2] == steps[|steps| - 1];
    }
  }

  // ---- exactly when ----

  lemma ConformingFirst(s: System, first: Step, rest: seq<Step>)
    requires Enabled(s, first)
    ensures Conforming(s, [first] + rest) <==> Conforms(s, first) && Conforming(Next(s, first), rest)
  {
    assert ([first] + rest)[1..] == rest;
  }

  /** A second run that begins on a finished operation changes it at once; one that begins beside another
      changes it when both finish, the first with success and the second with an error. */
  lemma UntimelyBreaks(s: System, t: nat) returns (rest: seq<Step>)
    requires Sound(s) && Enabled(s, Begin(t)) && !Timely(s, Begin(t))
    ensures TimelyRun(Next(s, Begin(t)), rest) && !Conforming(s, [Begin(t)] + rest)
  {
    var o, s1 := s.threads[t].op, Next(s, Begin(t));
    if Terminal(s.b.ops[o]) {
      rest := [];
      ConformingFirst(s, Begin(t), rest);
    } else {
      var u :| u in s.threads && s.threads[u].Active? && s.threads[u].copy.id == o;
      var ok, err := Finish(u, RunOk("")), Finish(t, RunError(""));
      rest := [ok] + [err];
      var s2 := Next(s1, ok);
      assert s2.b.ops[o].state == Done && Next(s2, err).b.ops[o].state == Error;
      assert !Conforms(s2, err);
      ConformingFirst(s, Begin(t), rest);
      ConformingFirst(s1, ok, [err]);
      ConformingFirst(s2, err, []);
      assert rest[1..] == [err] && [err][1..] == [];
      assert [err] == [err] + [];
      assert TimelyRun(Next(s2, err), [err][1..]);
      assert TimelyRun(s2, [err]);
    }
  }

  /** The life cycle holds in every continuation of a run's beginning if and only if the operation was
      neither finished nor running. */
  lemma LifeCycleIffTimely(s: System, t: nat)
    requires Sound(s) && Enabled(s, Begin(t))
    ensures (forall rest | TimelyRun(Next(s, Begin(t)), rest) :: Conforming(s, [Begin(t)] + rest)) <==> Timely(s, Begin(t))
  {
    if Timely(s, Begin(t)) {
      ConformsStep(s, Begin(t));
      SoundStep(s, Begin(t));
      forall rest | TimelyRun(Next(s, Begin(t)), rest) ensures Conforming(s, [Begin(t)] + rest) {
        OperationLifeCycle(Next(s, Begin(t)), rest);
        ConformingFirst(s, Begin(t), rest);
      }
    } else {
      var rest := UntimelyBreaks(s, t);
    }
  }

  /** Two agent runs with one key reach that: both run the operation the first one created, and what was
      done becomes an error. */
  lemma RepeatedKeyRunsTwice(s: System, key: string, x: string, y: string, t: nat, u: nat)
    returns (s2: System, s4: System, s5: System)
    requires Sound(s) && key != "" && key !in s.b.idem && x !in s.b.ops && y !in s.b.ops && x != y
    requires t !in s.threads && u !in s.threads && t != u
    ensures Enabled(s, Request("agent-run", key, x, t, true))
    ensures var s1 := Next(s, Request("agent-run", key, x, t, true));
            Enabled(s1, Request("agent-run", key, y, u, true)) && s2 == Next(s1, Request("agent-run", key, y, u, true))
    ensures Enabled(s2, Begin(t)) && var s3 := Next(s2, Begin(t)); Enabled(s3, Begin(u)) && s4 == Next(s3, Begin(u))
    ensures Enabled(s4, Finish(t, RunOk(""))) && s5 == Next(s4, Finish(t, RunOk("")))
    ensures x in s5.b.ops && s5.b.ops[x].state == Done
    ensures Enabled(s5, Finish(u, RunError("exit 1"))) && Next(s5, Finish(u, RunError("exit 1"))).b.ops[x].state == Error
  {
    var s1 := Next(s, Request("agent-run", key, x, t, true));
    s2 := Next(s1, Request("agent-run", key, y, u, true));
    s4 := Next(Next(s2, Begin(t)), Begin(u));
    s5 := Next(s4, Finish(t, RunOk("")));
  }
}
