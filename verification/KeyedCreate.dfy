/** Keyed sandbox creates over crashes: handlers in their four steps, the goroutines they start, other
    requests, deletes, losses and restarts, interleaved. What a run must respect for the guarantees of one
    key is a `Discipline` on that key's own creates and handlers; other keys and unkeyed creates may do
    anything. `KeyedCreateFailures` shows that each part of it is needed. */
module KeyedCreate {
  import opened Common
  import opened Operations

  /** A sandbox record: whether it is on this node, lost, and which operation created it. */
  datatype Sandbox = Sandbox(here: bool, lost: bool, op: string)

  /** A create's goroutine: not yet begun, or holding its copy of the operation and the sandbox it placed. */
  datatype Thread = Scheduled | Active(copy: Operation, placed: Option<string>)

  /** A create handler whose key was mapped: about to look at the sandbox, found it gone, dropped the mapping. */
  datatype Handler = Checking(key: string, copy: Operation) | Clearing(key: string, op: string) | Again(key: string)

  datatype System = System(b: Buckets, threads: map<string, Thread>, sandboxes: map<string, Sandbox>,
                           minted: set<string>, handlers: map<nat, Handler>)

  /** Only this node's records are consulted. */
  predicate SandboxGone(s: System, op: Operation) {
    && op.state == Done && op.sandboxID != ""
    && !(op.sandboxID in s.sandboxes && s.sandboxes[op.sandboxID].here && !s.sandboxes[op.sandboxID].lost)
  }

  datatype Step =
    | Ask(h: nat, key: string, id: string)                  // the handler's first start
    | Check(h: nat)
    | Clear(h: nat)
    | Retry(h: nat, id: string)                             // the handler's second start
    | StartOther(opType: string, key: string, id: string)   // any other request
    | OtherRuns(id: string, state: OpState, sandboxID: string, error: string)  // what its runs write, however many
    | Begin(id: string)
    | Place(id: string, sandbox: string, here: bool)        // the goroutine's placement creates a record
    | Finish(id: string, r: RunResult)
    | Delete(sandbox: string)
    | Lose(sandbox: string)
    | Restart                                               // handlers and goroutines die; recovery runs at boot

  /** What the code can do. */
  predicate Enabled(s: System, step: Step) {
    match step
    case Ask(h, _, id) => h !in s.handlers && id !in s.b.ops
    case Check(h) => h in s.handlers && s.handlers[h].Checking?
    case Clear(h) => h in s.handlers && s.handlers[h].Clearing?
    case Retry(h, id) => h in s.handlers && s.handlers[h].Again? && id !in s.b.ops
    case StartOther(opType, _, id) => id !in s.b.ops && opType != "provision"
    case OtherRuns(id, _, _, _) => id in s.b.ops
    case Begin(id) => id in s.threads && s.threads[id].Scheduled? && id in s.b.ops
    case Place(id, sandbox, _) =>
      && id in s.threads && s.threads[id].Active? && s.threads[id].placed.None?
      && sandbox !in s.minted && sandbox != ""
    case Finish(id, r) =>
      && id in s.threads && s.threads[id].Active?
      && (r.RunOk? ==> s.threads[id].placed == Some(r.sandboxID))
    case _ => true
  }

  /** A create starts an operation and its goroutine, unless the key is mapped. */
  function Created(s: System, key: string, id: string): System {
    if Mapped(s.b, key).Some? then s
    else s.(b := Started(s.b, "provision", key, id), threads := s.threads[id := Scheduled])
  }

  function Next(s: System, step: Step): System
    requires Enabled(s, step)
  {
    match step
    case Ask(h, key, id) =>
      var m := Mapped(s.b, key);
      if m.Some? then s.(handlers := s.handlers[h := Checking(key, m.value)]) else Created(s, key, id)
    case Check(h) =>
      var c := s.handlers[h];
      s.(handlers := if SandboxGone(s, c.copy) then s.handlers[h := Clearing(c.key, c.copy.id)] else s.handlers - {h})
    case Clear(h) => s.(b := Cleared(s.b, s.handlers[h].key), handlers := s.handlers[h := Again(s.handlers[h].key)])
    case Retry(h, id) => Created(s, s.handlers[h].key, id).(handlers := s.handlers - {h})
    case StartOther(opType, key, id) => s.(b := Started(s.b, opType, key, id))
    case OtherRuns(id, state, sandboxID, error) =>
      s.(b := s.b.(ops := s.b.ops[id := s.b.ops[id].(state := state, sandboxID := sandboxID, error := error)]))
    case Begin(id) =>
      var op := s.b.ops[id].(state := Running);
      s.(b := s.b.(ops := s.b.ops[id := op]), threads := s.threads[id := Active(op, None)])
    case Place(id, sandbox, here) =>
      s.(sandboxes := s.sandboxes[sandbox := Sandbox(here, false, id)], minted := s.minted + {sandbox},
         threads := s.threads[id := s.threads[id].(placed := Some(sandbox))])
    case Finish(id, r) =>
      s.(b := s.b.(ops := s.b.ops[id := Finished(s.threads[id].copy, r)]), threads := s.threads - {id})
    case Delete(sandbox) => s.(sandboxes := s.sandboxes - {sandbox})
    case Lose(sandbox) =>
      if sandbox in s.sandboxes then s.(sandboxes := s.sandboxes[sandbox := s.sandboxes[sandbox].(lost := true)]) else s
    case Restart => s.(b := Recovered(s.b), threads := map[], handlers := map[])
  }

  // ---- what a run must respect for one key ----

  /** `o` is a create with this key. */
  predicate Creates(s: System, o: string, key: string) {
    o in s.b.ops && s.b.ops[o].opType == "provision" && s.b.ops[o].idempKey == key
  }

  predicate Live(s: System, sandbox: string) { sandbox in s.sandboxes && !s.sandboxes[sandbox].lost }

  /** The operation's goroutine has yet to place its sandbox. */
  predicate Unplaced(s: System, o: string) {
    o in s.threads && (s.threads[o].Scheduled? || s.threads[o].placed.None?)
  }

  /** The operation has a live sandbox or may still place one. */
  ghost predicate Potent(s: System, o: string) {
    Unplaced(s, o) || exists sb :: Live(s, sb) && s.sandboxes[sb].op == o
  }

  /** If the operation is done, the sandbox it names is a record of `o`. */
  predicate Names(s: System, op: Operation, o: string) {
    op.state == Done && op.sandboxID != "" ==> op.sandboxID in s.sandboxes && s.sandboxes[op.sandboxID].op == o
  }

  function Rewritten(op: Operation, step: Step): Operation
    requires step.OtherRuns?
  {
    op.(state := step.state, sandboxID := step.sandboxID, error := step.error)
  }

  /** What is asked of a run: nothing; what keeps a key to one live sandbox; or what also keeps a retry
      on its original operation. */
  datatype Discipline = Any | Safe(key: string) | Strict(key: string)

  /** Safe: the key's creates are placed on this node, no other request writes a foreign sandbox into a
      create that has or may get its own, and no mapping to such a create is dropped. Strict: other
      requests do not change the key's creates, and a handler drops only the mapping it found gone. */
  ghost predicate Respects(s: System, step: Step, d: Discipline)
    requires Enabled(s, step)
  {
    match d
    case Any => true
    case Safe(key) =>
      (match step
       case Place(o, _, here) => Creates(s, o, key) ==> here
       case OtherRuns(o, _, _, _) => Creates(s, o, key) && Potent(s, o) ==> Names(s, Rewritten(s.b.ops[o], step), o)
       case Clear(h) => s.handlers[h].key == key && key in s.b.idem ==> !Potent(s, s.b.idem[key])
       case _ => true)
    case Strict(key) =>
      (match step
       case Place(o, _, here) => Creates(s, o, key) ==> here
       case OtherRuns(o, _, _, _) => Creates(s, o, key) ==> Rewritten(s.b.ops[o], step) == s.b.ops[o]
       case Clear(h) => s.handlers[h].key == key && key in s.b.idem ==> s.b.idem[key] == s.handlers[h].op
       case _ => true)
  }

  /** A run from `s` to `t` under a discipline. */
  ghost predicate Leads(s: System, steps: seq<Step>, t: System, d: Discipline)
    decreases |steps|
  {
    if steps == [] then t == s
    else Enabled(s, steps[0]) && Respects(s, steps[0], d) && Leads(Next(s, steps[0]), steps[1..], t, d)
  }

  // ---- what every run of the code keeps ----

  /** Mappings lead to operations with that key. */
  ghost predicate Mappings(b: Buckets) {
    Filed(b) && forall k | k in b.idem :: k != "" && b.idem[k] in b.ops && b.ops[b.idem[k]].idempKey == k
  }

  /** The copy is of that operation. */
  predicate CopyOf(ops: map<string, Operation>, copy: Operation, o: string) {
    o in ops && copy.id == o && copy.opType == ops[o].opType && copy.idempKey == ops[o].idempKey
  }

  /** Goroutines belong to creates and hold a copy of theirs; what they placed is minted. */
  ghost predicate Goroutines(threads: map<string, Thread>, ops: map<string, Operation>, minted: set<string>) {
    forall o | o in threads ::
      && o in ops && ops[o].opType == "provision"
      && (threads[o].Active? ==> CopyOf(ops, threads[o].copy, o))
      && (threads[o].Active? && threads[o].placed.Some? ==> threads[o].placed.value in minted)
  }

  /** Records are minted and owned by creates; a goroutine still there placed its record. */
  ghost predicate Owned(sandboxes: map<string, Sandbox>, threads: map<string, Thread>,
                        ops: map<string, Operation>, minted: set<string>) {
    forall sb | sb in sandboxes ::
      var o := sandboxes[sb].op;
      && sb in minted && o in ops && ops[o].opType == "provision"
      && (o in threads ==> threads[o].Active? && threads[o].placed == Some(sb))
  }

  /** Each create owns at most one record. */
  ghost predicate OneRecord(sandboxes: map<string, Sandbox>) {
    forall a, b | a in sandboxes && b in sandboxes && sandboxes[a].op == sandboxes[b].op :: a == b
  }

  /** Handlers deal with operations of their key. */
  ghost predicate Handling(handlers: map<nat, Handler>, ops: map<string, Operation>) {
    forall h | h in handlers ::
      && handlers[h].key != ""
      && (handlers[h].Checking? ==> CopyOf(ops, handlers[h].copy, handlers[h].copy.id) && handlers[h].copy.idempKey == handlers[h].key)
      && (handlers[h].Clearing? ==> handlers[h].op in ops && ops[handlers[h].op].idempKey == handlers[h].key)
  }

  ghost predicate Base(s: System) {
    && Mappings(s.b) && Goroutines(s.threads, s.b.ops, s.minted) && OneRecord(s.sandboxes)
    && Owned(s.sandboxes, s.threads, s.b.ops, s.minted) && Handling(s.handlers, s.b.ops)
  }

  /** No operation disappears or changes its kind or key. */
  ghost predicate KindsKept(ops: map<string, Operation>, more: map<string, Operation>) {
    forall o | o in ops :: o in more && CopyOf(ops, more[o], ops[o].id) && more[o].id == ops[o].id
  }

  lemma KindStays(s: System, step: Step)
    requires Filed(s.b) && Goroutines(s.threads, s.b.ops, s.minted) && Enabled(s, step)
    ensures KindsKept(s.b.ops, Next(s, step).b.ops)
  {}

  lemma StartedMappings(b: Buckets, opType: string, key: string, id: string)
    requires Mappings(b) && id !in b.ops
    ensures Mappings(Started(b, opType, key, id))
  {}

  lemma MappingsStep(s: System, step: Step)
    requires Mappings(s.b) && Goroutines(s.threads, s.b.ops, s.minted) && Enabled(s, step)
    ensures Mappings(Next(s, step).b)
  {
    match step {
      case Ask(_, key, id) => StartedMappings(s.b, "provision", key, id);
      case Retry(h, id) => StartedMappings(s.b, "provision", s.handlers[h].key, id);
      case StartOther(opType, key, id) => StartedMappings(s.b, opType, key, id);
      case _ => KindStays(s, step);
    }
  }

  lemma GoroutinesStep(s: System, step: Step)
    requires Mappings(s.b) && Goroutines(s.threads, s.b.ops, s.minted) && Enabled(s, step)
    ensures var t := Next(s, step); Goroutines(t.threads, t.b.ops, t.minted)
  {
    KindStays(s, step);
  }

  /** A goroutine goes on with what it placed, unless it is placing now. */
  lemma PlacedStays(s: System, step: Step)
    requires Goroutines(s.threads, s.b.ops, s.minted) && Enabled(s, step)
    ensures var t := Next(s, step);
            forall o | o in t.threads && o in s.b.ops && !(step.Place? && step.id == o) ::
              o in s.threads && (s.threads[o].Active? ==> t.threads[o].Active? && t.threads[o].placed == s.threads[o].placed)
  {}

  lemma RecordsFrom(s: System, step: Step)
    requires Enabled(s, step)
    ensures var t := Next(s, step);
            && s.minted <= t.minted
            && forall sb | sb in t.sandboxes && !(step.Place? && sb == step.sandbox) ::
                 sb in s.sandboxes && t.sandboxes[sb].op == s.sandboxes[sb].op
  {}

  lemma PlaceOwned(s: System, step: Step)
    requires Goroutines(s.threads, s.b.ops, s.minted) && Owned(s.sandboxes, s.threads, s.b.ops, s.minted)
    requires Enabled(s, step) && step.Place?
    ensures var t := Next(s, step); Owned(t.sandboxes, t.threads, t.b.ops, t.minted)
  {
    assert forall sb | sb in s.sandboxes :: s.sandboxes[sb].op != step.id;
  }

  lemma OwnedStep(s: System, step: Step)
    requires Filed(s.b) && Goroutines(s.threads, s.b.ops, s.minted) && Owned(s.sandboxes, s.threads, s.b.ops, s.minted)
    requires Enabled(s, step)
    ensures var t := Next(s, step); Owned(t.sandboxes, t.threads, t.b.ops, t.minted)
  {
    if step.Place? {
      PlaceOwned(s, step);
    } else {
      KindStays(s, step);
      PlacedStays(s, step);
      RecordsFrom(s, step);
    }
  }

  lemma OneRecordStep(s: System, step: Step)
    requires Owned(s.sandboxes, s.threads, s.b.ops, s.minted) && OneRecord(s.sandboxes) && Enabled(s, step)
    ensures OneRecord(Next(s, step).sandboxes)
  {
    if step.Place? { assert forall sb | sb in s.sandboxes :: s.sandboxes[sb].op != step.id; }
  }

  lemma HandlingStep(s: System, step: Step)
    requires Mappings(s.b) && Goroutines(s.threads, s.b.ops, s.minted) && Handling(s.handlers, s.b.ops) && Enabled(s, step)
    ensures var t := Next(s, step); Handling(t.handlers, t.b.ops)
  {
    KindStays(s, step);
  }

  lemma BaseStep(s: System, step: Step)
    requires Base(s) && Enabled(s, step)
    ensures Base(Next(s, step))
  {
    MappingsStep(s, step);
    GoroutinesStep(s, step);
    OwnedStep(s, step);
    OneRecordStep(s, step);
    HandlingStep(s, step);
  }

  // ---- what a safe run keeps for its key ----

  predicate Current(s: System, o: string) {
    o in s.b.ops && s.b.ops[o].idempKey in s.b.idem && s.b.idem[s.b.ops[o].idempKey] == o
  }

  /** A create that has or may get a live sandbox is the one its key is mapped to. */
  ghost predicate PotentMapped(s: System, key: string) {
    forall o | Creates(s, o, key) && Potent(s, o) :: Current(s, o)
  }

  /** If it is done, it names its own record. */
  ghost predicate PotentNamed(s: System, key: string) {
    forall o | Creates(s, o, key) && Potent(s, o) :: Names(s, s.b.ops[o], o)
  }

  /** The key's live sandboxes are on this node. */
  ghost predicate LiveHere(s: System, key: string) {
    forall sb | Live(s, sb) && Creates(s, s.sandboxes[sb].op, key) :: s.sandboxes[sb].here
  }

  /** A handler looks at such a create under its own record's name, and clears none. */
  ghost predicate HandlerSafe(s: System, c: Handler) {
    && (c.Checking? && Potent(s, c.copy.id) ==> Names(s, c.copy, c.copy.id))
    && (c.Clearing? ==> !Potent(s, c.op))
  }

  ghost predicate HandlersSafe(s: System, key: string) {
    forall h | h in s.handlers && s.handlers[h].key == key :: HandlerSafe(s, s.handlers[h])
  }

  ghost predicate Inv(s: System, key: string) {
    && key != "" && Base(s)
    && PotentMapped(s, key) && PotentNamed(s, key) && LiveHere(s, key) && HandlersSafe(s, key)
  }

  /** A node that has recorded nothing yet. */
  const FRESH := System(Buckets(map[], map[]), map[], map[], {}, map[])

  lemma FreshSystem(key: string)
    requires key != ""
    ensures Inv(FRESH, key)
  {}

  /** No step gives an operation a sandbox it could not have had before. */
  lemma PotentBefore(s: System, step: Step, o: string)
    requires Base(s) && Enabled(s, step) && o in s.b.ops && Potent(Next(s, step), o)
    ensures Potent(s, o)
  {
    var t := Next(s, step);
    PlacedStays(s, step);
    RecordsFrom(s, step);
    if !Unplaced(t, o) {
      var sb :| Live(t, sb) && t.sandboxes[sb].op == o;
      if !(step.Place? && step.sandbox == sb) { assert Live(s, sb); }
    }
  }

  /** As long as it has or may get a live sandbox, the record it names stays. */
  lemma NamesStay(s: System, step: Step, op: Operation, o: string)
    requires Base(s) && Enabled(s, step) && o in s.b.ops && Names(s, op, o) && Potent(Next(s, step), o)
    ensures Names(Next(s, step), op, o)
  {
    PlacedStays(s, step);
    RecordsFrom(s, step);
  }

  /** The one record of a create decides. */
  lemma OneIsAll(s: System, sb: string)
    requires Base(s) && sb in s.sandboxes
    ensures Potent(s, s.sandboxes[sb].op) <==> Live(s, sb)
  {
    if Potent(s, s.sandboxes[sb].op) {
      var x :| Live(s, x) && s.sandboxes[x].op == s.sandboxes[sb].op;
      assert x == sb;
    }
  }

  lemma PotentIsCreate(s: System, o: string)
    requires Base(s) && Potent(s, o)
    ensures o in s.b.ops && s.b.ops[o].opType == "provision"
  {
    if !Unplaced(s, o) {
      var sb :| Live(s, sb) && s.sandboxes[sb].op == o;
    }
  }

  /** What was not a create of this key before is new. */
  lemma CreatesBefore(s: System, step: Step, o: string, key: string)
    requires Base(s) && Enabled(s, step) && Creates(Next(s, step), o, key)
    ensures o in s.b.ops ==> Creates(s, o, key)
  {
    KindStays(s, step);
  }

  lemma MappingStays(s: System, step: Step, o: string, key: string)
    requires Base(s) && Enabled(s, step) && Creates(s, o, key) && Current(s, o)
    requires step.Clear? ==> s.handlers[step.h].key != key
    ensures Current(Next(s, step), o)
  {
    KindStays(s, step);
  }

  lemma NewIsCurrent(s: System, step: Step, o: string, key: string)
    requires Base(s) && Enabled(s, step) && key != "" && o !in s.b.ops && Creates(Next(s, step), o, key)
    ensures Current(Next(s, step), o) && Next(s, step).b.ops[o].state == Pending
  {}

  lemma PotentMappedStep(s: System, step: Step, key: string)
    requires Inv(s, key) && Enabled(s, step) && Respects(s, step, Safe(key))
    ensures PotentMapped(Next(s, step), key)
  {
    var t := Next(s, step);
    forall o | Creates(t, o, key) && Potent(t, o) ensures Current(t, o) {
      CreatesBefore(s, step, o, key);
      if o in s.b.ops {
        PotentBefore(s, step, o);
        MappingStays(s, step, o, key);
      } else {
        NewIsCurrent(s, step, o, key);
      }
    }
  }

  /** A goroutine that finishes names the record it placed. */
  lemma FinishNames(s: System, o: string, r: RunResult)
    requires Base(s) && Enabled(s, Finish(o, r)) && Potent(Next(s, Finish(o, r)), o)
    ensures var t := Next(s, Finish(o, r)); Names(t, t.b.ops[o], o)
  {
    var t := Next(s, Finish(o, r));
    var sb :| Live(t, sb) && t.sandboxes[sb].op == o;
    assert s.threads[o].placed == Some(sb);
  }

  /** The other steps leave the operation as it is, or not done. */
  lemma WrittenOp(s: System, step: Step, o: string)
    requires Base(s) && Enabled(s, step) && o in s.b.ops && !(step.Finish? && step.id == o) && !(step.OtherRuns? && step.id == o)
    ensures var t := Next(s, step); o in t.b.ops && (t.b.ops[o] == s.b.ops[o] || t.b.ops[o].state != Done)
  {}

  /** What a step writes for a create that has or may get a live sandbox names its own record. */
  lemma WrittenNames(s: System, step: Step, o: string, key: string)
    requires Inv(s, key) && Enabled(s, step) && Respects(s, step, Safe(key))
    requires Creates(s, o, key) && Potent(Next(s, step), o)
    ensures o in Next(s, step).b.ops && Names(Next(s, step), Next(s, step).b.ops[o], o)
  {
    PotentBefore(s, step, o);
    if step.Finish? && step.id == o {
      FinishNames(s, o, step.r);
    } else if step.OtherRuns? && step.id == o {
      NamesStay(s, step, Rewritten(s.b.ops[o], step), o);
    } else {
      WrittenOp(s, step, o);
      NamesStay(s, step, s.b.ops[o], o);
    }
  }

  lemma PotentNamedStep(s: System, step: Step, key: string)
    requires Inv(s, key) && Enabled(s, step) && Respects(s, step, Safe(key))
    ensures PotentNamed(Next(s, step), key)
  {
    var t := Next(s, step);
    forall o | Creates(t, o, key) && Potent(t, o) ensures Names(t, t.b.ops[o], o) {
      CreatesBefore(s, step, o, key);
      if o in s.b.ops { WrittenNames(s, step, o, key); } else { NewIsCurrent(s, step, o, key); }
    }
  }

  lemma LiveHereStep(s: System, step: Step, key: string)
    requires Inv(s, key) && Enabled(s, step) && Respects(s, step, Safe(key))
    ensures LiveHere(Next(s, step), key)
  {
    var t := Next(s, step);
    RecordsFrom(s, step);
    forall sb | Live(t, sb) && Creates(t, t.sandboxes[sb].op, key) ensures t.sandboxes[sb].here {
      CreatesBefore(s, step, t.sandboxes[sb].op, key);
    }
  }

  /** A sandbox that is gone under any name its create may have is the end of it. */
  lemma GoneIsSpent(s: System, op: Operation, key: string)
    requires Inv(s, key) && CopyOf(s.b.ops, op, op.id) && op.idempKey == key && SandboxGone(s, op)
    requires Potent(s, op.id) ==> Names(s, op, op.id)
    ensures !Potent(s, op.id)
  {
    if op.sandboxID in s.sandboxes && s.sandboxes[op.sandboxID].op == op.id { OneIsAll(s, op.sandboxID); }
  }

  lemma HandlerStays(s: System, step: Step, c: Handler, key: string)
    requires Inv(s, key) && Enabled(s, step) && HandlerSafe(s, c)
    requires c.Checking? ==> c.copy.id in s.b.ops
    requires c.Clearing? ==> c.op in s.b.ops
    ensures HandlerSafe(Next(s, step), c)
  {
    var t := Next(s, step);
    if c.Checking? && Potent(t, c.copy.id) {
      PotentBefore(s, step, c.copy.id);
      NamesStay(s, step, c.copy, c.copy.id);
    }
    if c.Clearing? && Potent(t, c.op) { PotentBefore(s, step, c.op); }
  }

  lemma CheckIsSafe(s: System, h: nat, key: string)
    requires Inv(s, key) && Enabled(s, Check(h)) && s.handlers[h].key == key && SandboxGone(s, s.handlers[h].copy)
    ensures var t := Next(s, Check(h)); h in t.handlers && HandlerSafe(t, t.handlers[h])
  {
    var o := s.handlers[h].copy.id;
    GoneIsSpent(s, s.handlers[h].copy, key);
    if Potent(Next(s, Check(h)), o) { PotentBefore(s, Check(h), o); }
  }

  lemma AskIsSafe(s: System, h: nat, key: string, id: string)
    requires Inv(s, key) && Enabled(s, Ask(h, key, id)) && Mapped(s.b, key).Some?
    ensures var t := Next(s, Ask(h, key, id)); h in t.handlers && HandlerSafe(t, t.handlers[h])
  {
    var t, o := Next(s, Ask(h, key, id)), s.b.idem[key];
    if Potent(t, o) {
      PotentBefore(s, Ask(h, key, id), o);
      PotentIsCreate(s, o);
      NamesStay(s, Ask(h, key, id), s.b.ops[o], o);
    }
  }

  lemma HandlersStep(s: System, step: Step, key: string)
    requires Inv(s, key) && Enabled(s, step)
    ensures HandlersSafe(Next(s, step), key)
  {
    var t := Next(s, step);
    forall h | h in t.handlers && t.handlers[h].key == key ensures HandlerSafe(t, t.handlers[h]) {
      if h in s.handlers && t.handlers[h] == s.handlers[h] {
        HandlerStays(s, step, s.handlers[h], key);
      } else {
        match step {
          case Ask(_, _, id) => AskIsSafe(s, h, key, id);
          case Check(_) => CheckIsSafe(s, h, key);
          case Clear(_) =>
        }
      }
    }
  }

  lemma StepKeepsInv(s: System, step: Step, key: string)
    requires Inv(s, key) && Enabled(s, step) && Respects(s, step, Safe(key))
    ensures Inv(Next(s, step), key)
  {
    BaseStep(s, step);
    PotentMappedStep(s, step, key);
    PotentNamedStep(s, step, key);
    LiveHereStep(s, step, key);
    HandlersStep(s, step, key);
  }

  // ---- at most one live sandbox per key ----

  /** Live sandboxes whose operations carry the key. */
  predicate LiveOf(s: System, key: string, sb: string) {
    Live(s, sb) && s.sandboxes[sb].op in s.b.ops && s.b.ops[s.sandboxes[sb].op].idempKey == key
  }

  ghost predicate AtMostOne(s: System, key: string) {
    forall a, b | LiveOf(s, key, a) && LiveOf(s, key, b) :: a == b
  }

  lemma InvMeansOne(s: System, key: string)
    requires Inv(s, key)
    ensures AtMostOne(s, key)
  {
    forall a, b | LiveOf(s, key, a) && LiveOf(s, key, b) ensures a == b {
      assert Potent(s, s.sandboxes[a].op) && Potent(s, s.sandboxes[b].op);
    }
  }

  lemma StrictIsSafe(s: System, step: Step, key: string)
    requires Inv(s, key) && Enabled(s, step) && Respects(s, step, Strict(key))
    ensures Respects(s, step, Safe(key))
  {}

  predicate Keeps(d: Discipline, key: string) { d == Safe(key) || d == Strict(key) }

  lemma {:induction false} InvForever(s: System, steps: seq<Step>, t: System, key: string, d: Discipline)
    requires Inv(s, key) && Keeps(d, key) && Leads(s, steps, t, d)
    ensures Inv(t, key)
    decreases |steps|
  {
    if steps != [] {
      if d.Strict? { StrictIsSafe(s, steps[0], key); }
      StepKeepsInv(s, steps[0], key);
      InvForever(Next(s, steps[0]), steps[1..], t, key, d);
    }
  }

  /** A keyed create leaves at most one live sandbox per key, over any run of handlers, other requests,
      completions, deletes, losses and crashes that respects the discipline of that key, whatever
      happens to other keys and to creates without one. */
  lemma {:induction false} AtMostOneLivePerKey(s: System, steps: seq<Step>, t: System, key: string, d: Discipline)
    requires Inv(s, key) && Keeps(d, key) && Leads(s, steps, t, d)
    ensures AtMostOne(t, key)
  {
    InvForever(s, steps, t, key, d);
    InvMeansOne(t, key);
  }

  // ---- what a retry gets ----

  /** A create's goroutine goes with the stored operation, and if finished it named a minted sandbox. */
  ghost predicate CreateExact(s: System, o: string)
    requires o in s.b.ops
  {
    && (o in s.threads && s.threads[o].Scheduled? ==> s.b.ops[o].state == Pending)
    && (o in s.threads && s.threads[o].Active? ==> s.threads[o].copy == s.b.ops[o] && s.b.ops[o].state == Running)
    && (s.b.ops[o].state == Done ==> s.b.ops[o].sandboxID in s.minted)
  }

  ghost predicate CreatesExact(s: System, key: string) { forall o | Creates(s, o, key) :: CreateExact(s, o) }

  /** A handler's copy of a finished create is what is stored; what it is about to clear is gone. */
  ghost predicate HandlerExact(s: System, c: Handler, key: string) {
    && (c.Checking? && Creates(s, c.copy.id, key) && c.copy.state == Done ==> s.b.ops[c.copy.id] == c.copy)
    && (c.Clearing? && Creates(s, c.op, key) ==> SandboxGone(s, s.b.ops[c.op]))
  }

  ghost predicate HandlersExact(s: System, key: string) {
    forall h | h in s.handlers && s.handlers[h].key == key :: HandlerExact(s, s.handlers[h], key)
  }

  ghost predicate StrictInv(s: System, key: string) { Inv(s, key) && CreatesExact(s, key) && HandlersExact(s, key) }

  lemma FreshStrict(key: string)
    requires key != ""
    ensures StrictInv(FRESH, key)
  {
    FreshSystem(key);
  }

  lemma CreateStaysExact(s: System, step: Step, o: string, key: string)
    requires Base(s) && Creates(s, o, key) && CreateExact(s, o) && Enabled(s, step) && Respects(s, step, Strict(key))
    ensures o in Next(s, step).b.ops && CreateExact(Next(s, step), o)
  {}

  lemma NewIsExact(s: System, step: Step, o: string)
    requires Base(s) && Enabled(s, step) && o !in s.b.ops && o in Next(s, step).b.ops
    ensures CreateExact(Next(s, step), o)
  {}

  lemma CreatesExactStep(s: System, step: Step, key: string)
    requires Inv(s, key) && CreatesExact(s, key) && Enabled(s, step) && Respects(s, step, Strict(key))
    ensures CreatesExact(Next(s, step), key)
  {
    var t := Next(s, step);
    forall o | Creates(t, o, key) ensures CreateExact(t, o) {
      CreatesBefore(s, step, o, key);
      if o in s.b.ops { CreateStaysExact(s, step, o, key); } else { NewIsExact(s, step, o); }
    }
  }

  /** A finished create never changes. */
  lemma DoneStays(s: System, step: Step, o: string, key: string)
    requires Base(s) && CreatesExact(s, key) && Enabled(s, step) && Respects(s, step, Strict(key))
    requires Creates(s, o, key) && s.b.ops[o].state == Done
    ensures o in Next(s, step).b.ops && Next(s, step).b.ops[o] == s.b.ops[o]
  {}

  /** Once gone, a sandbox stays gone. */
  lemma GoneStays(s: System, step: Step, o: string, key: string)
    requires Base(s) && CreatesExact(s, key) && Enabled(s, step) && Respects(s, step, Strict(key))
    requires Creates(s, o, key) && SandboxGone(s, s.b.ops[o])
    ensures Creates(Next(s, step), o, key) && SandboxGone(Next(s, step), Next(s, step).b.ops[o])
  {
    DoneStays(s, step, o, key);
    assert s.b.ops[o].sandboxID in s.minted;
  }

  lemma HandlerExactStays(s: System, step: Step, c: Handler, key: string)
    requires Base(s) && CreatesExact(s, key) && Enabled(s, step) && Respects(s, step, Strict(key))
    requires HandlerExact(s, c, key)
    requires c.Checking? ==> c.copy.id in s.b.ops
    requires c.Clearing? ==> c.op in s.b.ops
    ensures HandlerExact(Next(s, step), c, key)
  {
    var t := Next(s, step);
    if c.Checking? && Creates(t, c.copy.id, key) && c.copy.state == Done {
      CreatesBefore(s, step, c.copy.id, key);
      DoneStays(s, step, c.copy.id, key);
    }
    if c.Clearing? && Creates(t, c.op, key) {
      CreatesBefore(s, step, c.op, key);
      GoneStays(s, step, c.op, key);
    }
  }

  lemma HandlersExactStep(s: System, step: Step, key: string)
    requires StrictInv(s, key) && Enabled(s, step) && Respects(s, step, Strict(key))
    ensures HandlersExact(Next(s, step), key)
  {
    var t := Next(s, step);
    forall h | h in t.handlers && t.handlers[h].key == key ensures HandlerExact(t, t.handlers[h], key) {
      if h in s.handlers && t.handlers[h] == s.handlers[h] { HandlerExactStays(s, step, s.handlers[h], key); }
    }
  }

  lemma StepKeepsStrict(s: System, step: Step, key: string)
    requires StrictInv(s, key) && Enabled(s, step) && Respects(s, step, Strict(key))
    ensures StrictInv(Next(s, step), key)
  {
    StrictIsSafe(s, step, key);
    StepKeepsInv(s, step, key);
    CreatesExactStep(s, step, key);
    HandlersExactStep(s, step, key);
  }

  lemma {:induction false} StaysGone(s: System, steps: seq<Step>, t: System, o: string, key: string)
    requires StrictInv(s, key) && Leads(s, steps, t, Strict(key))
    requires Creates(s, o, key) && SandboxGone(s, s.b.ops[o])
    ensures o in t.b.ops && SandboxGone(t, t.b.ops[o])
    decreases |steps|
  {
    if steps != [] {
      StepKeepsStrict(s, steps[0], key);
      GoneStays(s, steps[0], o, key);
      StaysGone(Next(s, steps[0]), steps[1..], t, o, key);
    }
  }

  /** A step drops the key's mapping only when the sandbox is gone. */
  lemma MappingStep(s: System, step: Step, key: string)
    requires StrictInv(s, key) && Enabled(s, step) && Respects(s, step, Strict(key))
    requires key in s.b.idem && Creates(s, s.b.idem[key], key) && !SandboxGone(s, s.b.ops[s.b.idem[key]])
    ensures var t := Next(s, step); key in t.b.idem && t.b.idem[key] == s.b.idem[key] && Creates(t, t.b.idem[key], key)
  {
    KindStays(s, step);
    MappingStays(s, step, s.b.idem[key], key);
  }

  /** As long as its sandbox is not gone, a keyed create is what every retry gets back, however much
      happened in between, and the retry's handler changes nothing. */
  lemma {:induction false} RetryReturnsOriginal(s: System, steps: seq<Step>, t: System, key: string, h: nat, id: string)
    requires StrictInv(s, key) && Leads(s, steps, t, Strict(key))
    requires key in s.b.idem && Creates(s, s.b.idem[key], key)
    requires s.b.idem[key] in t.b.ops && !SandboxGone(t, t.b.ops[s.b.idem[key]])
    requires h !in t.handlers && id !in t.b.ops
    ensures CreateAnswer(t, key, id) == t.b.ops[s.b.idem[key]]
    ensures Enabled(Next(t, Ask(h, key, id)), Check(h)) && Next(Next(t, Ask(h, key, id)), Check(h)) == t
    decreases |steps|
  {
    var o := s.b.idem[key];
    if SandboxGone(s, s.b.ops[o]) {
      StaysGone(s, steps, t, o, key);
      assert false;
    }
    if steps == [] {
      assert s.b.ops[o].id == o;
      assert Next(Next(t, Ask(h, key, id)), Check(h)).handlers == t.handlers;
    } else {
      StepKeepsStrict(s, steps[0], key);
      MappingStep(s, steps[0], key);
      RetryReturnsOriginal(Next(s, steps[0]), steps[1..], t, key, h, id);
    }
  }

  /** The buckets after a whole create request: a stale mapping is dropped first. */
  function CreateBuckets(s: System, key: string, id: string): Buckets {
    var m := Mapped(s.b, key);
    if m.Some? && SandboxGone(s, m.value) then Started(Cleared(s.b, key), "provision", key, id)
    else Started(s.b, "provision", key, id)
  }

  /** The operation handed back to the caller. */
  function CreateAnswer(s: System, key: string, id: string): Operation {
    var m := Mapped(s.b, key);
    if m.Some? && !SandboxGone(s, m.value) then m.value else NewOp(id, "provision", key)
  }

  // ---- runs put together ----

  ghost predicate To(s: System, step: Step, t: System, d: Discipline) {
    Enabled(s, step) && Respects(s, step, d) && t == Next(s, step)
  }

  lemma OneStep(s: System, step: Step, t: System, d: Discipline)
    requires To(s, step, t, d)
    ensures Leads(s, [step], t, d)
  {
    assert Leads(t, [step][1..], t, d);
  }

  lemma {:induction false} Chain(s: System, a: seq<Step>, p: System, b: seq<Step>, t: System, d: Discipline)
    requires Leads(s, a, p, d) && Leads(p, b, t, d)
    ensures Leads(s, a + b, t, d)
    decreases |a|
  {
    if a == [] {
      assert a + b == b;
    } else {
      assert (a + b)[1..] == a[1..] + b;
      Chain(Next(s, a[0]), a[1..], p, b, t, d);
    }
  }

  lemma TwoSteps(s: System, x: Step, s1: System, y: Step, t: System, d: Discipline)
    requires To(s, x, s1, d) && To(s1, y, t, d)
    ensures Leads(s, [x] + [y], t, d)
  {
    OneStep(s, x, s1, d);
    OneStep(s1, y, t, d);
    Chain(s, [x], s1, [y], t, d);
  }

  function FindSteps(h: nat, key: string, x: string): seq<Step> { ([Ask(h, key, x)] + [Check(h)]) + [Clear(h)] }

  /** A handler that finds the mapped operation's sandbox gone drops the mapping. */
  lemma FindsGone(s: System, key: string, h: nat, x: string) returns (t: System)
    requires Mappings(s.b) && key in s.b.idem && SandboxGone(s, s.b.ops[s.b.idem[key]])
    requires h !in s.handlers && x !in s.b.ops
    ensures Leads(s, FindSteps(h, key, x), t, Strict(key))
    ensures t == s.(b := Cleared(s.b, key), handlers := s.handlers[h := Again(key)])
  {
    var s1 := Next(s, Ask(h, key, x));
    var s2 := Next(s1, Check(h));
    t := Next(s2, Clear(h));
    TwoSteps(s, Ask(h, key, x), s1, Check(h), s2, Strict(key));
    OneStep(s2, Clear(h), t, Strict(key));
    Chain(s, [Ask(h, key, x)] + [Check(h)], s2, [Clear(h)], t, Strict(key));
  }

  /** Once its sandbox is gone, an undisturbed retry gets exactly one fresh operation, mapped and
      scheduled, which is what the handler does as a whole. */
  lemma RetryAfterGone(s: System, key: string, h: nat, x: string, id: string) returns (t: System)
    requires Mappings(s.b) && key in s.b.idem && SandboxGone(s, s.b.ops[s.b.idem[key]])
    requires h !in s.handlers && x !in s.b.ops && id !in s.b.ops
    ensures Leads(s, FindSteps(h, key, x) + [Retry(h, id)], t, Strict(key))
    ensures t == s.(b := CreateBuckets(s, key, id), threads := s.threads[id := Scheduled])
    ensures CreateAnswer(s, key, id).id == id && key in t.b.idem && t.b.idem[key] == id
    ensures t.b.ops == s.b.ops[id := NewOp(id, "provision", key)]
  {
    var s1 := FindsGone(s, key, h, x);
    t := Next(s1, Retry(h, id));
    assert t.handlers == s.handlers;
    OneStep(s1, Retry(h, id), t, Strict(key));
    Chain(s, FindSteps(h, key, x), s1, [Retry(h, id)], t, Strict(key));
  }

  /** A create that finished with its sandbox, which was then deleted or marked lost: an undisturbed retry of
      the key starts a fresh operation, and the key is mapped to it. */
  lemma RetryAfterLoss(s: System, key: string, o: string, sb: string, loss: Step, h: nat, x: string, id: string)
    returns (done: System, gone: System, t: System)
    requires Base(s) && key in s.b.idem && s.b.idem[key] == o
    requires o in s.threads && s.threads[o].Active? && s.threads[o].placed == Some(sb) && sb != ""
    requires loss == Delete(sb) || loss == Lose(sb)
    requires h !in s.handlers && x !in s.b.ops && id !in s.b.ops
    ensures To(s, Finish(o, RunOk(sb)), done, Strict(key)) && To(done, loss, gone, Strict(key))
    ensures CreateAnswer(gone, key, id) == NewOp(id, "provision", key)
    ensures Leads(gone, FindSteps(h, key, x) + [Retry(h, id)], t, Strict(key))
    ensures key in t.b.idem && t.b.idem[key] == id && id in t.threads
    ensures t.b.ops == gone.b.ops[id := NewOp(id, "provision", key)]
  {
    done := Next(s, Finish(o, RunOk(sb)));
    gone := Next(done, loss);
    BaseStep(s, Finish(o, RunOk(sb)));
    BaseStep(done, loss);
    t := RetryAfterGone(gone, key, h, x, id);
  }

  // ---- the handler ----

  class SandboxService {
    const ops: OpsManager
    var records: map<string, bool>  // this node's records: lost or not

    constructor (ops: OpsManager, records: map<string, bool>)
      ensures this.ops == ops && this.records == records
    {
      this.ops, this.records := ops, records;
    }

    /** The node's records as the model above sees them. */
    ghost predicate Shows(s: System)
      reads this, ops
    {
      && s.b == ops.Now()
      && (forall id | id in records :: id in s.sandboxes && s.sandboxes[id].here && s.sandboxes[id].lost == records[id])
      && (forall id | id in s.sandboxes && s.sandboxes[id].here :: id in records)
    }

    method ProvisionSandboxGone(op: Operation, ghost s: System) returns (gone: bool)
      requires Shows(s)
      ensures gone <==> SandboxGone(s, op)
      ensures gone <==> op.state == Done && op.sandboxID != "" && (op.sandboxID !in records || records[op.sandboxID])
    {
      if op.state != Done || op.sandboxID == "" {
        return false;
      }
      if op.sandboxID !in records {
        return true;
      }
      gone := records[op.sandboxID];
    }

    /** The handler undisturbed; `run` says whether a goroutine is started for the returned operation. */
    method CreateSandbox(key: string, id: string, ghost s: System) returns (op: Operation, run: bool)
      requires Shows(s) && Mappings(s.b) && id !in s.b.ops
      modifies ops
      ensures ops.Now() == CreateBuckets(s, key, id)
      ensures op == CreateAnswer(s, key, id)
      ensures run <==> op.id == id
      ensures var b := old(ops.Now());
              if key == "" || key !in b.idem || b.idem[key] !in b.ops then run && op == NewOp(id, "provision", key)
              else
                var was := b.ops[b.idem[key]];
                if was.state == Done && was.sandboxID != "" && (was.sandboxID !in records || records[was.sandboxID])
                then run && op == NewOp(id, "provision", key) && ops.idem == b.idem[key := id]
                else !run && op == was && ops.Now() == b
    {
      var existed;
      op, existed := ops.Start("provision", key, id);
      if existed {
        var gone := ProvisionSandboxGone(op, s);
        if gone {
          ops.ClearIdempotency(key);
          op, existed := ops.Start("provision", key, id);
        }
      }
      run := !existed;
    }
  }
}
