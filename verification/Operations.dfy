/** Asynchronous operations, idempotency keys and crash recovery. */
module Operations {
  import opened Common

  datatype OpState = Pending | Running | Done | Error

  datatype Operation = Operation(id: string, opType: string, state: OpState, sandboxID: string, error: string,
                                 idempKey: string)

  predicate Terminal(op: Operation) { op.state == Done || op.state == Error }

  /** The two durable buckets. */
  datatype Buckets = Buckets(ops: map<string, Operation>, idem: map<string, string>)

  /** The operation a key is mapped to, if the mapping leads to one. */
  function Mapped(b: Buckets, key: string): Option<Operation> {
    if key != "" && key in b.idem && b.idem[key] in b.ops then Some(b.ops[b.idem[key]]) else None
  }

  function NewOp(id: string, opType: string, key: string): Operation {
    Operation(id, opType, Pending, "", "", key)
  }

  /** A mapped operation is returned as it is; otherwise a pending one is stored and mapped. */
  function Started(b: Buckets, opType: string, key: string, id: string): Buckets {
    if Mapped(b, key).Some? then b
    else Buckets(b.ops[id := NewOp(id, opType, key)], if key == "" then b.idem else b.idem[key := id])
  }

  function Cleared(b: Buckets, key: string): Buckets { if key == "" then b else b.(idem := b.idem - {key}) }

  const INTERRUPTED := "interrupted: node restarted during operation"

  function Interrupted(op: Operation): Operation {
    if Terminal(op) then op else op.(state := Error, error := INTERRUPTED)
  }

  function Recovered(b: Buckets): Buckets { b.(ops := map id | id in b.ops :: Interrupted(b.ops[id])) }

  /** How a run ends: an error message, or the sandbox it worked on. */
  datatype RunResult = RunError(message: string) | RunOk(sandboxID: string)

  function Finished(op: Operation, r: RunResult): Operation {
    match r
    case RunError(message) => op.(state := Error, error := message)
    case RunOk(sandboxID) => op.(state := Done, sandboxID := sandboxID)
  }

  /** Operations are filed under their id. */
  ghost predicate Filed(b: Buckets) { forall id | id in b.ops :: b.ops[id].id == id }

  class OpsManager {
    var ops: map<string, Operation>
    var idem: map<string, string>

    function Now(): Buckets
      reads this
    {
      Buckets(ops, idem)
    }

    /** `id` is the freshly minted operation id. */
    method Start(opType: string, key: string, id: string) returns (op: Operation, existed: bool)
      modifies this
      ensures Now() == Started(old(Now()), opType, key, id)
      ensures existed <==> old(Mapped(Now(), key)).Some?
      ensures existed <==> key != "" && key in old(idem) && old(idem)[key] in old(ops)
      ensures op == if existed then old(Mapped(Now(), key)).value else NewOp(id, opType, key)
    {
      if key != "" && key in idem && idem[key] in ops {
        return ops[idem[key]], true;
      }
      op, existed := NewOp(id, opType, key), false;
      ops := ops[id := op];
      if key != "" {
        idem := idem[key := id];
      }
    }

    method ClearIdempotency(key: string)
      modifies this
      ensures Now() == Cleared(old(Now()), key)
      ensures ops == old(ops) && idem == if key == "" then old(idem) else old(idem) - {key}
    {
      if key != "" {
        idem := idem - {key};
      }
    }

    /** The first half of a run: read the operation, store it as running, keep the copy. */
    method BeginRun(id: string) returns (copy: Option<Operation>)
      requires Filed(Now())
      modifies this
      ensures copy.None? <==> id !in old(ops)
      ensures copy.Some? ==> copy.value == old(ops)[id].(state := Running)
      ensures Now() == if id in old(ops) then old(Now()).(ops := old(ops)[id := old(ops)[id].(state := Running)])
                       else old(Now())
    {
      if id !in ops {
        return None;
      }
      var op := ops[id].(state := Running);
      ops := ops[op.id := op];
      copy := Some(op);
    }

    /** The second half writes the copy back, whatever happened to the stored operation since. */
    method FinishRun(copy: Operation, r: RunResult)
      modifies this
      ensures Now() == old(Now()).(ops := old(ops)[copy.id := Finished(copy, r)])
      ensures copy.id in ops && ops[copy.id].id == copy.id && ops[copy.id].idempKey == copy.idempKey
      ensures r.RunOk? ==> ops[copy.id].state == Done && ops[copy.id].sandboxID == r.sandboxID
      ensures r.RunError? ==> ops[copy.id].state == Error && ops[copy.id].error == r.message
    {
      var op := Finished(copy, r);
      ops := ops[op.id := op];
    }

    /** Collect the stranded operations first, then mark each. */
    method RecoverInterrupted() returns (swept: nat)
      requires Filed(Now())
      modifies this
      ensures Now() == Recovered(old(Now()))
      ensures swept == |set id | id in old(ops) && !Terminal(old(ops)[id])|
      ensures ops.Keys == old(ops).Keys && idem == old(idem)
      ensures forall id | id in ops :: ops[id] ==
                if old(ops)[id].state == Done || old(ops)[id].state == Error then old(ops)[id]
                else old(ops)[id].(state := Error, error := INTERRUPTED)
    {
      var stranded: seq<Operation> := [];
      var todo := ops.Keys;
      while todo != {}
        invariant todo <= ops.Keys && Now() == old(Now())
        invariant forall i | 0 <= i < |stranded| ::
                    stranded[i].id in ops && ops[stranded[i].id] == stranded[i] && !Terminal(stranded[i])
        invariant |stranded| == |set id | id in ops && id !in todo && !Terminal(ops[id])|
        invariant forall id | id in ops && id !in todo && !Terminal(ops[id]) :: ops[id] in stranded
        decreases todo
      {
        var id :| id in todo;
        ghost var seen := set k | k in ops && k !in todo && !Terminal(ops[k]);
        todo := todo - {id};
        ghost var now := set k | k in ops && k !in todo && !Terminal(ops[k]);
        if !Terminal(ops[id]) {
          assert now == seen + {id};
          stranded := stranded + [ops[id]];
        } else {
          assert now == seen;
        }
      }
      assert (set id | id in ops && id !in todo && !Terminal(ops[id])) ==
             (set id | id in ops && !Terminal(ops[id]));
      swept := |stranded|;
      MarkAll(stranded);
    }

    method MarkAll(stranded: seq<Operation>)
      requires Filed(Now())
      requires forall op | op in stranded :: op.id in ops && ops[op.id] == op && !Terminal(op)
      requires forall id | id in ops && !Terminal(ops[id]) :: ops[id] in stranded
      modifies this`ops
      ensures Now() == Recovered(old(Now()))
    {
      for i := 0 to |stranded|
        invariant ops.Keys == old(ops).Keys
        invariant forall id | id in ops && old(ops)[id] in stranded[..i] :: ops[id] == Interrupted(old(ops)[id])
        invariant forall id | id in ops && old(ops)[id] !in stranded[..i] :: ops[id] == old(ops)[id]
      {
        var op := stranded[i];
        assert op in stranded && stranded[..i + 1] == stranded[..i] + [op];
        ops := ops[op.id := op.(state := Error, error := INTERRUPTED)];
      }
      assert stranded[..|stranded|] == stranded;
    }
  }
}
