/** The poll loop of an agent run against the idle reaper. Times are whole clock ticks. */
module AgentRun {
  import opened SandboxManager

  /** Clock readings of one turn that found the agent still running: the throttle test, the moment the
      activity is recorded, and the moment the touch is noted. The last two matter only if the turn bumps. */
  datatype Turn = Turn(check: int, record: int, touch: int)

  /** A run: activity recorded at `begun`, the agent started by `launched`, the turns, the last poll at `end`. */
  datatype Trace = Trace(begun: int, launched: int, turns: seq<Turn>, end: int)

  predicate Bumps(timeout: int, touched: int, t: Turn) { timeout > 0 && t.check - touched > timeout / 2 }

  /** The activity stored at moment `m`, from `act` and the touch noted last. */
  function ActivityAt(timeout: int, act: int, touched: int, turns: seq<Turn>, m: int): int
    decreases |turns|
  {
    if turns == [] then act
    else
      var t := turns[0];
      if !Bumps(timeout, touched, t) then ActivityAt(timeout, act, touched, turns[1..], m)
      else if m < t.record then act
      else ActivityAt(timeout, t.record, t.touch, turns[1..], m)
  }

  /** The activity stored when the loop has ended. */
  function Final(timeout: int, act: int, touched: int, turns: seq<Turn>): int
    decreases |turns|
  {
    if turns == [] then act
    else if Bumps(timeout, touched, turns[0]) then Final(timeout, turns[0].record, turns[0].touch, turns[1..])
    else Final(timeout, act, touched, turns[1..])
  }

  /** Launch, then poll until the turns run out: the agent is done or polling failed. */
  method Poll(m: Manager, id: string, timeout: int, started: bool, run: Trace)
    modifies m`store
    ensures m.store == Bumped(old(m.store), id,
                              if started then Final(timeout, run.begun, run.launched, run.turns) else run.begun)
  {
    var _ := m.BumpActivity(id, run.begun);
    if !started {
      return;
    }
    var lastTouch := run.launched;
    ghost var act := run.begun;
    for i := 0 to |run.turns|
      invariant m.store == Bumped(old(m.store), id, act)
      invariant Final(timeout, act, lastTouch, run.turns[i..]) == Final(timeout, run.begun, run.launched, run.turns)
    {
      var t := run.turns[i];
      assert run.turns[i..][1..] == run.turns[i + 1..];
      if timeout > 0 && t.check - lastTouch > timeout / 2 {
        var _ := m.BumpActivity(id, t.record);
        lastTouch, act := t.touch, t.record;
      }
    }
  }

  /** Pace: activity is at most `delay` older than the touch noted for it, and at most `span` passes from
      one test or touch to the next test or recording. */
  predicate Timely(timeout: int, delay: int, span: int, touched: int, since: int, turns: seq<Turn>, end: int)
    decreases |turns|
  {
    if turns == [] then since <= end <= since + span
    else
      var t := turns[0];
      && since <= t.check <= since + span
      && (if Bumps(timeout, touched, t)
          then t.check <= t.record <= since + span && t.record <= t.touch <= t.record + delay
               && Timely(timeout, delay, span, t.touch, t.touch, turns[1..], end)
          else Timely(timeout, delay, span, touched, t.check, turns[1..], end))
  }

  predicate Paced(timeout: int, delay: int, span: int, run: Trace) {
    && run.begun <= run.launched <= run.begun + delay
    && Timely(timeout, delay, span, run.launched, run.launched, run.turns, run.end)
  }

  function Stored(timeout: int, r: Record, run: Trace, m: int): Record {
    r.(lastActivity := ActivityAt(timeout, run.begun, run.launched, run.turns, m))
  }

  lemma {:induction false} NeverLate(timeout: int, delay: int, span: int, act: int, touched: int, since: int,
                                     turns: seq<Turn>, end: int, m: int)
    requires 0 < timeout && delay + span <= timeout - timeout / 2
    requires act <= touched <= act + delay && touched <= since <= touched + timeout / 2
    requires Timely(timeout, delay, span, touched, since, turns, end) && act <= m <= end
    ensures 0 <= m - ActivityAt(timeout, act, touched, turns, m) <= timeout
    decreases |turns|
  {
    if turns != [] {
      var t := turns[0];
      if !Bumps(timeout, touched, t) {
        NeverLate(timeout, delay, span, act, touched, t.check, turns[1..], end, m);
      } else if t.record <= m {
        NeverLate(timeout, delay, span, t.record, t.touch, t.touch, turns[1..], end, m);
      }
    }
  }

  /** What the loop has done by moment `m`: the turns taken so far, the last one perhaps half-way. */
  function Upto(timeout: int, touched: int, turns: seq<Turn>, m: int): seq<Turn>
    decreases |turns|
  {
    if turns == [] || m < turns[0].check then []
    else
      var t := turns[0];
      if !Bumps(timeout, touched, t) then [t] + Upto(timeout, touched, turns[1..], m)
      else if m < t.record then []
      else [t] + Upto(timeout, t.touch, turns[1..], m)
  }

  lemma {:induction false} NothingYet(timeout: int, delay: int, span: int, act: int, touched: int, since: int,
                                      turns: seq<Turn>, end: int, m: int)
    requires Timely(timeout, delay, span, touched, since, turns, end) && m < since
    ensures ActivityAt(timeout, act, touched, turns, m) == act
    decreases |turns|
  {
    if turns != [] && !Bumps(timeout, touched, turns[0]) {
      NothingYet(timeout, delay, span, act, touched, turns[0].check, turns[1..], end, m);
    }
  }

  /** What the loop leaves stored by moment `m` is the activity of that moment. */
  lemma {:induction false} UptoLeaves(timeout: int, delay: int, span: int, act: int, touched: int, since: int,
                                      turns: seq<Turn>, end: int, m: int)
    requires Timely(timeout, delay, span, touched, since, turns, end)
    ensures Final(timeout, act, touched, Upto(timeout, touched, turns, m)) == ActivityAt(timeout, act, touched, turns, m)
    decreases |turns|
  {
    if turns != [] {
      var t := turns[0];
      if !Bumps(timeout, touched, t) {
        if m < t.check {
          NothingYet(timeout, delay, span, act, touched, t.check, turns[1..], end, m);
        } else {
          UptoLeaves(timeout, delay, span, act, touched, t.check, turns[1..], end, m);
          assert ([t] + Upto(timeout, touched, turns[1..], m))[1..] == Upto(timeout, touched, turns[1..], m);
        }
      } else if t.record <= m {
        UptoLeaves(timeout, delay, span, t.record, t.touch, t.touch, turns[1..], end, m);
        assert ([t] + Upto(timeout, t.touch, turns[1..], m))[1..] == Upto(timeout, t.touch, turns[1..], m);
      }
    }
  }

  /** The reaper's listing at any moment of a paced run does not name the sandbox. */
  method ListDuringRun(m: Manager, id: string, timeout: int, delay: int, span: int, run: Trace, now: int)
    returns (idle: seq<Record>)
    requires Filed(m.store) && Paced(timeout, delay, span, run) && run.begun <= now <= run.end
    requires delay + span <= timeout - timeout / 2
    modifies m`store
    ensures forall r | r in idle :: r.id != id
    ensures forall r | r in idle :: r.id in old(m.store) && r == old(m.store)[r.id] && Idle(r, now, timeout)
  {
    Poll(m, id, timeout, true, run.(turns := Upto(timeout, run.launched, run.turns, now)));
    UptoLeaves(timeout, delay, span, run.begun, run.launched, run.launched, run.turns, run.end, now);
    if timeout > 0 {
      NeverLate(timeout, delay, span, run.begun, run.launched, run.launched, run.turns, run.end, now);
    }
    idle := m.IdleRunning(now, timeout);
  }

  /** Turns that poll every `span` ticks up to `hi`. */
  function Quiet(lo: int, hi: int, span: int): seq<Turn>
    requires 0 < span
    decreases hi - lo
  {
    if hi <= lo then []
    else
      var c := if lo + span < hi then lo + span else hi;
      [Turn(c, c, c)] + Quiet(c, hi, span)
  }

  lemma {:induction false} QuietNeverBumps(timeout: int, delay: int, span: int, act: int, touched: int, lo: int)
    requires 0 < timeout && 0 < span && touched <= lo <= touched + timeout / 2
    ensures var hi := touched + timeout / 2;
      && Timely(timeout, delay, span, touched, lo, Quiet(lo, hi, span), hi + span)
      && ActivityAt(timeout, act, touched, Quiet(lo, hi, span), hi + span) == act
    decreases touched + timeout / 2 - lo
  {
    var hi := touched + timeout / 2;
    if lo < hi {
      var c := if lo + span < hi then lo + span else hi;
      QuietNeverBumps(timeout, delay, span, act, touched, c);
      assert Quiet(lo, hi, span)[1..] == Quiet(c, hi, span);
    }
  }

  ghost predicate Spared(timeout: int, delay: int, span: int, r: Record) {
    forall run, m | Paced(timeout, delay, span, run) && run.begun <= m <= run.end ::
      !Idle(Stored(timeout, r, run, m), m, timeout)
  }

  /** A running, non-exempt sandbox is spared by the reaper through every run paced this way if and only
      if the slack fits into the half of the timeout the throttle leaves. */
  lemma NeverReapedMidRun(timeout: int, delay: int, span: int, r: Record)
    requires 0 < timeout && 0 <= delay && 0 < span && r.status == Running && !Exempt(r)
    ensures Spared(timeout, delay, span, r) <==> delay + span <= timeout - timeout / 2
  {
    if delay + span <= timeout - timeout / 2 {
      forall run, m | Paced(timeout, delay, span, run) && run.begun <= m <= run.end
        ensures !Idle(Stored(timeout, r, run, m), m, timeout)
      {
        NeverLate(timeout, delay, span, run.begun, run.launched, run.launched, run.turns, run.end, m);
      }
    } else {
      var hi := delay + timeout / 2;
      var run := Trace(0, delay, Quiet(delay, hi, span), hi + span);
      QuietNeverBumps(timeout, delay, span, 0, delay, delay);
      assert Paced(timeout, delay, span, run);
      assert Idle(Stored(timeout, r, run, run.end), run.end, timeout);
    }
  }
}
