/**
 Which runs keep every timer going: those whose timeouts find their own event
 first, so that the event that has lost its timer is the one that is restarted.
 Distinct IDs are enough for that. Nothing is asked of the clock.
 */
module ArmedTimers {
  import opened DispatcherSpec
  import opened Conservation
  import opened DistinctIds

  ghost predicate Armed(e: Ev) {
    e.deadline.Some?
  }

  ghost predicate AllArmed(q: seq<Ev>) {
    forall k {:trigger Armed(q[k])} | 0 <= k < |q| :: Armed(q[k])
  }

  lemma SendArms(c: Core, e: Ev, now: int, a: Attempt)
    requires c.mode.phase.Running?
    ensures var (c', e') := Send(c, e, now, a);
            c'.mode.phase.Running? ==> Armed(e')
  {
  }

  lemma ArmedWithout(q: seq<Ev>, i: nat)
    requires i < |q| && forall k | 0 <= k < |q| && k != i :: Armed(q[k])
    ensures AllArmed(Without(q, i))
  {
    var r := Without(q, i);
    forall k | 0 <= k < |r| ensures Armed(r[k]) {
      assert Armed(q[if k < i then k else k + 1]);
    }
  }

  /** The timer of the event that is restarted does not matter. */
  lemma RestartArmed(s: State, i: nat, answered: bool, now: int, a: Attempt)
    requires s.core.mode.phase.Running? && i < |s.outstanding|
    requires Find(s.outstanding, s.outstanding[i].qid) == i
    requires forall k | 0 <= k < |s.outstanding| && k != i :: Armed(s.outstanding[k])
    ensures var s' := Restart(s, s.outstanding[i].qid, answered, now, a);
            s'.core.mode.phase.InLoop() ==> AllArmed(s'.outstanding)
  {
    var q, e := s.outstanding, s.outstanding[i];
    var c := Count(s.core, e, answered);
    ArmedWithout(q, i);
    SendFacts(c, e, now, a);
    SendArms(c, e, now, a);
    var (c', e') := Send(c, e, now, a);
    forall k | 0 <= k < |q| ensures Armed((Without(q, i) + [e'])[k]) || !c'.mode.phase.Running? {
      if k < |q| - 1 {
        assert Armed(Without(q, i)[k]);
      }
    }
  }

  /** An event is marked in place, and whoever is first with its ID is restarted. Its own timer may be
      off if that is the event itself. */
  lemma MarkedArmed(s: State, k: nat, c: Core, e: Ev, answered: bool, now: int, a: Attempt)
    requires s.core.mode.phase.Running? && AllArmed(s.outstanding)
    requires k < |s.outstanding| && c == s.core.(net := c.net) && e.qid == s.outstanding[k].qid
    requires Armed(e) || Find(s.outstanding, e.qid) == k
    ensures var s' := Restart(State(c, s.outstanding[k := e]), e.qid, answered, now, a);
            s'.core.mode.phase.InLoop() ==> AllArmed(s'.outstanding)
  {
    var r, f := s.outstanding[k := e], Find(s.outstanding, e.qid);
    FindMarked(s.outstanding, k, e);
    forall j | 0 <= j < |r| && j != f ensures Armed(r[j]) {
      assert Armed(s.outstanding[j]);
    }
    RestartArmed(State(c, r), f, answered, now, a);
  }

  lemma OwnTimeoutArmed(s: State, k: nat, now: int, a: Attempt)
    requires s.core.mode.phase.Running? && AllArmed(s.outstanding) && k < |s.outstanding|
    requires Find(s.outstanding, s.outstanding[k].qid) == k
    ensures var s' := OnTimeout(s, k, now, a);
            s'.core.mode.phase.InLoop() ==> AllArmed(s'.outstanding)
  {
    var (c, e) := Expire(s.core, s.outstanding[k]);
    MarkedArmed(s, k, c, e, false, now, a);
  }

  /** A timeout that restarts another event leaves its own without a timer. */
  lemma OtherTimeoutUnarmed(s: State, k: nat, now: int, a: Attempt)
    requires s.core.mode.phase.Running? && k < |s.outstanding|
    requires Find(s.outstanding, s.outstanding[k].qid) < k
    ensures var s' := OnTimeout(s, k, now, a);
            s'.core.mode.phase.InLoop() ==> !AllArmed(s'.outstanding)
  {
    var (c, e) := Expire(s.core, s.outstanding[k]);
    var r, f := s.outstanding[k := e], Find(s.outstanding, e.qid);
    FindMarked(s.outstanding, k, e);
    SendFacts(Count(c, r[f], false), r[f], now, a);
    assert Without(r, f)[k - 1] == e && !Armed(e);
    var s' := OnTimeout(s, k, now, a);
    assert s'.core.mode.phase.InLoop() ==> s'.outstanding[k - 1] == e;
  }

  lemma TcpDoneArmed(s: State, k: nat, payload: Payload, now: int, a: Attempt)
    requires s.core.mode.phase.Running? && AllArmed(s.outstanding) && k < |s.outstanding|
    ensures var s' := OnTcpDone(s, k, payload, now, a);
            s'.core.mode.phase.InLoop() ==> AllArmed(s'.outstanding)
  {
    assert Armed(s.outstanding[k]);
    var (c, e) := Clear(s.core, s.outstanding[k]);
    MarkedArmed(s, k, c, e, payload.Header?, now, a);
  }

  /** A timeout finds its own event first. */
  predicate FiresOwn(s: State, what: What)
    requires Enabled(s, what)
  {
    what.QueryTimeout? ==>
      var k := Locate(s.outstanding, what.slot);
      Find(s.outstanding, s.outstanding[k].qid) == k
  }

  /** The only way to lose a timer. */
  lemma StepArmedIff(s: State, i: Input)
    requires Enabled(s, i.what) && AllArmed(s.outstanding)
    ensures Step(s, i).core.mode.phase.InLoop() ==> (AllArmed(Step(s, i).outstanding) <==> FiresOwn(s, i.what))
  {
    match i.what
    case Response(qid) =>
      if qid.Some? {
        var k := Find(s.outstanding, qid.value);
        if k < |s.outstanding| {
          assert forall j | 0 <= j < |s.outstanding| :: Armed(s.outstanding[j]);
          RestartArmed(s, k, true, i.at, i.attempt);
        }
      }
    case QueryTimeout(slot) =>
      var k := Locate(s.outstanding, slot);
      if Find(s.outstanding, s.outstanding[k].qid) == k {
        OwnTimeoutArmed(s, k, i.at, i.attempt);
      } else {
        OtherTimeoutUnarmed(s, k, i.at, i.attempt);
      }
    case TcpDone(slot, payload) => TcpDoneArmed(s, Locate(s.outstanding, slot), payload, i.at, i.attempt);
    case SessionTimer =>
  }

  // ---- Runs ----

  ghost predicate ArmedThroughout(s: State, ins: seq<Input>)
    requires ValidRun(s, ins)
    decreases |ins|
  {
    && (s.core.mode.phase.InLoop() ==> AllArmed(s.outstanding))
    && (ins != [] ==> ArmedThroughout(Step(s, ins[0]), ins[1..]))
  }

  /** Every timeout that the run survives finds its own event first. */
  ghost predicate OwnTimeouts(s: State, ins: seq<Input>)
    requires ValidRun(s, ins)
    decreases |ins|
  {
    ins != [] ==>
      && (Step(s, ins[0]).core.mode.phase.InLoop() ==> FiresOwn(s, ins[0].what))
      && OwnTimeouts(Step(s, ins[0]), ins[1..])
  }

  lemma {:induction false} RunArmedIff(s: State, ins: seq<Input>)
    requires AllArmed(s.outstanding) && ValidRun(s, ins)
    ensures ArmedThroughout(s, ins) <==> OwnTimeouts(s, ins)
    decreases |ins|
  {
    if ins != [] {
      var s' := Step(s, ins[0]);
      StepArmedIff(s, ins[0]);
      if !s'.core.mode.phase.InLoop() {
        DeadRun(s', ins[1..]);
      } else if AllArmed(s'.outstanding) {
        RunArmedIff(s', ins[1..]);
      }
    }
  }

  lemma FindDistinct(q: seq<Ev>, k: nat)
    requires Distinct(q) && k < |q|
    ensures Find(q, q[k].qid) == k
  {
    FindOwn(q, k, q[k]);
    assert q[k := q[k]] == q;
  }

  lemma {:induction false} DistinctFiresOwn(s: State, ins: seq<Input>)
    requires ValidRun(s, ins) && DistinctThroughout(s, ins)
    ensures OwnTimeouts(s, ins)
    decreases |ins|
  {
    if ins != [] {
      if ins[0].what.QueryTimeout? {
        FindDistinct(s.outstanding, Locate(s.outstanding, ins[0].what.slot));
      }
      DistinctFiresOwn(Step(s, ins[0]), ins[1..]);
    }
  }

  lemma {:induction false} ArmedAtEnd(s: State, ins: seq<Input>)
    requires ValidRun(s, ins) && ArmedThroughout(s, ins) && Run(s, ins).core.mode.phase.InLoop()
    ensures AllArmed(Run(s, ins).outstanding)
    decreases |ins|
  {
    if ins != [] {
      ArmedAtEnd(Step(s, ins[0]), ins[1..]);
    }
  }

  lemma {:induction false} DispatchArms(s: State, i: nat, tries: seq<Try>)
    requires i <= |s.outstanding| == |tries| && !s.core.mode.phase.Stopped?
    requires forall k | 0 <= k < i :: Armed(s.outstanding[k])
    ensures var s' := Dispatch(s, i, tries);
            s'.core.mode.phase.InLoop() ==> AllArmed(s'.outstanding)
    decreases |s.outstanding| - i
  {
    if i < |s.outstanding| && s.core.mode.phase.Running? {
      SendFacts(s.core, s.outstanding[i], tries[i].at, tries[i].attempt);
      SendArms(s.core, s.outstanding[i], tries[i].at, tries[i].attempt);
      var (c, e) := Send(s.core, s.outstanding[i], tries[i].at, tries[i].attempt);
      if c.mode.phase.Running? {
        DispatchArms(State(c, s.outstanding[i := e]), i + 1, tries);
      }
    }
  }

  /**
   The exact condition, over every run from the start and with no assumption on time: every
   outstanding event has its timer armed at every boundary of the event loop if and only if every
   timeout the run survives finds its own event first with its ID.
   */
  lemma TimersArmedIff(window: nat, timeout: int, tries: seq<Try>, ins: seq<Input>)
    requires |tries| == window && ValidRun(Begin(window, timeout, tries), ins)
    ensures var s := Begin(window, timeout, tries);
            ArmedThroughout(s, ins) <==> OwnTimeouts(s, ins)
  {
    var s := Begin(window, timeout, tries);
    DispatchArms(Idle(window, timeout), 0, tries);
    if s.core.mode.phase.InLoop() {
      RunArmedIff(s, ins);
    } else {
      DeadRun(s, ins);
    }
  }

  /** Distinct IDs are enough for that. */
  lemma TimersStayArmed(window: nat, timeout: int, tries: seq<Try>, ins: seq<Input>)
    requires |tries| == window && ValidRun(Begin(window, timeout, tries), ins)
    requires DistinctThroughout(Begin(window, timeout, tries), ins)
    ensures var s := Run(Begin(window, timeout, tries), ins);
            s.core.mode.phase.InLoop() ==> AllArmed(s.outstanding)
  {
    var s := Begin(window, timeout, tries);
    TimersArmedIff(window, timeout, tries, ins);
    DistinctFiresOwn(s, ins);
    if Run(s, ins).core.mode.phase.InLoop() {
      ArmedAtEnd(s, ins);
    }
  }
}
