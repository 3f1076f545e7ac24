/**
 After the session timer: nothing more is sent, every matched event leaves the
 list for good, and with distinct IDs the timers alone bring the run to its end.
 */
module Drain {
  import opened DispatcherSpec
  import opened Conservation
  import opened DistinctIds
  import opened ArmedTimers
  import opened Progress

  /** One step of a run that no longer sends. */
  ghost predicate Drained(s: State, s': State) {
    && s'.core.tally.log == s.core.tally.log && s'.core.tally.sent == s.core.tally.sent
    && !s'.core.mode.keepSending
    && |s.outstanding| - 1 <= |s'.outstanding| <= |s.outstanding|
  }

  lemma RestartDrains(s: State, qid: nat, answered: bool, now: int, a: Attempt)
    requires !s.core.mode.keepSending
    ensures var s' := Restart(s, qid, answered, now, a);
            && Drained(s, s')
            && (Find(s.outstanding, qid) < |s.outstanding| ==> |s'.outstanding| == |s.outstanding| - 1)
            && (Find(s.outstanding, qid) == |s.outstanding| ==> s' == s)
  {
    var i := Find(s.outstanding, qid);
    if i < |s.outstanding| {
      EraseFacts(Count(s.core, s.outstanding[i], answered), s.outstanding[i], |s.outstanding| == 1);
    }
  }

  /** Nothing is sent while draining, with or without colliding IDs; a step that matches an event
      removes one entry, and a timeout always matches one. */
  lemma StepDrains(s: State, i: Input)
    requires Enabled(s, i.what) && !s.core.mode.keepSending
    ensures Drained(s, Step(s, i))
    ensures i.what.QueryTimeout? ==> |Step(s, i).outstanding| == |s.outstanding| - 1
  {
    match i.what
    case Response(qid) =>
      if qid.Some? {
        RestartDrains(s, qid.value, true, i.at, i.attempt);
      }
    case QueryTimeout(slot) =>
      var k := Locate(s.outstanding, slot);
      var (c, e) := Expire(s.core, s.outstanding[k]);
      var r := s.outstanding[k := e];
      RestartDrains(State(c, r), e.qid, false, i.at, i.attempt);
      assert r[k].qid == e.qid;
    case TcpDone(slot, payload) =>
      var k := Locate(s.outstanding, slot);
      var (c, e) := Clear(s.core, s.outstanding[k]);
      RestartDrains(State(c, s.outstanding[k := e]), e.qid, payload.Header?, i.at, i.attempt);
    case SessionTimer =>
  }

  lemma {:induction false} RunDrains(s: State, ins: seq<Input>)
    requires ValidRun(s, ins) && !s.core.mode.keepSending
    ensures var s' := Run(s, ins);
            && s'.core.tally.log == s.core.tally.log && !s'.core.mode.keepSending
            && |s'.outstanding| <= |s.outstanding|
    decreases |ins|
  {
    if ins != [] {
      StepDrains(s, ins[0]);
      RunDrains(Step(s, ins[0]), ins[1..]);
    }
  }

  /** The inputs that end a query: a response to an outstanding one, a timeout, a TCP callback. */
  predicate Hits(s: State, what: What) {
    match what
    case Response(qid) => qid.Some? && Find(s.outstanding, qid.value) < |s.outstanding|
    case QueryTimeout(_) => true
    case TcpDone(_, _) => true
    case SessionTimer => false
  }

  /** What a step that the run survives leaves of a draining run: all but one event, or all. */
  lemma StepDrainsOn(s: State, i: Input)
    requires Good(s) && !s.core.mode.keepSending && Enabled(s, i.what)
    ensures var s' := Step(s, i);
            s'.core.mode.phase.InLoop() ==>
              && Good(s') && !s'.core.mode.keepSending && s'.core.tally.log == s.core.tally.log
              && |s'.outstanding| == |s.outstanding| - (if Hits(s, i.what) then 1 else 0)
  {
    StepGood(s, i);
    StepDrains(s, i);
    match i.what
    case Response(qid) =>
      if qid.Some? {
        RestartDrains(s, qid.value, true, i.at, i.attempt);
      }
    case QueryTimeout(_) =>
    case TcpDone(slot, payload) => TcpDoneDrains(s, Locate(s.outstanding, slot), payload, i.at, i.attempt);
    case SessionTimer =>
  }

  lemma TcpDoneDrains(s: State, k: nat, payload: Payload, now: int, a: Attempt)
    requires !s.core.mode.keepSending && s.core.mode.phase.Running? && k < |s.outstanding|
    ensures var s' := OnTcpDone(s, k, payload, now, a);
            s'.core.mode.phase.InLoop() ==> |s'.outstanding| == |s.outstanding| - 1
  {
    var (c, e) := Clear(s.core, s.outstanding[k]);
    var r := s.outstanding[k := e];
    assert r[k].qid == e.qid;
    RestartDrains(State(c, r), e.qid, payload.Header?, now, a);
  }

  ghost function CountHits(s: State, ins: seq<Input>): (n: nat)
    requires ValidRun(s, ins)
    ensures n <= |ins|
    decreases |ins|
  {
    if ins == [] then 0
    else (if Hits(s, ins[0].what) then 1 else 0) + CountHits(Step(s, ins[0]), ins[1..])
  }

  lemma StillInLoop(s: State, ins: seq<Input>)
    requires ValidRun(s, ins) && Run(s, ins).core.mode.phase.InLoop()
    ensures s.core.mode.phase.InLoop()
  {
    if !s.core.mode.phase.InLoop() {
      DeadRun(s, ins);
    }
  }

  /**
   Draining, with or without colliding IDs: from any state that no longer sends, over any run of
   responses, late responses, timeouts and TCP callbacks: nothing is sent, each input that ends a
   query removes one event, and `stop` has been called, once, when the last is gone and not before.
   */
  lemma {:induction false} DrainRun(s: State, ins: seq<Input>)
    requires Good(s) && !s.core.mode.keepSending && ValidRun(s, ins) && Run(s, ins).core.mode.phase.InLoop()
    ensures var s', n := Run(s, ins), CountHits(s, ins);
            && s'.core.tally.log == s.core.tally.log
            && |s'.outstanding| == |s.outstanding| - n
            && (s'.core.mode.phase.Stopped? <==> n == |s.outstanding|)
            && s'.core.mode.stops == (if n == |s.outstanding| then 1 else 0)
    decreases |ins|
  {
    if ins != [] {
      var s' := Step(s, ins[0]);
      StepDrainsOn(s, ins[0]);
      StillInLoop(s', ins[1..]);
      DrainRun(s', ins[1..]);
    }
  }

  // ---- Draining by timers alone ----

  /** Every input is the timeout of an outstanding event. */
  ghost predicate TimeoutsOnly(ins: seq<Input>) {
    forall k | 0 <= k < |ins| :: ins[k].what.QueryTimeout?
  }

  lemma TimeoutStaysInLoop(s: State, k: nat, now: int, a: Attempt)
    requires !s.core.mode.keepSending && s.core.mode.phase.Running? && k < |s.outstanding|
    ensures OnTimeout(s, k, now, a).core.mode.phase.InLoop()
  {
    var (c, e) := Expire(s.core, s.outstanding[k]);
    var r := s.outstanding[k := e];
    var f := Find(r, e.qid);
    assert r[k].qid == e.qid;
    EraseFacts(Count(c, r[f], false), r[f], |r| == 1);
  }

  lemma {:induction false} TimeoutsAllHit(s: State, ins: seq<Input>)
    requires !s.core.mode.keepSending && s.core.mode.phase.InLoop() && ValidRun(s, ins) && TimeoutsOnly(ins)
    ensures CountHits(s, ins) == |ins|
    ensures Run(s, ins).core.mode.phase.InLoop()
    decreases |ins|
  {
    if ins != [] {
      TimeoutStaysInLoop(s, Locate(s.outstanding, ins[0].what.slot), ins[0].at, ins[0].attempt);
      StepDrains(s, ins[0]);
      assert TimeoutsOnly(ins[1..]);
      TimeoutsAllHit(Step(s, ins[0]), ins[1..]);
    }
  }

  /** A run that no longer sends is as young at its end as at its start. */
  lemma DrainsDistinct(s: State, i: Input)
    requires Good(s) && !s.core.mode.keepSending && Enabled(s, i.what) && Distinct(s.outstanding)
    ensures Step(s, i).core.mode.phase.InLoop() ==> Distinct(Step(s, i).outstanding)
  {
    match i.what
    case Response(qid) =>
      if qid.Some? && Find(s.outstanding, qid.value) < |s.outstanding| {
        DistinctWithout(s.outstanding, Find(s.outstanding, qid.value));
      }
    case QueryTimeout(slot) =>
      TimeoutDrainsDistinct(s, Locate(s.outstanding, slot), i.at, i.attempt);
    case TcpDone(slot, payload) =>
      TcpDoneDrainsDistinct(s, Locate(s.outstanding, slot), payload, i.at, i.attempt);
    case SessionTimer =>
  }

  lemma TimeoutDrainsDistinct(s: State, k: nat, now: int, a: Attempt)
    requires !s.core.mode.keepSending && Distinct(s.outstanding) && k < |s.outstanding|
    ensures Distinct(OnTimeout(s, k, now, a).outstanding)
  {
    var (c, e) := Expire(s.core, s.outstanding[k]);
    FindOwn(s.outstanding, k, e);
    DistinctWithout(s.outstanding[k := e], k);
  }

  lemma TcpDoneDrainsDistinct(s: State, k: nat, payload: Payload, now: int, a: Attempt)
    requires !s.core.mode.keepSending && Distinct(s.outstanding) && k < |s.outstanding|
    ensures Distinct(OnTcpDone(s, k, payload, now, a).outstanding)
  {
    var (c, e) := Clear(s.core, s.outstanding[k]);
    FindOwn(s.outstanding, k, e);
    DistinctWithout(s.outstanding[k := e], k);
  }

  lemma {:induction false} DrainsDistinctThroughout(s: State, ins: seq<Input>)
    requires Good(s) && !s.core.mode.keepSending && ValidRun(s, ins) && Distinct(s.outstanding)
    ensures DistinctThroughout(s, ins)
    decreases |ins|
  {
    if ins != [] {
      var s' := Step(s, ins[0]);
      DrainsDistinct(s, ins[0]);
      StepDrainsOn(s, ins[0]);
      if s'.core.mode.phase.InLoop() {
        DrainsDistinctThroughout(s', ins[1..]);
      } else {
        DeadRun(s', ins[1..]);
      }
    }
  }

  /**
   From the start: after a run with distinct IDs whose session is over, timeouts alone, in whatever
   order, remove one event each; until the list is empty every event left can time out, and when it
   is empty `stop` has been called, once.
   */
  lemma DrainByTimers(window: nat, timeout: int, tries: seq<Try>, ins: seq<Input>, outs: seq<Input>)
    requires window > 0 && |tries| == window && ValidRun(Begin(window, timeout, tries), ins)
    requires DistinctThroughout(Begin(window, timeout, tries), ins)
    requires var s := Run(Begin(window, timeout, tries), ins);
             s.core.mode.phase.InLoop() && !s.core.mode.keepSending && ValidRun(s, outs) && TimeoutsOnly(outs)
    ensures var s := Run(Begin(window, timeout, tries), ins);
            var s' := Run(s, outs);
            && |s'.outstanding| == |s.outstanding| - |outs|
            && s'.core.tally.log == s.core.tally.log
            && (|outs| == |s.outstanding| ==> s'.core.mode.phase.Stopped? && s'.core.mode.stops == 1)
            && (|outs| < |s.outstanding| ==> s'.core.mode.phase.Running? && Progresses(s'))
  {
    var s := Run(Begin(window, timeout, tries), ins);
    GoodThroughout(window, timeout, tries, ins);
    TimersStayArmed(window, timeout, tries, ins);
    TimeoutsAllHit(s, outs);
    DrainRun(s, outs);
    var s' := Run(s, outs);
    DrainsDistinctThroughout(s, outs);
    RunProgressIff(s, outs);
    if |outs| < |s.outstanding| {
      ProgressAtEnd(s, outs);
    }
  }

  lemma {:induction false} ProgressAtEnd(s: State, ins: seq<Input>)
    requires ValidRun(s, ins) && ProgressThroughout(s, ins) && Run(s, ins).core.mode.phase.Running?
    ensures Progresses(Run(s, ins))
    decreases |ins|
  {
    if ins != [] {
      ProgressAtEnd(Step(s, ins[0]), ins[1..]);
    }
  }

  // ---- How long draining takes ----

  ghost predicate SentBy(log: seq<Sent>, last: int) {
    forall k | 0 <= k < |log| :: log[k].at <= last
  }

  ghost predicate NoneAfter(ins: seq<Input>, deadline: int) {
    forall k | 0 <= k < |ins| :: ins[k].at <= deadline
  }

  lemma NoneAfterCons(ins: seq<Input>, deadline: int)
    requires ins != [] && ins[0].at <= deadline && NoneAfter(ins[1..], deadline)
    ensures NoneAfter(ins, deadline)
  {
    assert forall k | 0 < k < |ins| :: ins[k] == ins[1..][k - 1];
  }

  /** A draining state whose timers are set for the queries outstanding, none sent after `last`. */
  ghost predicate DrainingBy(s: State, lag: nat, last: int) {
    Good(s) && Distinct(s.outstanding) && Timed(s, lag) && !s.core.mode.keepSending && SentBy(s.core.tally.log, last)
  }

  lemma StepDrainsInTime(s: State, i: Input, lag: nat, last: int)
    requires DrainingBy(s, lag, last) && Enabled(s, i.what) && Punctual(s, i.at, lag)
    ensures i.at <= last + s.core.timeout + lag
    ensures var s' := Step(s, i);
            s'.core.mode.phase.InLoop() ==> DrainingBy(s', lag, last) && s'.core.timeout == s.core.timeout
  {
    assert OnTime(s.core.tally, s.core.timeout, lag, s.outstanding[0]);
    StepDrainsOn(s, i);
    DrainsDistinct(s, i);
    StepTimed(s, i, lag);
    StepKeepsWindow(s, i);
  }

  /** Nothing happens once the timeout of the last query sent is overdue. */
  lemma {:induction false} DrainDeadline(s: State, ins: seq<Input>, lag: nat, last: int)
    requires DrainingBy(s, lag, last) && ValidRun(s, ins) && PunctualRun(s, ins, lag)
    ensures NoneAfter(ins, last + s.core.timeout + lag)
    decreases |ins|
  {
    if ins != [] {
      var s', rest := Step(s, ins[0]), ins[1..];
      StepDrainsInTime(s, ins[0], lag, last);
      if s'.core.mode.phase.InLoop() {
        DrainDeadline(s', rest, lag, last);
      } else {
        DeadRun(s', rest);
      }
      NoneAfterCons(ins, last + s.core.timeout + lag);
    }
  }

  /** The same after a run from any state whose timers are set. */
  lemma DrainDeadlineAfter(s: State, ins: seq<Input>, outs: seq<Input>, lag: nat, last: int)
    requires Good(s) && Timed(s, lag)
    requires ValidRun(s, ins) && PunctualRun(s, ins, lag) && DistinctThroughout(s, ins)
    requires var s' := Run(s, ins);
             && s'.core.mode.phase.InLoop() && !s'.core.mode.keepSending && SentBy(s'.core.tally.log, last)
             && ValidRun(s', outs) && PunctualRun(s', outs, lag)
    ensures NoneAfter(outs, last + s.core.timeout + lag)
  {
    RunGood(s, ins);
    RunTimed(s, ins, lag);
    DistinctAtEnd(s, ins);
    RunKeepsWindow(s, ins);
    DrainDeadline(Run(s, ins), outs, lag, last);
  }

  /**
   From the start, with distinct IDs: once the session is over, whatever responses, timeouts and TCP
   callbacks come, the last of them comes no later than one timeout and `lag` after the last send.
   */
  lemma SessionEndsInTime(window: nat, timeout: int, tries: seq<Try>, ins: seq<Input>, outs: seq<Input>,
                          lag: nat, last: int)
    requires window > 0 && |tries| == window && PromptStart(timeout, tries, lag)
    requires var s := Begin(window, timeout, tries);
             ValidRun(s, ins) && PunctualRun(s, ins, lag) && DistinctThroughout(s, ins)
    requires var s := Run(Begin(window, timeout, tries), ins);
             && s.core.mode.phase.InLoop() && !s.core.mode.keepSending && SentBy(s.core.tally.log, last)
             && ValidRun(s, outs) && PunctualRun(s, outs, lag)
    ensures NoneAfter(outs, last + timeout + lag)
  {
    var s := Begin(window, timeout, tries);
    StillInLoop(s, ins);
    BeginGood(window, timeout, tries);
    DispatchKeepsWindow(Idle(window, timeout), 0, tries);
    DispatchOnTime(Idle(window, timeout), 0, tries, lag);
    DrainDeadlineAfter(s, ins, outs, lag, last);
  }
}
