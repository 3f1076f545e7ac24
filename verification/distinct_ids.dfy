/**
 Query IDs are distinct as long as no more than 65536 queries are sent within a
 query timeout: the outstanding events then have pairwise distinct IDs, and each
 has its own timer running.
 */
module DistinctIds {
  import opened Wrappers
  import opened RepositorySpec
  import opened DispatcherSpec
  import opened Conservation

  ghost predicate OtherId(a: Ev, b: Ev) {
    a.qid != b.qid
  }

  ghost predicate Distinct(q: seq<Ev>) {
    forall i, j {:trigger OtherId(q[i], q[j])} | 0 <= i < j < |q| :: OtherId(q[i], q[j])
  }

  lemma DistinctAt(q: seq<Ev>, i: nat, j: nat)
    requires Distinct(q) && i < |q| && j < |q| && i != j
    ensures q[i].qid != q[j].qid
  {
    assert if i < j then OtherId(q[i], q[j]) else OtherId(q[j], q[i]);
  }

  lemma {:induction false} FindIs(q: seq<Ev>, i: nat)
    requires i < |q| && forall k | 0 <= k < i :: q[k].qid != q[i].qid
    ensures Find(q, q[i].qid) == i
  {
    var f := Find(q, q[i].qid);
    assert f <= i;
  }

  /** With distinct IDs the search by ID finds the event itself, whatever marks it carries. */
  lemma FindOwn(q: seq<Ev>, i: nat, e: Ev)
    requires Distinct(q) && i < |q| && e.qid == q[i].qid
    ensures Distinct(q[i := e]) && Find(q[i := e], e.qid) == i
  {
    var r := q[i := e];
    forall j, k | 0 <= j < k < |r| ensures OtherId(r[j], r[k]) {
      DistinctAt(q, j, k);
    }
    forall k | 0 <= k < i ensures r[k].qid != e.qid {
      DistinctAt(q, k, i);
    }
    FindIs(r, i);
  }

  /** The first event with the ID of the one at `k`, after that has been marked in place. */
  lemma FindMarked(q: seq<Ev>, k: nat, e: Ev)
    requires k < |q| && e.qid == q[k].qid
    ensures Find(q[k := e], e.qid) == Find(q, e.qid) <= k
  {
    var f, r := Find(q, e.qid), q[k := e];
    assert f <= k;
    assert forall j | 0 <= j < f :: r[j].qid != e.qid;
    assert r[f].qid == e.qid;
    FindIs(r, f);
  }

  lemma DistinctWithout(q: seq<Ev>, i: nat)
    requires Distinct(q) && i < |q|
    ensures Distinct(Without(q, i))
  {
    var r := Without(q, i);
    forall j, k | 0 <= j < k < |r| ensures OtherId(r[j], r[k]) {
      DistinctAt(q, if j < i then j else j + 1, if k < i then k else k + 1);
    }
  }

  /** The outstanding IDs are distinct at every boundary of the event loop. */
  ghost predicate DistinctThroughout(s: State, ins: seq<Input>)
    requires ValidRun(s, ins)
    decreases |ins|
  {
    && (s.core.mode.phase.InLoop() ==> Distinct(s.outstanding))
    && (ins != [] ==> DistinctThroughout(Step(s, ins[0]), ins[1..]))
  }

  // ---- Time ----

  /** The event's own timer is armed for the send of its query, and whatever was sent after that
      was sent before the timer was overdue by more than `lag`. */
  ghost predicate OnTime(t: Tally, timeout: int, lag: nat, e: Ev) {
    && e.seqno < |t.log|
    && e.deadline == Some(t.log[e.seqno].at + timeout)
    && forall m | e.seqno < m < |t.log| :: t.log[m].at <= t.log[e.seqno].at + timeout + lag
  }

  ghost predicate AllOnTime(t: Tally, timeout: int, lag: nat, q: seq<Ev>) {
    forall k {:trigger OnTime(t, timeout, lag, q[k])} | 0 <= k < |q| :: OnTime(t, timeout, lag, q[k])
  }

  ghost predicate Timed(s: State, lag: nat) {
    AllOnTime(s.core.tally, s.core.timeout, lag, s.outstanding)
  }

  /** At `now` no armed timer is overdue by more than `lag`. */
  ghost predicate Punctual(s: State, now: int, lag: nat) {
    forall k | 0 <= k < |s.outstanding| && s.outstanding[k].deadline.Some? ::
      now <= s.outstanding[k].deadline.value + lag
  }

  ghost predicate PunctualRun(s: State, ins: seq<Input>, lag: nat)
    requires ValidRun(s, ins)
    decreases |ins|
  {
    ins == [] || (Punctual(s, ins[0].at, lag) && PunctualRun(Step(s, ins[0]), ins[1..], lag))
  }

  /** Any closed interval of length `span` holds at most 65536 sends: two sends no more than `span`
      apart are fewer than 65536 apart in the log. */
  ghost predicate RateBound(log: seq<Sent>, span: int) {
    forall a, b | 0 <= a < b < |log| && log[b].at - log[a].at <= span :: b - a < 65536
  }

  lemma Wrap16Differs(a: nat, b: nat)
    requires a < b && b - a < 65536
    ensures Wrap16(a) != Wrap16(b)
  {
  }

  lemma RateMakesDistinct(s: State, lag: nat)
    requires Good(s) && Timed(s, lag) && RateBound(s.core.tally.log, s.core.timeout + lag)
    ensures Distinct(s.outstanding)
  {
    var q, t := s.outstanding, s.core.tally;
    forall i, j | 0 <= i < j < |q| ensures OtherId(q[i], q[j]) {
      UniqAt(q, i, j);
      assert EvOk(t, q[i]) && EvOk(t, q[j]);
      assert OnTime(t, s.core.timeout, lag, q[i]) && OnTime(t, s.core.timeout, lag, q[j]);
      Wrap16Differs(if q[i].seqno < q[j].seqno then q[i].seqno else q[j].seqno,
                    if q[i].seqno < q[j].seqno then q[j].seqno else q[i].seqno);
    }
  }

  lemma OnTimeLogged(t: Tally, timeout: int, lag: nat, q: seq<Ev>, e: Ev, query: Query, now: int)
    requires AllOnTime(t, timeout, lag, q) && LogOk(t)
    requires forall k | 0 <= k < |q| :: q[k].seqno < |t.log| && now <= t.log[q[k].seqno].at + timeout + lag
    requires e.seqno == t.sent && e.deadline == Some(now + timeout)
    ensures AllOnTime(Logged(t, e, query, now), timeout, lag, q + [e])
  {
    var t' := Logged(t, e, query, now);
    forall k | 0 <= k < |q + [e]| ensures OnTime(t', timeout, lag, (q + [e])[k]) {
      if k < |q| {
        assert OnTime(t, timeout, lag, q[k]);
      }
    }
  }

  /** All events but the one at `i` are on time, and none of them is overdue at `now`. */
  ghost predicate OthersOnTime(s: State, i: nat, now: int, lag: nat) {
    forall k | 0 <= k < |s.outstanding| && k != i ::
      OnTime(s.core.tally, s.core.timeout, lag, s.outstanding[k]) &&
      now <= s.core.tally.log[s.outstanding[k].seqno].at + s.core.timeout + lag
  }

  lemma RestOnTime(s: State, i: nat, answered: bool, now: int, lag: nat)
    requires i < |s.outstanding| && OthersOnTime(s, i, now, lag)
    ensures var t, r := Counted(s.core.tally, s.outstanding[i], answered), Without(s.outstanding, i);
            && AllOnTime(t, s.core.timeout, lag, r)
            && forall k | 0 <= k < |r| ::
                 r[k].seqno < |t.log| && now <= t.log[r[k].seqno].at + s.core.timeout + lag
  {
    var t, r := Counted(s.core.tally, s.outstanding[i], answered), Without(s.outstanding, i);
    forall k | 0 <= k < |r|
      ensures OnTime(t, s.core.timeout, lag, r[k])
      ensures now <= t.log[r[k].seqno].at + s.core.timeout + lag
    {
      assert OnTime(s.core.tally, s.core.timeout, lag, s.outstanding[if k < i then k else k + 1]);
    }
  }

  lemma ResendTimed(s: State, i: nat, answered: bool, now: int, a: Attempt, lag: nat)
    requires i < |s.outstanding| && OthersOnTime(s, i, now, lag) && LogOk(s.core.tally)
    requires s.core.mode.phase.Running?
    ensures Resend(s, i, answered, now, a).core.mode.phase.Running? ==> Timed(Resend(s, i, answered, now, a), lag)
  {
    var e := s.outstanding[i];
    var c := Count(s.core, e, answered);
    RestOnTime(s, i, answered, now, lag);
    SendFacts(c, e, now, a);
    var (c', e') := Send(c, e, now, a);
    if c'.mode.phase.Running? {
      assert c'.tally == Logged(c.tally, e', a.query, now) && e'.deadline == Some(now + c.timeout);
      OnTimeLogged(c.tally, c.timeout, lag, Without(s.outstanding, i), e', a.query, now);
    }
  }

  lemma DropTimed(s: State, i: nat, answered: bool, now: int, lag: nat)
    requires i < |s.outstanding| && OthersOnTime(s, i, now, lag)
    ensures Timed(Drop(s, i, answered), lag)
  {
    RestOnTime(s, i, answered, now, lag);
    EraseFacts(Count(s.core, s.outstanding[i], answered), s.outstanding[i], |s.outstanding| == 1);
  }

  lemma RestartTimed(s: State, i: nat, answered: bool, now: int, a: Attempt, lag: nat)
    requires LogOk(s.core.tally) && s.core.mode.phase.Running?
    requires i < |s.outstanding| && OthersOnTime(s, i, now, lag)
    requires Find(s.outstanding, s.outstanding[i].qid) == i
    ensures var s' := Restart(s, s.outstanding[i].qid, answered, now, a);
            s'.core.mode.phase.InLoop() ==> Timed(s', lag)
  {
    if s.core.mode.keepSending {
      ResendTimed(s, i, answered, now, a, lag);
      SendFacts(Count(s.core, s.outstanding[i], answered), s.outstanding[i], now, a);
    } else {
      DropTimed(s, i, answered, now, lag);
    }
  }

  lemma OthersOf(s: State, i: nat, c: Core, e: Ev, now: int, lag: nat)
    requires Good(s) && Timed(s, lag) && Punctual(s, now, lag) && i < |s.outstanding|
    requires c.tally == s.core.tally && c.timeout == s.core.timeout
    ensures OthersOnTime(State(c, s.outstanding[i := e]), i, now, lag)
  {
    var s1 := State(c, s.outstanding[i := e]);
    forall k | 0 <= k < |s1.outstanding| && k != i
      ensures OnTime(c.tally, c.timeout, lag, s1.outstanding[k])
      ensures now <= c.tally.log[s1.outstanding[k].seqno].at + c.timeout + lag
    {
      assert OnTime(s.core.tally, s.core.timeout, lag, s.outstanding[k]);
    }
  }

  /** An event is marked and then restarted by its own ID. */
  lemma OwnRestartTimed(s: State, k: nat, c: Core, e: Ev, answered: bool, now: int, a: Attempt, lag: nat)
    requires Good(s) && s.core.mode.phase.Running? && Distinct(s.outstanding)
    requires Timed(s, lag) && Punctual(s, now, lag) && k < |s.outstanding|
    requires c == s.core.(net := c.net) && e.qid == s.outstanding[k].qid
    ensures var s' := Restart(State(c, s.outstanding[k := e]), e.qid, answered, now, a);
            s'.core.mode.phase.InLoop() ==> Timed(s', lag)
  {
    OthersOf(s, k, c, e, now, lag);
    FindOwn(s.outstanding, k, e);
    RestartTimed(State(c, s.outstanding[k := e]), k, answered, now, a, lag);
  }

  lemma ResponseTimed(s: State, qid: nat, now: int, a: Attempt, lag: nat)
    requires Good(s) && s.core.mode.phase.Running?
    requires Timed(s, lag) && Punctual(s, now, lag)
    ensures var s' := Restart(s, qid, true, now, a);
            s'.core.mode.phase.InLoop() ==> Timed(s', lag)
  {
    var k := Find(s.outstanding, qid);
    if k < |s.outstanding| {
      OthersOf(s, k, s.core, s.outstanding[k], now, lag);
      assert s.outstanding[k := s.outstanding[k]] == s.outstanding;
      RestartTimed(s, k, true, now, a, lag);
    }
  }

  lemma TimeoutTimed(s: State, k: nat, now: int, a: Attempt, lag: nat)
    requires Good(s) && s.core.mode.phase.Running? && Distinct(s.outstanding)
    requires Timed(s, lag) && Punctual(s, now, lag) && k < |s.outstanding|
    ensures OnTimeout(s, k, now, a).core.mode.phase.InLoop() ==> Timed(OnTimeout(s, k, now, a), lag)
  {
    var (c, e) := Expire(s.core, s.outstanding[k]);
    OwnRestartTimed(s, k, c, e, false, now, a, lag);
  }

  lemma TcpDoneTimed(s: State, k: nat, payload: Payload, now: int, a: Attempt, lag: nat)
    requires Good(s) && s.core.mode.phase.Running? && Distinct(s.outstanding)
    requires Timed(s, lag) && Punctual(s, now, lag) && k < |s.outstanding|
    ensures var s' := OnTcpDone(s, k, payload, now, a);
            s'.core.mode.phase.InLoop() ==> Timed(s', lag)
  {
    var (c, e) := Clear(s.core, s.outstanding[k]);
    OwnRestartTimed(s, k, c, e, payload.Header?, now, a, lag);
  }

  /** With distinct IDs, a step keeps every outstanding event's own timer armed for its query. */
  lemma StepTimed(s: State, i: Input, lag: nat)
    requires Good(s) && Enabled(s, i.what) && Distinct(s.outstanding)
    requires Timed(s, lag) && Punctual(s, i.at, lag)
    ensures Step(s, i).core.mode.phase.InLoop() ==> Timed(Step(s, i), lag)
  {
    match i.what
    case Response(qid) =>
      if qid.Some? {
        ResponseTimed(s, qid.value, i.at, i.attempt, lag);
      }
    case QueryTimeout(slot) => TimeoutTimed(s, Locate(s.outstanding, slot), i.at, i.attempt, lag);
    case TcpDone(slot, payload) => TcpDoneTimed(s, Locate(s.outstanding, slot), payload, i.at, i.attempt, lag);
    case SessionTimer =>
  }

  /** Over a punctual run with distinct IDs, however these come about. */
  lemma {:induction false} RunTimed(s: State, ins: seq<Input>, lag: nat)
    requires Good(s) && Timed(s, lag) && ValidRun(s, ins) && PunctualRun(s, ins, lag)
    requires DistinctThroughout(s, ins)
    ensures Run(s, ins).core.mode.phase.InLoop() ==> Timed(Run(s, ins), lag)
    decreases |ins|
  {
    if ins != [] {
      var s' := Step(s, ins[0]);
      StepGood(s, ins[0]);
      StepTimed(s, ins[0], lag);
      if s'.core.mode.phase.InLoop() {
        RunTimed(s', ins[1..], lag);
      } else {
        DeadRun(s', ins[1..]);
      }
    }
  }

  lemma RestartLogGrows(s: State, qid: nat, answered: bool, now: int, a: Attempt)
    requires s.core.mode.phase.Running?
    ensures s.core.tally.log <= Restart(s, qid, answered, now, a).core.tally.log
  {
    var i := Find(s.outstanding, qid);
    if i < |s.outstanding| {
      SendFacts(Count(s.core, s.outstanding[i], answered), s.outstanding[i], now, a);
    }
  }

  lemma StepLogGrows(s: State, i: Input)
    requires Enabled(s, i.what)
    ensures s.core.tally.log <= Step(s, i).core.tally.log
  {
    match i.what
    case Response(qid) =>
      if qid.Some? {
        RestartLogGrows(s, qid.value, true, i.at, i.attempt);
      }
    case QueryTimeout(slot) =>
      var k := Locate(s.outstanding, slot);
      var (c, e) := Expire(s.core, s.outstanding[k]);
      RestartLogGrows(State(c, s.outstanding[k := e]), e.qid, false, i.at, i.attempt);
    case TcpDone(slot, payload) =>
      var k := Locate(s.outstanding, slot);
      var (c, e) := Clear(s.core, s.outstanding[k]);
      RestartLogGrows(State(c, s.outstanding[k := e]), e.qid, payload.Header?, i.at, i.attempt);
    case SessionTimer =>
  }

  lemma {:induction false} RunLogGrows(s: State, ins: seq<Input>)
    requires ValidRun(s, ins)
    ensures s.core.tally.log <= Run(s, ins).core.tally.log
    decreases |ins|
  {
    if ins != [] {
      StepLogGrows(s, ins[0]);
      RunLogGrows(Step(s, ins[0]), ins[1..]);
    }
  }

  lemma RatePrefix(log: seq<Sent>, longer: seq<Sent>, span: int)
    requires log <= longer && RateBound(longer, span)
    ensures RateBound(log, span)
  {
  }

  /**
   Mutual induction over a run: if no timer is ever overdue by more than `lag` when something
   happens, and any interval of one timeout plus `lag` holds at most 65536 sends, then in every
   state the outstanding IDs are pairwise distinct and each event's own timer is armed for its send
   time plus the timeout.
   */
  lemma {:induction false} RunDistinct(s: State, ins: seq<Input>, lag: nat)
    requires Good(s) && Timed(s, lag) && ValidRun(s, ins) && PunctualRun(s, ins, lag)
    requires RateBound(Run(s, ins).core.tally.log, s.core.timeout + lag)
    ensures var s' := Run(s, ins);
            s'.core.mode.phase.InLoop() ==> Good(s') && Distinct(s'.outstanding) && Timed(s', lag)
    decreases |ins|
  {
    RunLogGrows(s, ins);
    RatePrefix(s.core.tally.log, Run(s, ins).core.tally.log, s.core.timeout + lag);
    RateMakesDistinct(s, lag);
    if ins != [] {
      var s' := Step(s, ins[0]);
      StepGood(s, ins[0]);
      StepTimed(s, ins[0], lag);
      StepKeepsWindow(s, ins[0]);
      if s'.core.mode.phase.InLoop() {
        RunDistinct(s', ins[1..], lag);
      } else {
        DeadRun(s', ins[1..]);
      }
    }
  }

  // ---- From the start ----

  /** The initial dispatch is over before any timer it starts is overdue. */
  ghost predicate PromptStart(timeout: int, tries: seq<Try>, lag: nat) {
    forall a, b | 0 <= a < b < |tries| :: tries[b].at <= tries[a].at + timeout + lag
  }

  ghost predicate StartedOnTime(s: State, i: nat, tries: seq<Try>, lag: nat) {
    && Dispatched(s, i) && |tries| == |s.outstanding|
    && (forall k | 0 <= k < i :: s.core.tally.log[k].at == tries[k].at)
    && forall k | 0 <= k < i :: s.outstanding[k].deadline == Some(tries[k].at + s.core.timeout)
  }

  lemma {:induction false} DispatchOnTime(s: State, i: nat, tries: seq<Try>, lag: nat)
    requires StartedOnTime(s, i, tries, lag) && PromptStart(s.core.timeout, tries, lag)
    ensures var s' := Dispatch(s, i, tries); s'.core.mode.phase.Running? ==> Timed(s', lag)
    decreases |s.outstanding| - i
  {
    if i == |s.outstanding| {
      forall k | 0 <= k < i ensures OnTime(s.core.tally, s.core.timeout, lag, s.outstanding[k]) {
        assert s.outstanding[k].seqno == k;
      }
    } else {
      var a := tries[i].attempt;
      var (c, e) := Send(s.core, s.outstanding[i], tries[i].at, a);
      DispatchOne(s, i, tries[i].at, a);
      SendFacts(s.core, s.outstanding[i], tries[i].at, a);
      if c.mode.phase.Running? {
        DispatchOnTime(State(c, s.outstanding[i := e]), i + 1, tries, lag);
      }
    }
  }

  /** Every state of every punctual run under the rate bound has distinct IDs and armed timers. */
  lemma TimedRunsAreDistinct(window: nat, timeout: int, tries: seq<Try>, ins: seq<Input>, lag: nat)
    requires window > 0 && |tries| == window && PromptStart(timeout, tries, lag)
    requires var s := Begin(window, timeout, tries);
             && ValidRun(s, ins) && PunctualRun(s, ins, lag)
             && RateBound(Run(s, ins).core.tally.log, timeout + lag)
    ensures var s := Run(Begin(window, timeout, tries), ins);
            s.core.mode.phase.InLoop() ==> Good(s) && Distinct(s.outstanding) && Timed(s, lag)
  {
    var s := Begin(window, timeout, tries);
    BeginGood(window, timeout, tries);
    DispatchKeepsWindow(Idle(window, timeout), 0, tries);
    DispatchOnTime(Idle(window, timeout), 0, tries, lag);
    if s.core.mode.phase.Running? {
      RunDistinct(s, ins, lag);
    } else {
      DeadRun(s, ins);
    }
  }
}
