/**
 When IDs are distinct: over any run they are so at every boundary of the event
 loop if and only if no outstanding query is ever older than 65536 sends.
 */
module YoungIds {
  import opened DispatcherSpec
  import opened Conservation
  import opened DistinctIds

  /** The query is among the last 65536 sent. */
  ghost predicate IsYoung(t: Tally, e: Ev) {
    t.sent <= e.seqno + 65536
  }

  ghost predicate AllYoung(t: Tally, q: seq<Ev>) {
    forall k {:trigger IsYoung(t, q[k])} | 0 <= k < |q| :: IsYoung(t, q[k])
  }

  ghost predicate Young(s: State) {
    AllYoung(s.core.tally, s.outstanding)
  }

  ghost predicate YoungThroughout(s: State, ins: seq<Input>)
    requires ValidRun(s, ins)
    decreases |ins|
  {
    && (s.core.mode.phase.InLoop() ==> Young(s))
    && (ins != [] ==> YoungThroughout(Step(s, ins[0]), ins[1..]))
  }

  lemma YoungIsDistinct(s: State)
    requires Good(s) && Young(s)
    ensures Distinct(s.outstanding)
  {
    var q, t := s.outstanding, s.core.tally;
    forall i, j | 0 <= i < j < |q| ensures OtherId(q[i], q[j]) {
      UniqAt(q, i, j);
      assert EvOk(t, q[i]) && EvOk(t, q[j]);
      assert IsYoung(t, q[i]) && IsYoung(t, q[j]);
      if q[i].seqno < q[j].seqno {
        Wrap16Differs(q[i].seqno, q[j].seqno);
      } else {
        Wrap16Differs(q[j].seqno, q[i].seqno);
      }
    }
  }

  lemma Wrap16Repeats(a: nat)
    ensures Wrap16(a + 65536) == Wrap16(a)
  {
  }

  /** With one more query sent, an old event would have the ID of the new one. */
  lemma SentKeepsYoung(t: Tally, rest: seq<Ev>, t': Tally, e: Ev)
    requires EvsOk(t, rest) && AllYoung(t, rest)
    requires t'.sent == t.sent + 1 && e.seqno == t.sent && e.qid == Wrap16(t.sent)
    requires Distinct(rest + [e])
    ensures AllYoung(t', rest + [e])
  {
    var q := rest + [e];
    forall k | 0 <= k < |q| ensures IsYoung(t', q[k]) {
      if k < |rest| {
        assert q[k] == rest[k];
        assert EvOk(t, rest[k]) && IsYoung(t, rest[k]);
        DistinctAt(q, k, |rest|);
        Wrap16Repeats(rest[k].seqno);
      }
    }
  }

  lemma YoungWithout(t: Tally, q: seq<Ev>, i: nat)
    requires AllYoung(t, q) && i < |q|
    ensures AllYoung(t, Without(q, i))
  {
    var r := Without(q, i);
    forall k | 0 <= k < |r| ensures IsYoung(t, r[k]) {
      assert IsYoung(t, q[if k < i then k else k + 1]);
    }
  }

  lemma ResendYoung(s: State, i: nat, answered: bool, now: int, a: Attempt)
    requires Good(s) && Young(s) && s.core.mode.phase.Running? && i < |s.outstanding|
    ensures var s' := Resend(s, i, answered, now, a);
            s'.core.mode.phase.InLoop() && Distinct(s'.outstanding) ==> Young(s')
  {
    var t, e, rest := s.core.tally, s.outstanding[i], Without(s.outstanding, i);
    var c := Count(s.core, e, answered);
    SendFacts(c, e, now, a);
    var (c', e') := Send(c, e, now, a);
    var s' := Resend(s, i, answered, now, a);
    if c'.mode.phase.Running? && Distinct(s'.outstanding) {
      YoungWithout(t, s.outstanding, i);
      forall k | 0 <= k < |rest| ensures EvOk(t, rest[k]) {
        assert EvOk(t, s.outstanding[if k < i then k else k + 1]);
      }
      SentKeepsYoung(t, rest, c'.tally, e');
    }
  }

  lemma DropYoung(s: State, i: nat, answered: bool)
    requires Young(s) && i < |s.outstanding|
    ensures Young(Drop(s, i, answered))
  {
    var c := Count(s.core, s.outstanding[i], answered);
    EraseFacts(c, s.outstanding[i], |s.outstanding| == 1);
    YoungWithout(s.core.tally, s.outstanding, i);
    var r := Without(s.outstanding, i);
    forall k | 0 <= k < |r| ensures IsYoung(c.tally, r[k]) {
      assert IsYoung(s.core.tally, r[k]);
    }
  }

  lemma RestartYoung(s: State, qid: nat, answered: bool, now: int, a: Attempt)
    requires Good(s) && Young(s) && s.core.mode.phase.Running?
    ensures var s' := Restart(s, qid, answered, now, a);
            s'.core.mode.phase.InLoop() && Distinct(s'.outstanding) ==> Young(s')
  {
    var i := Find(s.outstanding, qid);
    if i < |s.outstanding| {
      if s.core.mode.keepSending {
        ResendYoung(s, i, answered, now, a);
      } else {
        DropYoung(s, i, answered);
      }
    }
  }

  /** An event is marked in place, and then somebody is restarted. */
  lemma MarkedYoung(s: State, k: nat, c: Core, e: Ev, answered: bool, now: int, a: Attempt)
    requires Good(s) && Young(s) && s.core.mode.phase.Running? && k < |s.outstanding|
    requires c == s.core.(net := c.net)
    requires e == s.outstanding[k].(deadline := e.deadline, sock := e.sock)
    ensures var s' := Restart(State(c, s.outstanding[k := e]), e.qid, answered, now, a);
            s'.core.mode.phase.InLoop() && Distinct(s'.outstanding) ==> Young(s')
  {
    var s1 := State(c, s.outstanding[k := e]);
    MarkBooks(s.core.tally, s.outstanding, k, e);
    forall j | 0 <= j < |s1.outstanding| ensures IsYoung(c.tally, s1.outstanding[j]) {
      assert IsYoung(s.core.tally, s.outstanding[j]);
    }
    RestartYoung(s1, e.qid, answered, now, a);
  }

  lemma TimeoutYoung(s: State, k: nat, now: int, a: Attempt)
    requires Good(s) && Young(s) && s.core.mode.phase.Running? && k < |s.outstanding|
    ensures var s' := OnTimeout(s, k, now, a);
            s'.core.mode.phase.InLoop() && Distinct(s'.outstanding) ==> Young(s')
  {
    var (c, e) := Expire(s.core, s.outstanding[k]);
    MarkedYoung(s, k, c, e, false, now, a);
  }

  lemma TcpDoneYoung(s: State, k: nat, payload: Payload, now: int, a: Attempt)
    requires Good(s) && Young(s) && s.core.mode.phase.Running? && k < |s.outstanding|
    ensures var s' := OnTcpDone(s, k, payload, now, a);
            s'.core.mode.phase.InLoop() && Distinct(s'.outstanding) ==> Young(s')
  {
    var (c, e) := Clear(s.core, s.outstanding[k]);
    MarkedYoung(s, k, c, e, payload.Header?, now, a);
  }

  lemma StepYoung(s: State, i: Input)
    requires Good(s) && Young(s) && Enabled(s, i.what)
    ensures var s' := Step(s, i);
            s'.core.mode.phase.InLoop() && Distinct(s'.outstanding) ==> Young(s')
  {
    match i.what
    case Response(qid) =>
      if qid.Some? {
        RestartYoung(s, qid.value, true, i.at, i.attempt);
      }
    case QueryTimeout(slot) => TimeoutYoung(s, Locate(s.outstanding, slot), i.at, i.attempt);
    case TcpDone(slot, payload) => TcpDoneYoung(s, Locate(s.outstanding, slot), payload, i.at, i.attempt);
    case SessionTimer =>
  }

  /** A step from young events leads to distinct IDs if and only if it leads to young events. */
  lemma StepYoungIff(s: State, i: Input)
    requires Good(s) && Young(s) && Enabled(s, i.what)
    ensures var s' := Step(s, i);
            s'.core.mode.phase.InLoop() ==> (Distinct(s'.outstanding) <==> Young(s'))
  {
    var s' := Step(s, i);
    StepYoung(s, i);
    StepGood(s, i);
    if s'.core.mode.phase.InLoop() && Young(s') {
      YoungIsDistinct(s');
    }
  }

  lemma {:induction false} RunDistinctIff(s: State, ins: seq<Input>)
    requires Good(s) && Young(s) && ValidRun(s, ins)
    ensures DistinctThroughout(s, ins) <==> YoungThroughout(s, ins)
    decreases |ins|
  {
    YoungIsDistinct(s);
    if ins != [] {
      var s' := Step(s, ins[0]);
      StepGood(s, ins[0]);
      StepYoungIff(s, ins[0]);
      if !s'.core.mode.phase.InLoop() {
        DeadRun(s', ins[1..]);
      } else if Young(s') {
        RunDistinctIff(s', ins[1..]);
      }
    }
  }

  /** The window decides at the start: with more than 65536 events the first two IDs 0 collide. */
  lemma BeginYoungIff(window: nat, timeout: int, tries: seq<Try>)
    requires window > 0 && |tries| == window
    ensures var s := Begin(window, timeout, tries);
            s.core.mode.phase.InLoop() ==>
              && (Young(s) <==> window <= 65536)
              && (Distinct(s.outstanding) <==> window <= 65536)
  {
    var s := Begin(window, timeout, tries);
    DispatchInOrder(Idle(window, timeout), 0, tries);
    BeginGood(window, timeout, tries);
    if s.core.mode.phase.InLoop() {
      var q := s.outstanding;
      if window <= 65536 {
        forall k | 0 <= k < |q| ensures IsYoung(s.core.tally, q[k]) {
        }
        YoungIsDistinct(s);
      } else {
        assert !IsYoung(s.core.tally, q[0]);
        assert EvOk(s.core.tally, q[0]) && EvOk(s.core.tally, q[65536]);
        Wrap16Repeats(0);
        if Distinct(q) {
          DistinctAt(q, 0, 65536);
        }
      }
    }
  }

  /**
   The exact condition, over every run from the start: the outstanding IDs are distinct at every
   boundary of the event loop if and only if at every boundary each outstanding query is among the
   last 65536 sent.
   */
  lemma IdsDistinctIff(window: nat, timeout: int, tries: seq<Try>, ins: seq<Input>)
    requires window > 0 && |tries| == window && ValidRun(Begin(window, timeout, tries), ins)
    ensures var s := Begin(window, timeout, tries);
            DistinctThroughout(s, ins) <==> YoungThroughout(s, ins)
  {
    var s := Begin(window, timeout, tries);
    BeginGood(window, timeout, tries);
    BeginYoungIff(window, timeout, tries);
    if !s.core.mode.phase.InLoop() {
      DeadRun(s, ins);
    } else if Young(s) {
      RunDistinctIff(s, ins);
    }
  }
}
