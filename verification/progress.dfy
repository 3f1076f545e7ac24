/**
 Progress: in which runs every outstanding query can always be ended by its own
 timer. These are exactly the runs with distinct IDs.
 */
module Progress {
  import opened DispatcherSpec
  import opened Conservation
  import opened DistinctIds
  import opened YoungIds
  import opened ArmedTimers
  import opened Attribution

  /** The event at `k` can time out, and that ends its own query and touches no other event. */
  ghost predicate TimesOut(s: State, k: nat, now: int, a: Attempt)
    requires k < |s.outstanding|
  {
    var e := s.outstanding[k];
    && Enabled(s, QueryTimeout(e.slot))
    && var s' := Step(s, Input(now, QueryTimeout(e.slot), a));
       && s'.core.tally.failedSeqs == s.core.tally.failedSeqs + {e.seqno}
       && s'.core.tally.completedSeqs == s.core.tally.completedSeqs
       && (!s.core.mode.keepSending ==> s'.outstanding == Without(s.outstanding, k))
       && (s.core.mode.keepSending && s'.core.mode.phase.Running? ==>
             && |s'.outstanding| == |s.outstanding|
             && s'.outstanding[..|s.outstanding| - 1] == Without(s.outstanding, k)
             && s'.outstanding[|s.outstanding| - 1].slot == e.slot
             && s'.outstanding[|s.outstanding| - 1].seqno == s.core.tally.sent)
  }

  lemma TimeoutDrops(s: State, k: nat, now: int, a: Attempt)
    requires !s.core.mode.keepSending && Distinct(s.outstanding) && k < |s.outstanding|
    ensures OnTimeout(s, k, now, a).outstanding == Without(s.outstanding, k)
  {
    var (c, e) := Expire(s.core, s.outstanding[k]);
    FindOwn(s.outstanding, k, e);
    assert Without(s.outstanding[k := e], k) == Without(s.outstanding, k);
  }

  lemma TimeoutRenews(s: State, k: nat, now: int, a: Attempt)
    requires s.core.mode.keepSending && s.core.mode.phase.Running?
    requires Distinct(s.outstanding) && k < |s.outstanding|
    ensures var s', n := OnTimeout(s, k, now, a), |s.outstanding|;
            s'.core.mode.phase.Running? ==>
              && |s'.outstanding| == n && s'.outstanding[..n - 1] == Without(s.outstanding, k)
              && s'.outstanding[n - 1].slot == s.outstanding[k].slot
              && s'.outstanding[n - 1].seqno == s.core.tally.sent
  {
    var (c, e) := Expire(s.core, s.outstanding[k]);
    FindOwn(s.outstanding, k, e);
    assert Without(s.outstanding[k := e], k) == Without(s.outstanding, k);
    SendFacts(Count(c, e, false), e, now, a);
  }

  lemma TimeoutProgress(s: State, k: nat, now: int, a: Attempt)
    requires Good(s) && s.core.mode.phase.Running? && Distinct(s.outstanding) && AllArmed(s.outstanding)
    requires k < |s.outstanding|
    ensures TimesOut(s, k, now, a)
  {
    LocateOwn(s.outstanding, k);
    assert Armed(s.outstanding[k]);
    TimeoutAttribution(s, s.outstanding[k].slot, now, a);
    if s.core.mode.keepSending {
      TimeoutRenews(s, k, now, a);
    } else {
      TimeoutDrops(s, k, now, a);
    }
  }

  /** Every outstanding event can time out, and that is progress on its own query. */
  ghost predicate Progresses(s: State) {
    && s.outstanding != []
    && forall k: nat, now: int, a: Attempt {:trigger TimesOut(s, k, now, a)} ::
         k < |s.outstanding| ==> TimesOut(s, k, now, a)
  }

  /** An event whose timeout ends its own query is the first with its ID. */
  lemma TimesOutFirst(s: State, k: nat, now: int, a: Attempt)
    requires Good(s) && s.core.mode.phase.Running? && k < |s.outstanding| && TimesOut(s, k, now, a)
    ensures Armed(s.outstanding[k]) && Find(s.outstanding, s.outstanding[k].qid) == k
  {
    var q := s.outstanding;
    var f := Find(q, q[k].qid);
    LocateOwn(q, k);
    TimeoutFailsFirst(s, q[k].slot, now, a);
    assert q[k] in q && q[f] in q;
    assert q[k].seqno in Seqs(q) && q[f].seqno in Seqs(q);
    assert q[f].seqno in s.core.tally.failedSeqs + {q[k].seqno};
    if f != k {
      UniqAt(q, f, k);
    }
  }

  lemma ProgressIff(s: State)
    requires Good(s) && s.core.mode.phase.Running?
    ensures Progresses(s) <==> Distinct(s.outstanding) && AllArmed(s.outstanding)
  {
    var q := s.outstanding;
    if Progresses(s) {
      forall k | 0 <= k < |q| ensures Armed(q[k]) && Find(q, q[k].qid) == k {
        assert TimesOut(s, k, 0, SendFailed);
        TimesOutFirst(s, k, 0, SendFailed);
      }
      forall i, j | 0 <= i < j < |q| ensures OtherId(q[i], q[j]) {
        assert Find(q, q[j].qid) == j;
      }
    }
    if Distinct(q) && AllArmed(q) {
      forall k: nat, now: int, a: Attempt | k < |q| ensures TimesOut(s, k, now, a) {
        TimeoutProgress(s, k, now, a);
      }
    }
  }

  ghost predicate ProgressThroughout(s: State, ins: seq<Input>)
    requires ValidRun(s, ins)
    decreases |ins|
  {
    && (s.core.mode.phase.Running? ==> Progresses(s))
    && (ins != [] ==> ProgressThroughout(Step(s, ins[0]), ins[1..]))
  }

  lemma {:induction false} RunProgressIff(s: State, ins: seq<Input>)
    requires Good(s) && AllArmed(s.outstanding) && ValidRun(s, ins)
    ensures ProgressThroughout(s, ins) <==> DistinctThroughout(s, ins)
    decreases |ins|
  {
    if s.core.mode.phase.Running? {
      ProgressIff(s);
    }
    if ins != [] && Distinct(s.outstanding) {
      var s' := Step(s, ins[0]);
      StepGood(s, ins[0]);
      StepArmedIff(s, ins[0]);
      if ins[0].what.QueryTimeout? {
        FindDistinct(s.outstanding, Locate(s.outstanding, ins[0].what.slot));
      }
      if s'.core.mode.phase.InLoop() {
        RunProgressIff(s', ins[1..]);
      } else {
        DeadRun(s', ins[1..]);
      }
    }
  }

  /**
   The exact condition for progress, over every run from the start: as long as the run has not
   stopped, each outstanding event has a timer whose expiry ends its own query and leaves the others
   as they are, if and only if IDs are distinct throughout; that is, if and only if no outstanding
   query ever falls out of the last 65536 sent.
   */
  lemma ProgressExactly(window: nat, timeout: int, tries: seq<Try>, ins: seq<Input>)
    requires window > 0 && |tries| == window && ValidRun(Begin(window, timeout, tries), ins)
    ensures var s := Begin(window, timeout, tries);
            && (ProgressThroughout(s, ins) <==> DistinctThroughout(s, ins))
            && (ProgressThroughout(s, ins) <==> YoungThroughout(s, ins))
  {
    var s := Begin(window, timeout, tries);
    BeginGood(window, timeout, tries);
    DispatchArms(Idle(window, timeout), 0, tries);
    IdsDistinctIff(window, timeout, tries, ins);
    if s.core.mode.phase.InLoop() {
      RunProgressIff(s, ins);
    } else {
      DeadRun(s, ins);
    }
  }

  lemma {:induction false} DistinctAtEnd(s: State, ins: seq<Input>)
    requires ValidRun(s, ins) && DistinctThroughout(s, ins) && Run(s, ins).core.mode.phase.InLoop()
    ensures Distinct(Run(s, ins).outstanding)
    decreases |ins|
  {
    if ins != [] {
      DistinctAtEnd(Step(s, ins[0]), ins[1..]);
    }
  }

  lemma GoodThroughout(window: nat, timeout: int, tries: seq<Try>, ins: seq<Input>)
    requires window > 0 && |tries| == window && ValidRun(Begin(window, timeout, tries), ins)
    requires DistinctThroughout(Begin(window, timeout, tries), ins)
    ensures var s := Run(Begin(window, timeout, tries), ins);
            s.core.mode.phase.InLoop() ==> Good(s) && Distinct(s.outstanding)
  {
    var s := Begin(window, timeout, tries);
    BeginGood(window, timeout, tries);
    if s.core.mode.phase.InLoop() {
      RunGood(s, ins);
      if Run(s, ins).core.mode.phase.InLoop() {
        DistinctAtEnd(s, ins);
      }
    } else {
      DeadRun(s, ins);
    }
  }
}
