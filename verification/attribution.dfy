/**
 With distinct IDs every callback completes or fails exactly the query it is
 about, and a response to a query that is no longer outstanding changes nothing.
 */
module Attribution {
  import opened Wrappers
  import opened DispatcherSpec
  import opened Conservation
  import opened DistinctIds

  /** Query `k` was sent, and is fewer than 65536 sends away from every outstanding one. */
  ghost predicate Near(s: State, k: nat) {
    && k < s.core.tally.sent
    && forall i | 0 <= i < |s.outstanding| :: -65536 < s.outstanding[i].seqno - k < 65536
  }

  /** One query ended, as completed or failed, and no other outstanding query was touched. */
  ghost predicate Ended(s: State, s': State, k: nat, answered: bool) {
    && k in Seqs(s.outstanding)
    && s'.core.tally.completedSeqs == s.core.tally.completedSeqs + (if answered then {k} else {})
    && s'.core.tally.failedSeqs == s.core.tally.failedSeqs + (if answered then {} else {k})
    && s'.core.tally.completed == s.core.tally.completed + (if answered then 1 else 0)
    && (s'.core.mode.phase.InLoop() ==> forall e | e in s.outstanding && e.seqno != k :: e in s'.outstanding)
  }

  lemma ResendEnds(s: State, i: nat, answered: bool, now: int, a: Attempt)
    requires s.core.mode.phase.Running? && i < |s.outstanding|
    ensures Ended(s, Resend(s, i, answered, now, a), s.outstanding[i].seqno, answered)
  {
    var e, rest := s.outstanding[i], Without(s.outstanding, i);
    SendFacts(Count(s.core, e, answered), e, now, a);
    assert e in s.outstanding;
    OthersStay(s.outstanding, i);
  }

  lemma DropEnds(s: State, i: nat, answered: bool)
    requires i < |s.outstanding|
    ensures Ended(s, Drop(s, i, answered), s.outstanding[i].seqno, answered)
  {
    var e := s.outstanding[i];
    EraseFacts(Count(s.core, e, answered), e, |s.outstanding| == 1);
    assert e in s.outstanding;
    OthersStay(s.outstanding, i);
  }

  lemma OthersStay(q: seq<Ev>, i: nat)
    requires i < |q|
    ensures forall e | e in q && e.seqno != q[i].seqno :: e in Without(q, i)
  {
    forall e | e in q && e.seqno != q[i].seqno ensures e in Without(q, i) {
      var j :| 0 <= j < |q| && q[j] == e;
      assert Without(q, i)[if j < i then j else j - 1] == e;
    }
  }

  lemma RestartEnds(s: State, i: nat, answered: bool, now: int, a: Attempt)
    requires s.core.mode.phase.Running? && i < |s.outstanding|
    requires Find(s.outstanding, s.outstanding[i].qid) == i
    ensures Ended(s, Restart(s, s.outstanding[i].qid, answered, now, a), s.outstanding[i].seqno, answered)
  {
    if s.core.mode.keepSending {
      ResendEnds(s, i, answered, now, a);
    } else {
      DropEnds(s, i, answered);
    }
  }

  lemma NearFinds(s: State, k: nat)
    requires Good(s) && Near(s, k)
    ensures var i := Find(s.outstanding, Wrap16(k));
            if k in Seqs(s.outstanding) then i < |s.outstanding| && s.outstanding[i].seqno == k
            else i == |s.outstanding|
  {
    var q, i := s.outstanding, Find(s.outstanding, Wrap16(k));
    if k in Seqs(q) {
      var j :| 0 <= j < |q| && q[j].seqno == k;
      assert EvOk(s.core.tally, q[j]);
      assert i <= j;
    }
    if i < |q| {
      assert EvOk(s.core.tally, q[i]);
      NearSame(q[i].seqno, k);
      assert q[i] in q;
    }
  }

  lemma NearSame(a: nat, b: nat)
    requires -65536 < a - b < 65536 && Wrap16(a) == Wrap16(b)
    ensures a == b
  {
  }

  /**
   A response to query `k` completes exactly query `k` when that is outstanding. When it is not, be
   it a duplicate or one that comes after the timeout, nothing changes at all.
   */
  lemma ResponseAttribution(s: State, k: nat, now: int, a: Attempt)
    requires Good(s) && Near(s, k) && Enabled(s, Response(Some(Wrap16(k))))
    ensures var s' := Step(s, Input(now, Response(Some(Wrap16(k))), a));
            if k in Seqs(s.outstanding) then Ended(s, s', k, true) else s' == s
  {
    NearFinds(s, k);
    if k in Seqs(s.outstanding) {
      var i := Find(s.outstanding, Wrap16(k));
      RestartEnds(s, i, true, now, a);
    }
  }

  /** An event marked in place and restarted by its own ID: its own query ends. */
  lemma OwnRestartEnds(s: State, k: nat, c: Core, e: Ev, answered: bool, now: int, a: Attempt)
    requires Good(s) && s.core.mode.phase.Running? && Distinct(s.outstanding) && k < |s.outstanding|
    requires c == s.core.(net := c.net)
    requires e == s.outstanding[k].(deadline := e.deadline, sock := e.sock)
    ensures Ended(s, Restart(State(c, s.outstanding[k := e]), e.qid, answered, now, a), e.seqno, answered)
  {
    var q, r := s.outstanding, s.outstanding[k := e];
    FindOwn(q, k, e);
    RestartEnds(State(c, r), k, answered, now, a);
    SeqsUpdate(q, k, e);
    forall f | f in q && f.seqno != e.seqno ensures f in r {
      var j :| 0 <= j < |q| && q[j] == f;
      assert r[j] == f;
    }
  }

  /** Whatever the IDs, a timeout fails the first outstanding query with the ID of its event. */
  lemma TimeoutFailsFirst(s: State, slot: nat, now: int, a: Attempt)
    requires Enabled(s, QueryTimeout(slot))
    ensures var e := s.outstanding[Locate(s.outstanding, slot)];
            var f := Find(s.outstanding, e.qid);
            && f < |s.outstanding|
            && Step(s, Input(now, QueryTimeout(slot), a)).core.tally.failedSeqs
               == s.core.tally.failedSeqs + {s.outstanding[f].seqno}
  {
    var q, k := s.outstanding, Locate(s.outstanding, slot);
    var (c, e) := Expire(s.core, q[k]);
    FindMarked(q, k, e);
    RestartEnds(State(c, q[k := e]), Find(q, e.qid), false, now, a);
  }

  /** A timeout fails exactly the query whose timer fired, given distinct IDs. */
  lemma TimeoutAttribution(s: State, slot: nat, now: int, a: Attempt)
    requires Good(s) && Distinct(s.outstanding) && Enabled(s, QueryTimeout(slot))
    ensures var e := s.outstanding[Locate(s.outstanding, slot)];
            Ended(s, Step(s, Input(now, QueryTimeout(slot), a)), e.seqno, false)
  {
    var k := Locate(s.outstanding, slot);
    var (c, e) := Expire(s.core, s.outstanding[k]);
    OwnRestartEnds(s, k, c, e, false, now, a);
  }

  /** A TCP callback ends exactly the query of its own event: completed with a parsed header, failed
      without data. */
  lemma TcpAttribution(s: State, slot: nat, payload: Payload, now: int, a: Attempt)
    requires Good(s) && Distinct(s.outstanding) && Enabled(s, TcpDone(slot, payload))
    requires payload == NoData || payload == Header(true)
    requires s.outstanding[Locate(s.outstanding, slot)].sock.Some?
    ensures var e := s.outstanding[Locate(s.outstanding, slot)];
            Ended(s, Step(s, Input(now, TcpDone(slot, payload), a)), e.seqno, payload.Header?)
  {
    var k := Locate(s.outstanding, slot);
    var (c, e) := Clear(s.core, s.outstanding[k]);
    OwnRestartEnds(s, k, c, e, payload.Header?, now, a);
  }

  // ---- Over a run ----

  /** The query an input is about, as its sender knows it: `tag` for a UDP response, otherwise the
      query of the event that is called back. */
  ghost function Subject(s: State, what: What, tag: nat): nat
    requires Enabled(s, what) && !what.SessionTimer?
  {
    match what
    case Response(_) => tag
    case QueryTimeout(slot) => s.outstanding[Locate(s.outstanding, slot)].seqno
    case TcpDone(slot, _) => s.outstanding[Locate(s.outstanding, slot)].seqno
  }

  /** A response carries the ID of the query it answers, which is near; a TCP callback comes from an
      owned socket. */
  ghost predicate Genuine(s: State, what: What, tag: nat) {
    Distinct(s.outstanding) && Enabled(s, what) &&
    match what
    case Response(qid) => qid == Some(Wrap16(tag)) && Near(s, tag)
    case QueryTimeout(_) => true
    case TcpDone(slot, payload) =>
      s.outstanding[Locate(s.outstanding, slot)].sock.Some? && payload in {NoData, Header(true)}
    case SessionTimer => true
  }

  /** The queries an input completes: its subject, if that is outstanding and was answered. */
  ghost function Credit(s: State, what: What, tag: nat): set<nat>
    requires Enabled(s, what)
  {
    if (what.Response? || (what.TcpDone? && what.payload == Header(true)))
       && Subject(s, what, tag) in Seqs(s.outstanding)
    then {Subject(s, what, tag)} else {}
  }

  ghost predicate GenuineRun(s: State, ins: seq<Input>, tags: seq<nat>)
    requires |tags| == |ins|
    decreases |ins|
  {
    ins == [] || (Genuine(s, ins[0].what, tags[0]) && GenuineRun(Step(s, ins[0]), ins[1..], tags[1..]))
  }

  ghost function Credits(s: State, ins: seq<Input>, tags: seq<nat>): set<nat>
    requires |tags| == |ins| && GenuineRun(s, ins, tags)
    decreases |ins|
  {
    if ins == [] then {} else Credit(s, ins[0].what, tags[0]) + Credits(Step(s, ins[0]), ins[1..], tags[1..])
  }

  lemma ResponseCredit(s: State, i: Input, tag: nat)
    requires Good(s) && Genuine(s, i.what, tag) && i.what.Response?
    ensures Step(s, i).core.tally.completedSeqs == s.core.tally.completedSeqs + Credit(s, i.what, tag)
  {
    ResponseAttribution(s, tag, i.at, i.attempt);
  }

  lemma TcpCredit(s: State, i: Input, tag: nat)
    requires Good(s) && Genuine(s, i.what, tag) && i.what.TcpDone?
    ensures Step(s, i).core.tally.completedSeqs == s.core.tally.completedSeqs + Credit(s, i.what, tag)
  {
    TcpAttribution(s, i.what.slot, i.what.payload, i.at, i.attempt);
  }

  lemma StepCredit(s: State, i: Input, tag: nat)
    requires Good(s) && Genuine(s, i.what, tag)
    ensures Step(s, i).core.tally.completedSeqs == s.core.tally.completedSeqs + Credit(s, i.what, tag)
  {
    match i.what
    case Response(_) => ResponseCredit(s, i, tag);
    case QueryTimeout(slot) => TimeoutAttribution(s, slot, i.at, i.attempt);
    case TcpDone(_, _) => TcpCredit(s, i, tag);
    case SessionTimer =>
  }

  lemma {:induction false} GenuineIsValid(s: State, ins: seq<Input>, tags: seq<nat>)
    requires |tags| == |ins| && GenuineRun(s, ins, tags)
    ensures ValidRun(s, ins)
    decreases |ins|
  {
    if ins != [] {
      GenuineIsValid(Step(s, ins[0]), ins[1..], tags[1..]);
    }
  }

  lemma {:induction false} RunCredits(s: State, ins: seq<Input>, tags: seq<nat>)
    requires Good(s) && |tags| == |ins| && GenuineRun(s, ins, tags) && ValidRun(s, ins)
    ensures Run(s, ins).core.tally.completedSeqs == s.core.tally.completedSeqs + Credits(s, ins, tags)
    decreases |ins|, 1
  {
    if ins != [] {
      StepGood(s, ins[0]);
      StepCredit(s, ins[0], tags[0]);
      TailCredits(Step(s, ins[0]), ins[1..], tags[1..],
                  s.core.tally.completedSeqs, Credit(s, ins[0].what, tags[0]));
    }
  }

  lemma TailCredits(s: State, ins: seq<Input>, tags: seq<nat>, before: set<nat>, credit: set<nat>)
    requires s.core.mode.phase.InLoop() ==> Good(s)
    requires |tags| == |ins| && GenuineRun(s, ins, tags) && ValidRun(s, ins)
    requires s.core.tally.completedSeqs == before + credit
    ensures Run(s, ins).core.tally.completedSeqs == before + (credit + Credits(s, ins, tags))
    decreases |ins|, 2
  {
    if s.core.mode.phase.InLoop() {
      RunCredits(s, ins, tags);
    } else {
      DeadRun(s, ins);
    }
  }

  /**
   Exact attribution over a whole run: the completed queries are those completed before and those
   whose answer came while they were outstanding, and the counter is their number.
   */
  lemma RunAttribution(s: State, ins: seq<Input>, tags: seq<nat>)
    requires Good(s) && |tags| == |ins| && GenuineRun(s, ins, tags)
    ensures ValidRun(s, ins)
    ensures var t := Run(s, ins).core.tally;
            && t.completedSeqs == s.core.tally.completedSeqs + Credits(s, ins, tags)
            && t.completed == |t.completedSeqs|
  {
    GenuineIsValid(s, ins, tags);
    RunCredits(s, ins, tags);
    RunGood(s, ins);
  }
}
