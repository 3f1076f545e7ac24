/**
 Distinct IDs are not guaranteed by the code alone, and this is what goes wrong
 without them. A timeout or a TCP callback ends its own query exactly when no
 event ahead of it in the list has the same ID, and the assertions about TCP
 sockets fail exactly when a query is to go out on an event that owns a socket.

 Any window of two or more admits a run that ends up stuck. While the first query
 waits for its timeout the last slot goes through 65536 sends and comes back to the
 same ID; then the timeout of the one removes the other, and the one left behind has
 no timer any more. With equal IDs the order of the list shows; the run assumes the
 order that the source intends and that its call, as written, does not implement.
 */
module Collision {
  import opened Wrappers
  import opened RepositorySpec
  import opened DispatcherSpec
  import opened Conservation
  import opened DistinctIds
  import opened Attribution
  import opened Churn

  /** Somebody is waiting, and only a UDP response could still end that. */
  ghost predicate Stuck(s: State) {
    && s.core.mode.phase.Running? && !s.core.mode.keepSending
    && s.outstanding != []
    && (forall k | 0 <= k < |s.outstanding| :: s.outstanding[k].deadline.None? && s.outstanding[k].sock.None?)
    && forall w: What :: Enabled(s, w) && !w.TcpDone? ==> w.Response?
  }

  lemma LeftAloneIsStuck(s: State)
    requires LeftAlone(s)
    ensures Stuck(s)
  {
  }

  /** A punctual run that gets stuck. */
  ghost predicate GetsStuck(s: State, ins: seq<Input>) {
    ValidRun(s, ins) && PunctualRun(s, ins, 0) && Stuck(Run(s, ins))
  }

  lemma StuckLater(s: State, i: Input, ins: seq<Input>)
    requires Enabled(s, i.what) && Punctual(s, i.at, 0) && GetsStuck(Step(s, i), ins)
    ensures GetsStuck(s, [i] + ins)
  {
    assert ([i] + ins)[1..] == ins;
  }

  /** The query of the last slot is answered. */
  lemma LastAnswered(a: Scene, s: State, n: nat)
    requires a.Possible() && a.query.proto.Udp? && ChurnAt(a, s, n) && n <= 65535
    ensures var i := Input(0, Response(Some(Wrap16(n))), SendOk(a.query));
            Enabled(s, i.what) && Punctual(s, i.at, 0) && ChurnAt(a, Step(s, i), n + 1)
  {
    LastRestarts(a, s, n, true);
  }

  lemma {:induction false} AnswersStrand(a: Scene, s: State, n: nat) returns (ins: seq<Input>)
    requires a.Possible() && a.window >= 2 && a.query.proto.Udp? && ChurnAt(a, s, n) && n <= 65536
    ensures GetsStuck(s, ins)
    decreases 65536 - n
  {
    if n == 65536 {
      ins := SessionStrands(a, s);
      LeftAloneIsStuck(Run(s, ins));
    } else {
      var i := Input(0, Response(Some(Wrap16(n))), SendOk(a.query));
      LastAnswered(a, s, n);
      var rest := AnswersStrand(a, Step(s, i), n + 1);
      StuckLater(s, i, rest);
      ins := [i] + rest;
    }
  }

  /**
   The unconditional claim is false: from the start of a run with any window of two or more, whatever
   the timeout, valid and punctual inputs lead to a state in which a query is outstanding, the session
   is over, and no timer is left to end it.
   */
  lemma CollisionGetsStuck(window: nat, timeout: int, query: Query) returns (ins: seq<Input>)
    requires 2 <= window <= 65536 && timeout >= 0 && query.proto.Udp?
    ensures GetsStuck(Begin(window, timeout, Scene(window, timeout, query).Tries()), ins)
  {
    var a := Scene(window, timeout, query);
    StartsChurning(a);
    ins := AnswersStrand(a, Begin(window, timeout, a.Tries()), window - 1);
  }

  // ---- What exactly a collision breaks ----

  /** A timeout ends its own query if and only if no event ahead of it has the same ID. */
  lemma TimeoutOwnIff(s: State, slot: nat, now: int, a: Attempt)
    requires Good(s) && Enabled(s, QueryTimeout(slot))
    ensures var k := Locate(s.outstanding, slot);
            Ended(s, Step(s, Input(now, QueryTimeout(slot), a)), s.outstanding[k].seqno, false) <==>
            forall j | 0 <= j < k :: s.outstanding[j].qid != s.outstanding[k].qid
  {
    var k := Locate(s.outstanding, slot);
    var (c, e) := Expire(s.core, s.outstanding[k]);
    MarkedOwnIff(s, k, c, e, false, now, a);
  }

  lemma MarkedStay(q: seq<Ev>, k: nat, e: Ev)
    requires k < |q| && e.seqno == q[k].seqno
    ensures forall g | g in q && g.seqno != e.seqno :: g in q[k := e]
  {
    forall g | g in q && g.seqno != e.seqno ensures g in q[k := e] {
      var j :| 0 <= j < |q| && q[j] == g;
      assert q[k := e][j] == g;
    }
  }

  /** A TCP callback ends its own query if and only if no event ahead of it has the same ID. */
  lemma TcpOwnIff(s: State, slot: nat, payload: Payload, now: int, a: Attempt)
    requires Good(s) && Enabled(s, TcpDone(slot, payload))
    requires s.outstanding[Locate(s.outstanding, slot)].sock.Some? && Carries(payload)
    ensures var k := Locate(s.outstanding, slot);
            Ended(s, Step(s, Input(now, TcpDone(slot, payload), a)), s.outstanding[k].seqno, payload.Header?) <==>
            forall j | 0 <= j < k :: s.outstanding[j].qid != s.outstanding[k].qid
  {
    var k := Locate(s.outstanding, slot);
    var (c, e) := Clear(s.core, s.outstanding[k]);
    MarkedOwnIff(s, k, c, e, payload.Header?, now, a);
  }

  /** A response to the query of an outstanding event ends that query if and only if no event ahead of
      it has the same ID. */
  lemma ResponseOwnIff(s: State, k: nat, now: int, a: Attempt)
    requires Good(s) && k < |s.outstanding| && Enabled(s, Response(Some(s.outstanding[k].qid)))
    ensures Ended(s, Step(s, Input(now, Response(Some(s.outstanding[k].qid)), a)), s.outstanding[k].seqno, true) <==>
            forall j | 0 <= j < k :: s.outstanding[j].qid != s.outstanding[k].qid
  {
    var e := s.outstanding[k];
    MarkedOwnIff(s, k, s.core, e, true, now, a);
    assert s == State(s.core, s.outstanding[k := e]);
  }

  /** A response to a query that is no longer outstanding changes nothing if and only if no outstanding
      query is a multiple of 65536 sends away from it. */
  lemma LateResponseIff(s: State, k: nat, now: int, a: Attempt)
    requires Good(s) && k !in Seqs(s.outstanding) && Enabled(s, Response(Some(Wrap16(k))))
    ensures Step(s, Input(now, Response(Some(Wrap16(k))), a)) == s <==>
            forall i | 0 <= i < |s.outstanding| :: s.outstanding[i].seqno % 65536 != k % 65536
  {
    var q, f := s.outstanding, Find(s.outstanding, Wrap16(k));
    forall i | 0 <= i < |q| ensures q[i].qid == Wrap16(k) <==> q[i].seqno % 65536 == k % 65536 {
      assert EvOk(s.core.tally, q[i]);
    }
    if f < |q| {
      RestartEnds(s, f, true, now, a);
    }
  }

  /** An event is marked in place and restarted by its own ID. */
  lemma MarkedOwnIff(s: State, k: nat, c: Core, e: Ev, answered: bool, now: int, a: Attempt)
    requires Good(s) && s.core.mode.phase.Running? && k < |s.outstanding|
    requires c == s.core.(net := c.net)
    requires e == s.outstanding[k].(deadline := e.deadline, sock := e.sock)
    ensures Ended(s, Restart(State(c, s.outstanding[k := e]), e.qid, answered, now, a), e.seqno, answered) <==>
            forall j | 0 <= j < k :: s.outstanding[j].qid != s.outstanding[k].qid
  {
    var q := s.outstanding;
    var s1, f := State(c, q[k := e]), Find(q, e.qid);
    FindMarked(q, k, e);
    RestartEnds(s1, f, answered, now, a);
    if f == k {
      SeqsUpdate(q, k, e);
      MarkedStay(q, k, e);
    } else {
      assert q[f] in q && q[k] in q;
      UniqAt(q, f, k);
    }
  }

  /** What a TCP callback can carry for the run to go on: nothing, or a header that parses. */
  predicate Carries(payload: Payload) {
    payload == NoData || payload == Header(true)
  }

  /** A TCP query is to go out on the event at `f`, which owns a socket. */
  predicate Clash(s: State, f: nat, a: Attempt) {
    s.core.mode.keepSending && a.SendOk? && a.query.proto.Tcp? && f < |s.outstanding| && s.outstanding[f].sock.Some?
  }

  /** The ways to one of the two assertions: a response or a collision hits an event that owns a
      socket, or a TCP callback comes for an event that owns none. */
  predicate AssertionFails(s: State, what: What, a: Attempt)
    requires Enabled(s, what)
  {
    match what
    case Response(qid) => qid.Some? && Clash(s, Find(s.outstanding, qid.value), a)
    case QueryTimeout(slot) =>
      var k := Locate(s.outstanding, slot);
      var f := Find(s.outstanding, s.outstanding[k].qid);
      f < k && Clash(s, f, a)
    case TcpDone(slot, payload) =>
      var k := Locate(s.outstanding, slot);
      var f := Find(s.outstanding, s.outstanding[k].qid);
      s.outstanding[k].sock.None? || (Carries(payload) && f < k && Clash(s, f, a))
    case SessionTimer => false
  }

  lemma RestartAbortsIff(s: State, qid: nat, answered: bool, now: int, a: Attempt)
    requires s.core.mode.phase.Running?
    ensures Restart(s, qid, answered, now, a).core.mode.phase.Aborted? <==> Clash(s, Find(s.outstanding, qid), a)
  {
    var f := Find(s.outstanding, qid);
    if f < |s.outstanding| {
      EraseFacts(Count(s.core, s.outstanding[f], answered), s.outstanding[f], |s.outstanding| == 1);
    }
  }

  /** The event at `k` has just lost its socket; whoever is first with its ID is restarted. */
  lemma MarkedAbortsIff(s: State, k: nat, c: Core, e: Ev, answered: bool, now: int, a: Attempt)
    requires s.core.mode.phase.Running? && k < |s.outstanding| && c == s.core.(net := c.net)
    requires e.qid == s.outstanding[k].qid && e.sock.None?
    ensures var f := Find(s.outstanding, e.qid);
            Restart(State(c, s.outstanding[k := e]), e.qid, answered, now, a).core.mode.phase.Aborted? <==>
            f < k && Clash(s, f, a)
  {
    FindMarked(s.outstanding, k, e);
    RestartAbortsIff(State(c, s.outstanding[k := e]), e.qid, answered, now, a);
  }

  lemma TimeoutAbortsIff(s: State, k: nat, now: int, a: Attempt)
    requires s.core.mode.phase.Running? && k < |s.outstanding|
    ensures var f := Find(s.outstanding, s.outstanding[k].qid);
            OnTimeout(s, k, now, a).core.mode.phase.Aborted? <==> f < k && Clash(s, f, a)
  {
    var (c, e) := Expire(s.core, s.outstanding[k]);
    MarkedAbortsIff(s, k, c, e, false, now, a);
  }

  lemma TcpAbortsIff(s: State, k: nat, payload: Payload, now: int, a: Attempt)
    requires s.core.mode.phase.Running? && k < |s.outstanding|
    ensures var f := Find(s.outstanding, s.outstanding[k].qid);
            OnTcpDone(s, k, payload, now, a).core.mode.phase.Aborted? <==>
            s.outstanding[k].sock.None? || (Carries(payload) && f < k && Clash(s, f, a))
  {
    var (c, e) := Clear(s.core, s.outstanding[k]);
    MarkedAbortsIff(s, k, c, e, payload.Header?, now, a);
  }

  /** Exactly when a callback makes one of the two assertions about TCP sockets fail. */
  lemma StepAbortsIff(s: State, i: Input)
    requires Enabled(s, i.what)
    ensures Step(s, i).core.mode.phase.Aborted? <==> AssertionFails(s, i.what, i.attempt)
  {
    match i.what
    case Response(qid) =>
      if qid.Some? {
        RestartAbortsIff(s, qid.value, true, i.at, i.attempt);
      }
    case QueryTimeout(slot) => TimeoutAbortsIff(s, Locate(s.outstanding, slot), i.at, i.attempt);
    case TcpDone(slot, payload) => TcpAbortsIff(s, Locate(s.outstanding, slot), payload, i.at, i.attempt);
    case SessionTimer =>
  }

  /** The next query is to be sent, and its timer, the repository or its socket throws. */
  predicate SendThrows(s: State, a: Attempt) {
    s.core.mode.keepSending && !a.SendOk?
  }

  /** The ways out of the event loop by an exception: a header that does not parse, or a query that
      cannot be sent. */
  predicate ExceptionComes(s: State, what: What, a: Attempt)
    requires Enabled(s, what)
  {
    match what
    case Response(qid) => qid.None? || (Find(s.outstanding, qid.value) < |s.outstanding| && SendThrows(s, a))
    case QueryTimeout(_) => SendThrows(s, a)
    case TcpDone(slot, payload) =>
      && s.outstanding[Locate(s.outstanding, slot)].sock.Some?
      && (payload == Header(false) || (Carries(payload) && SendThrows(s, a)))
    case SessionTimer => false
  }

  lemma RestartThrowsIff(s: State, qid: nat, answered: bool, now: int, a: Attempt)
    requires s.core.mode.phase.Running?
    ensures Restart(s, qid, answered, now, a).core.mode.phase.Threw? <==>
            Find(s.outstanding, qid) < |s.outstanding| && SendThrows(s, a)
    ensures !Restart(s, qid, answered, now, a).core.mode.phase.Crashed?
  {
    var f := Find(s.outstanding, qid);
    if f < |s.outstanding| {
      EraseFacts(Count(s.core, s.outstanding[f], answered), s.outstanding[f], |s.outstanding| == 1);
    }
  }

  /** The event at `k` is restarted after it has been marked. */
  lemma MarkedThrowsIff(s: State, k: nat, c: Core, e: Ev, answered: bool, now: int, a: Attempt)
    requires s.core.mode.phase.Running? && k < |s.outstanding| && c == s.core.(net := c.net)
    requires e.qid == s.outstanding[k].qid
    ensures Restart(State(c, s.outstanding[k := e]), e.qid, answered, now, a).core.mode.phase.Threw? <==>
            SendThrows(s, a)
    ensures !Restart(State(c, s.outstanding[k := e]), e.qid, answered, now, a).core.mode.phase.Crashed?
  {
    FindMarked(s.outstanding, k, e);
    RestartThrowsIff(State(c, s.outstanding[k := e]), e.qid, answered, now, a);
  }

  /** Exactly when a callback ends the run by an exception, and when by a crash. */
  lemma StepDiesIff(s: State, i: Input)
    requires Enabled(s, i.what)
    ensures Step(s, i).core.mode.phase.Threw? <==> ExceptionComes(s, i.what, i.attempt)
    ensures Step(s, i).core.mode.phase.Crashed? <==>
            && i.what.TcpDone? && i.what.payload.NullData?
            && s.outstanding[Locate(s.outstanding, i.what.slot)].sock.Some?
  {
    match i.what
    case Response(qid) =>
      if qid.Some? {
        RestartThrowsIff(s, qid.value, true, i.at, i.attempt);
      }
    case QueryTimeout(slot) =>
      var k := Locate(s.outstanding, slot);
      var (c, e) := Expire(s.core, s.outstanding[k]);
      MarkedThrowsIff(s, k, c, e, false, i.at, i.attempt);
    case TcpDone(slot, payload) =>
      var k := Locate(s.outstanding, slot);
      var (c, e) := Clear(s.core, s.outstanding[k]);
      MarkedThrowsIff(s, k, c, e, payload.Header?, i.at, i.attempt);
    case SessionTimer =>
  }

  /** With equal IDs the order of the list shows: the same timeout fails different queries. */
  lemma OrderMatters(c: Core, a: Ev, b: Ev, now: int, x: Attempt)
    requires Good(State(c, [a, b])) && Good(State(c, [b, a]))
    requires c.mode.phase.Running? && a.qid == b.qid && b.deadline.Some?
    ensures var s, t, i := State(c, [a, b]), State(c, [b, a]), Input(now, QueryTimeout(b.slot), x);
            && Enabled(s, i.what) && Enabled(t, i.what) && a.seqno != b.seqno
            && Step(s, i).core.tally.failedSeqs == c.tally.failedSeqs + {a.seqno}
            && Step(t, i).core.tally.failedSeqs == c.tally.failedSeqs + {b.seqno}
  {
    var p, q := [a, b], [b, a];
    UniqAt(p, 0, 1);
    assert Locate(p, b.slot) == 1 by { assert p[1..][0] == b; }
    assert Locate(q, b.slot) == 0 && Find(p, b.qid) == 0 && Find(q, b.qid) == 0;
    TimeoutFailsFirst(State(c, p), b.slot, now, x);
    TimeoutFailsFirst(State(c, q), b.slot, now, x);
  }
}
