/**
 What a TCP run makes of the answers: which completion of a socket ends which query,
 and how. Over a whole run the completed queries are those whose server closed the
 connection after a message whose header parses, and no others.
 */
module TcpAnswers {
  import opened Wrappers
  import opened LengthPrefix
  import opened DispatcherSpec
  import opened Conservation
  import opened DistinctIds
  import opened Attribution
  import opened TcpRun
  import S = TcpSocketSpec
  import L = TcpSocketLife

  /** What becomes of a query when an operation of its socket completes. */
  datatype Verdict = GoesOn | Answered | Unanswered | Throws | Crashes

  /** The connection is closed: that is an answer if a first message has been kept. */
  function AtEnd(kept: nat, parses: bool): Verdict {
    if kept == 0 then Unanswered else if parses then Answered else Throws
  }

  function VerdictOf(k: S.Sock, c: S.Completion, parses: bool): Verdict
    requires k.pending != []
  {
    match k.pending[0]
    case Connect => if c.code.Success? then GoesOn else Unanswered
    case Write => if c.code.Success? && c.shutdownOk then GoesOn else Unanswered
    case ReadLength =>
      (match c.code
       case Success => if |c.bytes| == 2 then GoesOn else Throws
       case Eof => AtEnd(k.recvLen, parses)
       case _ => Unanswered)
    case ReadData(_, _) =>
      (match c.code
       case Success => GoesOn
       case Eof => AtEnd(k.recvLen, parses)
       case _ => if k.recvLen == 0 then Unanswered else Crashes)
  }

  /** The verdict carried out on the query `seqno`, and on no other. */
  ghost predicate CarriedOut(v: Verdict, seqno: nat, d: State, d': State) {
    match v
    case GoesOn => d' == d
    case Answered => Ended(d, d', seqno, true)
    case Unanswered => Ended(d, d', seqno, false)
    case Throws => d'.core.mode.phase.Threw? && d'.core.tally == d.core.tally
    case Crashes => d'.core.mode.phase.Crashed? && d'.core.tally == d.core.tally
  }

  /** The query of the event that a socket is bound to. */
  function Asked(y: Sys, id: nat): nat
    requires id < |y.socks|
  {
    var k := Locate(y.d.outstanding, y.socks[id].slot);
    if k < |y.d.outstanding| then y.d.outstanding[k].seqno else 0
  }

  /** A socket that has not been released is that of an outstanding query. */
  lemma AskedByOwner(y: Sys, id: nat)
    requires Linked(y) && id < |y.socks| && !y.socks[id].sock.released
    ensures var k := Locate(y.d.outstanding, y.socks[id].slot);
            && k < |y.d.outstanding| && y.d.outstanding[k].sock == Some(id)
            && Asked(y, id) == y.d.outstanding[k].seqno
    ensures S.Inv(y.socks[id].sock) && !y.socks[id].sock.cancelled && y.socks[id].sock.reports == []
    ensures !y.socks[id].sock.threw
  {
    OwnerLocated(y, id);
    assert SockOk(y.d.outstanding, y.socks[id].sock, id);
  }

  /** What the socket reports or throws, with this verdict. */
  ghost predicate Sounds(v: Verdict, k': S.Sock, parses: bool) {
    match v
    case GoesOn => k'.reports == [] && !k'.threw
    case Answered => |k'.reports| == 1 && PayloadOf(k'.reports[0], parses) == Header(true)
    case Unanswered => |k'.reports| == 1 && PayloadOf(k'.reports[0], parses) == NoData
    case Throws =>
      || (|k'.reports| == 1 && PayloadOf(k'.reports[0], parses) == Header(false))
      || (k'.reports == [] && k'.threw)
    case Crashes => |k'.reports| == 1 && PayloadOf(k'.reports[0], parses) == NullData
  }

  lemma OnlyShortLengthsThrow(k: S.Sock, c: S.Completion)
    requires S.Inv(k) && S.Legal(k, S.Complete(c)) && !k.cancelled
    ensures S.Step(k, S.Complete(c)).threw <==> k.pending[0].ReadLength? && c.code.Success? && |c.bytes| != 2
  {
    assert !k.threw;
  }

  lemma ReportsSound(op: S.Op, kept: nat, k: S.Sock, c: S.Completion, parses: bool, k': S.Sock)
    requires k.pending != [] && op == k.pending[0] && kept == k.recvLen
    requires k'.reports ==
             match op
             case Connect => if c.code.Success? then [] else [S.Report(true, 0)]
             case Write => if c.code.Success? && c.shutdownOk then [] else [S.Report(true, 0)]
             case ReadLength =>
               if c.code.Success? then [] else if c.code.Eof? then [S.Report(false, kept)] else [S.Report(true, 0)]
             case ReadData(_, _) => if c.code.Success? then [] else [S.Report(!c.code.Eof?, kept)]
    requires k'.threw <==> op.ReadLength? && c.code.Success? && |c.bytes| != 2
    ensures Sounds(VerdictOf(k, c, parses), k', parses)
  {
  }

  lemma SocketSounds(k: S.Sock, c: S.Completion, parses: bool)
    requires S.Inv(k) && S.Legal(k, S.Complete(c)) && !k.cancelled
    ensures Sounds(VerdictOf(k, c, parses), S.Step(k, S.Complete(c)), parses)
  {
    L.OwnerHears(k, c);
    OnlyShortLengthsThrow(k, c);
    ReportsSound(k.pending[0], k.recvLen, k, c, parses, S.Step(k, S.Complete(c)));
  }

  /** The callback that comes with a verdict. */
  lemma VerdictCalls(v: Verdict, k': S.Sock, parses: bool, slot: nat)
    requires Sounds(v, k', parses)
    ensures match v
            case GoesOn => CalledBack(slot, 0, k'.reports, parses) == None && !k'.threw
            case Answered => CalledBack(slot, 0, k'.reports, parses) == Some(TcpDone(slot, Header(true)))
            case Unanswered => CalledBack(slot, 0, k'.reports, parses) == Some(TcpDone(slot, NoData))
            case Throws =>
              || CalledBack(slot, 0, k'.reports, parses) == Some(TcpDone(slot, Header(false)))
              || (CalledBack(slot, 0, k'.reports, parses) == None && k'.threw)
            case Crashes => CalledBack(slot, 0, k'.reports, parses) == Some(TcpDone(slot, NullData))
  {
  }

  /** A callback on the event that owns the socket. */
  lemma CallbackCarriesOut(d: State, slot: nat, payload: Payload, now: int, a: Attempt)
    requires Good(d) && Distinct(d.outstanding) && Enabled(d, TcpDone(slot, payload))
    requires d.outstanding[Locate(d.outstanding, slot)].sock.Some?
    ensures var d' := Step(d, Input(now, TcpDone(slot, payload), a));
            var seqno := d.outstanding[Locate(d.outstanding, slot)].seqno;
            match payload
            case NoData => CarriedOut(Unanswered, seqno, d, d')
            case Header(ok) => CarriedOut(if ok then Answered else Throws, seqno, d, d')
            case NullData => CarriedOut(Crashes, seqno, d, d')
  {
    if payload == NoData || payload == Header(true) {
      TcpAttribution(d, slot, payload, now, a);
    }
  }

  /** With distinct IDs each completion of a live socket has the verdict carried out on the query whose
      socket it is. */
  lemma CompletionMeans(y: Sys, m: Move)
    requires Linked(y) && Distinct(y.d.outstanding) && TcpMove(y, m)
    requires m.deed.SocketCompletes? && !y.socks[m.deed.id].sock.released
    ensures var v := VerdictOf(y.socks[m.deed.id].sock, CompletionOf(m.deed), m.deed.parses);
            CarriedOut(v, Asked(y, m.deed.id), y.d, StepSys(y, m).d)
  {
    var k, c := y.socks[m.deed.id].sock, CompletionOf(m.deed);
    AskedByOwner(y, m.deed.id);
    SocketSounds(k, c, m.deed.parses);
    VerdictCalls(VerdictOf(k, c, m.deed.parses), S.CompleteSock(k, c), m.deed.parses, y.socks[m.deed.id].slot);
    CompletedIs(y, m.deed);
    if CallbackOf(y, m.deed).Some? {
      var what := CallbackOf(y, m.deed).value;
      CallbackCarriesOut(y.d, what.slot, what.payload, m.at, m.attempt);
    }
  }

  /** Nobody hears of a released socket. */
  lemma ReleasedMeansNothing(y: Sys, m: Move)
    requires Linked(y) && TcpMove(y, m) && m.deed.SocketCompletes? && y.socks[m.deed.id].sock.released
    ensures StepSys(y, m).d == y.d
  {
    assert SockOk(y.d.outstanding, y.socks[m.deed.id].sock, m.deed.id);
    SockCompletes(y.socks[m.deed.id].sock, CompletionOf(m.deed));
  }

  /** A timer fails the query of its event. */
  lemma TimerMeans(y: Sys, m: Move)
    requires Linked(y) && Distinct(y.d.outstanding) && TcpMove(y, m) && m.deed.TimerFires?
    ensures var k := Locate(y.d.outstanding, m.deed.slot);
            k < |y.d.outstanding| && CarriedOut(Unanswered, y.d.outstanding[k].seqno, y.d, StepSys(y, m).d)
  {
    TimeoutAttribution(y.d, m.deed.slot, m.at, m.attempt);
  }

  // ---- Over a run ----

  /** The query that a move answers, if any. */
  function AnswerOf(y: Sys, deed: Deed): set<nat>
    requires CanHappen(y, deed)
  {
    if deed.SocketCompletes? && !y.socks[deed.id].sock.released
       && VerdictOf(y.socks[deed.id].sock, CompletionOf(deed), deed.parses).Answered?
    then {Asked(y, deed.id)} else {}
  }

  function Answers(y: Sys, ms: seq<Move>): set<nat>
    requires TcpMoves(y, ms)
    decreases |ms|
  {
    if ms == [] then {} else AnswerOf(y, ms[0].deed) + Answers(StepSys(y, ms[0]), ms[1..])
  }

  /** A move completes the query it answers and no other. */
  lemma MoveAnswers(y: Sys, m: Move)
    requires Linked(y) && Distinct(y.d.outstanding) && TcpMove(y, m)
    ensures var t, t' := y.d.core.tally, StepSys(y, m).d.core.tally;
            && t'.completedSeqs == t.completedSeqs + AnswerOf(y, m.deed)
            && t'.completed == t.completed + |AnswerOf(y, m.deed)|
            && AnswerOf(y, m.deed) <= Seqs(y.d.outstanding)
  {
    match m.deed
    case SocketCompletes(id, _, _, _, _) =>
      if y.socks[id].sock.released {
        ReleasedMeansNothing(y, m);
      } else {
        CompletionMeans(y, m);
      }
    case TimerFires(_) => TimerMeans(y, m);
    case SessionEnds =>
    case UdpArrives(_) =>
  }

  /** The counter is the number of completed queries. */
  lemma StillCounted(t: Tally, t': Tally, q: seq<Ev>, more: set<nat>)
    requires Partition(t, q) && more <= Seqs(q)
    requires t'.completedSeqs == t.completedSeqs + more && t'.completed == t.completed + |more|
    ensures t'.completed == |t'.completedSeqs|
  {
    assert t.completedSeqs !! more;
  }

  /** A run has completed these queries, and the counter is their number. */
  ghost predicate HasCompleted(d: State, done: set<nat>) {
    d.core.tally.completedSeqs == done && d.core.tally.completed == |done|
  }

  lemma MoveCompletes(y: Sys, m: Move)
    requires Linked(y) && Distinct(y.d.outstanding) && TcpMove(y, m)
    ensures var y' := StepSys(y, m);
            && HasCompleted(y'.d, y.d.core.tally.completedSeqs + AnswerOf(y, m.deed))
            && (y'.d.core.mode.phase.InLoop() ==> Linked(y'))
  {
    MoveAnswers(y, m);
    StillCounted(y.d.core.tally, StepSys(y, m).d.core.tally, y.d.outstanding, AnswerOf(y, m.deed));
    MoveSafe(y, m);
  }

  lemma FirstOfRun(y: Sys, ms: seq<Move>, done: set<nat>)
    requires TcpMoves(y, ms) && ms != []
    requires var y' := StepSys(y, ms[0]);
             HasCompleted(RunSys(y', ms[1..]).d, done + AnswerOf(y, ms[0].deed) + Answers(y', ms[1..]))
    ensures HasCompleted(RunSys(y, ms).d, done + Answers(y, ms))
  {
    var now, later := AnswerOf(y, ms[0].deed), Answers(StepSys(y, ms[0]), ms[1..]);
    assert done + now + later == done + (now + later);
  }

  lemma {:induction false} RunAnswers(y: Sys, ms: seq<Move>, done: set<nat>)
    requires y.d.core.mode.phase.InLoop() ==> Linked(y)
    requires TcpMoves(y, ms) && DistinctAlong(y, ms) && HasCompleted(y.d, done)
    ensures HasCompleted(RunSys(y, ms).d, done + Answers(y, ms))
    decreases |ms|
  {
    if ms == [] {
      assert done + {} == done;
    } else {
      MoveCompletes(y, ms[0]);
      RunAnswers(StepSys(y, ms[0]), ms[1..], done + AnswerOf(y, ms[0].deed));
      FirstOfRun(y, ms, done);
    }
  }

  lemma {:induction false} DispatchEndsNone(s: State, i: nat, tries: seq<Try>)
    requires i <= |s.outstanding| == |tries|
    ensures var t, t' := s.core.tally, Dispatch(s, i, tries).core.tally;
            t'.completedSeqs == t.completedSeqs && t'.failedSeqs == t.failedSeqs && t'.completed == t.completed
    decreases |s.outstanding| - i
  {
    if i < |s.outstanding| && s.core.mode.phase.Running? {
      var (c, e) := Send(s.core, s.outstanding[i], tries[i].at, tries[i].attempt);
      DispatchEndsNone(State(c, s.outstanding[i := e]), i + 1, tries);
    }
  }

  /**
   From the start of a TCP run with distinct IDs, however it ends: the completed queries are exactly
   those whose connection the server closed after a first message whose header parses, and the counter
   is their number. While the run goes on all others are outstanding or failed.
   */
  lemma TcpRunAnswers(window: nat, timeout: int, tries: seq<Try>, bufs: seq<seq<byte>>, ms: seq<Move>)
    requires |tries| == |bufs| == window > 0 && TcpStart(tries, bufs)
    requires var y := BeginSys(window, timeout, tries, bufs); TcpMoves(y, ms) && DistinctAlong(y, ms)
    ensures var y := BeginSys(window, timeout, tries, bufs);
            var d := RunSys(y, ms).d;
            && d.core.tally.completedSeqs == Answers(y, ms)
            && d.core.tally.completed == |Answers(y, ms)|
            && (d.core.mode.phase.InLoop() ==>
                  d.core.tally.failedSeqs == Upto(d.core.tally.sent) - Answers(y, ms) - Seqs(d.outstanding))
  {
    var y := BeginSys(window, timeout, tries, bufs);
    BeginInv(window, timeout, tries, bufs);
    DispatchEndsNone(Idle(window, timeout), 0, tries);
    RunAnswers(y, ms, {});
    assert {} + Answers(y, ms) == Answers(y, ms);
    if y.d.core.mode.phase.Running? {
      RunLinked(y, ms);
      var d := RunSys(y, ms).d;
      if d.core.mode.phase.InLoop() {
        FailedAreOthers(d);
      }
    } else {
      OverIsOver(y, ms);
    }
  }

  lemma FailedAreOthers(d: State)
    requires Good(d)
    ensures var t := d.core.tally; t.failedSeqs == Upto(t.sent) - t.completedSeqs - Seqs(d.outstanding)
  {
    var t := d.core.tally;
    assert Parts(Upto(t.sent), t.completedSeqs, t.failedSeqs, Seqs(d.outstanding));
  }
}
