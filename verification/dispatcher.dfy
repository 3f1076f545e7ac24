/**
 `DispatcherImpl` and its `QueryEvent`s as objects, each callback proved to be a
 step of the dispatcher and repository machines together.
 */
module Dispatcher {
  import opened Wrappers
  import opened RepositorySpec
  import opened DispatcherSpec
  import opened QueryFlow
  import Conservation
  import QueryContext
  import Repository
  import TcpSocket

  /** A repository in a given state, from which a query can be taken. */
  ghost predicate Holds(repo: Repository.QueryRepository, r: Repo)
    reads repo
  {
    repo.Valid() && repo.View() == r && Ready(r)
  }

  function SpecOf(qid: nat, q: Query): QueryContext.QuerySpec {
    QueryContext.QuerySpec(q.proto, QueryContext.Message(qid, q))
  }

  /** An event that has been started. */
  function Stamped(e: Ev, qid: nat, deadline: Option<int>): Ev {
    e.(qid := qid, deadline := deadline)
  }

  /** A TCP socket is held by its number, in order of creation. */
  class QueryEvent {
    const slot: nat
    const ctx: QueryContext.QueryContext
    var qid: nat
    var timer: Option<int>
    var tcpSock: Option<nat>
    ghost var seqno: nat

    ghost function View(): Ev
      reads this
    {
      Ev(slot, seqno, qid, timer, tcpSock)
    }

    constructor (slot: nat, ctx: QueryContext.QueryContext)
      ensures this.slot == slot && this.ctx == ctx && View() == Ev(slot, 0, 0, None, None)
    {
      this.slot, this.ctx, qid, timer, tcpSock, seqno := slot, ctx, 0, None, None, 0;
    }

    /** None when the timer or the context throws. */
    method Start(newQid: nat, now: int, timeout: int, timerOk: bool, ghost r: Repo)
      returns (spec: Option<QueryContext.QuerySpec>)
      requires Holds(ctx.repository, r)
      modifies `qid, `timer, ctx, ctx.repository
      ensures timer == if timerOk then Some(now + timeout) else None
      ensures View() == Stamped(old(View()), newQid, timer)
      ensures Holds(ctx.repository, if timerOk then AfterNext(r) else r)
      ensures spec == if timerOk && NextQuery(r).Some? then Some(SpecOf(newQid, NextQuery(r).value)) else None
    {
      qid := newQid;
      if !timerOk {
        timer := None;
        return None;
      }
      timer := Some(now + timeout);
      spec := ctx.Start(newQid);
    }

    predicate MatchResponse(id: nat)
      reads this
    {
      qid == id
    }

    /** False when the assertion fails. */
    method SetTcpSocket(sock: nat) returns (ok: bool)
      modifies `tcpSock
      ensures ok == old(tcpSock).None?
      ensures tcpSock == if ok then Some(sock) else old(tcpSock)
    {
      ok := tcpSock == None;
      if ok {
        tcpSock := Some(sock);
      }
    }

    /** False when the assertion fails. */
    method ClearTcpSocket() returns (ok: bool)
      modifies `tcpSock
      ensures ok == old(tcpSock).Some? && tcpSock == None
    {
      ok := tcpSock != None;
      tcpSock := None;
    }

    /** What `queryTimerCallback` does before the restart; true when it deletes a socket. */
    method TimerFired() returns (released: bool)
      modifies `timer, `tcpSock
      ensures released == old(tcpSock).Some? && timer == None && tcpSock == None
    {
      timer := None;
      released := tcpSock != None;
      if released {
        var _ := ClearTcpSocket();
      }
    }
  }

  ghost function Evs(q: seq<QueryEvent>): (r: seq<Ev>)
    reads q
    ensures |r| == |q| && forall i | 0 <= i < |q| :: r[i] == q[i].View()
  {
    if q == [] then [] else Evs(q[..|q| - 1]) + [q[|q| - 1].View()]
  }

  ghost predicate OtherSlot(a: QueryEvent, b: QueryEvent) {
    a.slot != b.slot
  }

  /** Events of one list have slots of their own, hence are distinct objects. */
  ghost predicate OwnSlots(q: seq<QueryEvent>) {
    forall i, j {:trigger OtherSlot(q[i], q[j])} | 0 <= i < j < |q| :: OtherSlot(q[i], q[j])
  }

  lemma OthersDiffer(q: seq<QueryEvent>, i: nat)
    requires OwnSlots(q) && i < |q|
    ensures forall k | 0 <= k < |q| && k != i :: q[k] != q[i] && q[k].slot != q[i].slot
  {
    forall k | 0 <= k < |q| && k != i ensures q[k] != q[i] && q[k].slot != q[i].slot {
      assert if k < i then OtherSlot(q[k], q[i]) else OtherSlot(q[i], q[k]);
    }
  }

  lemma FindFirst(q: seq<Ev>, i: nat, id: nat)
    requires i <= |q| && forall k | 0 <= k < i :: q[k].qid != id
    requires i < |q| ==> q[i].qid == id
    ensures Find(q, id) == i
  {
  }

  lemma LocateFirst(q: seq<QueryEvent>, i: nat)
    requires OwnSlots(q) && i < |q|
    ensures Locate(Evs(q), q[i].slot) == i
  {
    OthersDiffer(q, i);
    var f := Locate(Evs(q), q[i].slot);
    assert f <= i;
    assert Evs(q)[f].slot == q[f].slot;
  }

  lemma Erased(q: seq<QueryEvent>, i: nat)
    requires OwnSlots(q) && i < |q|
    ensures var r := q[..i] + q[i + 1..];
            OwnSlots(r) && Evs(r) == Without(Evs(q), i) && forall e | e in r :: e in q
  {
    var r := q[..i] + q[i + 1..];
    forall j, k | 0 <= j < k < |r| ensures OtherSlot(r[j], r[k]) {
      assert OtherSlot(q[if j < i then j else j + 1], q[if k < i then k else k + 1]);
    }
  }

  lemma MovedToEnd(q: seq<QueryEvent>, i: nat)
    requires OwnSlots(q) && i < |q|
    ensures var r := q[..i] + q[i + 1..] + [q[i]];
            OwnSlots(r) && Evs(r) == Without(Evs(q), i) + [q[i].View()] && forall e | e in r :: e in q
  {
    var rest := q[..i] + q[i + 1..];
    var r := rest + [q[i]];
    Erased(q, i);
    OthersDiffer(q, i);
    forall j, k | 0 <= j < k < |r| ensures OtherSlot(r[j], r[k]) {
      if k < |rest| {
        assert OtherSlot(rest[j], rest[k]);
      }
    }
  }

  /** Nothing but the event at `i` differs from the list seen before. */
  lemma Touched(q: seq<QueryEvent>, before: seq<Ev>, i: nat)
    requires i < |q| == |before| && forall k | 0 <= k < |q| && k != i :: q[k].View() == before[k]
    ensures Evs(q) == before[i := q[i].View()]
  {
  }

  /** The timer that `start` leaves armed. */
  function Deadline(c: Core, now: int, io: SendIo): Option<int> {
    if io.TimerThrows? then None else Some(now + c.timeout)
  }

  /** What is sent is what `start` returned, unless that threw. */
  function SendSpecified(c: Core, e: Ev, now: int, q: Option<Query>, io: SendIo): (Core, Ev) {
    if q.None? then (Enter(c, Threw), e) else Send(c, e, now, if io.IoOk? then SendOk(q.value) else SendFailed)
  }

  /** `Send` is `start` and then, unless that throws, `sendQuery` on the started event. */
  lemma SendStarted(c: Core, e: Ev, now: int, r: Repo, io: SendIo)
    requires Ready(r)
    ensures Send(c, e, now, NextAttempt(r, io)) ==
            SendSpecified(c, Stamped(e, c.tally.nextQid, Deadline(c, now, io)), now,
                          if io.TimerThrows? then None else NextQuery(r), io)
  {
  }

  function Expired(d: State, i: nat): State
    requires i < |d.outstanding|
  {
    var (c, e) := Expire(d.core, d.outstanding[i]);
    State(c, d.outstanding[i := e])
  }

  function Cleared(d: State, i: nat): State
    requires i < |d.outstanding|
  {
    var (c, e) := Clear(d.core, d.outstanding[i]);
    State(c, d.outstanding[i := e])
  }

  ghost function PairRestart(d: State, r: Repo, id: nat, answered: bool, now: int, io: SendIo): Pair
    requires Ready(r)
  {
    Pair(Restart(d, id, answered, now, NextAttempt(r, io)), if Sends(d, id) then Taken(r, io) else r)
  }

  /** The next query has been sent, or not, on the event at `i`. */
  ghost function SentAt(p: Pair, i: nat, now: int, io: SendIo): Pair
    requires Ready(p.r) && i < |p.d.outstanding|
  {
    var (c, e) := Send(p.d.core, p.d.outstanding[i], now, NextAttempt(p.r, io));
    Pair(State(c, p.d.outstanding[i := e]), Taken(p.r, io))
  }

  function CountedAt(d: State, i: nat, answered: bool): State
    requires i < |d.outstanding|
  {
    State(Count(d.core, d.outstanding[i], answered), d.outstanding)
  }

  function MovedAt(d: State, i: nat): State
    requires i < |d.outstanding|
  {
    State(d.core, Without(d.outstanding, i) + [d.outstanding[i]])
  }

  ghost function ResentAt(p: Pair, i: nat, now: int, io: SendIo): Pair
    requires Ready(p.r) && i < |p.d.outstanding|
  {
    var sent := SentAt(p, i, now, io);
    if sent.d.core.mode.phase.Running? then Pair(MovedAt(sent.d, i), sent.r) else sent
  }

  function DroppedAt(d: State, i: nat): State
    requires i < |d.outstanding|
  {
    State(Erase(d.core, d.outstanding[i], |d.outstanding| == 1), Without(d.outstanding, i))
  }

  ghost function RestartedAt(p: Pair, i: nat, answered: bool, now: int, io: SendIo): Pair
    requires Ready(p.r) && i < |p.d.outstanding|
  {
    var counted := Pair(CountedAt(p.d, i, answered), p.r);
    if p.d.core.mode.keepSending then ResentAt(counted, i, now, io) else Pair(DroppedAt(counted.d, i), p.r)
  }

  /** Nothing happens if the event has not been found. */
  ghost function RestartedFrom(p: Pair, i: nat, answered: bool, now: int, io: SendIo): Pair
    requires Ready(p.r) && i <= |p.d.outstanding|
  {
    if i == |p.d.outstanding| then p else RestartedAt(p, i, answered, now, io)
  }

  /** `restartQuery` in steps: find, count, then send and move to the end, or drop. */
  lemma RestartInSteps(p: Pair, id: nat, answered: bool, now: int, io: SendIo)
    requires Ready(p.r)
    ensures PairRestart(p.d, p.r, id, answered, now, io) ==
            RestartedFrom(p, Find(p.d.outstanding, id), answered, now, io)
  {
    var d, i := p.d, Find(p.d.outstanding, id);
    if i < |d.outstanding| && d.core.mode.keepSending {
      var q := SentAt(Pair(CountedAt(d, i, answered), p.r), i, now, io).d.outstanding;
      assert Without(q, i) == Without(d.outstanding, i);
    }
  }

  lemma TimeoutIsRestart(p: Pair, i: nat, now: int, io: SendIo)
    requires Ready(p.r) && p.d.core.mode.phase.Running?
    requires i < |p.d.outstanding| && Locate(p.d.outstanding, p.d.outstanding[i].slot) == i
    requires p.d.outstanding[i].deadline.Some?
    ensures var what := QueryTimeout(p.d.outstanding[i].slot);
            && Enabled(p.d, what)
            && PairStep(p, now, what, io) == PairRestart(Expired(p.d, i), p.r, p.d.outstanding[i].qid, false, now, io)
  {
    var q := Expired(p.d, i).outstanding;
    assert q[i].qid == p.d.outstanding[i].qid;
  }

  /** What a TCP callback carries decides how its query ends. */
  ghost function TcpAnswered(p: Pair, id: nat, payload: Payload, now: int, io: SendIo): Pair
    requires Ready(p.r)
  {
    match payload
    case NullData => Pair(Fail(p.d, Crashed), p.r)
    case NoData => PairRestart(p.d, p.r, id, false, now, io)
    case Header(ok) => if ok then PairRestart(p.d, p.r, id, true, now, io) else Pair(Fail(p.d, Threw), p.r)
  }

  /** The socket of the event at `i` is deleted, if it has one, and the rest follows. */
  ghost function TcpDoneAt(p: Pair, i: nat, payload: Payload, now: int, io: SendIo): Pair
    requires Ready(p.r) && i < |p.d.outstanding|
  {
    var e := p.d.outstanding[i];
    if e.sock.None? then Pair(Fail(p.d, Aborted), p.r)
    else TcpAnswered(Pair(Cleared(p.d, i), p.r), e.qid, payload, now, io)
  }

  lemma TcpDoneIsRestart(p: Pair, i: nat, payload: Payload, now: int, io: SendIo)
    requires Ready(p.r) && p.d.core.mode.phase.Running?
    requires i < |p.d.outstanding| && Locate(p.d.outstanding, p.d.outstanding[i].slot) == i
    ensures var what := TcpDone(p.d.outstanding[i].slot, payload);
            Enabled(p.d, what) && PairStep(p, now, what, io) == TcpDoneAt(p, i, payload, now, io)
  {
    var q := Cleared(p.d, i).outstanding;
    assert q[i].qid == p.d.outstanding[i].qid;
  }

  lemma DispatchNext(p: Pair, i: nat, tries: seq<TryIo>)
    requires Ready(p.r) && i < |p.d.outstanding| == |tries| && p.d.core.mode.phase.Running?
    ensures var p' := SentAt(p, i, tries[i].at, tries[i].io);
            Ready(p'.r) && PairDispatch(p, i, tries) == PairDispatch(p', i + 1, tries)
  {
    AfterNextReady(p.r);
  }

  lemma RunNext(p: Pair, evs: seq<Event>, i: nat)
    requires Ready(p.r) && i < |evs| && ValidPairRun(p, evs[i..])
    ensures Enabled(p.d, evs[i].what)
    ensures var p' := PairStep(p, evs[i].at, evs[i].what, evs[i].io);
            Ready(p'.r) && ValidPairRun(p', evs[i + 1..]) && PairRun(p, evs[i..]) == PairRun(p', evs[i + 1..])
  {
    AfterNextReady(p.r);
    assert evs[i..][1..] == evs[i + 1..];
  }

  lemma RunAddsUp(window: nat, timeout: int, r: Repo, tries: seq<TryIo>, evs: seq<Event>)
    requires Ready(r) && |tries| == window > 0
    requires Ready(PairBegin(window, timeout, r, tries).r) && ValidPairRun(PairBegin(window, timeout, r, tries), evs)
    ensures var d := PairRun(PairBegin(window, timeout, r, tries), evs).d;
            var t, mode := d.core.tally, d.core.mode;
            && t.completed <= t.sent == |t.log|
            && (mode.phase.InLoop() ==>
                  && t.sent == t.completed + |t.failedSeqs| + |d.outstanding|
                  && t.nextQid == t.sent % 65536
                  && (mode.keepSending ==> |d.outstanding| == window)
                  && (mode.phase.Stopped? <==> d.outstanding == [])
                  && mode.stops == (if d.outstanding == [] then 1 else 0))
  {
    var p := PairBegin(window, timeout, r, tries);
    var ts := BeginProjects(window, timeout, r, tries);
    RunProjects(p, evs);
    Conservation.RunConserves(window, timeout, ts, Inputs(p, evs));
  }

  class DispatcherImpl {
    const repository: Repository.QueryRepository
    const udpSocket: TcpSocket.UdpMessageSocket
    const window: nat
    const queryTimeout: int
    var keepSending: bool
    var sessionArmed: bool
    var phase: Phase          // how far an exception or a failed assertion has got
    var qid: nat
    var queriesSent: nat
    var queriesCompleted: nat
    var outstanding: seq<QueryEvent>
    var tcpCreated: nat
    ghost var tcpReleased: nat
    ghost var stops: nat
    ghost var log: seq<Sent>
    ghost var completedSeqs: set<nat>
    ghost var failedSeqs: set<nat>
    ghost var pool: set<object>  // the events and their contexts

    ghost function CoreView(): Core
      reads this, udpSocket
    {
      Core(window, queryTimeout, Mode(keepSending, sessionArmed, phase, stops),
           Net(tcpCreated, tcpReleased, udpSocket.receiving),
           Tally(qid, queriesSent, queriesCompleted, log, completedSeqs, failedSeqs))
    }

    ghost function View(): State
      reads this, udpSocket, outstanding
    {
      State(CoreView(), Evs(outstanding))
    }

    /** The objects belong together, and the repository is in state `r`. */
    ghost predicate Valid(r: Repo)
      reads this, udpSocket, repository
    {
      && Holds(repository, r)
      && udpSocket.Valid()
      && OwnSlots(outstanding)
      && forall e | e in outstanding :: e.ctx.repository == repository && e in pool && e.ctx in pool
    }

    /** The dispatcher and its repository are in these states. */
    ghost predicate Is(p: Pair)
      reads this, udpSocket, repository, outstanding
    {
      Valid(p.r) && View() == p.d
    }

    constructor (repo: Repository.QueryRepository, windowSize: nat, timeout: int)
      requires repo.Valid() && Ready(repo.View())
      ensures Is(Pair(Idle(windowSize, timeout).(outstanding := []), repo.View()))
      ensures repository == repo && window == windowSize && queryTimeout == timeout && fresh(udpSocket) && pool == {}
    {
      repository := repo;
      udpSocket := new TcpSocket.UdpMessageSocket();
      window, queryTimeout := windowSize, timeout;
      keepSending, sessionArmed, phase, qid := true, true, Running, 0;
      queriesSent, queriesCompleted, outstanding := 0, 0, [];
      tcpCreated, tcpReleased, stops, log := 0, 0, 0, [];
      completedSeqs, failedSeqs, pool := {}, {}, {};
    }

    /** Sends what a started event has been given to send. */
    method SendQuery(qev: QueryEvent, spec: QueryContext.QuerySpec, socketOk: bool, ghost now: int)
      requires udpSocket.Valid() && phase.Running?
      requires qev.qid == qid && qev.timer == Some(now + queryTimeout)
      requires spec.data.qid == qid && spec.proto == spec.data.query.proto
      modifies `phase, `tcpCreated, `log, `queriesSent, `qid, udpSocket, qev`tcpSock, qev`seqno
      ensures udpSocket.Valid()
      ensures (CoreView(), qev.View()) ==
              Send(old(CoreView()), old(qev.View()), now,
                   if socketOk then SendOk(spec.data.query) else SendFailed)
    {
      if spec.proto.Udp? {
        var ok := udpSocket.Send(socketOk);
        if !ok {
          phase := Threw;
          return;
        }
      } else {
        if !socketOk {
          phase := Threw;
          return;
        }
        var sock := tcpCreated;
        tcpCreated := tcpCreated + 1;
        var ok := qev.SetTcpSocket(sock);
        if !ok {
          phase := Aborted;
          return;
        }
      }
      log := log + [Sent(spec.data.qid, spec.data.query, qev.slot, now)];
      qev.seqno := queriesSent;
      queriesSent := queriesSent + 1;
      qid := Wrap16(qid + 1);
    }

    /** What `start` returned is sent, unless it threw. */
    method SendSpec(qev: QueryEvent, spec: Option<QueryContext.QuerySpec>, socketOk: bool, ghost now: int)
      requires udpSocket.Valid() && phase.Running?
      requires spec.Some? ==> qev.qid == qid && qev.timer == Some(now + queryTimeout)
      requires spec.Some? ==> spec.value == SpecOf(qid, spec.value.data.query)
      modifies `phase, `tcpCreated, `log, `queriesSent, `qid, udpSocket, qev`tcpSock, qev`seqno
      ensures udpSocket.Valid()
      ensures spec.None? ==> (CoreView(), qev.View()) == (Enter(old(CoreView()), Threw), old(qev.View()))
      ensures spec.Some? ==>
                (CoreView(), qev.View()) == Send(old(CoreView()), old(qev.View()), now,
                                                 if socketOk then SendOk(spec.value.data.query) else SendFailed)
    {
      if spec.None? {
        phase := Threw;
      } else {
        SendQuery(qev, spec.value, socketOk, now);
      }
    }

    /** An event is started with the next query and sent. */
    method StartAndSend(qev: QueryEvent, now: int, io: SendIo, ghost r: Repo)
      requires Holds(repository, r) && udpSocket.Valid() && phase.Running?
      requires qev.ctx.repository == repository
      modifies `phase, `tcpCreated, `log, `queriesSent, `qid, udpSocket, repository, qev, qev.ctx
      ensures udpSocket.Valid()
      ensures Holds(repository, Taken(r, io))
      ensures (CoreView(), qev.View()) ==
              SendSpecified(old(CoreView()), Stamped(old(qev.View()), old(qid), Deadline(old(CoreView()), now, io)),
                            now, if io.TimerThrows? then None else NextQuery(r), io)
    {
      var spec := qev.Start(qid, now, queryTimeout, !io.TimerThrows?, r);
      assert CoreView() == old(CoreView());
      assert spec.Some? ==> qev.timer == Some(now + queryTimeout);
      SendSpec(qev, spec, io.IoOk?, now);
    }

    method FindEvent(id: nat) returns (i: nat)
      ensures i == Find(Evs(outstanding), id)
    {
      i := 0;
      while i < |outstanding| && !outstanding[i].MatchResponse(id)
        invariant i <= |outstanding|
        invariant forall k | 0 <= k < i :: outstanding[k].qid != id
      {
        i := i + 1;
      }
      FindFirst(Evs(outstanding), i, id);
    }

    method CountEvent(i: nat, answered: bool, ghost p: Pair)
      requires Is(p) && i < |outstanding|
      modifies `queriesCompleted, `completedSeqs, `failedSeqs
      ensures Is(Pair(CountedAt(p.d, i, answered), p.r))
    {
      if answered {
        queriesCompleted := queriesCompleted + 1;
        completedSeqs := completedSeqs + {outstanding[i].seqno};
      } else {
        failedSeqs := failedSeqs + {outstanding[i].seqno};
      }
    }

    /** The next query goes out on the event at `i`. */
    method SendAt(i: nat, now: int, io: SendIo, ghost p: Pair)
      requires Is(p) && phase.Running? && i < |outstanding|
      modifies `phase, `tcpCreated, `log, `queriesSent, `qid
      modifies udpSocket, repository, outstanding[i], outstanding[i].ctx
      ensures Is(SentAt(p, i, now, io))
    {
      AfterNextReady(p.r);
      OthersDiffer(outstanding, i);
      SendStarted(p.d.core, p.d.outstanding[i], now, p.r, io);
      StartAndSend(outstanding[i], now, io, p.r);
      Touched(outstanding, p.d.outstanding, i);
    }

    method MoveToEnd(i: nat, ghost p: Pair)
      requires Is(p) && i < |outstanding|
      modifies `outstanding
      ensures Is(Pair(MovedAt(p.d, i), p.r))
    {
      MovedToEnd(outstanding, i);
      outstanding := outstanding[..i] + outstanding[i + 1..] + [outstanding[i]];
    }

    /** ... and, unless something failed, the event moves to the end of the list. */
    method Resend(i: nat, now: int, io: SendIo, ghost p: Pair)
      requires Is(p) && phase.Running? && i < |outstanding|
      modifies this, udpSocket, repository, outstanding[i], outstanding[i].ctx
      ensures Is(ResentAt(p, i, now, io))
      ensures pool == old(pool)
    {
      ghost var sent := SentAt(p, i, now, io);
      SendAt(i, now, io, p);
      assert View() == sent.d;
      if phase.Running? {
        MoveToEnd(i, sent);
      }
    }

    /** An event leaves the list; its destructor deletes the socket it still owns. */
    method Erase(i: nat)
      requires i < |outstanding|
      modifies `outstanding, `tcpReleased, `phase, `stops
      ensures outstanding == old(outstanding)[..i] + old(outstanding)[i + 1..]
      ensures CoreView() == DispatcherSpec.Erase(old(CoreView()), old(outstanding[i].View()), |old(outstanding)| == 1)
    {
      if outstanding[i].tcpSock.Some? {
        tcpReleased := tcpReleased + 1;
      }
      outstanding := outstanding[..i] + outstanding[i + 1..];
      if |outstanding| == 0 {
        phase := Stopped;
        stops := stops + 1;
      }
    }

    method DropAt(i: nat, ghost p: Pair)
      requires Is(p) && i < |outstanding|
      modifies `outstanding, `tcpReleased, `phase, `stops
      ensures Is(Pair(DroppedAt(p.d, i), p.r))
    {
      Erased(outstanding, i);
      Erase(i);
      assert CoreView() == DroppedAt(p.d, i).core;
      assert Evs(outstanding) == DroppedAt(p.d, i).outstanding;
    }

    method RestartAt(i: nat, answered: bool, now: int, io: SendIo, ghost p: Pair)
      requires Is(p) && phase.Running? && i < |outstanding|
      modifies this, udpSocket, repository, outstanding[i], outstanding[i].ctx
      ensures Is(RestartedAt(p, i, answered, now, io))
      ensures pool == old(pool)
    {
      CountEvent(i, answered, p);
      ghost var counted := Pair(CountedAt(p.d, i, answered), p.r);
      if keepSending {
        Resend(i, now, io, counted);
      } else {
        DropAt(i, counted);
      }
    }

    method RestartFrom(i: nat, answered: bool, now: int, io: SendIo, ghost p: Pair)
      requires Is(p) && phase.Running? && i <= |outstanding|
      modifies this, udpSocket, repository, pool
      ensures Is(RestartedFrom(p, i, answered, now, io))
      ensures pool == old(pool)
    {
      if i < |outstanding| {
        RestartAt(i, answered, now, io, p);
      }
    }

    /** `restartQuery`: `answered` says whether there is a response. */
    method RestartQuery(id: nat, answered: bool, now: int, io: SendIo, ghost p: Pair)
      requires Is(p) && phase.Running?
      modifies this, udpSocket, repository, pool
      ensures Is(PairRestart(p.d, p.r, id, answered, now, io))
      ensures pool == old(pool)
    {
      RestartInSteps(p, id, answered, now, io);
      var i := FindEvent(id);
      RestartFrom(i, answered, now, io, p);
    }

    /** A UDP response; None when its header does not parse. */
    method ResponseCallback(response: Option<nat>, now: int, io: SendIo, ghost p: Pair)
      requires Is(p) && Enabled(p.d, Response(response))
      modifies this, udpSocket, repository, pool
      ensures Is(PairStep(p, now, Response(response), io))
      ensures pool == old(pool)
    {
      if response.None? {
        phase := Threw;
      } else {
        RestartQuery(response.value, true, now, io, p);
      }
    }

    /** Only the event at `i` has changed, and the rest of the state along with it. */
    lemma OneChanged(i: nat, before: seq<Ev>, p: Pair)
      requires Valid(p.r) && i < |outstanding| == |before|
      requires forall k | 0 <= k < |outstanding| && k != i :: outstanding[k].View() == before[k]
      requires p.d == State(CoreView(), before[i := outstanding[i].View()])
      ensures Is(p)
    {
      Touched(outstanding, before, i);
    }

    /** What an event does when its timer has fired, before it is restarted. */
    method ExpireEvent(qev: QueryEvent)
      modifies `tcpReleased, qev`timer, qev`tcpSock
      ensures (CoreView(), qev.View()) == Expire(old(CoreView()), old(qev.View()))
    {
      var released := qev.TimerFired();
      tcpReleased := tcpReleased + (if released then 1 else 0);
    }

    method ExpireAt(qev: QueryEvent, ghost i: nat, ghost p: Pair)
      requires Is(p) && i < |outstanding| && outstanding[i] == qev
      modifies `tcpReleased, qev`timer, qev`tcpSock
      ensures Is(Pair(Expired(p.d, i), p.r))
    {
      OthersDiffer(outstanding, i);
      ExpireEvent(qev);
      OneChanged(i, p.d.outstanding, Pair(Expired(p.d, i), p.r));
    }

    /** `queryTimerCallback` for the event at `i`. */
    method TimedOutAt(qev: QueryEvent, ghost i: nat, now: int, io: SendIo, ghost p: Pair)
      requires Is(p) && i < |outstanding| && outstanding[i] == qev && phase.Running?
      modifies this, udpSocket, repository, pool
      ensures Is(PairRestart(Expired(p.d, i), p.r, p.d.outstanding[i].qid, false, now, io))
      ensures pool == old(pool)
    {
      ExpireAt(qev, i, p);
      RestartQuery(qev.qid, false, now, io, Pair(Expired(p.d, i), p.r));
    }

    /** An event's own timer expires. */
    method QueryTimerCallback(qev: QueryEvent, now: int, io: SendIo, ghost p: Pair)
      requires Is(p) && qev in outstanding && phase.Running? && qev.timer.Some?
      modifies this, udpSocket, repository, pool
      ensures Enabled(p.d, QueryTimeout(qev.slot)) && Is(PairStep(p, now, QueryTimeout(qev.slot), io))
      ensures pool == old(pool)
    {
      ghost var i: nat :| i < |outstanding| && outstanding[i] == qev;
      LocateFirst(outstanding, i);
      TimeoutIsRestart(p, i, now, io);
      TimedOutAt(qev, i, now, io, p);
    }

    /** The handle of a socket that called back is deleted; false when there is none. */
    method ClearEvent(qev: QueryEvent) returns (ok: bool)
      modifies `tcpReleased, `phase, qev`tcpSock
      ensures ok == old(qev.tcpSock).Some?
      ensures ok ==> (CoreView(), qev.View()) == Clear(old(CoreView()), old(qev.View()))
      ensures !ok ==> CoreView() == Enter(old(CoreView()), Aborted) && qev.View() == old(qev.View())
    {
      ok := qev.ClearTcpSocket();
      if ok {
        tcpReleased := tcpReleased + 1;
      } else {
        phase := Aborted;
      }
    }

    method ClearAt(qev: QueryEvent, ghost i: nat, ghost p: Pair) returns (ok: bool)
      requires Is(p) && i < |outstanding| && outstanding[i] == qev
      modifies `tcpReleased, `phase, qev`tcpSock
      ensures ok == old(qev.tcpSock).Some?
      ensures ok ==> Is(Pair(Cleared(p.d, i), p.r))
      ensures !ok ==> Is(Pair(Fail(p.d, Aborted), p.r))
    {
      OthersDiffer(outstanding, i);
      ok := ClearEvent(qev);
      if ok {
        OneChanged(i, p.d.outstanding, Pair(Cleared(p.d, i), p.r));
      } else {
        OneChanged(i, p.d.outstanding, Pair(Fail(p.d, Aborted), p.r));
      }
    }

    /** `responseTCPCallback` past the assertion. */
    method TcpAnswer(id: nat, payload: Payload, now: int, io: SendIo, ghost p: Pair)
      requires Is(p) && phase.Running?
      modifies this, udpSocket, repository, pool
      ensures Is(TcpAnswered(p, id, payload, now, io))
      ensures pool == old(pool)
    {
      match payload
      case NullData => phase := Crashed;
      case NoData => RestartQuery(id, false, now, io, p);
      case Header(parses) =>
        if parses {
          RestartQuery(id, true, now, io, p);
        } else {
          phase := Threw;
        }
    }

    /** `responseTCPCallback` for the event at `i`. */
    method AnswerAt(qev: QueryEvent, ghost i: nat, payload: Payload, now: int, io: SendIo, ghost p: Pair)
      requires Is(p) && i < |outstanding| && outstanding[i] == qev && phase.Running?
      modifies this, udpSocket, repository, pool
      ensures Is(TcpDoneAt(p, i, payload, now, io))
      ensures pool == old(pool)
    {
      var ok := ClearAt(qev, i, p);
      if ok {
        TcpAnswer(qev.qid, payload, now, io, Pair(Cleared(p.d, i), p.r));
      }
    }

    /** The socket of an event calls back. */
    method ResponseTcpCallback(qev: QueryEvent, payload: Payload, now: int, io: SendIo, ghost p: Pair)
      requires Is(p) && qev in outstanding && phase.Running?
      modifies this, udpSocket, repository, pool
      ensures Enabled(p.d, TcpDone(qev.slot, payload)) && Is(PairStep(p, now, TcpDone(qev.slot, payload), io))
      ensures pool == old(pool)
    {
      ghost var i: nat :| i < |outstanding| && outstanding[i] == qev;
      LocateFirst(outstanding, i);
      TcpDoneIsRestart(p, i, payload, now, io);
      AnswerAt(qev, i, payload, now, io, p);
    }

    method SessionTimerCallback(ghost p: Pair, ghost now: int, ghost io: SendIo)
      requires Is(p) && Enabled(p.d, SessionTimer)
      modifies `keepSending, `sessionArmed
      ensures Is(PairStep(p, now, SessionTimer, io))
    {
      keepSending, sessionArmed := false, false;
    }

    // ---- A whole run ----

    method AddEvent()
      modifies `outstanding, `pool
      ensures |outstanding| == |old(outstanding)| + 1
      ensures var e := outstanding[|outstanding| - 1];
              && outstanding == old(outstanding) + [e] && pool == old(pool) + {e, e.ctx}
              && fresh(e) && fresh(e.ctx) && e.ctx.repository == repository
              && e.View() == Ev(|old(outstanding)|, 0, 0, None, None)
    {
      var ctx := new QueryContext.QueryContext(repository);
      var qev := new QueryEvent(|outstanding|, ctx);
      outstanding := outstanding + [qev];
      pool := pool + {qev, ctx};
    }

    method CreatePool()
      requires outstanding == [] && pool == {}
      modifies `outstanding, `pool
      ensures OwnSlots(outstanding) && Evs(outstanding) == Pool(window) && fresh(pool)
      ensures forall e | e in outstanding :: e.ctx.repository == repository && e in pool && e.ctx in pool
    {
      while |outstanding| < window
        invariant |outstanding| <= window
        invariant forall k | 0 <= k < |outstanding| :: outstanding[k].View() == Ev(k, 0, 0, None, None)
        invariant fresh(pool)
        invariant forall e | e in outstanding :: e.ctx.repository == repository && e in pool && e.ctx in pool
      {
        AddEvent();
      }
      forall i, j | 0 <= i < j < |outstanding| ensures OtherSlot(outstanding[i], outstanding[j]) {
        assert outstanding[i].View().slot == i && outstanding[j].View().slot == j;
      }
    }

    method DispatchOne(i: nat, tries: seq<TryIo>, ghost p: Pair, ghost end: Pair) returns (ghost p': Pair)
      requires Is(p) && phase.Running? && i < |outstanding| == |tries| && end == PairDispatch(p, i, tries)
      modifies `phase, `tcpCreated, `log, `queriesSent, `qid
      modifies udpSocket, repository, outstanding[i], outstanding[i].ctx
      ensures Is(p') && end == PairDispatch(p', i + 1, tries)
    {
      DispatchNext(p, i, tries);
      SendAt(i, tries[i].at, tries[i].io, p);
      p' := SentAt(p, i, tries[i].at, tries[i].io);
    }

    /** Every event is started and sent in list order, until one of them throws. */
    method DispatchAll(tries: seq<TryIo>, ghost start: Pair)
      requires Is(start) && |outstanding| == |tries|
      modifies this, udpSocket, repository, pool
      ensures Is(PairDispatch(start, 0, tries)) && pool == old(pool)
    {
      ghost var p, end := start, PairDispatch(start, 0, tries);
      var i := 0;
      while i < |outstanding| && phase.Running?
        invariant i <= |outstanding| == |tries| && pool == old(pool)
        invariant Is(p)
        invariant PairDispatch(p, i, tries) == end
      {
        p := DispatchOne(i, tries, p, end);
        i := i + 1;
      }
    }

    /** `run` up to the event loop: the pool is created and dispatched. */
    method Begin(tries: seq<TryIo>, ghost r: Repo)
      requires Is(Pair(Idle(window, queryTimeout).(outstanding := []), r)) && |tries| == window && pool == {}
      modifies this, udpSocket, repository
      ensures Is(PairBegin(window, queryTimeout, r, tries)) && fresh(pool)
    {
      CreatePool();
      DispatchAll(tries, Pair(Idle(window, queryTimeout), r));
    }

    method FindSlot(slot: nat) returns (i: nat)
      ensures i == Locate(Evs(outstanding), slot)
      ensures i < |outstanding| ==> outstanding[i].slot == slot
    {
      i := 0;
      while i < |outstanding| && outstanding[i].slot != slot
        invariant i <= |outstanding|
        invariant forall k | 0 <= k < i :: outstanding[k].slot != slot
      {
        i := i + 1;
      }
      var f := Locate(Evs(outstanding), slot);
    }

    /** The timer bound to an event fires. */
    method TimerOf(slot: nat, now: int, io: SendIo, ghost p: Pair)
      requires Is(p) && Enabled(p.d, QueryTimeout(slot))
      modifies this, udpSocket, repository, pool
      ensures Is(PairStep(p, now, QueryTimeout(slot), io))
      ensures pool == old(pool)
    {
      var i := FindSlot(slot);
      assert outstanding[i].View() == p.d.outstanding[i];
      QueryTimerCallback(outstanding[i], now, io, p);
    }

    /** The socket bound to an event calls back. */
    method SocketOf(slot: nat, payload: Payload, now: int, io: SendIo, ghost p: Pair)
      requires Is(p) && Enabled(p.d, TcpDone(slot, payload))
      modifies this, udpSocket, repository, pool
      ensures Is(PairStep(p, now, TcpDone(slot, payload), io))
      ensures pool == old(pool)
    {
      var i := FindSlot(slot);
      ResponseTcpCallback(outstanding[i], payload, now, io, p);
    }

    /** One callback of the event loop. */
    method Callback(ev: Event, ghost p: Pair)
      requires Is(p) && Enabled(p.d, ev.what)
      modifies this, udpSocket, repository, pool
      ensures Is(PairStep(p, ev.at, ev.what, ev.io))
      ensures pool == old(pool)
    {
      match ev.what
      case Response(id) => ResponseCallback(id, ev.at, ev.io, p);
      case QueryTimeout(slot) => TimerOf(slot, ev.at, ev.io, p);
      case TcpDone(slot, payload) => SocketOf(slot, payload, ev.at, ev.io, p);
      case SessionTimer => SessionTimerCallback(p, ev.at, ev.io);
    }

    /** The event loop, for any sequence of callbacks the environment can make. */
    method EventLoop(evs: seq<Event>, ghost start: Pair)
      requires Is(start) && ValidPairRun(start, evs)
      modifies this, udpSocket, repository, pool
      ensures Is(PairRun(start, evs))
    {
      ghost var p, end := start, PairRun(start, evs);
      for i := 0 to |evs|
        invariant Is(p)
        invariant ValidPairRun(p, evs[i..]) && PairRun(p, evs[i..]) == end
        invariant pool == old(pool)
      {
        RunNext(p, evs, i);
        Callback(evs[i], p);
        p := PairStep(p, evs[i].at, evs[i].what, evs[i].io);
      }
    }

    /** `run`: whatever the environment does, the counters add up, and the repository's requests go
        out in turn. */
    method Run(tries: seq<TryIo>, evs: seq<Event>, ghost r: Repo)
      requires Is(Pair(Idle(window, queryTimeout).(outstanding := []), r)) && |tries| == window > 0 && pool == {}
      requires ValidPairRun(PairBegin(window, queryTimeout, r, tries), evs)
      modifies this, udpSocket, repository
      ensures Is(PairRun(PairBegin(window, queryTimeout, r, tries), evs))
      ensures queriesCompleted <= queriesSent == |log|
      ensures phase.InLoop() ==>
                && queriesSent == queriesCompleted + |failedSeqs| + |outstanding|
                && qid == queriesSent % 65536
                && (keepSending ==> |outstanding| == window)
                && (phase.Stopped? <==> outstanding == [])
                && stops == (if outstanding == [] then 1 else 0)
      ensures forall i: nat | i < |log| :: log[i].qid == i % 65536 && NthQuery(r, i) == Some(log[i].query)
    {
      ghost var start := PairBegin(window, queryTimeout, r, tries);
      RunAddsUp(window, queryTimeout, r, tries, evs);
      QueriesInTurn(window, queryTimeout, r, tries, evs);
      Begin(tries, r);
      EventLoop(evs, start);
    }
  }
}
