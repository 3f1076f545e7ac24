/**
 TCP runs with colliding IDs, for any window of two or more: one server that is slow
 to answer the first query and refuses every connection of the last slot at once,
 until that slot has come round to the ID of the first. In one run the next refusal
 restarts the first event, whose socket is still at work, and an assertion fails. In
 the other the session ends, the timeout of the last event erases the first, and
 nothing is left that could ever end the run.

 Both use the order the source intends for its list.
 */
module TcpCollision {
  import opened Wrappers
  import opened LengthPrefix
  import opened RepositorySpec
  import opened DispatcherSpec
  import opened DistinctIds
  import opened Churn
  import opened TcpRun
  import S = TcpSocketSpec

  /** The newest socket is connecting for the last slot. */
  ghost predicate TcpChurnAt(a: Scene, y: Sys, buf: seq<byte>, n: nat)
    requires a.Possible()
  {
    ChurnAt(a, y.d, n) && |y.socks| == n + 1 && y.socks[n] == Bound(a.window - 1, Started(buf))
  }

  /** The connection of the newest socket is refused. */
  function Refused(query: Query, buf: seq<byte>, n: nat): Move {
    Move(0, SocketCompletes(n, S.OtherError, [], true, false), SendOk(query), buf)
  }

  ghost predicate Usable(a: Scene, buf: seq<byte>) {
    a.Possible() && a.query.proto.Tcp? && |buf| >= MAX_MESSAGE
  }

  lemma LastIsLocated(a: Scene, y: Sys, n: nat)
    requires a.Possible() && ChurnAt(a, y.d, n)
    ensures Locate(y.d.outstanding, a.window - 1) == a.window - 1
  {
    var f := Locate(y.d.outstanding, a.window - 1);
    assert y.d.outstanding[a.window - 1].slot == a.window - 1;
    assert f <= a.window - 1;
  }

  /** A socket whose connection is refused reports no data. */
  lemma RefusedReports(a: Scene, y: Sys, buf: seq<byte>, n: nat)
    requires Usable(a, buf) && TcpChurnAt(a, y, buf, n)
    ensures var m, last := Refused(a.query, buf, n), a.window - 1;
            && TcpMove(y, m) && Punctual(y.d, m.at, 0)
            && CallbackOf(y, m.deed) == Some(TcpDone(last, NoData))
            && Enabled(y.d, TcpDone(last, NoData))
            && NextState(y, m) == OnTcpDone(y.d, last, NoData, 0, SendOk(a.query))
  {
    var m := Refused(a.query, buf, n);
    var k := Completed(y, m.deed)[n].sock;
    assert k.reports == [S.Report(true, 0)];
    LastIsLocated(a, y, n);
  }

  lemma ChurnRestarts(a: Scene, y: Sys, buf: seq<byte>, n: nat)
    requires Usable(a, buf) && TcpChurnAt(a, y, buf, n) && n <= 65535
    ensures ChurnAt(a, OnTcpDone(y.d, a.window - 1, NoData, 0, SendOk(a.query)), n + 1)
  {
    var q, last := y.d.outstanding, a.window - 1;
    var (c, e) := Clear(y.d.core, q[last]);
    LastRestarts(a, State(c, q[last := e]), n, false);
  }

  lemma NewestIsLast(a: Scene, s: State, n: nat)
    requires a.Possible() && a.query.proto.Tcp? && ChurnAt(a, s, n)
    ensures OwnerSlot(s.outstanding, n) == a.window - 1
  {
    var q := s.outstanding;
    assert q[a.window - 1].sock == Some(n);
    OwnerSlotIs(q, n, a.window - 1);
  }

  lemma ChurnStep(a: Scene, y: Sys, buf: seq<byte>, n: nat)
    requires Usable(a, buf) && TcpChurnAt(a, y, buf, n) && n <= 65535
    ensures var m := Refused(a.query, buf, n);
            TcpMove(y, m) && TcpChurnAt(a, StepSys(y, m), buf, n + 1)
  {
    RefusedReports(a, y, buf, n);
    ChurnRestarts(a, y, buf, n);
    NewestIsLast(a, NextState(y, Refused(a.query, buf, n)), n + 1);
  }

  /** A punctual run. */
  ghost predicate Leads(y: Sys, ms: seq<Move>, y': Sys) {
    TcpMoves(y, ms) && PunctualMoves(y, ms, 0) && RunSys(y, ms) == y'
  }

  lemma MoveFirst(y: Sys, m: Move, ms: seq<Move>, y': Sys)
    requires TcpMove(y, m) && Punctual(y.d, m.at, 0) && Leads(StepSys(y, m), ms, y')
    ensures Leads(y, [m] + ms, y')
  {
    assert ([m] + ms)[1..] == ms;
  }

  /** Refusals until the last slot has come round to ID 0. */
  lemma {:induction false} ChurnRun(a: Scene, y: Sys, buf: seq<byte>, n: nat) returns (ms: seq<Move>, y': Sys)
    requires Usable(a, buf) && TcpChurnAt(a, y, buf, n) && n <= 65536
    ensures Leads(y, ms, y') && TcpChurnAt(a, y', buf, 65536)
    decreases 65536 - n
  {
    if n == 65536 {
      ms, y' := [], y;
    } else {
      var m := Refused(a.query, buf, n);
      RefusedReports(a, y, buf, n);
      ChurnStep(a, y, buf, n);
      var rest;
      rest, y' := ChurnRun(a, StepSys(y, m), buf, n + 1);
      MoveFirst(y, m, rest, y');
      ms := [m] + rest;
    }
  }

  /** One run after another. */
  lemma {:induction false} MovesThen(y: Sys, a: seq<Move>, y1: Sys, b: seq<Move>, y2: Sys) returns (ms: seq<Move>)
    requires Leads(y, a, y1) && Leads(y1, b, y2)
    ensures Leads(y, ms, y2)
    decreases |a|
  {
    if a == [] {
      ms := b;
    } else {
      var rest := MovesThen(StepSys(y, a[0]), a[1..], y1, b, y2);
      MoveFirst(y, a[0], rest, y2);
      ms := [a[0]] + rest;
    }
  }

  /** The sockets of the first dispatch; the last one's buffer also serves those created later. */
  lemma TcpStartsChurning(a: Scene, bufs: seq<seq<byte>>)
    requires |bufs| == a.window && a.Possible() && a.query.proto.Tcp? && TcpStart(a.Tries(), bufs)
    ensures var y := BeginSys(a.window, a.timeout, a.Tries(), bufs);
            SysInv(y) && TcpChurnAt(a, y, bufs[a.window - 1], a.window - 1)
  {
    StartsChurning(a);
    BeginInv(a.window, a.timeout, a.Tries(), bufs);
    NewestIsLast(a, Begin(a.window, a.timeout, a.Tries()), a.window - 1);
  }

  // ---- A run that fails an assertion ----

  lemma LastRefusalAborts(a: Scene, s: State)
    requires a.Possible() && a.window >= 2 && a.query.proto.Tcp? && ChurnAt(a, s, 65536)
    ensures OnTcpDone(s, a.window - 1, NoData, 0, SendOk(a.query)).core.mode.phase.Aborted?
  {
    var q, last := s.outstanding, a.window - 1;
    var (c, e) := Clear(s.core, q[last]);
    var r := q[last := e];
    assert Wrap16(65536) == 0;
    assert r[0] == a.Waiting(0, 0);
    assert Find(r, 0) == 0;
  }

  lemma LastRefused(a: Scene, y: Sys, buf: seq<byte>)
    requires Usable(a, buf) && a.window >= 2 && TcpChurnAt(a, y, buf, 65536)
    ensures var m := Refused(a.query, buf, 65536);
            TcpMove(y, m) && Punctual(y.d, m.at, 0) && StepSys(y, m).d.core.mode.phase.Aborted?
  {
    RefusedReports(a, y, buf, 65536);
    LastRefusalAborts(a, y.d);
  }

  /**
   From the start of a TCP run with any window of two or more, whatever the timeout, some socket
   completions that all come at once make the assertion that an event about to send owns no socket
   fail.
   */
  lemma CollisionAborts(window: nat, timeout: int, query: Query, bufs: seq<seq<byte>>) returns (ms: seq<Move>)
    requires 2 <= window <= 65536 && timeout >= 0 && query.proto.Tcp? && |bufs| == window
    requires TcpStart(Scene(window, timeout, query).Tries(), bufs)
    ensures var y := BeginSys(window, timeout, Scene(window, timeout, query).Tries(), bufs);
            && TcpMoves(y, ms) && PunctualMoves(y, ms, 0)
            && RunSys(y, ms).d.core.mode.phase.Aborted?
  {
    var a, buf := Scene(window, timeout, query), bufs[window - 1];
    var y := BeginSys(window, timeout, a.Tries(), bufs);
    TcpStartsChurning(a, bufs);
    var churn, y1 := ChurnRun(a, y, buf, window - 1);
    var m := Refused(query, buf, 65536);
    LastRefused(a, y1, buf);
    MoveFirst(y1, m, [], StepSys(y1, m));
    ms := MovesThen(y, churn, y1, [m] + [], StepSys(y1, m));
  }

  // ---- A run that nothing can end ----

  /** Queries are outstanding, and there is no timer, no socket and no UDP receive left to end them. */
  ghost predicate NothingLeft(y: Sys) {
    && Linked(y) && y.d.core.mode.phase.Running? && !y.d.core.mode.sessionArmed
    && y.d.outstanding != []
    && forall k | 0 <= k < |y.d.outstanding| :: y.d.outstanding[k].deadline.None? && y.d.outstanding[k].sock.None?
  }

  /** Released sockets may still complete what is pending; nobody hears of it. */
  lemma NothingHappens(y: Sys, m: Move)
    requires NothingLeft(y) && TcpMove(y, m)
    ensures StepSys(y, m).d == y.d && NothingLeft(StepSys(y, m))
  {
    MoveSafe(y, m);
    var q := y.d.outstanding;
    if m.deed.SocketCompletes? {
      var k := y.socks[m.deed.id].sock;
      assert !Owned(q, m.deed.id);
      assert SockOk(q, k, m.deed.id);
      SockCompletes(k, CompletionOf(m.deed));
    }
  }

  lemma {:induction false} NothingEverHappens(y: Sys, ms: seq<Move>)
    requires NothingLeft(y) && TcpMoves(y, ms)
    ensures RunSys(y, ms).d == y.d
    decreases |ms|
  {
    if ms != [] {
      NothingHappens(y, ms[0]);
      NothingEverHappens(StepSys(y, ms[0]), ms[1..]);
    }
  }

  lemma AloneHasNothingLeft(y: Sys)
    requires Linked(y) && LeftAlone(y.d)
    ensures NothingLeft(y)
  {
  }

  /** The move in which a timer fires. */
  function Fires(i: Input, buf: seq<byte>): Move {
    Move(i.at, if i.what.QueryTimeout? then TimerFires(i.what.slot) else SessionEnds, i.attempt, buf)
  }

  lemma FiresSteps(y: Sys, i: Input, buf: seq<byte>)
    requires ByTimer(i) && Enabled(y.d, i.what) && |buf| >= MAX_MESSAGE
    ensures TcpMove(y, Fires(i, buf)) && StepSys(y, Fires(i, buf)).d == Step(y.d, i)
  {
  }

  /** A run of timers is one whatever the sockets do. */
  lemma {:induction false} TimersFire(y: Sys, ins: seq<Input>, buf: seq<byte>) returns (ms: seq<Move>)
    requires ValidRun(y.d, ins) && PunctualRun(y.d, ins, 0) && |buf| >= MAX_MESSAGE
    requires forall k | 0 <= k < |ins| :: ByTimer(ins[k])
    ensures TcpMoves(y, ms) && Leads(y, ms, RunSys(y, ms)) && RunSys(y, ms).d == Run(y.d, ins)
    decreases |ins|
  {
    if ins == [] {
      ms := [];
    } else {
      var m := Fires(ins[0], buf);
      FiresSteps(y, ins[0], buf);
      var rest := TimersFire(StepSys(y, m), ins[1..], buf);
      MoveFirst(y, m, rest, RunSys(StepSys(y, m), rest));
      ms := [m] + rest;
    }
  }

  /**
   From the start, for any window of two or more and any timeout: a punctual TCP run after which a
   query is outstanding for ever. It is never stopped, whatever else happens.
   */
  lemma CollisionStrands(window: nat, timeout: int, query: Query, bufs: seq<seq<byte>>) returns (ms: seq<Move>)
    requires 2 <= window <= 65536 && timeout >= 0 && query.proto.Tcp? && |bufs| == window
    requires TcpStart(Scene(window, timeout, query).Tries(), bufs)
    ensures var y := BeginSys(window, timeout, Scene(window, timeout, query).Tries(), bufs);
            && TcpMoves(y, ms) && PunctualMoves(y, ms, 0)
            && NothingLeft(RunSys(y, ms))
            && forall more | TcpMoves(RunSys(y, ms), more) :: RunSys(RunSys(y, ms), more).d == RunSys(y, ms).d
  {
    var a, buf := Scene(window, timeout, query), bufs[window - 1];
    var y := BeginSys(window, timeout, a.Tries(), bufs);
    TcpStartsChurning(a, bufs);
    var churn, y1 := ChurnRun(a, y, buf, window - 1);
    var timers := SessionStrands(a, y1.d);
    var rest := TimersFire(y1, timers, buf);
    var y2 := RunSys(y1, rest);
    ms := MovesThen(y, churn, y1, rest, y2);
    RunLinked(y, ms);
    AloneHasNothingLeft(y2);
    forall more | TcpMoves(y2, more) ensures RunSys(y2, more).d == y2.d {
      NothingEverHappens(y2, more);
    }
  }
}
