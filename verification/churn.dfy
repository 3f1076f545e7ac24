/**
 How IDs come to collide, for any window and over either protocol. At time 0 every
 slot sends; then the last one is answered, or refused, and sends again, as often
 as it takes for its ID to come round to that of the first. After that the session
 ends, and the timers of the other slots fire in turn: that of the last slot erases
 the first event, and the last one is left without a timer.
 */
module Churn {
  import opened Wrappers
  import opened RepositorySpec
  import opened DispatcherSpec
  import opened DistinctIds

  /** The window and the timeout, and the query that is sent every time. */
  datatype Scene = Scene(window: nat, timeout: int, query: Query) {
    /** At least one slot, each with an ID of its own at the start, and timers that do not fire early. */
    predicate Possible() {
      1 <= window <= 65536 && timeout >= 0
    }

    function Tries(): (tries: seq<Try>)
      ensures |tries| == window && forall i | 0 <= i < window :: tries[i] == Try(0, SendOk(query))
    {
      seq(window, _ => Try(0, SendOk(query)))
    }

    /** The event of a slot while it waits for query `n`; over TCP the `n`-th socket is that query's. */
    function Waiting(slot: nat, n: nat): Ev {
      Ev(slot, n, Wrap16(n), Some(timeout), if query.proto.Tcp? then Some(n) else None)
    }

    /** `n` queries have been sent, in a run that goes on sending. */
    ghost predicate Sent(c: Core, n: nat) {
      && c.mode == Mode(true, true, Running, 0) && c.timeout == timeout
      && c.tally.sent == n && c.tally.nextQid == Wrap16(n)
      && (if query.proto.Tcp? then c.net.created == n && !c.net.udpReceiving else c.net.udpReceiving || n == 0)
    }
  }

  // ---- The start ----

  lemma SendNext(a: Scene, c: Core, e: Ev, n: nat)
    requires a.Sent(c, n) && e.sock.None?
    ensures var (c', e') := Send(c, e, 0, SendOk(a.query));
            a.Sent(c', n + 1) && e' == a.Waiting(e.slot, n)
  {
    assert Wrap16(Wrap16(n) + 1) == Wrap16(n + 1);
  }

  /** The first `i` slots have sent. */
  ghost predicate SentUpTo(a: Scene, s: State, i: nat) {
    && i <= |s.outstanding| == a.window && a.Sent(s.core, i)
    && (forall k | 0 <= k < i :: s.outstanding[k] == a.Waiting(k, k))
    && (forall k | i <= k < a.window :: s.outstanding[k] == Ev(k, 0, 0, None, None))
  }

  lemma {:induction false} AllSend(a: Scene, s: State, i: nat)
    requires SentUpTo(a, s, i)
    ensures SentUpTo(a, Dispatch(s, i, a.Tries()), a.window)
    decreases a.window - i
  {
    if i < a.window {
      var (c, e) := Send(s.core, s.outstanding[i], 0, SendOk(a.query));
      SendNext(a, s.core, s.outstanding[i], i);
      AllSend(a, State(c, s.outstanding[i := e]), i + 1);
    }
  }

  /** Query `n` is that of the last slot; the others wait for their first. */
  ghost predicate ChurnAt(a: Scene, s: State, n: nat)
    requires a.Possible()
  {
    Churning(a, s, n, a.Waiting(a.window - 1, n))
  }

  ghost predicate Churning(a: Scene, s: State, n: nat, last: Ev)
    requires a.Possible()
  {
    && a.window - 1 <= n && a.Sent(s.core, n + 1)
    && |s.outstanding| == a.window && s.outstanding[a.window - 1] == last
    && forall k | 0 <= k < a.window - 1 :: s.outstanding[k] == a.Waiting(k, k)
  }

  lemma StartsChurning(a: Scene)
    requires a.Possible()
    ensures ChurnAt(a, Begin(a.window, a.timeout, a.Tries()), a.window - 1)
  {
    AllSend(a, Idle(a.window, a.timeout), 0);
  }

  // ---- Round the IDs ----

  /** IDs that have not come round yet find the event itself. */
  lemma LastIsFound(a: Scene, s: State, n: nat, last: Ev)
    requires a.Possible() && Churning(a, s, n, last) && last.qid == Wrap16(n) && n <= 65535
    ensures Find(s.outstanding, Wrap16(n)) == a.window - 1
  {
    FindIs(s.outstanding, a.window - 1);
  }

  lemma LastMoves(a: Scene, s: State, n: nat, last: Ev, c: Core, e: Ev)
    requires a.Possible() && Churning(a, s, n, last) && a.Sent(c, n + 2)
    ensures Churning(a, State(c, Without(s.outstanding, a.window - 1) + [e]), n + 1, e)
  {
  }

  /** The query of the last slot has ended, its socket is gone, and the next one is sent. */
  lemma LastRestarts(a: Scene, s: State, n: nat, answered: bool)
    requires a.Possible() && Churning(a, s, n, a.Waiting(a.window - 1, n).(sock := None)) && n <= 65535
    ensures ChurnAt(a, Restart(s, Wrap16(n), answered, 0, SendOk(a.query)), n + 1)
  {
    var e := s.outstanding[a.window - 1];
    var c := Count(s.core, e, answered);
    var (c', e') := Send(c, e, 0, SendOk(a.query));
    LastIsFound(a, s, n, e);
    SendNext(a, c, e, n + 1);
    LastMoves(a, s, n, e, c', e');
  }

  // ---- After the session ----

  /** The session is over, and the slots from `j` on are gone, but for the last one, which has come round
      to ID 0. */
  ghost predicate LeftUpTo(a: Scene, s: State, j: nat) {
    && 1 <= j < a.window && s.core.mode == Mode(false, false, Running, 0)
    && |s.outstanding| == j + 1 && s.outstanding[j] == a.Waiting(a.window - 1, 65536)
    && forall k | 0 <= k < j :: s.outstanding[k] == a.Waiting(k, k)
  }

  lemma SessionOver(a: Scene, s: State, now: int, x: Attempt)
    requires a.Possible() && a.window >= 2 && ChurnAt(a, s, 65536)
    ensures Enabled(s, SessionTimer) && LeftUpTo(a, Step(s, Input(now, SessionTimer, x)), a.window - 1)
  {
  }

  /** All timers were armed at time 0. */
  lemma PunctualTimer(a: Scene, s: State, j: nat)
    requires LeftUpTo(a, s, j)
    ensures Punctual(s, a.timeout, 0)
  {
  }

  lemma LocateIs(q: seq<Ev>, i: nat)
    requires i < |q| && forall k | 0 <= k < i :: q[k].slot != q[i].slot
    ensures Locate(q, q[i].slot) == i
  {
    assert Locate(q, q[i].slot) <= i;
  }

  /** The timer of a slot in the middle ends its own query. */
  lemma MiddleTimesOut(a: Scene, s: State, j: nat, now: int, x: Attempt)
    requires a.Possible() && LeftUpTo(a, s, j + 1) && j > 0
    ensures Enabled(s, QueryTimeout(j)) && LeftUpTo(a, Step(s, Input(now, QueryTimeout(j), x)), j)
  {
    var q := s.outstanding;
    assert q[j] == a.Waiting(j, j) && Wrap16(j) == j;
    LocateIs(q, j);
    var (c, e) := Expire(s.core, q[j]);
    FindIs(q[j := e], j);
  }

  /** One event is left, with neither timer nor socket. */
  ghost predicate LeftAlone(s: State) {
    && s.core.mode == Mode(false, false, Running, 0)
    && |s.outstanding| == 1 && s.outstanding[0].deadline.None? && s.outstanding[0].sock.None?
  }

  /** The timer of the last slot ends the query of the first. */
  lemma LastTimesOut(a: Scene, s: State, now: int, x: Attempt)
    requires a.Possible() && LeftUpTo(a, s, 1)
    ensures var i := Input(now, QueryTimeout(a.window - 1), x);
            Enabled(s, i.what) && LeftAlone(Step(s, i))
  {
    var q := s.outstanding;
    LocateIs(q, 1);
    var (c, e) := Expire(s.core, q[1]);
    var r := q[1 := e];
    assert Wrap16(65536) == 0;
    assert Find(r, 0) == 0;
    assert Without(r, 0) == [e];
  }

  /** A session or query timer, with nothing sent. */
  predicate ByTimer(i: Input) {
    (i.what.QueryTimeout? || i.what.SessionTimer?) && i.attempt.SendFailed?
  }

  /** A punctual run of timers after which one event is left, alone. */
  ghost predicate Strands(s: State, ins: seq<Input>) {
    && ValidRun(s, ins) && PunctualRun(s, ins, 0) && LeftAlone(Run(s, ins))
    && forall k | 0 <= k < |ins| :: ByTimer(ins[k])
  }

  lemma StrandsLater(s: State, i: Input, ins: seq<Input>)
    requires ByTimer(i) && Enabled(s, i.what) && Punctual(s, i.at, 0) && Strands(Step(s, i), ins)
    ensures Strands(s, [i] + ins)
  {
    assert ([i] + ins)[1..] == ins;
  }

  lemma LastTimerStrands(a: Scene, s: State) returns (ins: seq<Input>)
    requires a.Possible() && LeftUpTo(a, s, 1)
    ensures Strands(s, ins)
  {
    var i := Input(a.timeout, QueryTimeout(a.window - 1), SendFailed);
    PunctualTimer(a, s, 1);
    LastTimesOut(a, s, i.at, i.attempt);
    StrandsLater(s, i, []);
    ins := [i] + [];
  }

  lemma {:induction false} TimersStrand(a: Scene, s: State, j: nat) returns (ins: seq<Input>)
    requires a.Possible() && LeftUpTo(a, s, j)
    ensures Strands(s, ins)
    decreases j
  {
    if j == 1 {
      ins := LastTimerStrands(a, s);
    } else {
      var i := Input(a.timeout, QueryTimeout(j - 1), SendFailed);
      PunctualTimer(a, s, j);
      MiddleTimesOut(a, s, j - 1, i.at, i.attempt);
      var rest := TimersStrand(a, Step(s, i), j - 1);
      StrandsLater(s, i, rest);
      ins := [i] + rest;
    }
  }

  /** Once the last slot has come round to ID 0, the session timer and the timers of the queries leave
      one event alone. */
  lemma SessionStrands(a: Scene, s: State) returns (ins: seq<Input>)
    requires a.Possible() && a.window >= 2 && ChurnAt(a, s, 65536)
    ensures Strands(s, ins)
  {
    var i := Input(0, SessionTimer, SendFailed);
    SessionOver(a, s, i.at, i.attempt);
    var rest := TimersStrand(a, Step(s, i), a.window - 1);
    StrandsLater(s, i, rest);
    ins := [i] + rest;
  }
}
