/**
 A TCP run that crashes, for any window: the server sends a message and the length of
 another to the first socket, and then the connection breaks. Built from the end, one
 completion at a time.
 */
module TcpCrash {
  import opened LengthPrefix
  import opened RepositorySpec
  import opened DispatcherSpec
  import opened DistinctIds
  import opened Churn
  import opened TcpRun
  import S = TcpSocketSpec
  import L = TcpSocketLife

  /** A punctual run with distinct IDs that crashes. */
  ghost predicate Crashes(y: Sys, ms: seq<Move>) {
    && TcpMoves(y, ms) && PunctualMoves(y, ms, 0) && DistinctAlong(y, ms)
    && RunSys(y, ms).d.core.mode.phase.Crashed?
  }

  lemma CrashesLater(y: Sys, m: Move, ms: seq<Move>)
    requires TcpMove(y, m) && Punctual(y.d, m.at, 0) && Distinct(y.d.outstanding) && Crashes(StepSys(y, m), ms)
    ensures Crashes(y, [m] + ms)
  {
    assert ([m] + ms)[1..] == ms;
  }

  /** The bytes of a message header (section 4.1.1 of RFC 1035). */
  const HEADER_LENGTH := 12

  /** The first socket is in the state `k` and at work; IDs are distinct, and no timer is overdue. */
  ghost predicate Working(y: Sys, k: S.Sock) {
    && y.d.core.mode.phase.Running? && Linked(y)
    && Distinct(y.d.outstanding) && Punctual(y.d, 0, 0)
    && y.socks != [] && y.socks[0].sock == k
    && S.Inv(k) && k.started && k.open && !k.released
  }

  function Receives(bytes: seq<byte>, buf: seq<byte>): Move {
    Move(0, SocketCompletes(0, S.Success, bytes, true, true), SendFailed, buf)
  }

  function Breaks(buf: seq<byte>): Move {
    Move(0, SocketCompletes(0, S.OtherError, [], true, true), SendFailed, buf)
  }

  /** A completion of which the owner hears nothing. */
  lemma Silently(y: Sys, k: S.Sock, bytes: seq<byte>, buf: seq<byte>)
    requires Working(y, k) && |buf| >= MAX_MESSAGE && S.Legal(k, L.Received(bytes, false))
    requires var k' := S.Step(k, L.Received(bytes, false)); S.Inv(k') && !k'.completed && !k'.threw
    ensures var m := Receives(bytes, buf);
            TcpMove(y, m) && Working(StepSys(y, m), S.Step(k, L.Received(bytes, false)))
  {
    var m := Receives(bytes, buf);
    var k' := S.Step(k, L.Received(bytes, false));
    assert S.Complete(CompletionOf(m.deed)) == L.Received(bytes, false);
    assert Completed(y, m.deed)[0].sock == k';
    SockCompletes(k, CompletionOf(m.deed));
    assert CallbackOf(y, m.deed).None? && !HandlerThrew(y, m.deed);
    SilentCompletion(y, m.deed);
    NobodyMoves(y, Completed(y, m.deed));
  }

  lemma CrashesAtSecondBody(y: Sys, k: S.Sock, announced: nat, buf: seq<byte>) returns (ms: seq<Move>)
    requires Working(y, k) && |buf| >= MAX_MESSAGE
    requires k.pending == [S.ReadData(announced, false)] && k.recvLen > 0
    ensures Crashes(y, ms)
  {
    var m := Breaks(buf);
    assert LateReadFailure(y, m.deed);
    MoveSafe(y, m);
    CrashesLater(y, m, []);
    ms := [m] + [];
  }

  lemma CrashesAtSecondPrefix(y: Sys, k: S.Sock, announced: nat, buf: seq<byte>) returns (ms: seq<Move>)
    requires Working(y, k) && |buf| >= MAX_MESSAGE && announced <= MAX_MESSAGE
    requires k.pending == [S.ReadLength] && k.recvLen > 0
    ensures Crashes(y, ms)
  {
    var m := Receives(Prefix(announced), buf);
    L.ReceivePrefix(k, announced, false);
    Silently(y, k, Prefix(announced), buf);
    var rest := CrashesAtSecondBody(StepSys(y, m), S.Step(k, L.Received(Prefix(announced), false)), announced, buf);
    CrashesLater(y, m, rest);
    ms := [m] + rest;
  }

  lemma CrashesAtBody(y: Sys, k: S.Sock, body: seq<byte>, announced: nat, buf: seq<byte>) returns (ms: seq<Move>)
    requires Working(y, k) && |buf| >= MAX_MESSAGE && HEADER_LENGTH <= |body| <= MAX_MESSAGE && announced <= MAX_MESSAGE
    requires k.pending == [S.ReadData(|body|, true)] && k.recvLen == 0
    ensures Crashes(y, ms)
  {
    var m, k' := Receives(body, buf), S.Step(k, L.Received(body, false));
    L.ReceiveBody(k, body, false);
    assert |L.Kept(k')| == k'.recvLen;
    Silently(y, k, body, buf);
    var rest := CrashesAtSecondPrefix(StepSys(y, m), k', announced, buf);
    CrashesLater(y, m, rest);
    ms := [m] + rest;
  }

  lemma CrashesAtPrefix(y: Sys, k: S.Sock, body: seq<byte>, announced: nat, buf: seq<byte>) returns (ms: seq<Move>)
    requires Working(y, k) && |buf| >= MAX_MESSAGE && HEADER_LENGTH <= |body| <= MAX_MESSAGE && announced <= MAX_MESSAGE
    requires k.pending == [S.ReadLength] && k.recvLen == 0
    ensures Crashes(y, ms)
  {
    var m := Receives(Prefix(|body|), buf);
    L.ReceivePrefix(k, |body|, false);
    Silently(y, k, Prefix(|body|), buf);
    var rest := CrashesAtBody(StepSys(y, m), S.Step(k, L.Received(Prefix(|body|), false)), body, announced, buf);
    CrashesLater(y, m, rest);
    ms := [m] + rest;
  }

  /** A connect or a write succeeds, and the next operation is issued. */
  lemma NextIssued(k: S.Sock)
    requires S.Inv(k) && !k.cancelled && (k.pending == [S.Connect] || k.pending == [S.Write])
    ensures S.Legal(k, L.Received([], false))
    ensures var k' := S.Step(k, L.Received([], false));
            && S.Inv(k') && !k'.completed && !k'.threw && k'.recvLen == k.recvLen
            && k'.pending == (if k.pending == [S.Connect] then [S.Write] else [S.ReadLength])
  {
    L.StepInv(k, L.Received([], false));
  }

  lemma CrashesAtWrite(y: Sys, k: S.Sock, body: seq<byte>, announced: nat, buf: seq<byte>) returns (ms: seq<Move>)
    requires Working(y, k) && |buf| >= MAX_MESSAGE && HEADER_LENGTH <= |body| <= MAX_MESSAGE && announced <= MAX_MESSAGE
    requires k.pending == [S.Write] && k.recvLen == 0
    ensures Crashes(y, ms)
  {
    var m := Receives([], buf);
    NextIssued(k);
    Silently(y, k, [], buf);
    var rest := CrashesAtPrefix(StepSys(y, m), S.Step(k, L.Received([], false)), body, announced, buf);
    CrashesLater(y, m, rest);
    ms := [m] + rest;
  }

  lemma CrashesAtConnect(y: Sys, k: S.Sock, body: seq<byte>, announced: nat, buf: seq<byte>) returns (ms: seq<Move>)
    requires Working(y, k) && |buf| >= MAX_MESSAGE && HEADER_LENGTH <= |body| <= MAX_MESSAGE && announced <= MAX_MESSAGE
    requires k.pending == [S.Connect] && k.recvLen == 0
    ensures Crashes(y, ms)
  {
    var m := Receives([], buf);
    NextIssued(k);
    Silently(y, k, [], buf);
    var rest := CrashesAtWrite(StepSys(y, m), S.Step(k, L.Received([], false)), body, announced, buf);
    CrashesLater(y, m, rest);
    ms := [m] + rest;
  }

  /** IDs are distinct as long as the window is no larger than there are. */
  lemma StartsDistinct(a: Scene, s: State)
    requires a.Possible() && ChurnAt(a, s, a.window - 1)
    ensures Distinct(s.outstanding) && Punctual(s, 0, 0)
  {
    var q := s.outstanding;
    forall i, j | 0 <= i < j < |q| ensures OtherId(q[i], q[j]) {
      assert q[i] == a.Waiting(i, i) && q[j] == a.Waiting(j, j);
    }
  }

  lemma StartsWorking(a: Scene, bufs: seq<seq<byte>>)
    requires a.Possible() && a.query.proto.Tcp? && |bufs| == a.window && TcpStart(a.Tries(), bufs)
    ensures Working(BeginSys(a.window, a.timeout, a.Tries(), bufs), Started(bufs[0]))
  {
    StartsChurning(a);
    StartsDistinct(a, Begin(a.window, a.timeout, a.Tries()));
    BeginInv(a.window, a.timeout, a.Tries(), bufs);
    StartedOk(bufs[0]);
  }

  /**
   From the start, for any window and any timeout: after a first message of any length that has a
   header, the server announces another one of any length, and the read of that fails. The run crashes;
   it is punctual, and its IDs are distinct.
   */
  lemma CrashRun(window: nat, timeout: int, query: Query, bufs: seq<seq<byte>>, body: seq<byte>, announced: nat)
    returns (ms: seq<Move>)
    requires 1 <= window <= 65536 && timeout >= 0 && query.proto.Tcp? && |bufs| == window
    requires TcpStart(Scene(window, timeout, query).Tries(), bufs)
    requires HEADER_LENGTH <= |body| <= MAX_MESSAGE && announced <= MAX_MESSAGE
    ensures Crashes(BeginSys(window, timeout, Scene(window, timeout, query).Tries(), bufs), ms)
  {
    var a := Scene(window, timeout, query);
    StartsWorking(a, bufs);
    var y := BeginSys(window, timeout, a.Tries(), bufs);
    ms := CrashesAtConnect(y, Started(bufs[0]), body, announced, bufs[0]);
  }
}
