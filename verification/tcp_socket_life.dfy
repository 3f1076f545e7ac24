/**
 The life of a `TCPMessageSocket` over every interleaving of completions with
 one release by the owner, and what the read loop delivers.
 */
module TcpSocketLife {
  import opened LengthPrefix
  import opened TcpSocketSpec

  /** The object as a handler finds it, before `cancelCheck`. */
  function Resumed(k: Sock, c: Completion): Sock
    requires k.pending != []
  {
    Did(Filled(k, k.pending[0], c.bytes).(pending := k.pending[1..]), Access)
  }

  lemma ResumedInv(k: Sock, c: Completion)
    requires Inv(k) && Legal(k, Complete(c))
    ensures var k1 := Resumed(k, c);
            && k1.pending == []
            && Inv(if k.cancelled then k1 else k1.(pending := [Connect]))
  {
    var op := k.pending[0];
    assert op in k.pending;
    var k0 := Filled(k, op, c.bytes).(pending := k.pending[1..]);
    assert k0.trace == k.trace;
    DidCounts(k0, Access);
    NotFreedCount(k);
    NotFreedCount(Resumed(k, c));
  }

  lemma IssueInv(k: Sock, op: Op)
    requires Inv(k.(pending := [Connect])) && k.pending == []
    requires op.ReadData? ==> op.want <= MAX_MESSAGE && op.first == (k.recvLen == 0)
    ensures Inv(IssueOp(k, op))
  {
    var k1 := k.(pending := [op]);
    assert k1.trace == k.(pending := [Connect]).trace;
    DidCounts(k1, Issue(op));
    NotFreedCount(k1);
    NotFreedCount(Did(k1, Issue(op)));
    assert IssueOp(k, op) == Did(k1, Issue(op));
  }

  lemma FreeInv(k: Sock)
    requires Inv(k) && k.cancelled && k.pending == [] && !Freed(k)
    ensures Inv(Did(k, Free))
  {
    DidCounts(k, Free);
    NotFreedCount(k);
  }

  lemma CompleteInv(k: Sock, c: Completion)
    requires Inv(k) && Legal(k, Complete(c))
    ensures Inv(CompleteSock(k, c)) && SameDescriptor(k, CompleteSock(k, c))
  {
    var k1 := Resumed(k, c);
    ResumedInv(k, c);
    assert !Freed(k1);
    if k1.cancelled {
      if c.code.OperationAborted? {
        FreeInv(k1);
      }
    } else {
      match k.pending[0]
      case Connect => ConnectInv(k1, c);
      case Write => WriteInv(k1, c);
      case ReadLength => ReadLengthInv(k1, c);
      case ReadData(want, first) => ReadDataInv(k1, c);
    }
  }

  /** A handler is past `cancelCheck` on a live socket. */
  ghost predicate Handling(k: Sock) {
    Inv(k.(pending := [Connect])) && k.pending == [] && k.started && !k.cancelled && !k.released
  }

  lemma ConnectInv(k: Sock, c: Completion)
    requires Handling(k)
    ensures Inv(OnConnect(k, c)) && SameDescriptor(k, OnConnect(k, c))
  {
    if c.code.Success? {
      IssueInv(k, Write);
    } else {
      CallbackInv(k, Report(true, 0), c.ownerReleases);
    }
  }

  lemma WriteInv(k: Sock, c: Completion)
    requires Handling(k)
    ensures Inv(OnWrite(k, c)) && SameDescriptor(k, OnWrite(k, c))
  {
    if c.code.Success? && c.shutdownOk {
      IssueInv(k, ReadLength);
    } else {
      CallbackInv(k, Report(true, 0), c.ownerReleases);
    }
  }

  lemma ReadLengthInv(k: Sock, c: Completion)
    requires Handling(k)
    ensures Inv(OnReadLength(k, c)) && SameDescriptor(k, OnReadLength(k, c))
  {
    if c.code.Eof? {
      CallbackInv(k, Report(false, k.recvLen), c.ownerReleases);
    } else if !c.code.Success? {
      CallbackInv(k, Report(true, 0), c.ownerReleases);
    } else if |c.bytes| == 2 {
      IssueInv(k, ReadData(DecodeLength(c.bytes), k.recvLen == 0));
    } else {
      assert k.(threw := true).trace == k.(pending := [Connect]).trace;
    }
  }

  lemma ReadDataInv(k: Sock, c: Completion)
    requires Handling(k)
    requires c.code.Success? ==> |c.bytes| <= MAX_MESSAGE
    ensures Inv(OnReadData(k, c)) && SameDescriptor(k, OnReadData(k, c))
  {
    if c.code.Eof? {
      CallbackInv(k, Report(false, k.recvLen), c.ownerReleases);
    } else if !c.code.Success? {
      CallbackInv(k, Report(true, k.recvLen), c.ownerReleases);
    } else {
      var k1 := k.(recvLen := if k.recvLen == 0 then |c.bytes| else k.recvLen);
      assert k1.(pending := [Connect]).trace == k.(pending := [Connect]).trace;
      IssueInv(k1, ReadLength);
    }
  }

  lemma StepInv(k: Sock, i: Input)
    requires Inv(k) && Legal(k, i) && !ReleasesUnopened(k, i)
    ensures Inv(Step(k, i))
  {
    match i
    case Start(isOpen) =>
      var k0 := k.(started := true, open := isOpen);
      assert k0.trace == k.trace;
      var k1 := Did(k0, Access).(pending := [Connect]);
      assert k1.trace == Did(k0, Access).trace;
      DidCounts(k0, Access);
      DidCounts(k1, Issue(Connect));
      NotFreedCount(k);
      NotFreedCount(Step(k, i));
      assert Step(k, i) == Did(k1, Issue(Connect));
    case Complete(c) => CompleteInv(k, c);
    case Release => ReleaseInv(k);
  }

  /** A step frees the object under a pending operation exactly when it releases a socket whose
      descriptor never opened. */
  lemma UnsafeFreeIff(k: Sock, i: Input)
    requires Inv(k) && Legal(k, i)
    ensures Freed(Step(k, i)) && Step(k, i).pending != [] <==> ReleasesUnopened(k, i)
  {
    if ReleasesUnopened(k, i) {
      ReleaseCounts(k);
      NotFreedCount(Step(k, i));
    } else {
      StepInv(k, i);
    }
  }

  /** At some point of the run the object is freed while the library still holds an operation on it. */
  ghost predicate FreedTooEarly(k: Sock, ins: seq<Input>)
    requires LegalRun(k, ins)
    decreases |ins|
  {
    (Freed(k) && k.pending != []) || (ins != [] && FreedTooEarly(Step(k, ins[0]), ins[1..]))
  }

  ghost predicate ReleasedUnopened(k: Sock, ins: seq<Input>)
    requires LegalRun(k, ins)
    decreases |ins|
  {
    ins != [] && (ReleasesUnopened(k, ins[0]) || ReleasedUnopened(Step(k, ins[0]), ins[1..]))
  }

  /** Over any run, with no assumption on the descriptor: the object is freed under a pending operation
      if and only if its owner releases it with a connect pending on a descriptor that never opened. */
  lemma {:induction false} RunUnsafeIff(k: Sock, ins: seq<Input>)
    requires Inv(k) && LegalRun(k, ins)
    ensures FreedTooEarly(k, ins) <==> ReleasedUnopened(k, ins)
    decreases |ins|
  {
    if ins != [] {
      UnsafeFreeIff(k, ins[0]);
      if !ReleasesUnopened(k, ins[0]) {
        StepInv(k, ins[0]);
        RunUnsafeIff(Step(k, ins[0]), ins[1..]);
      }
    }
  }

  /** Under the assumption on `async_connect` a started socket is an open one. */
  lemma StaysOpen(k: Sock, i: Input)
    requires Inv(k) && Legal(k, i) && (k.started ==> k.open) && (i.Start? ==> i.isOpen)
    ensures Step(k, i).started ==> Step(k, i).open
  {
    if i.Complete? {
      CompleteInv(k, i.completion);
    }
  }

  lemma {:induction false} RunInv(k: Sock, ins: seq<Input>)
    requires Inv(k) && LegalRun(k, ins) && AlwaysOpens(ins)
    requires k.started ==> k.open
    ensures Inv(Run(k, ins))
    decreases |ins|
  {
    if ins != [] {
      assert ins[0] in ins;
      StaysOpen(k, ins[0]);
      StepInv(k, ins[0]);
      assert AlwaysOpens(ins[1..]);
      RunInv(Step(k, ins[0]), ins[1..]);
    }
  }

  /** No input at all can reach this object any more. */
  ghost predicate Unreachable(k: Sock) {
    forall i: Input :: !Legal(k, i)
  }

  /**
   Over every run of a fresh socket: at most one callback and none once the operation was
   cancelled; exactly one pending operation from `send` until completion, cancellation or a
   throw; freed at most once, as the last thing done to the object, with nothing pending and
   nothing left that could touch it.
   */
  lemma Lifecycle(recv: seq<byte>, ins: seq<Input>)
    requires |recv| >= MAX_MESSAGE
    requires LegalRun(New(recv), ins) && AlwaysOpens(ins)
    ensures var k := Run(New(recv), ins);
            && Count(k, CallOwner) == |k.reports| <= 1
            && (forall i, j | 0 <= i < j < |k.trace| && k.trace[i] in {CancelIo, Free} :: k.trace[j] != CallOwner)
            && (k.started && !k.completed && !k.cancelled && !k.threw ==> |k.pending| == 1)
            && |k.pending| <= 1
            && Count(k, Free) <= 1
            && (forall i | 0 <= i < |k.trace| && k.trace[i] == Free :: i == |k.trace| - 1)
            && (Freed(k) ==> k.pending == [] && Unreachable(k))
  {
    NewInv(recv);
    RunInv(New(recv), ins);
    var k := Run(New(recv), ins);
    if Freed(k) {
      FreeIsLast(k);
    }
    assert k.cancelled ==> CallOwner !in multiset(k.trace);
  }

  lemma FreeIsLast(k: Sock)
    requires Inv(k) && Freed(k)
    ensures forall i | 0 <= i < |k.trace| && k.trace[i] == Free :: i == |k.trace| - 1
  {
    var n := |k.trace| - 1;
    assert k.trace == k.trace[..n] + [Free];
    assert Count(k, Free) == multiset(k.trace[..n])[Free] + 1;
    assert Free !in k.trace[..n];
    assert forall i | 0 <= i < n :: k.trace[i] == k.trace[..n][i];
  }

  /** Without the assumption on `async_connect` the owner can free a socket the library still
      holds a handler for. */
  lemma UnopenedReleaseIsUnsafe(recv: seq<byte>, c: Completion)
    requires c.bytes == []
    ensures var ins := [Start(false), Release];
            LegalRun(New(recv), ins) &&
            Freed(Run(New(recv), ins)) && Legal(Run(New(recv), ins), Complete(c))
  {
    var k := Step(New(recv), Start(false));
    var ins := [Start(false), Release];
    RunTwo(New(recv), Start(false), Release);
    ReleaseCounts(k);
    NotFreedCount(Step(k, Release));
  }

  /** After a delayed cancel the object is freed if and only if its pending operation reports the
      cancellation; any other outcome leaves it allocated with nothing that could free it. */
  lemma LeakIff(k: Sock, c: Completion)
    requires Inv(k) && k.cancelled && Legal(k, Complete(c))
    ensures var k' := Step(k, Complete(c));
            && (Freed(k') <==> c.code.OperationAborted?)
            && k'.reports == k.reports
            && Unreachable(k')
  {
    CompleteInv(k, c);
    var op := k.pending[0];
    var k0 := Filled(k, op, c.bytes).(pending := k.pending[1..]);
    assert k0.trace == k.trace;
    DidCounts(k0, Access);
    NotFreedCount(k);
    NotFreedCount(Did(k0, Access));
  }

  /** A null buffer is reported with a non-zero length exactly when a data read fails, other than
      by end of file, after a first message was kept. */
  lemma NullReportIff(k: Sock, c: Completion)
    requires Inv(k) && Legal(k, Complete(c)) && !k.cancelled
    ensures var k' := Step(k, Complete(c));
            (|k'.reports| == 1 && k'.reports[0].isNull && k'.reports[0].len > 0) <==>
            (k.pending[0].ReadData? && !c.code.Success? && !c.code.Eof? && k.recvLen > 0)
  {
    CompleteInv(k, c);
    assert k.reports == [];
  }

  /**
   What the owner hears of a completion on a live socket, in all cases. A read that meets the end of the
   file hands over what was kept of the first message; a failed connect, write, shutdown or length read
   hands over nothing; a failed data read hands over no buffer, but the length kept.
   */
  lemma OwnerHears(k: Sock, c: Completion)
    requires Inv(k) && Legal(k, Complete(c)) && !k.cancelled
    ensures Step(k, Complete(c)).reports ==
            match k.pending[0]
            case Connect => if c.code.Success? then [] else [Report(true, 0)]
            case Write => if c.code.Success? && c.shutdownOk then [] else [Report(true, 0)]
            case ReadLength =>
              if c.code.Success? then [] else if c.code.Eof? then [Report(false, k.recvLen)] else [Report(true, 0)]
            case ReadData(_, _) =>
              if c.code.Success? then [] else [Report(!c.code.Eof?, k.recvLen)]
  {
    assert k.reports == [];
  }

  /** What it does next when the owner hears nothing: connect, write and half-close, then lengths and
      messages in turn, the first non-empty message into the owner's buffer. */
  lemma NextOperation(k: Sock, c: Completion)
    requires Inv(k) && Legal(k, Complete(c)) && !k.cancelled && Step(k, Complete(c)).reports == []
    ensures var k' := Step(k, Complete(c));
            && k'.pending == (match k.pending[0]
                              case Connect => [Write]
                              case Write => [ReadLength]
                              case ReadLength =>
                                if |c.bytes| != 2 then []
                                else [ReadData(c.bytes[0] as int * 256 + c.bytes[1] as int, k.recvLen == 0)]
                              case ReadData(_, _) => [ReadLength])
            && (k'.threw <==> k.pending[0].ReadLength? && |c.bytes| != 2)
            && k'.recvLen == (if k.pending[0].ReadData? && k.recvLen == 0 then |c.bytes| else k.recvLen)
  {
    OwnerHears(k, c);
    if |c.bytes| == 2 {
      assert c.bytes[0] as int * 256 + c.bytes[1] as int < 65536;
    }
  }

  // ---- What the read loop delivers ----

  function Received(bytes: seq<byte>, ownerReleases: bool): Input {
    Complete(Completion(Success, bytes, true, ownerReleases))
  }

  function EndOfFile(ownerReleases: bool): Input {
    Complete(Completion(Eof, [], true, ownerReleases))
  }

  /** Where the server closes: between messages, or after the prefix of one it never sends. */
  datatype Ending = AtBoundary | AfterPrefix(announced: nat)

  /** Completions of the read loop when every receive is filled. */
  function Arrivals(msgs: seq<seq<byte>>, ending: Ending, rel: bool): seq<Input> {
    if msgs == [] then
      match ending
      case AtBoundary => [EndOfFile(rel)]
      case AfterPrefix(n) => [Received(Prefix(n), rel), EndOfFile(rel)]
    else
      [Received(Prefix(|msgs[0]|), rel), Received(msgs[0], rel)] + Arrivals(msgs[1..], ending, rel)
  }

  /** The message the comment at the receive promises to keep. */
  function FirstNonEmpty(msgs: seq<seq<byte>>): seq<byte> {
    if msgs == [] then [] else if msgs[0] != [] then msgs[0] else FirstNonEmpty(msgs[1..])
  }

  /** The socket waits for the next length prefix. */
  ghost predicate Listening(k: Sock) {
    Inv(k) && k.started && k.open && !k.released && k.pending == [ReadLength]
  }

  function Kept(k: Sock): seq<byte>
    requires k.recvLen <= |k.recv|
  {
    k.recv[..k.recvLen]
  }

  lemma RunOne(k: Sock, i: Input)
    requires Legal(k, i)
    ensures LegalRun(k, [i]) && Run(k, [i]) == Step(k, i)
  {
    assert [i][1..] == [];
  }

  lemma RunTwo(k: Sock, i: Input, j: Input)
    requires Legal(k, i) && Legal(Step(k, i), j)
    ensures LegalRun(k, [i, j]) && Run(k, [i, j]) == Step(Step(k, i), j)
  {
    RunOne(Step(k, i), j);
    assert [i, j][1..] == [j];
  }

  lemma ReceivePrefix(k: Sock, n: nat, rel: bool)
    requires Listening(k) && n <= MAX_MESSAGE
    ensures var i := Received(Prefix(n), rel);
            && Legal(k, i)
            && var k' := Step(k, i);
               && Inv(k') && k'.started && k'.open && !k'.released
               && k'.pending == [ReadData(n, k.recvLen == 0)]
               && k'.recv == k.recv && k'.recvLen == k.recvLen
  {
    PrefixRoundTrip(n);
    StepInv(k, Received(Prefix(n), rel));
  }

  lemma ReceiveBody(k: Sock, m: seq<byte>, rel: bool)
    requires Inv(k) && k.started && k.open && !k.released
    requires k.pending == [ReadData(|m|, k.recvLen == 0)] && |m| <= MAX_MESSAGE
    ensures var i := Received(m, rel);
            && Legal(k, i)
            && Listening(Step(k, i)) && Kept(Step(k, i)) == if k.recvLen > 0 then Kept(k) else m
  {
    StepInv(k, Received(m, rel));
  }

  lemma ReceiveMessage(k: Sock, m: seq<byte>, rel: bool)
    requires Listening(k) && |m| <= MAX_MESSAGE
    ensures LegalRun(k, [Received(Prefix(|m|), rel), Received(m, rel)])
    ensures var k' := Run(k, [Received(Prefix(|m|), rel), Received(m, rel)]);
            Listening(k') && Kept(k') == if k.recvLen > 0 then Kept(k) else m
  {
    var i1, i2 := Received(Prefix(|m|), rel), Received(m, rel);
    ReceivePrefix(k, |m|, rel);
    ReceiveBody(Step(k, i1), m, rel);
    RunTwo(k, i1, i2);
  }

  lemma ServerCloses(k: Sock, ending: Ending, rel: bool)
    requires Listening(k)
    ensures LegalRun(k, Arrivals([], ending, rel))
    ensures var k' := Run(k, Arrivals([], ending, rel));
            k'.completed && k'.reports == [Report(false, k.recvLen)] && k'.recv == k.recv && k'.recvLen == k.recvLen
  {
    var eof := EndOfFile(rel);
    match ending
    case AtBoundary =>
      RunOne(k, eof);
    case AfterPrefix(n) =>
      var i1 := Received(Prefix(n), rel);
      var k1 := Step(k, i1);
      assert k1.pending == [ReadData(DecodeLength(Prefix(n)), k.recvLen == 0)];
      RunTwo(k, i1, eof);
  }

  lemma {:induction false} RunConcat(k: Sock, a: seq<Input>, b: seq<Input>)
    requires LegalRun(k, a) && LegalRun(Run(k, a), b)
    ensures LegalRun(k, a + b) && Run(k, a + b) == Run(Run(k, a), b)
    decreases |a|
  {
    if a == [] {
      assert a + b == b;
    } else {
      assert (a + b)[1..] == a[1..] + b && (a + b)[0] == a[0];
      RunConcat(Step(k, a[0]), a[1..], b);
    }
  }

  /** From the first length prefix on: one callback, carrying what was already kept or else the
      first non-empty message of the rest. */
  lemma {:induction false} ReadLoop(k: Sock, msgs: seq<seq<byte>>, ending: Ending, rel: bool)
    requires Listening(k) && AllFit(msgs)
    ensures LegalRun(k, Arrivals(msgs, ending, rel))
    ensures var k' := Run(k, Arrivals(msgs, ending, rel));
            && k'.completed
            && k'.recvLen <= |k'.recv|
            && k'.reports == [Report(false, k'.recvLen)]
            && Kept(k') == if k.recvLen > 0 then Kept(k) else FirstNonEmpty(msgs)
    decreases |msgs|
  {
    if msgs == [] {
      ServerCloses(k, ending, rel);
    } else {
      var head := [Received(Prefix(|msgs[0]|), rel), Received(msgs[0], rel)];
      ReceiveMessage(k, msgs[0], rel);
      ReadLoop(Run(k, head), msgs[1..], ending, rel);
      RunConcat(k, head, Arrivals(msgs[1..], ending, rel));
    }
  }

  /** The completions of a whole exchange in which connect, write and shutdown succeed. */
  function Exchange(msgs: seq<seq<byte>>, ending: Ending, rel: bool): seq<Input> {
    [Start(true), Received([], rel), Received([], rel)] + Arrivals(msgs, ending, rel)
  }

  /**
   Whatever messages of at most 65535 bytes the server frames before closing, the owner hears
   exactly once, and its buffer then holds the first non-empty one (length 0 if there is none).
   */
  lemma FirstMessageDelivered(recv: seq<byte>, msgs: seq<seq<byte>>, ending: Ending, rel: bool)
    requires |recv| >= MAX_MESSAGE && AllFit(msgs)
    ensures LegalRun(New(recv), Exchange(msgs, ending, rel))
    ensures var k := Run(New(recv), Exchange(msgs, ending, rel));
            && k.reports == [Report(false, |FirstNonEmpty(msgs)|)]
            && |FirstNonEmpty(msgs)| <= |k.recv|
            && k.recv[..|FirstNonEmpty(msgs)|] == FirstNonEmpty(msgs)
            && (rel ==> Freed(k) && Unreachable(k))
  {
    var k0 := New(recv);
    NewInv(recv);
    var ok := Received([], rel);
    var head := [Start(true), ok, ok];
    StepInv(k0, Start(true));
    var k1 := Step(k0, Start(true));
    assert k1.pending == [Connect];
    StepInv(k1, ok);
    var k2 := Step(k1, ok);
    assert k2.pending == [Write];
    StepInv(k2, ok);
    var k3 := Step(k2, ok);
    assert k3.pending == [ReadLength];
    RunTwo(k1, ok, ok);
    assert head[1..] == [ok, ok];
    ReadLoop(k3, msgs, ending, rel);
    RunConcat(k0, head, Arrivals(msgs, ending, rel));
    if rel {
      RunInv(k0, Exchange(msgs, ending, rel)) by { ExchangeOpens(msgs, ending, rel); }
      ReleasedAtEnd(k3, msgs, ending);
    }
  }

  // ---- Two runs that go wrong ----

  /** A socket cancelled while it connects, just as the connection succeeds, stays allocated for ever. */
  lemma CancelledSocketLeaks(recv: seq<byte>, shutdownOk: bool, rel: bool)
    requires |recv| >= MAX_MESSAGE
    ensures var ins := [Start(true), Release, Complete(Completion(Success, [], shutdownOk, rel))];
            && LegalRun(New(recv), ins) && AlwaysOpens(ins)
            && !Freed(Run(New(recv), ins)) && Unreachable(Run(New(recv), ins))
  {
    var c := Completion(Success, [], shutdownOk, rel);
    var ins := [Start(true), Release, Complete(c)];
    NewInv(recv);
    StepInv(New(recv), Start(true));
    var k1 := Step(New(recv), Start(true));
    assert k1.pending == [Connect];
    StepInv(k1, Release);
    var k2 := Step(k1, Release);
    LeakIff(k2, c);
    RunTwo(k1, Release, Complete(c));
    assert ins[1..] == [Release, Complete(c)];
  }

  /** The completions of an exchange in which a read fails after the first message and the prefix of a
      second one. */
  function BrokenExchange(m: seq<byte>, announced: nat, rel: bool): seq<Input> {
    var ok := Received([], rel);
    [Start(true), ok, ok] + [Received(Prefix(|m|), rel), Received(m, rel)]
    + [Received(Prefix(announced), rel), Complete(Completion(OtherError, [], true, rel))]
  }

  lemma FailsLate(k: Sock, m: seq<byte>, announced: nat, rel: bool)
    requires Listening(k) && k.recvLen == 0 && 0 < |m| <= MAX_MESSAGE && announced <= MAX_MESSAGE
    ensures var msg := [Received(Prefix(|m|), rel), Received(m, rel)];
            var last := [Received(Prefix(announced), rel), Complete(Completion(OtherError, [], true, rel))];
            && LegalRun(k, msg) && LegalRun(Run(k, msg), last)
            && Run(Run(k, msg), last).reports == [Report(true, |m|)]
  {
    var i1, i2 := Received(Prefix(announced), rel), Complete(Completion(OtherError, [], true, rel));
    ReceiveMessage(k, m, rel);
    var k2 := Run(k, [Received(Prefix(|m|), rel), Received(m, rel)]);
    assert |Kept(k2)| == k2.recvLen == |m|;
    ReceivePrefix(k2, announced, rel);
    var k3 := Step(k2, i1);
    assert k3.reports == [] by { assert Inv(k3) && !k3.completed; }
    RunTwo(k2, i1, i2);
  }

  /** It ends in the report of a null buffer with the length of the first message. */
  lemma NullReported(recv: seq<byte>, m: seq<byte>, announced: nat, rel: bool)
    requires |recv| >= MAX_MESSAGE && 0 < |m| <= MAX_MESSAGE && announced <= MAX_MESSAGE
    ensures var ins := BrokenExchange(m, announced, rel);
            LegalRun(New(recv), ins) && Run(New(recv), ins).reports == [Report(true, |m|)]
  {
    var k0, ok := New(recv), Received([], rel);
    var head, msg := [Start(true), ok, ok], [Received(Prefix(|m|), rel), Received(m, rel)];
    var last := [Received(Prefix(announced), rel), Complete(Completion(OtherError, [], true, rel))];
    ConnectAndWrite(recv, rel);
    var k1 := Run(k0, head);
    FailsLate(k1, m, announced, rel);
    RunConcat(k1, msg, last);
    RunConcat(k0, head, msg + last);
    assert head + (msg + last) == BrokenExchange(m, announced, rel);
  }

  lemma ConnectAndWrite(recv: seq<byte>, rel: bool)
    requires |recv| >= MAX_MESSAGE
    ensures var ins := [Start(true), Received([], rel), Received([], rel)];
            LegalRun(New(recv), ins) && Listening(Run(New(recv), ins)) && Run(New(recv), ins).recvLen == 0
  {
    var k0, ok := New(recv), Received([], rel);
    var ins := [Start(true), ok, ok];
    NewInv(recv);
    StepInv(k0, Start(true));
    var k1 := Step(k0, Start(true));
    assert k1.pending == [Connect];
    StepInv(k1, ok);
    var k2 := Step(k1, ok);
    assert k2.pending == [Write];
    StepInv(k2, ok);
    RunTwo(k1, ok, ok);
    assert ins[1..] == [ok, ok];
  }

  lemma {:induction false} ArrivalsAreCompletions(msgs: seq<seq<byte>>, ending: Ending, rel: bool)
    ensures forall i | i in Arrivals(msgs, ending, rel) :: i.Complete?
  {
    if msgs != [] {
      ArrivalsAreCompletions(msgs[1..], ending, rel);
    }
  }

  lemma ExchangeOpens(msgs: seq<seq<byte>>, ending: Ending, rel: bool)
    ensures AlwaysOpens(Exchange(msgs, ending, rel))
  {
    ArrivalsAreCompletions(msgs, ending, rel);
  }

  lemma {:induction false} ReleasedAtEnd(k: Sock, msgs: seq<seq<byte>>, ending: Ending)
    requires Listening(k) && AllFit(msgs)
    requires LegalRun(k, Arrivals(msgs, ending, true))
    ensures Run(k, Arrivals(msgs, ending, true)).released
    decreases |msgs|
  {
    var ins := Arrivals(msgs, ending, true);
    if msgs != [] {
      var head := [Received(Prefix(|msgs[0]|), true), Received(msgs[0], true)];
      ReceiveMessage(k, msgs[0], true);
      ReadLoop(Run(k, head), msgs[1..], ending, true);
      RunConcat(k, head, Arrivals(msgs[1..], ending, true));
      ReleasedAtEnd(Run(k, head), msgs[1..], ending);
    } else {
      var eof := EndOfFile(true);
      if ending.AtBoundary? {
        RunOne(k, eof);
      } else {
        var i1 := Received(Prefix(ending.announced), true);
        RunTwo(k, i1, eof);
      }
    }
  }
}
