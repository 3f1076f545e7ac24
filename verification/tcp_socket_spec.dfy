/**
 `TCPMessageSocket` as a state machine on values: one function per entry point
 (`send`, `cancel`, and the four completion handlers), with a trace of what
 each of them does to the object, in order.

 The asynchronous library is reduced to its pending operations: `pending` holds
 the operations issued and not yet completed, and a completion consumes one.
 */
module TcpSocketSpec {
  import opened LengthPrefix

  /** Operations handed to the asynchronous library. `first` tells which buffer a data read fills. */
  datatype Op = Connect | Write | ReadLength | ReadData(want: nat, first: bool)

  datatype Code = Success | OperationAborted | Eof | OtherError

  /** What the owner's callback receives: a null or non-null buffer, and a length. */
  datatype Report = Report(isNull: bool, len: nat)

  /** The steps of a handler that matter for the life of the object. */
  datatype Act = Access | Issue(op: Op) | CallOwner | CancelIo | Free

  datatype Sock = Sock(
    started: bool,          // send() has been called
    open: bool,             // asio_sock_.is_open()
    cancelled: bool,
    completed: bool,
    threw: bool,            // a handler threw out of the event loop
    released: bool,         // the owner has destroyed its handle
    recvLen: nat,           // recvdata_len_
    recv: seq<byte>,        // the owner's receive buffer
    pending: seq<Op>,
    reports: seq<Report>,
    trace: seq<Act>)

  /** A completion of the oldest pending operation. `shutdownOk` is the outcome of the shutdown
      that follows a write; `ownerReleases` says whether the owner destroys its handle from
      within the callback, should there be one. */
  datatype Completion = Completion(code: Code, bytes: seq<byte>, shutdownOk: bool, ownerReleases: bool)

  datatype Input =
    | Start(isOpen: bool)
    | Complete(completion: Completion)
    | Release

  function New(recv: seq<byte>): Sock {
    Sock(false, false, false, false, false, false, 0, recv, [], [], [])
  }

  predicate Freed(k: Sock) {
    Free in k.trace
  }

  function Did(k: Sock, a: Act): Sock {
    k.(trace := k.trace + [a])
  }

  function IssueOp(k: Sock, op: Op): Sock {
    Did(k.(pending := k.pending + [op]), Issue(op))
  }

  /** `send`: issues the connect. `isOpen` is whether that opened the descriptor. */
  function StartSock(k: Sock, isOpen: bool): Sock {
    IssueOp(Did(k.(started := true, open := isOpen), Access), Connect)
  }

  /** `cancel`, called by the destructor of the owner's handle. */
  function ReleaseSock(k: Sock): Sock {
    var k1 := Did(k.(released := true), Access);
    if k1.open && !k1.completed then Did(k1.(cancelled := true), CancelIo) else Did(k1, Free)
  }

  /** `sendCallback`, including what the owner does from within it. */
  function SendCallback(k: Sock, report: Report, ownerReleases: bool): Sock {
    var k1 := Did(Did(k.(completed := true, reports := k.reports + [report]), Access), CallOwner);
    if ownerReleases then ReleaseSock(k1) else k1
  }

  /** The library's write into the buffer that a data read was given. */
  function Fill(buffer: seq<byte>, bytes: seq<byte>): (r: seq<byte>)
    requires |bytes| <= |buffer|
    ensures |r| == |buffer|
  {
    bytes + buffer[|bytes|..]
  }

  function Filled(k: Sock, op: Op, bytes: seq<byte>): Sock {
    if op.ReadData? && op.first && |bytes| <= |k.recv| then k.(recv := Fill(k.recv, bytes)) else k
  }

  function OnConnect(k: Sock, c: Completion): Sock {
    if !c.code.Success? then SendCallback(k, Report(true, 0), c.ownerReleases) else IssueOp(k, Write)
  }

  function OnWrite(k: Sock, c: Completion): Sock {
    if !c.code.Success? || !c.shutdownOk then SendCallback(k, Report(true, 0), c.ownerReleases)
    else IssueOp(k, ReadLength)
  }

  function OnReadLength(k: Sock, c: Completion): Sock {
    if c.code.Eof? then SendCallback(k, Report(false, k.recvLen), c.ownerReleases)
    else if !c.code.Success? then SendCallback(k, Report(true, 0), c.ownerReleases)
    else if |c.bytes| != 2 then k.(threw := true)
    else IssueOp(k, ReadData(DecodeLength(c.bytes), k.recvLen == 0))
  }

  function OnReadData(k: Sock, c: Completion): Sock {
    if c.code.Eof? then SendCallback(k, Report(false, k.recvLen), c.ownerReleases)
    else if !c.code.Success? then SendCallback(k, Report(true, k.recvLen), c.ownerReleases)
    else IssueOp(k.(recvLen := if k.recvLen == 0 then |c.bytes| else k.recvLen), ReadLength)
  }

  /** One completion: the buffer is filled, the pending operation is gone, `cancelCheck` runs, then
      the handler of that operation. */
  function CompleteSock(k: Sock, c: Completion): Sock
    requires k.pending != []
  {
    var op := k.pending[0];
    var k1 := Did(Filled(k, op, c.bytes).(pending := k.pending[1..]), Access);
    if k1.cancelled then
      if c.code.OperationAborted? then Did(k1, Free) else k1
    else match op
      case Connect => OnConnect(k1, c)
      case Write => OnWrite(k1, c)
      case ReadLength => OnReadLength(k1, c)
      case ReadData(_, _) => OnReadData(k1, c)
  }

  /** How many bytes the library may store for an operation. */
  function Capacity(op: Op): nat {
    match op
    case Connect => 0
    case Write => 0
    case ReadLength => 2
    case ReadData(want, _) => want
  }

  /** What the environment may do next: `send` at most once and before release, release at most
      once, and a completion whenever an operation is pending, freed object or not. */
  predicate Legal(k: Sock, i: Input) {
    match i
    case Start(_) => !k.started && !k.released
    case Complete(c) => k.pending != [] && |c.bytes| <= Capacity(k.pending[0]) && (!c.code.Success? ==> c.bytes == [])
    case Release => !k.released
  }

  function Step(k: Sock, i: Input): Sock
    requires Legal(k, i)
  {
    match i
    case Start(isOpen) => StartSock(k, isOpen)
    case Complete(c) => CompleteSock(k, c)
    case Release => ReleaseSock(k)
  }

  predicate LegalRun(k: Sock, ins: seq<Input>)
    decreases |ins|
  {
    ins == [] || (Legal(k, ins[0]) && LegalRun(Step(k, ins[0]), ins[1..]))
  }

  function Run(k: Sock, ins: seq<Input>): Sock
    requires LegalRun(k, ins)
    decreases |ins|
  {
    if ins == [] then k else Run(Step(k, ins[0]), ins[1..])
  }

  /** The assumption on `async_connect`: it opens the descriptor. */
  ghost predicate AlwaysOpens(ins: seq<Input>) {
    forall i | i in ins && i.Start? :: i.isOpen
  }

  function Count(k: Sock, a: Act): nat {
    multiset(k.trace)[a]
  }

  /** Release of a handle whose connect is still pending on a descriptor that never opened. */
  predicate ReleasesUnopened(k: Sock, i: Input) {
    i.Release? && k.pending != [] && !k.open
  }

  /** What every state reached without `ReleasesUnopened` satisfies. */
  ghost predicate Inv(k: Sock) {
    && |k.recv| >= MAX_MESSAGE
    && k.recvLen <= MAX_MESSAGE
    && (k.open ==> k.started)
    && (!k.started ==> k.pending == [] && !k.completed && !k.cancelled && !k.threw)
    && |k.reports| == Count(k, CallOwner) == (if k.completed then 1 else 0)
    && Count(k, Free) == (if Freed(k) then 1 else 0)
    && (Freed(k) ==> k.trace[|k.trace| - 1] == Free)
    && |k.pending| <= 1
    && (k.pending != [] ==> !k.completed && !k.threw && !Freed(k))
    && (k.started && !k.completed && !k.threw && !k.cancelled ==> k.pending != [])
    && (k.cancelled ==> k.released && !k.completed)
    && (k.cancelled <==> CancelIo in k.trace)
    && (k.released <==> k.cancelled || Freed(k))
    && (forall op | op in k.pending && op.ReadData? :: op.want <= MAX_MESSAGE && op.first == (k.recvLen == 0))
  }

  lemma NewInv(recv: seq<byte>)
    requires |recv| >= MAX_MESSAGE
    ensures Inv(New(recv))
  {
    var k := New(recv);
    assert Count(k, CallOwner) == 0;
  }

  lemma DidCounts(k: Sock, a: Act)
    ensures forall b :: Count(Did(k, a), b) == Count(k, b) + (if a == b then 1 else 0)
    ensures Freed(Did(k, a)) == (Freed(k) || a == Free)
  {
  }

  lemma NotFreedCount(k: Sock)
    ensures Freed(k) <==> Count(k, Free) > 0
  {
  }

  lemma ReleaseCounts(k: Sock)
    ensures var k' := ReleaseSock(k);
            && (forall b :: Count(k', b) == Count(k, b)
                 + (if b == Access then 1 else 0)
                 + (if b == (if k.open && !k.completed then CancelIo else Free) then 1 else 0))
            && k'.trace[|k'.trace| - 1] == (if k.open && !k.completed then CancelIo else Free)
  {
    var k1 := Did(k.(released := true), Access);
    DidCounts(k.(released := true), Access);
    DidCounts(k1, CancelIo);
    DidCounts(k1, Free);
    assert k1.(cancelled := true).trace == k1.trace;
  }

  lemma ReleaseInv(k: Sock)
    requires Inv(k) && !k.released
    requires k.pending != [] ==> k.open
    ensures Inv(ReleaseSock(k))
  {
    ReleaseCounts(k);
    NotFreedCount(k);
    NotFreedCount(ReleaseSock(k));
  }

  ghost predicate SameDescriptor(k: Sock, k': Sock) {
    k'.started == k.started && k'.open == k.open
  }

  lemma CallbackInv(k: Sock, report: Report, ownerReleases: bool)
    requires Inv(k.(pending := [Connect])) && k.pending == []
    requires k.started && !k.completed && !k.threw && !k.cancelled && !k.released
    ensures var k' := SendCallback(k, report, ownerReleases);
            Inv(k') && SameDescriptor(k, k')
  {
    var base := k.(pending := [Connect]);
    assert base.trace == k.trace;
    var k0 := k.(completed := true, reports := k.reports + [report]);
    var k1 := Did(Did(k0, Access), CallOwner);
    assert k0.trace == base.trace;
    assert forall b :: Count(k0, b) == Count(base, b);
    DidCounts(k0, Access);
    DidCounts(Did(k0, Access), CallOwner);
    NotFreedCount(base);
    NotFreedCount(k1);
    assert Inv(k1);
    if ownerReleases {
      ReleaseInv(k1);
    }
  }
}
