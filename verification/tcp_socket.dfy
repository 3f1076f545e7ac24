/**
 The two message sockets as objects whose handlers update their fields, each
 entry point proved to be a step of the machine in `TcpSocketSpec`.

 Ghost fields stand for what lives outside the object: the operations the
 library holds, what the owner was told, and the trace of the object's life.
 */
module TcpSocket {
  import opened Wrappers
  import opened LengthPrefix
  import opened RepositorySpec
  import opened TcpSocketSpec

  class TcpMessageSocket {
    const recvbuf: array<byte>
    const msglenPlaceholder: array<byte>
    var auxRecvbuf: array?<byte>
    var recvdataLen: nat
    var sendData: seq<byte>
    var isOpen: bool
    var cancelled: bool
    var completed: bool

    ghost var started: bool
    ghost var threw: bool
    ghost var released: bool
    ghost var pending: seq<Op>
    ghost var reports: seq<Report>
    ghost var trace: seq<Act>
    ghost var written: seq<byte>  // what was handed to the library to write

    ghost predicate Valid()
      reads this, recvbuf, msglenPlaceholder, auxRecvbuf
    {
      && recvbuf.Length >= MAX_MESSAGE
      && msglenPlaceholder.Length == 2
      && recvbuf != msglenPlaceholder
      && (auxRecvbuf != null ==>
            auxRecvbuf.Length == MAX_MESSAGE && auxRecvbuf != recvbuf && auxRecvbuf != msglenPlaceholder)
      && (pending == [Connect] ==> msglenPlaceholder[..] == Prefix(|sendData|))
      && (forall op | op in pending && op.ReadData? ::
            op.want <= MAX_MESSAGE && op.first == (recvdataLen == 0) && (!op.first ==> auxRecvbuf != null))
    }

    ghost function View(): Sock
      reads this, recvbuf
    {
      Sock(started, isOpen, cancelled, completed, threw, released, recvdataLen, recvbuf[..], pending, reports, trace)
    }

    constructor (buffer: array<byte>)
      requires buffer.Length >= MAX_MESSAGE
      ensures Valid() && View() == New(buffer[..])
      ensures recvbuf == buffer && fresh(msglenPlaceholder) && auxRecvbuf == null
    {
      recvbuf := buffer;
      msglenPlaceholder := new byte[2];
      auxRecvbuf := null;
      recvdataLen := 0;
      sendData := [];
      isOpen, cancelled, completed := false, false, false;
      started, threw, released := false, false, false;
      pending, reports, trace, written := [], [], [], [];
    }

    /** Stores the length prefix and issues the connect. `opens` is whether that opens the descriptor. */
    method Send(data: seq<byte>, opens: bool)
      requires Valid() && Legal(View(), Start(opens))
      modifies this, msglenPlaceholder
      ensures Valid() && View() == Step(old(View()), Start(opens))
      ensures sendData == data && msglenPlaceholder[..] == Prefix(|data|)
    {
      msglenPlaceholder[0] := (|data| / 256) % 256;
      msglenPlaceholder[1] := |data| % 256;
      sendData := data;
      isOpen := opens;
      started := true;
      pending := pending + [Connect];
      trace := trace + [Access] + [Issue(Connect)];
    }

    /** The owner's handle is destroyed. Its assertion is that no earlier cancel is under way. */
    method Cancel()
      requires isOpen && !completed ==> !cancelled
      modifies this
      ensures View() == ReleaseSock(old(View()))
      ensures unchanged(`pending)
      ensures unchanged(`auxRecvbuf) && unchanged(`sendData) && unchanged(`written)
    {
      released := true;
      trace := trace + [Access];
      if isOpen && !completed {
        cancelled := true;
        trace := trace + [CancelIo];
      } else {
        trace := trace + [Free];
      }
    }

    method SendCallback(ghost report: Report, ownerReleases: bool)
      modifies this
      ensures View() == TcpSocketSpec.SendCallback(old(View()), report, ownerReleases)
      ensures unchanged(`pending)
      ensures unchanged(`auxRecvbuf) && unchanged(`sendData) && unchanged(`written)
    {
      completed := true;
      reports := reports + [report];
      trace := trace + [Access] + [CallOwner];
      if ownerReleases {
        Cancel();
      }
    }

    ghost method IssueOp(op: Op)
      modifies this`pending, this`trace
      ensures View() == TcpSocketSpec.IssueOp(old(View()), op)
      ensures pending == old(pending) + [op]
    {
      pending := pending + [op];
      trace := trace + [Issue(op)];
    }

    /** Takes the completed operation off the library; true when the handler has to stop here. */
    method CancelCheck(code: Code) returns (stop: bool)
      requires pending != []
      modifies this
      ensures var k := Did(old(View()).(pending := old(pending)[1..]), Access);
              && stop == k.cancelled
              && View() == if k.cancelled && code.OperationAborted? then Did(k, Free) else k
      ensures pending == old(pending)[1..]
      ensures unchanged(`auxRecvbuf) && unchanged(`sendData) && unchanged(`written)
    {
      pending := pending[1..];
      trace := trace + [Access];
      stop := cancelled;
      if cancelled && code.OperationAborted? {
        trace := trace + [Free];
      }
    }

    method HandleConnect(code: Code, ownerReleases: bool)
      requires Valid() && pending == [Connect]
      modifies this
      ensures Valid()
      ensures View() == CompleteSock(old(View()), Completion(code, [], true, ownerReleases))
      ensures written == if pending == [Write] then Prefix(|sendData|) + sendData else old(written)
    {
      var stop := CancelCheck(code);
      if stop {
        return;
      }
      if !code.Success? {
        SendCallback(Report(true, 0), ownerReleases);
        return;
      }
      IssueOp(Write);
      written := msglenPlaceholder[..] + sendData;
    }

    method HandleWrite(code: Code, shutdownOk: bool, ownerReleases: bool)
      requires Valid() && pending == [Write]
      modifies this
      ensures Valid()
      ensures View() == CompleteSock(old(View()), Completion(code, [], shutdownOk, ownerReleases))
    {
      var stop := CancelCheck(code);
      if stop {
        return;
      }
      if !code.Success? || !shutdownOk {
        SendCallback(Report(true, 0), ownerReleases);
        return;
      }
      IssueOp(ReadLength);
    }

    /** The library has stored `bytes` in the length placeholder. */
    method HandleReadLength(code: Code, bytes: seq<byte>, ownerReleases: bool)
      requires Valid() && pending == [ReadLength]
      requires Legal(View(), Complete(Completion(code, bytes, true, ownerReleases)))
      modifies this, msglenPlaceholder
      ensures Valid()
      ensures auxRecvbuf == old(auxRecvbuf) || fresh(auxRecvbuf)
      ensures View() == CompleteSock(old(View()), Completion(code, bytes, true, ownerReleases))
    {
      Store(msglenPlaceholder, bytes);
      var stop := CancelCheck(code);
      if !stop {
        assert |bytes| == 2 ==> msglenPlaceholder[..] == bytes;
        LengthRead(code, |bytes|, bytes, ownerReleases);
      }
    }

    /** `handleReadLength` past its `cancelCheck`. */
    method LengthRead(code: Code, length: nat, ghost bytes: seq<byte>, ownerReleases: bool)
      requires Valid() && pending == [] && length == |bytes|
      requires |bytes| == 2 ==> msglenPlaceholder[..] == bytes
      modifies this
      ensures Valid()
      ensures auxRecvbuf == old(auxRecvbuf) || fresh(auxRecvbuf)
      ensures View() == OnReadLength(old(View()), Completion(code, bytes, true, ownerReleases))
    {
      if code.Eof? {
        SendCallback(Report(false, recvdataLen), ownerReleases);
        return;
      }
      if !code.Success? {
        SendCallback(Report(true, 0), ownerReleases);
        return;
      }
      if length != 2 {
        threw := true;
        return;
      }
      var msglen := (msglenPlaceholder[0] as int * 256 + msglenPlaceholder[1]) % 65536;
      if recvdataLen > 0 {
        auxRecvbuf := new byte[MAX_MESSAGE];
      }
      IssueOp(ReadData(msglen, recvdataLen == 0));
      assert pending[0].ReadData?;
    }

    /** The library stores `bytes` in the buffer that the pending data read was given. */
    method Deliver(bytes: seq<byte>)
      requires Valid() && |pending| == 1 && pending[0].ReadData? && |bytes| <= pending[0].want
      modifies recvbuf, auxRecvbuf
      ensures Valid() && View() == Filled(old(View()), pending[0], bytes)
    {
      assert pending[0] in pending;
      if recvdataLen == 0 {
        Store(recvbuf, bytes);
      } else {
        Store(auxRecvbuf, bytes);
      }
    }

    /** A data read is over, with `bytes` stored in the buffer it was given. */
    method HandleReadData(code: Code, bytes: seq<byte>, ownerReleases: bool)
      requires Valid() && |pending| == 1 && pending[0].ReadData?
      requires Legal(View(), Complete(Completion(code, bytes, true, ownerReleases)))
      modifies this, recvbuf, auxRecvbuf
      ensures Valid() && auxRecvbuf == old(auxRecvbuf)
      ensures View() == CompleteSock(old(View()), Completion(code, bytes, true, ownerReleases))
    {
      Deliver(bytes);
      var stop := CancelCheck(code);
      if !stop {
        DataRead(code, |bytes|, bytes, ownerReleases);
      }
    }

    /** `handleReadData` past its `cancelCheck`. */
    method DataRead(code: Code, length: nat, ghost bytes: seq<byte>, ownerReleases: bool)
      requires Valid() && pending == [] && length == |bytes|
      modifies this
      ensures Valid() && auxRecvbuf == old(auxRecvbuf)
      ensures View() == OnReadData(old(View()), Completion(code, bytes, true, ownerReleases))
    {
      if code.Eof? {
        SendCallback(Report(false, recvdataLen), ownerReleases);
        return;
      }
      if !code.Success? {
        SendCallback(Report(true, recvdataLen), ownerReleases);
        return;
      }
      if recvdataLen == 0 {
        recvdataLen := length;
      }
      IssueOp(ReadLength);
      assert pending[0] == ReadLength;
    }
  }

  /** The library's copy of received bytes to the front of a buffer. */
  method Store(buffer: array<byte>, bytes: seq<byte>)
    requires |bytes| <= buffer.Length
    modifies buffer
    ensures buffer[..] == bytes + old(buffer[..])[|bytes|..]
  {
    for i := 0 to |bytes|
      invariant buffer[..i] == bytes[..i]
      invariant buffer[i..] == old(buffer[i..])
    {
      buffer[i] := bytes[i];
    }
  }

  /** The UDP socket: one receive is kept pending from the first send on, and none before. */
  class UdpMessageSocket {
    var receiving: bool
    ghost var receives: nat   // receives the library holds
    ghost var sends: nat
    ghost var callbacks: nat

    ghost predicate Valid()
      reads this
    {
      && receives == (if receiving then 1 else 0)
      && receiving == (sends > 0)
      && (!receiving ==> callbacks == 0)
    }

    constructor ()
      ensures Valid() && sends == 0 && callbacks == 0
    {
      receiving := false;
      receives, sends, callbacks := 0, 0, 0;
    }

    method Send(sendOk: bool) returns (ok: bool)
      requires Valid()
      modifies this
      ensures Valid() && ok == sendOk
      ensures sends == old(sends) + (if ok then 1 else 0) && callbacks == old(callbacks)
      ensures receiving == (old(receiving) || ok)
    {
      if !sendOk {
        return false;
      }
      sends := sends + 1;
      if !receiving {
        receives := receives + 1;
        receiving := true;
      }
      return true;
    }

    /** Runs only when the library holds a receive, hence never on a socket that sent nothing. */
    method HandleRead(readOk: bool) returns (ok: bool)
      requires Valid() && receives > 0
      modifies this
      ensures ok == readOk && sends == old(sends) > 0
      ensures ok ==> Valid() && callbacks == old(callbacks) + 1
    {
      receives := receives - 1;
      if !readOk {
        return false;
      }
      callbacks := callbacks + 1;
      receives := receives + 1;
      return true;
    }
  }

  /** What the factory makes, or what it throws: one of its checks fails, the address does not parse, or
      the UDP socket cannot be connected. */
  datatype SocketChoice =
    | MakeUdp(udp: UdpMessageSocket)
    | MakeTcp(tcp: TcpMessageSocket)
    | NullCallback | BufferTooSmall | BadProtocol | BadTcpAddress | UdpNotCreated

  /** The factory, with its checks in their order. They are what a TCP socket asks of its buffer; a
      protocol that is neither UDP nor TCP is None. A TCP socket is not even opened here, so all its
      constructor can object to is the address; that of a UDP socket connects it. */
  method CreateMessageSocket(proto: Option<Protocol>, recvbuf: array<byte>, hasCallback: bool,
                             addressOk: bool, connectOk: bool)
    returns (c: SocketChoice)
    ensures c.NullCallback? <==> !hasCallback
    ensures c.BadProtocol? <==> hasCallback && proto.None?
    ensures c.BufferTooSmall? <==> hasCallback && proto == Some(Tcp) && recvbuf.Length < MAX_MESSAGE
    ensures c.BadTcpAddress? <==> hasCallback && proto == Some(Tcp) && recvbuf.Length >= MAX_MESSAGE && !addressOk
    ensures c.MakeTcp? <==> hasCallback && proto == Some(Tcp) && recvbuf.Length >= MAX_MESSAGE && addressOk
    ensures c.UdpNotCreated? <==> hasCallback && proto == Some(Udp) && !(addressOk && connectOk)
    ensures c.MakeUdp? <==> hasCallback && proto == Some(Udp) && addressOk && connectOk
    ensures c.MakeTcp? ==>
              && fresh(c.tcp) && c.tcp.recvbuf == recvbuf
              && c.tcp.Valid() && Inv(c.tcp.View()) && c.tcp.View() == New(recvbuf[..])
    ensures c.MakeUdp? ==> fresh(c.udp) && c.udp.Valid() && !c.udp.receiving
  {
    if !hasCallback {
      return NullCallback;
    }
    if proto.Some? && proto.value.Udp? {
      if !addressOk || !connectOk {
        return UdpNotCreated;
      }
      var udp := new UdpMessageSocket();
      return MakeUdp(udp);
    } else if proto.Some? && proto.value.Tcp? {
      if recvbuf.Length < 65535 {
        return BufferTooSmall;
      }
      if !addressOk {
        return BadTcpAddress;
      }
      var tcp := new TcpMessageSocket(recvbuf);
      NewInv(recvbuf[..]);
      return MakeTcp(tcp);
    }
    assert proto.None?;
    return BadProtocol;
  }
}
