/**
 The two-byte length prefix of DNS over TCP (section 4.2.2 of RFC 1035), as
 `TCPMessageSocket` writes it in `send` and reads it back in `handleReadLength`.
 */
module LengthPrefix {
  import opened Wrappers

  type byte = x: nat | x < 256

  /** Largest value of the 16-bit length, and the size of every receive buffer. */
  const MAX_MESSAGE: nat := 65535

  /** The bytes `send` stores: `datalen >> 8` truncated to 8 bits, then `datalen & 0xff`. */
  function Prefix(datalen: nat): (p: seq<byte>)
    ensures |p| == 2
  {
    [(datalen / 256) % 256, datalen % 256]
  }

  /** The `uint16_t` that `handleReadLength` computes from the two received bytes. */
  function DecodeLength(b: seq<byte>): (n: nat)
    requires |b| == 2
    ensures n <= MAX_MESSAGE
  {
    (b[0] as int * 256 + b[1]) % 65536
  }

  /** Division and remainder by 256, twice, in one equation. */
  lemma TwoBytes(n: nat)
    ensures n == 65536 * (n / 256 / 256) + (256 * (n / 256 % 256) + n % 256)
    ensures 0 <= 256 * (n / 256 % 256) + n % 256 < 65536
  {
  }

  lemma RemainderIs(n: int, q: int, r: int)
    requires n == 65536 * q + r && 0 <= r < 65536
    ensures n % 65536 == r
  {
  }

  /** The prefix survives the trip exactly when the length fits in 16 bits. */
  lemma PrefixRoundTrip(datalen: nat)
    ensures DecodeLength(Prefix(datalen)) == datalen % 65536
    ensures DecodeLength(Prefix(datalen)) == datalen <==> datalen <= MAX_MESSAGE
  {
    var r := 256 * (datalen / 256 % 256) + datalen % 256;
    TwoBytes(datalen);
    RemainderIs(datalen, datalen / 256 / 256, r);
    RemainderIs(r, 0, r);
    assert DecodeLength(Prefix(datalen)) == r;
  }

  /** The more significant byte comes first, and a length that fits is told exactly. */
  lemma MostSignificantFirst(datalen: nat)
    requires datalen <= 65535
    ensures Prefix(datalen)[0] as int * 256 + Prefix(datalen)[1] as int == datalen
  {
  }

  lemma DecodeRoundTrip(b: seq<byte>)
    requires |b| == 2
    ensures Prefix(DecodeLength(b)) == b
  {
    var n := b[0] as int * 256 + b[1];
    assert n / 256 == b[0] && n % 256 == b[1];
  }

  ghost predicate AllFit(msgs: seq<seq<byte>>) {
    forall m | m in msgs :: |m| <= MAX_MESSAGE
  }

  /** What a peer that sends each message through the framing puts on the wire. */
  function Frames(msgs: seq<seq<byte>>): seq<byte> {
    if msgs == [] then [] else Prefix(|msgs[0]|) + msgs[0] + Frames(msgs[1..])
  }

  /** Splits a wire image into messages; None when it does not end at a message boundary. */
  function Unframe(wire: seq<byte>): Option<seq<seq<byte>>>
    decreases |wire|
  {
    if wire == [] then Some([])
    else if |wire| < 2 then None
    else
      var n := DecodeLength(wire[..2]);
      if |wire| < 2 + n then None
      else match Unframe(wire[2 + n..])
        case None => None
        case Some(rest) => Some([wire[2..2 + n]] + rest)
  }

  lemma {:induction false} FramesSplitBack(msgs: seq<seq<byte>>)
    requires AllFit(msgs)
    ensures Unframe(Frames(msgs)) == Some(msgs)
  {
    if msgs != [] {
      var m, rest := msgs[0], Frames(msgs[1..]);
      var wire := Frames(msgs);
      PrefixRoundTrip(|m|);
      assert wire[..2] == Prefix(|m|);
      assert wire[2..2 + |m|] == m;
      assert wire[2 + |m|..] == rest;
      FramesSplitBack(msgs[1..]);
      assert [m] + msgs[1..] == msgs;
    }
  }

  /** Framing is uniquely readable: one wire image never stands for two message lists. */
  lemma FramesInjective(a: seq<seq<byte>>, b: seq<seq<byte>>)
    requires AllFit(a) && AllFit(b)
    requires Frames(a) == Frames(b)
    ensures a == b
  {
    FramesSplitBack(a);
    FramesSplitBack(b);
  }

  /** The first message of a wire image that splits, and the rest. */
  lemma SplitsOff(wire: seq<byte>, n: nat)
    requires |wire| >= 2 + n && n == DecodeLength(wire[..2])
    ensures wire == Prefix(n) + wire[2..2 + n] + wire[2 + n..]
  {
    DecodeRoundTrip(wire[..2]);
  }

  /** Everything that splits at all is the framing of what it splits into. */
  lemma {:induction false} UnframeIsInverse(wire: seq<byte>)
    requires Unframe(wire).Some?
    ensures AllFit(Unframe(wire).value)
    ensures Frames(Unframe(wire).value) == wire
    decreases |wire|
  {
    if wire != [] {
      var n := DecodeLength(wire[..2]);
      var m, rest := wire[2..2 + n], wire[2 + n..];
      UnframeIsInverse(rest);
      SplitsOff(wire, n);
      var msgs := Unframe(wire).value;
      assert msgs[0] == m && msgs[1..] == Unframe(rest).value;
    }
  }
}
