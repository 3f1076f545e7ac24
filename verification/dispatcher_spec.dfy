/**
 The dispatcher as a state machine on values. One transition per callback of the
 event loop: a UDP response, a query timeout, a TCP callback, the session timer.

 `Core` holds everything but the list of outstanding events, so that what
 happens to a matched event is said once, whatever holds the events.
 */
module DispatcherSpec {
  import opened Wrappers
  import opened RepositorySpec

  /** Query IDs are 16 bits wide (section 4.1.1 of RFC 1035). */
  function Wrap16(n: nat): (r: nat)
    ensures r < 65536
  {
    n % 65536
  }

  /** One `QueryEvent`. `seqno` counts the queries sent; the ID is what is left of it in 16 bits.
      `deadline` is that of its timer when armed, `sock` the TCP socket it owns. */
  datatype Ev = Ev(slot: nat, seqno: nat, qid: nat, deadline: Option<int>, sock: Option<nat>)

  /** The record of one query sent. */
  datatype Sent = Sent(qid: nat, query: Query, slot: nat, at: int)

  /** Ways a run can stand: in the event loop, stopped, left by an exception, dead on a failed
      assertion, or dead on the header of a null buffer. */
  datatype Phase = Running | Stopped | Threw | Aborted | Crashed {
    predicate InLoop() { Running? || Stopped? }
  }

  /** Whether and how the run goes on. `stops` counts the calls of `stop`. */
  datatype Mode = Mode(keepSending: bool, sessionArmed: bool, phase: Phase, stops: nat)

  /** TCP sockets created and deleted, and whether the UDP socket has a receive pending. */
  datatype Net = Net(created: nat, released: nat, udpReceiving: bool)

  /** The counters, the log of all queries sent in order, and how those no longer outstanding ended.
      Timeouts and empty TCP results count as failed. */
  datatype Tally = Tally(nextQid: nat, sent: nat, completed: nat, log: seq<Sent>,
                         completedSeqs: set<nat>, failedSeqs: set<nat>)

  datatype Core = Core(window: nat, timeout: int, mode: Mode, net: Net, tally: Tally)

  datatype State = State(core: Core, outstanding: seq<Ev>)

  /** What comes of starting and sending the next query: the timer may throw, or the request or
      the socket may, or the query goes out. */
  datatype Attempt = SendOk(query: Query) | TimerFailed | SendFailed

  /** What a TCP callback carries: nothing, a header that parses or not, or a length without data. */
  datatype Payload = NoData | Header(ok: bool) | NullData

  datatype What =
    | Response(qid: Option<nat>)  // None when the header does not parse
    | QueryTimeout(slot: nat)
    | TcpDone(slot: nat, payload: Payload)
    | SessionTimer

  datatype Input = Input(at: int, what: What, attempt: Attempt)

  // ---- One event ----

  function Counted(t: Tally, e: Ev, answered: bool): Tally {
    if answered then t.(completed := t.completed + 1, completedSeqs := t.completedSeqs + {e.seqno})
    else t.(failedSeqs := t.failedSeqs + {e.seqno})
  }

  function Count(c: Core, e: Ev, answered: bool): Core {
    c.(tally := Counted(c.tally, e, answered))
  }

  function Logged(t: Tally, e: Ev, q: Query, now: int): Tally {
    t.(nextQid := Wrap16(t.nextQid + 1), sent := t.sent + 1, log := t.log + [Sent(t.nextQid, q, e.slot, now)])
  }

  function Enter(c: Core, phase: Phase): Core {
    c.(mode := c.mode.(phase := phase))
  }

  /** `start` and `sendQuery` on an event. */
  function Send(c: Core, e: Ev, now: int, a: Attempt): (Core, Ev) {
    var e1 := e.(qid := c.tally.nextQid, deadline := if a.TimerFailed? then None else Some(now + c.timeout));
    if !a.SendOk? then (Enter(c, Threw), e1)
    else if a.query.proto.Udp? then
      (c.(net := c.net.(udpReceiving := true), tally := Logged(c.tally, e, a.query, now)),
       e1.(seqno := c.tally.sent))
    else
      var c1 := c.(net := c.net.(created := c.net.created + 1));
      if e.sock.Some? then (Enter(c1, Aborted), e1)
      else (c1.(tally := Logged(c.tally, e, a.query, now)),
            e1.(seqno := c.tally.sent, sock := Some(c.net.created)))
  }

  /** An event's socket, if it has one, is deleted. */
  function Released(c: Core, e: Ev): Core {
    if e.sock.Some? then c.(net := c.net.(released := c.net.released + 1)) else c
  }

  /** The event leaves the list; its destructor deletes a socket it still owns. */
  function Erase(c: Core, e: Ev, last: bool): Core {
    var c1 := Released(c, e);
    if last then c1.(mode := c1.mode.(phase := Stopped, stops := c1.mode.stops + 1)) else c1
  }

  // ---- The list ----

  /** `find_if`: the first event with this ID, or the end. */
  function Find(q: seq<Ev>, qid: nat): (i: nat)
    ensures i <= |q|
    ensures i < |q| ==> q[i].qid == qid
    ensures forall k | 0 <= k < i :: q[k].qid != qid
  {
    if q == [] || q[0].qid == qid then 0 else Find(q[1..], qid) + 1
  }

  function Locate(q: seq<Ev>, slot: nat): (i: nat)
    ensures i <= |q|
    ensures i < |q| ==> q[i].slot == slot
    ensures forall k | 0 <= k < i :: q[k].slot != slot
  {
    if q == [] || q[0].slot == slot then 0 else Locate(q[1..], slot) + 1
  }

  function Without(q: seq<Ev>, i: nat): (r: seq<Ev>)
    requires i < |q|
    ensures |r| == |q| - 1
    ensures forall k | 0 <= k < |r| :: r[k] == if k < i then q[k] else q[k + 1]
  {
    q[..i] + q[i + 1..]
  }

  /** The next query of a matched event is sent, and the event moves to the end of the list; an
      exception or a failed assertion leaves it in place. */
  function Resend(s: State, i: nat, answered: bool, now: int, a: Attempt): State
    requires i < |s.outstanding|
  {
    var e := s.outstanding[i];
    var (c', e') := Send(Count(s.core, e, answered), e, now, a);
    State(c', if c'.mode.phase.Running? then Without(s.outstanding, i) + [e'] else s.outstanding[i := e'])
  }

  /** A matched event is erased. */
  function Drop(s: State, i: nat, answered: bool): State
    requires i < |s.outstanding|
  {
    var e := s.outstanding[i];
    State(Erase(Count(s.core, e, answered), e, |s.outstanding| == 1), Without(s.outstanding, i))
  }

  /** `restartQuery`. */
  function Restart(s: State, qid: nat, answered: bool, now: int, a: Attempt): State {
    var i := Find(s.outstanding, qid);
    if i == |s.outstanding| then s
    else if s.core.mode.keepSending then Resend(s, i, answered, now, a)
    else Drop(s, i, answered)
  }

  /** The event's own part of a timeout: its timer has fired, and its socket is deleted. */
  function Expire(c: Core, e: Ev): (Core, Ev) {
    (Released(c, e), e.(deadline := None, sock := None))
  }

  /** `clearTCPSocket`. */
  function Clear(c: Core, e: Ev): (Core, Ev) {
    (Released(c, e), e.(sock := None))
  }

  function Fail(s: State, phase: Phase): State {
    s.(core := Enter(s.core, phase))
  }

  function OnTimeout(s: State, i: nat, now: int, a: Attempt): State
    requires i < |s.outstanding|
  {
    var (c, e) := Expire(s.core, s.outstanding[i]);
    Restart(State(c, s.outstanding[i := e]), e.qid, false, now, a)
  }

  function OnTcpDone(s: State, i: nat, payload: Payload, now: int, a: Attempt): State
    requires i < |s.outstanding|
  {
    if s.outstanding[i].sock.None? then Fail(s, Aborted)
    else
      var (c, e) := Clear(s.core, s.outstanding[i]);
      var s1 := State(c, s.outstanding[i := e]);
      match payload
      case NoData => Restart(s1, e.qid, false, now, a)
      case Header(ok) => if ok then Restart(s1, e.qid, true, now, a) else Fail(s1, Threw)
      case NullData => Fail(s1, Crashed)
  }

  /** A callback the event loop can make: a receive or a timer is pending, or an event that still
      exists is called back by a socket. */
  predicate Enabled(s: State, what: What) {
    s.core.mode.phase.Running? &&
    match what
    case Response(_) => s.core.net.udpReceiving
    case QueryTimeout(slot) =>
      var i := Locate(s.outstanding, slot);
      i < |s.outstanding| && s.outstanding[i].deadline.Some?
    case TcpDone(slot, _) => Locate(s.outstanding, slot) < |s.outstanding|
    case SessionTimer => s.core.mode.sessionArmed
  }

  function Step(s: State, i: Input): State
    requires Enabled(s, i.what)
  {
    match i.what
    case Response(qid) =>
      if qid.None? then Fail(s, Threw) else Restart(s, qid.value, true, i.at, i.attempt)
    case QueryTimeout(slot) => OnTimeout(s, Locate(s.outstanding, slot), i.at, i.attempt)
    case TcpDone(slot, payload) => OnTcpDone(s, Locate(s.outstanding, slot), payload, i.at, i.attempt)
    case SessionTimer => s.(core := s.core.(mode := s.core.mode.(keepSending := false, sessionArmed := false)))
  }

  ghost predicate ValidRun(s: State, ins: seq<Input>)
    decreases |ins|
  {
    ins == [] || (Enabled(s, ins[0].what) && ValidRun(Step(s, ins[0]), ins[1..]))
  }

  ghost function Run(s: State, ins: seq<Input>): State
    requires ValidRun(s, ins)
    decreases |ins|
  {
    if ins == [] then s else Run(Step(s, ins[0]), ins[1..])
  }

  // ---- The start of a run ----

  datatype Try = Try(at: int, attempt: Attempt)

  function Pool(window: nat): (q: seq<Ev>)
    ensures |q| == window && forall i | 0 <= i < window :: q[i] == Ev(i, 0, 0, None, None)
  {
    seq(window, i requires 0 <= i < window => Ev(i, 0, 0, None, None))
  }

  function Idle(window: nat, timeout: int): State {
    State(Core(window, timeout, Mode(true, true, Running, 0), Net(0, 0, false), Tally(0, 0, 0, [], {}, {})),
          Pool(window))
  }

  /** The events from `i` on are started and sent in list order, until one of them fails. */
  function Dispatch(s: State, i: nat, tries: seq<Try>): State
    requires i <= |s.outstanding| == |tries|
    decreases |s.outstanding| - i
  {
    if i == |s.outstanding| || !s.core.mode.phase.Running? then s
    else
      var (c, e) := Send(s.core, s.outstanding[i], tries[i].at, tries[i].attempt);
      Dispatch(State(c, s.outstanding[i := e]), i + 1, tries)
  }

  /** The state at the entry of the event loop. */
  function Begin(window: nat, timeout: int, tries: seq<Try>): State
    requires |tries| == window
  {
    Dispatch(Idle(window, timeout), 0, tries)
  }
}
