/**
 The dispatcher together with the sockets it creates, for a run in which every
 query goes over TCP: which socket belongs to which event, and why neither of
 the two assertions about it can fail.
 */
module TcpRun {
  import opened Wrappers
  import opened LengthPrefix
  import opened DispatcherSpec
  import opened Conservation
  import opened DistinctIds
  import opened Collision
  import S = TcpSocketSpec
  import L = TcpSocketLife

  /** A socket and the event its callback is bound to. */
  datatype Bound = Bound(slot: nat, sock: S.Sock)

  /** Sockets are numbered in order of creation. */
  datatype Sys = Sys(d: State, socks: seq<Bound>)

  /** What the environment can do. `parses` is the fate of the header should the socket call back with
      data, `buf` the contents of the receive buffer should a socket be created. */
  datatype Deed =
    | SocketCompletes(id: nat, code: S.Code, bytes: seq<byte>, shutdownOk: bool, parses: bool)
    | TimerFires(slot: nat)
    | SessionEnds
    | UdpArrives(qid: Option<nat>)

  datatype Move = Move(at: int, deed: Deed, attempt: Attempt, buf: seq<byte>)

  predicate AllTcp(a: Attempt) {
    a.SendOk? ==> a.query.proto.Tcp?
  }

  /** The completion of a pending operation; what the owner does comes separately. */
  function CompletionOf(deed: Deed): S.Completion
    requires deed.SocketCompletes?
  {
    S.Completion(deed.code, deed.bytes, deed.shutdownOk, false)
  }

  predicate CanHappen(y: Sys, deed: Deed) {
    y.d.core.mode.phase.Running? &&
    match deed
    case SocketCompletes(id, _, _, _, _) =>
      id < |y.socks| && S.Legal(y.socks[id].sock, S.Complete(CompletionOf(deed)))
    case TimerFires(slot) => Enabled(y.d, QueryTimeout(slot))
    case SessionEnds => Enabled(y.d, SessionTimer)
    case UdpArrives(qid) => Enabled(y.d, Response(qid))
  }

  function PayloadOf(r: S.Report, parses: bool): Payload {
    if r.len == 0 then NoData else if r.isNull then NullData else Header(parses)
  }

  /** The sockets after the completion itself. */
  function Completed(y: Sys, deed: Deed): (socks: seq<Bound>)
    requires CanHappen(y, deed)
    ensures |socks| == |y.socks|
  {
    if deed.SocketCompletes? then
      var b := y.socks[deed.id];
      y.socks[deed.id := b.(sock := S.CompleteSock(b.sock, CompletionOf(deed)))]
    else y.socks
  }

  /** A socket that has reported once more calls back with that. */
  function CalledBack(slot: nat, before: nat, reports: seq<S.Report>, parses: bool): Option<What> {
    if |reports| > before then Some(TcpDone(slot, PayloadOf(reports[|reports| - 1], parses))) else None
  }

  /** The callback into the dispatcher, if there is one. */
  function CallbackOf(y: Sys, deed: Deed): Option<What>
    requires CanHappen(y, deed)
  {
    match deed
    case SocketCompletes(id, _, _, _, parses) =>
      var b := y.socks[id];
      CalledBack(b.slot, |b.sock.reports|, Completed(y, deed)[id].sock.reports, parses)
    case TimerFires(slot) => Some(QueryTimeout(slot))
    case SessionEnds => Some(SessionTimer)
    case UdpArrives(qid) => Some(Response(qid))
  }

  /** A handler threw. */
  predicate HandlerThrew(y: Sys, deed: Deed)
    requires CanHappen(y, deed)
  {
    deed.SocketCompletes? && Completed(y, deed)[deed.id].sock.threw && !y.socks[deed.id].sock.threw
  }

  /** The dispatcher after the move. A callback for an event that is gone would be a crash. */
  function NextState(y: Sys, m: Move): State
    requires CanHappen(y, m.deed)
  {
    match CallbackOf(y, m.deed)
    case None => if HandlerThrew(y, m.deed) then Fail(y.d, Threw) else y.d
    case Some(what) =>
      if Enabled(y.d, what) then Step(y.d, Input(m.at, what, m.attempt)) else Fail(y.d, Crashed)
  }

  predicate Owned(q: seq<Ev>, id: nat) {
    exists k :: 0 <= k < |q| && q[k].sock == Some(id)
  }

  function OwnerSlot(q: seq<Ev>, id: nat): nat {
    if q == [] then 0 else if q[0].sock == Some(id) then q[0].slot else OwnerSlot(q[1..], id)
  }

  /** A handle that an event held and nobody holds any more has been destroyed. */
  function Settled(socks: seq<Bound>, q: seq<Ev>, q': seq<Ev>): (r: seq<Bound>)
    ensures |r| == |socks|
    ensures forall i | 0 <= i < |r| ::
              r[i] == if Owned(q, i) && !Owned(q', i) then socks[i].(sock := S.ReleaseSock(socks[i].sock)) else socks[i]
  {
    seq(|socks|, i requires 0 <= i < |socks| =>
      if Owned(q, i) && !Owned(q', i) then socks[i].(sock := S.ReleaseSock(socks[i].sock)) else socks[i])
  }

  /** A created socket has its connect pending, on a descriptor that this opened. */
  function Started(buf: seq<byte>): S.Sock {
    S.StartSock(S.New(buf), true)
  }

  /** Handles destroyed by the dispatcher's step release their sockets; a created socket is added. */
  function Rebuilt(y: Sys, socks: seq<Bound>, d': State, buf: seq<byte>): Sys {
    var settled := Settled(socks, y.d.outstanding, d'.outstanding);
    Sys(d', if d'.core.net.created > y.d.core.net.created
            then settled + [Bound(OwnerSlot(d'.outstanding, y.d.core.net.created), Started(buf))] else settled)
  }

  function StepSys(y: Sys, m: Move): Sys
    requires CanHappen(y, m.deed)
  {
    Rebuilt(y, Completed(y, m.deed), NextState(y, m), m.buf)
  }

  // ---- The invariant ----

  /** An event owns a socket that is bound to it. */
  ghost predicate Owns(socks: seq<Bound>, e: Ev) {
    e.sock.Some? && e.sock.value < |socks| && socks[e.sock.value].slot == e.slot
  }

  /** An event owns no socket but its own. */
  ghost predicate MayOwn(socks: seq<Bound>, e: Ev) {
    e.sock.Some? ==> Owns(socks, e)
  }

  ghost predicate AllMayOwn(socks: seq<Bound>, q: seq<Ev>) {
    forall k {:trigger MayOwn(socks, q[k])} | 0 <= k < |q| :: MayOwn(socks, q[k])
  }

  /** A socket works for the event that owns it, or has been released by the one that did. */
  ghost predicate SockOk(q: seq<Ev>, k: S.Sock, id: nat) {
    && S.Inv(k) && k.started && k.open
    && (k.released <==> !Owned(q, id))
    && (!k.released ==> !k.completed && !k.threw)
  }

  ghost predicate AllOk(q: seq<Ev>, socks: seq<Bound>) {
    forall id: nat {:trigger SockOk(q, socks[id].sock, id)} | id < |socks| :: SockOk(q, socks[id].sock, id)
  }

  /** What holds at every boundary of the event loop, colliding IDs or not. */
  ghost predicate Linked(y: Sys) {
    && Good(y.d)
    && !y.d.core.net.udpReceiving
    && |y.socks| == y.d.core.net.created == y.d.core.tally.sent
    && AllMayOwn(y.socks, y.d.outstanding)
    && AllOk(y.d.outstanding, y.socks)
  }

  /** Every outstanding event owns a socket, and all others have been released. */
  ghost predicate AllServed(d: State) {
    && (forall k | 0 <= k < |d.outstanding| :: d.outstanding[k].sock.Some?)
    && d.core.net.released + |d.outstanding| == d.core.net.created
  }

  /** What holds in addition while IDs are distinct. */
  ghost predicate SysInv(y: Sys) {
    Linked(y) && AllServed(y.d)
  }

  // ---- One socket ----

  lemma SockCompletes(k: S.Sock, c: S.Completion)
    requires S.Inv(k) && S.Legal(k, S.Complete(c)) && !c.ownerReleases
    ensures var k' := S.CompleteSock(k, c);
            && S.Inv(k') && k'.started == k.started && k'.open == k.open && k'.released == k.released
            && (k.released ==> k'.reports == k.reports && k'.threw == k.threw)
            && (|k'.reports| > |k.reports| ==> !k'.threw)
            && (|k'.reports| <= |k.reports| ==> k'.completed == k.completed)
  {
    L.CompleteInv(k, c);
  }

  lemma SockReleases(k: S.Sock)
    requires S.Inv(k) && k.started && k.open && !k.released
    ensures var k' := S.ReleaseSock(k);
            S.Inv(k') && k'.started && k'.open && k'.released
  {
    S.ReleaseInv(k);
  }

  lemma StartedOk(buf: seq<byte>)
    requires |buf| >= MAX_MESSAGE
    ensures var k := Started(buf);
            S.Inv(k) && k.started && k.open && !k.released && !k.completed && !k.threw
  {
    S.NewInv(buf);
    L.StepInv(S.New(buf), S.Start(true));
  }

  // ---- Who owns what ----

  lemma OwnersDiffer(socks: seq<Bound>, q: seq<Ev>, i: nat, j: nat)
    requires Uniq(q) && i < |q| && j < |q| && i != j && Owns(socks, q[i]) && Owns(socks, q[j])
    ensures q[i].sock != q[j].sock
  {
    UniqAt(q, i, j);
  }

  lemma {:induction false} OwnerSlotIs(q: seq<Ev>, id: nat, slot: nat)
    requires Owned(q, id) && forall j | 0 <= j < |q| && q[j].sock == Some(id) :: q[j].slot == slot
    ensures OwnerSlot(q, id) == slot
  {
    if q[0].sock != Some(id) {
      var j :| 0 <= j < |q| && q[j].sock == Some(id);
      assert q[1..][j - 1] == q[j];
      OwnerSlotIs(q[1..], id, slot);
    }
  }

  /** The sockets as they are when the event at `k` is about to give up its own, if it has one: that
      one may have called back. */
  ghost predicate Closing(y: Sys, k: nat, socks: seq<Bound>) {
    && Linked(y) && k < |y.d.outstanding| && |socks| == |y.socks|
    && (forall i: nat | i < |socks| && y.d.outstanding[k].sock != Some(i) :: socks[i] == y.socks[i])
    && (y.d.outstanding[k].sock.Some? ==>
          var id := y.d.outstanding[k].sock.value;
          && id < |socks| && socks[id].slot == y.socks[id].slot
          && S.Inv(socks[id].sock) && socks[id].sock.started && socks[id].sock.open && !socks[id].sock.released)
  }

  /** The event has its socket from one of the list other than the one at `k`. */
  ghost predicate Kept(q: seq<Ev>, k: nat, e: Ev) {
    exists i :: 0 <= i < |q| && i != k && q[i].sock == e.sock && q[i].slot == e.slot
  }

  /** The sockets owned after the event at `k` has given up its own and somebody has been restarted:
      kept from before, but for one just created, which the last event owns. */
  ghost predicate Follows(y: Sys, k: nat, d': State) {
    var q', n := d'.outstanding, y.d.core.net.created;
    && !d'.core.net.udpReceiving && d'.core.net.created == d'.core.tally.sent
    && n <= d'.core.net.created <= n + 1
    && (d'.core.net.created == n + 1 ==> q' != [] && q'[|q'| - 1].sock == Some(n))
    && forall j | 0 <= j < (if d'.core.net.created == n then |q'| else |q'| - 1) && q'[j].sock.Some? ::
         Kept(y.d.outstanding, k, q'[j])
  }

  /** Nobody owns the socket given up; a socket owned afterwards was owned before. */
  lemma StillOwned(y: Sys, k: nat, d': State, id: nat)
    requires AllMayOwn(y.socks, y.d.outstanding) && Uniq(y.d.outstanding) && |y.socks| == y.d.core.net.created
    requires k < |y.d.outstanding| && Follows(y, k, d') && id < |y.socks|
    requires Owned(d'.outstanding, id)
    ensures Owned(y.d.outstanding, id) && y.d.outstanding[k].sock != Some(id)
  {
    var q, q' := y.d.outstanding, d'.outstanding;
    var j :| 0 <= j < |q'| && q'[j].sock == Some(id);
    var i :| 0 <= i < |q| && i != k && q[i].sock == q'[j].sock && q[i].slot == q'[j].slot;
    assert MayOwn(y.socks, q[i]) && MayOwn(y.socks, q[k]);
    if q[k].sock == Some(id) {
      OwnersDiffer(y.socks, q, i, k);
    }
  }

  lemma SettledOk(y: Sys, k: nat, socks: seq<Bound>, d': State, id: nat)
    requires Closing(y, k, socks) && Follows(y, k, d') && id < |socks|
    ensures var b := Settled(socks, y.d.outstanding, d'.outstanding)[id];
            SockOk(d'.outstanding, b.sock, id) && b.slot == y.socks[id].slot
  {
    var q := y.d.outstanding;
    assert SockOk(q, y.socks[id].sock, id);
    if Owned(d'.outstanding, id) {
      StillOwned(y, k, d', id);
    } else if Owned(q, id) {
      SockReleases(socks[id].sock);
    }
  }

  /** The event with the socket just created. */
  lemma NewOwner(y: Sys, k: nat, d': State)
    requires Linked(y) && Follows(y, k, d') && d'.core.net.created == |y.socks| + 1
    ensures Owned(d'.outstanding, |y.socks|)
    ensures OwnerSlot(d'.outstanding, |y.socks|) == d'.outstanding[|d'.outstanding| - 1].slot
  {
    var q', n := d'.outstanding, |y.socks|;
    assert q'[|q'| - 1].sock == Some(n);
    forall j | 0 <= j < |q'| - 1 ensures q'[j].sock != Some(n) {
      if q'[j].sock.Some? {
        KeptIsOld(y, k, q'[j]);
      }
    }
    OwnerSlotIs(q', n, q'[|q'| - 1].slot);
  }

  lemma KeptIsOld(y: Sys, k: nat, e: Ev)
    requires Linked(y) && e.sock.Some? && Kept(y.d.outstanding, k, e)
    ensures Owns(y.socks, e)
  {
    var i :| 0 <= i < |y.d.outstanding| && i != k && y.d.outstanding[i].sock == e.sock
             && y.d.outstanding[i].slot == e.slot;
    assert MayOwn(y.socks, y.d.outstanding[i]);
  }

  lemma EventsOwn(y: Sys, k: nat, d': State, r: seq<Bound>)
    requires Linked(y) && Follows(y, k, d') && |r| == d'.core.net.created
    requires forall i: nat | i < |y.socks| :: r[i].slot == y.socks[i].slot
    requires |r| > |y.socks| ==> r[|y.socks|].slot == d'.outstanding[|d'.outstanding| - 1].slot
    ensures AllMayOwn(r, d'.outstanding)
  {
    var q' := d'.outstanding;
    forall j | 0 <= j < |q'| ensures MayOwn(r, q'[j]) {
      if q'[j].sock.Some? && Kept(y.d.outstanding, k, q'[j]) {
        KeptIsOld(y, k, q'[j]);
      }
    }
  }

  lemma OldSockOk(y: Sys, k: nat, socks: seq<Bound>, d': State, buf: seq<byte>, id: nat)
    requires Closing(y, k, socks) && Follows(y, k, d') && id < |y.socks|
    ensures var r := Rebuilt(y, socks, d', buf).socks;
            |r| == d'.core.net.created && SockOk(d'.outstanding, r[id].sock, id) && r[id].slot == y.socks[id].slot
  {
    SettledOk(y, k, socks, d', id);
  }

  lemma NewSockOk(y: Sys, k: nat, socks: seq<Bound>, d': State, buf: seq<byte>)
    requires Closing(y, k, socks) && Follows(y, k, d') && |buf| >= MAX_MESSAGE
    requires d'.core.net.created == |y.socks| + 1
    ensures var r := Rebuilt(y, socks, d', buf).socks;
            |r| == |y.socks| + 1 && SockOk(d'.outstanding, r[|y.socks|].sock, |y.socks|)
  {
    NewOwner(y, k, d');
    StartedOk(buf);
  }

  lemma SocksOk(y: Sys, k: nat, socks: seq<Bound>, d': State, buf: seq<byte>)
    requires Closing(y, k, socks) && Follows(y, k, d') && |buf| >= MAX_MESSAGE
    ensures var r := Rebuilt(y, socks, d', buf).socks;
            && |r| == d'.core.net.created && AllOk(d'.outstanding, r)
            && forall i: nat | i < |y.socks| :: r[i].slot == y.socks[i].slot
  {
    var n, r := |y.socks|, Rebuilt(y, socks, d', buf).socks;
    if |r| > n {
      NewSockOk(y, k, socks, d', buf);
    }
    forall id: nat | id < n ensures SockOk(d'.outstanding, r[id].sock, id) && r[id].slot == y.socks[id].slot {
      OldSockOk(y, k, socks, d', buf, id);
    }
  }

  lemma AfterRestart(y: Sys, k: nat, socks: seq<Bound>, d': State, buf: seq<byte>)
    requires Closing(y, k, socks) && Follows(y, k, d') && Good(d') && |buf| >= MAX_MESSAGE
    ensures Linked(Rebuilt(y, socks, d', buf))
  {
    var r := Rebuilt(y, socks, d', buf).socks;
    SocksOk(y, k, socks, d', buf);
    if d'.core.net.created > |y.socks| {
      NewOwner(y, k, d');
    }
    EventsOwn(y, k, d', r);
  }

  // ---- The dispatcher's side ----

  lemma SendNet(c: Core, e: Ev, now: int, a: Attempt)
    requires c.mode.phase.Running? && AllTcp(a)
    ensures var (c', e') := Send(c, e, now, a);
            && !c'.mode.phase.Crashed? && (e.sock.None? ==> !c'.mode.phase.Aborted?)
            && (c'.mode.phase.Running? ==>
                  && c'.net == c.net.(created := c.net.created + 1) && c'.tally.sent == c.tally.sent + 1
                  && e'.slot == e.slot && e'.sock == Some(c.net.created))
  {
  }

  /** The event at `k` has given up its socket, if it had one. */
  ghost predicate Closed(y: Sys, k: nat, s: State) {
    && k < |y.d.outstanding| == |s.outstanding| && y.d.core.mode.phase.Running?
    && s.core == y.d.core.(net := y.d.core.net.(released := s.core.net.released))
    && s.core.net.released == y.d.core.net.released + (if y.d.outstanding[k].sock.Some? then 1 else 0)
    && s.outstanding == y.d.outstanding[k := s.outstanding[k]]
    && s.outstanding[k] == y.d.outstanding[k].(deadline := s.outstanding[k].deadline, sock := None)
  }

  lemma RestOfClosed(y: Sys, k: nat, s: State, f: nat)
    requires Closed(y, k, s) && f < |s.outstanding|
    ensures var r := Without(s.outstanding, f);
            forall j | 0 <= j < |r| && r[j].sock.Some? :: Kept(y.d.outstanding, k, r[j])
  {
    var q, r := y.d.outstanding, Without(s.outstanding, f);
    forall j | 0 <= j < |r| && r[j].sock.Some? ensures Kept(q, k, r[j]) {
      var i := if j < f then j else j + 1;
      assert r[j] == s.outstanding[i] && i != k;
      assert q[i] == s.outstanding[i];
    }
  }

  lemma ResendFollows(y: Sys, k: nat, s: State, f: nat, answered: bool, now: int, a: Attempt)
    requires Linked(y) && Closed(y, k, s) && AllTcp(a) && f < |s.outstanding|
    ensures var d' := Resend(s, f, answered, now, a);
            !d'.core.mode.phase.Crashed? && (d'.core.mode.phase.InLoop() ==> Follows(y, k, d'))
  {
    var c := Count(s.core, s.outstanding[f], answered);
    SendNet(c, s.outstanding[f], now, a);
    SendFacts(c, s.outstanding[f], now, a);
    RestOfClosed(y, k, s, f);
    var d', rest := Resend(s, f, answered, now, a), Without(s.outstanding, f);
    if d'.core.mode.phase.InLoop() {
      forall j | 0 <= j < |d'.outstanding| - 1 && d'.outstanding[j].sock.Some?
        ensures Kept(y.d.outstanding, k, d'.outstanding[j])
      {
        assert d'.outstanding[j] == rest[j];
      }
    }
  }

  lemma DropFollows(y: Sys, k: nat, s: State, f: nat, answered: bool)
    requires Linked(y) && Closed(y, k, s) && f < |s.outstanding|
    ensures var d' := Drop(s, f, answered);
            !d'.core.mode.phase.Crashed? && Follows(y, k, d')
  {
    RestOfClosed(y, k, s, f);
    EraseFacts(Count(s.core, s.outstanding[f], answered), s.outstanding[f], |s.outstanding| == 1);
  }

  lemma RestartFollows(y: Sys, k: nat, s: State, answered: bool, now: int, a: Attempt)
    requires Linked(y) && Closed(y, k, s) && AllTcp(a)
    ensures var d' := Restart(s, s.outstanding[k].qid, answered, now, a);
            !d'.core.mode.phase.Crashed? && (d'.core.mode.phase.InLoop() ==> Good(d') && Follows(y, k, d'))
  {
    var e := s.outstanding[k];
    var f := Find(s.outstanding, e.qid);
    MarkBooks(s.core.tally, y.d.outstanding, k, e);
    RestartGood(s, e.qid, answered, now, a);
    if s.core.mode.keepSending {
      ResendFollows(y, k, s, f, answered, now, a);
    } else {
      DropFollows(y, k, s, f, answered);
    }
  }

  lemma ResendServes(y: Sys, k: nat, s: State, answered: bool, now: int, a: Attempt)
    requires AllServed(y.d) && Closed(y, k, s) && AllTcp(a)
    ensures var d' := Resend(s, k, answered, now, a);
            !d'.core.mode.phase.Aborted? && (d'.core.mode.phase.InLoop() ==> AllServed(d'))
  {
    var rest := Without(s.outstanding, k);
    SendNet(Count(s.core, s.outstanding[k], answered), s.outstanding[k], now, a);
    forall j | 0 <= j < |rest| ensures rest[j].sock.Some? {
      assert rest[j] == y.d.outstanding[if j < k then j else j + 1];
    }
  }

  lemma DropServes(y: Sys, k: nat, s: State, answered: bool)
    requires AllServed(y.d) && Closed(y, k, s)
    ensures var d' := Drop(s, k, answered);
            !d'.core.mode.phase.Aborted? && AllServed(d')
  {
    var rest := Without(s.outstanding, k);
    forall j | 0 <= j < |rest| ensures rest[j].sock.Some? {
      assert rest[j] == y.d.outstanding[if j < k then j else j + 1];
    }
  }

  /** With distinct IDs the event is the one restarted, and everybody has a socket again. */
  lemma OwnRestartServes(y: Sys, k: nat, s: State, answered: bool, now: int, a: Attempt)
    requires AllServed(y.d) && Distinct(y.d.outstanding) && Closed(y, k, s) && AllTcp(a)
    ensures var d' := Restart(s, s.outstanding[k].qid, answered, now, a);
            !d'.core.mode.phase.Aborted? && (d'.core.mode.phase.InLoop() ==> AllServed(d'))
  {
    FindOwn(y.d.outstanding, k, s.outstanding[k]);
    if s.core.mode.keepSending {
      ResendServes(y, k, s, answered, now, a);
    } else {
      DropServes(y, k, s, answered);
    }
  }

  /** What the dispatcher makes of a callback for the event at `k`; the last part with distinct IDs. */
  ghost predicate Reacts(y: Sys, k: nat, d': State) {
    && (d'.core.mode.phase.InLoop() ==> Good(d') && Follows(y, k, d'))
    && (SysInv(y) && Distinct(y.d.outstanding) ==>
          !d'.core.mode.phase.Aborted? && (d'.core.mode.phase.InLoop() ==> AllServed(d')))
  }

  lemma RestartReacts(y: Sys, k: nat, s: State, answered: bool, now: int, a: Attempt)
    requires Linked(y) && Closed(y, k, s) && AllTcp(a)
    ensures var d' := Restart(s, s.outstanding[k].qid, answered, now, a);
            !d'.core.mode.phase.Crashed? && Reacts(y, k, d')
  {
    RestartFollows(y, k, s, answered, now, a);
    if AllServed(y.d) && Distinct(y.d.outstanding) {
      OwnRestartServes(y, k, s, answered, now, a);
    }
  }

  lemma TimeoutReacts(y: Sys, k: nat, now: int, a: Attempt)
    requires Linked(y) && y.d.core.mode.phase.Running? && k < |y.d.outstanding| && AllTcp(a)
    ensures var d' := OnTimeout(y.d, k, now, a);
            !d'.core.mode.phase.Crashed? && Reacts(y, k, d')
  {
    var (c, e) := Expire(y.d.core, y.d.outstanding[k]);
    RestartReacts(y, k, State(c, y.d.outstanding[k := e]), false, now, a);
  }

  lemma TcpDoneReacts(y: Sys, k: nat, payload: Payload, now: int, a: Attempt)
    requires Linked(y) && y.d.core.mode.phase.Running? && k < |y.d.outstanding| && AllTcp(a)
    requires y.d.outstanding[k].sock.Some?
    ensures var d' := OnTcpDone(y.d, k, payload, now, a);
            (d'.core.mode.phase.Crashed? <==> payload.NullData?) && Reacts(y, k, d')
  {
    var (c, e) := Clear(y.d.core, y.d.outstanding[k]);
    var s := State(c, y.d.outstanding[k := e]);
    match payload
    case NoData => RestartReacts(y, k, s, false, now, a);
    case Header(ok) =>
      if ok {
        RestartReacts(y, k, s, true, now, a);
      }
    case NullData =>
  }

  // ---- One move ----

  lemma NobodyMoves(y: Sys, socks: seq<Bound>)
    ensures Settled(socks, y.d.outstanding, y.d.outstanding) == socks
  {
  }

  /** A completion without a callback concerns its own socket alone. */
  lemma SilentCompletion(y: Sys, deed: Deed)
    requires Linked(y) && CanHappen(y, deed) && deed.SocketCompletes?
    requires CallbackOf(y, deed).None? && !HandlerThrew(y, deed)
    ensures Linked(Sys(y.d, Completed(y, deed)))
  {
    var q, socks := y.d.outstanding, Completed(y, deed);
    assert SockOk(q, y.socks[deed.id].sock, deed.id);
    SockCompletes(y.socks[deed.id].sock, CompletionOf(deed));
    forall id: nat | id < |socks| ensures SockOk(q, socks[id].sock, id) {
      assert SockOk(q, y.socks[id].sock, id);
    }
    forall j | 0 <= j < |q| ensures MayOwn(socks, q[j]) {
      assert MayOwn(y.socks, q[j]);
    }
  }

  /** A data read failed, other than by end of file, after a first message was kept. */
  predicate LateReadFailure(y: Sys, deed: Deed)
    requires CanHappen(y, deed)
  {
    deed.SocketCompletes? &&
    var k := y.socks[deed.id].sock;
    !k.cancelled && k.pending[0].ReadData? && !deed.code.Success? && !deed.code.Eof? && k.recvLen > 0
  }

  /** The callback, if it is one of a socket, comes for an event that exists and owns that socket: the
      assertion of `clearTCPSocket` holds. */
  predicate CallsOwner(y: Sys, deed: Deed)
    requires CanHappen(y, deed)
  {
    deed.SocketCompletes? && CallbackOf(y, deed).Some? ==>
      var k := Locate(y.d.outstanding, y.socks[deed.id].slot);
      k < |y.d.outstanding| && y.d.outstanding[k].sock == Some(deed.id)
  }

  /** A socket that has not been released is that of its event. */
  lemma OwnerLocated(y: Sys, id: nat)
    requires Linked(y) && id < |y.socks| && !y.socks[id].sock.released
    ensures var k := Locate(y.d.outstanding, y.socks[id].slot);
            k < |y.d.outstanding| && y.d.outstanding[k].sock == Some(id)
  {
    var q := y.d.outstanding;
    assert SockOk(q, y.socks[id].sock, id);
    var j: nat :| j < |q| && q[j].sock == Some(id);
    assert MayOwn(y.socks, q[j]);
    LocateOwn(q, j);
  }

  lemma CompletedIs(y: Sys, deed: Deed)
    requires CanHappen(y, deed) && deed.SocketCompletes?
    ensures Completed(y, deed)[deed.id].sock == S.CompleteSock(y.socks[deed.id].sock, CompletionOf(deed))
    ensures Completed(y, deed)[deed.id].slot == y.socks[deed.id].slot
    ensures forall i | 0 <= i < |y.socks| && i != deed.id :: Completed(y, deed)[i] == y.socks[i]
  {
  }

  /** A socket that calls back is at work. */
  lemma CallerIsLive(y: Sys, deed: Deed)
    requires Linked(y) && CanHappen(y, deed) && deed.SocketCompletes? && CallbackOf(y, deed).Some?
    ensures var b, k' := y.socks[deed.id], Completed(y, deed)[deed.id].sock;
            && !b.sock.released && S.Inv(b.sock) && !b.sock.cancelled && b.sock.reports == []
            && S.Inv(k') && k'.started && k'.open && !k'.released && |k'.reports| == 1
            && CallbackOf(y, deed).value.TcpDone? && CallbackOf(y, deed).value.slot == b.slot
            && (CallbackOf(y, deed).value.payload.NullData? <==> k'.reports[0].isNull && k'.reports[0].len > 0)
  {
    assert SockOk(y.d.outstanding, y.socks[deed.id].sock, deed.id);
    SockCompletes(y.socks[deed.id].sock, CompletionOf(deed));
    CompletedIs(y, deed);
  }

  /** A socket that calls back is the one its event owns. */
  lemma CallbackCloses(y: Sys, deed: Deed)
    requires Linked(y) && CanHappen(y, deed) && deed.SocketCompletes? && CallbackOf(y, deed).Some?
    ensures var what := CallbackOf(y, deed).value;
            && what.TcpDone? && Enabled(y.d, what) && CallsOwner(y, deed)
            && Closing(y, Locate(y.d.outstanding, what.slot), Completed(y, deed))
            && (what.payload.NullData? <==> LateReadFailure(y, deed))
  {
    CallerIsLive(y, deed);
    OwnerLocated(y, deed.id);
    CompletedIs(y, deed);
    L.NullReportIff(y.socks[deed.id].sock, CompletionOf(deed));
  }

  lemma NoCallbackNoFailure(y: Sys, deed: Deed)
    requires Linked(y) && CanHappen(y, deed) && CallbackOf(y, deed).None?
    ensures !LateReadFailure(y, deed)
  {
    var k := y.socks[deed.id].sock;
    assert SockOk(y.d.outstanding, k, deed.id);
    assert |k.reports| == 0;
    if !k.cancelled {
      L.NullReportIff(k, CompletionOf(deed));
    }
  }

  /** Moves that can happen in a run whose queries all go over TCP. */
  predicate TcpMove(y: Sys, m: Move) {
    CanHappen(y, m.deed) && AllTcp(m.attempt) && |m.buf| >= MAX_MESSAGE
  }

  /** The event called back is not the first with its ID, and the first one, about to send, owns a
      socket: the assertion of `setTCPSocket` fails. */
  predicate RestartClashes(y: Sys, m: Move)
    requires CanHappen(y, m.deed)
  {
    match CallbackOf(y, m.deed)
    case Some(QueryTimeout(slot)) => ClashesAt(y.d, Locate(y.d.outstanding, slot), m.attempt)
    case Some(TcpDone(slot, payload)) =>
      Carries(payload) && ClashesAt(y.d, Locate(y.d.outstanding, slot), m.attempt)
    case _ => false
  }

  predicate ClashesAt(d: State, k: nat, a: Attempt) {
    k < |d.outstanding| &&
    var f := Find(d.outstanding, d.outstanding[k].qid);
    f < k && Clash(d, f, a)
  }

  /** What a move leads to; the last part while IDs are distinct. */
  ghost predicate Outcome(y: Sys, m: Move, y': Sys)
    requires CanHappen(y, m.deed)
  {
    && (y'.d.core.mode.phase.InLoop() ==> Linked(y'))
    && (y'.d.core.mode.phase.Crashed? <==> LateReadFailure(y, m.deed))
    && (y'.d.core.mode.phase.Aborted? <==> RestartClashes(y, m))
    && (SysInv(y) && Distinct(y.d.outstanding) ==>
          !y'.d.core.mode.phase.Aborted? && (y'.d.core.mode.phase.InLoop() ==> SysInv(y')))
  }

  lemma TimerMoves(y: Sys, m: Move)
    requires Linked(y) && TcpMove(y, m) && m.deed.TimerFires?
    ensures Outcome(y, m, StepSys(y, m))
  {
    var k := Locate(y.d.outstanding, m.deed.slot);
    var d' := OnTimeout(y.d, k, m.at, m.attempt);
    TimeoutReacts(y, k, m.at, m.attempt);
    TimeoutAbortsIff(y.d, k, m.at, m.attempt);
    TimerCloses(y, k);
    if d'.core.mode.phase.InLoop() {
      AfterRestart(y, k, y.socks, d', m.buf);
    }
  }

  lemma TimerCloses(y: Sys, k: nat)
    requires Linked(y) && k < |y.d.outstanding|
    ensures Closing(y, k, y.socks)
  {
    var e := y.d.outstanding[k];
    assert MayOwn(y.socks, e);
    if e.sock.Some? {
      assert Owned(y.d.outstanding, e.sock.value);
      assert SockOk(y.d.outstanding, y.socks[e.sock.value].sock, e.sock.value);
    }
  }

  lemma SilentMoves(y: Sys, m: Move)
    requires Linked(y) && TcpMove(y, m) && m.deed.SocketCompletes? && CallbackOf(y, m.deed).None?
    ensures Outcome(y, m, StepSys(y, m))
  {
    NoCallbackNoFailure(y, m.deed);
    NobodyMoves(y, Completed(y, m.deed));
    if !HandlerThrew(y, m.deed) {
      SilentCompletion(y, m.deed);
    }
  }

  lemma CallbackMoves(y: Sys, m: Move)
    requires Linked(y) && TcpMove(y, m) && m.deed.SocketCompletes? && CallbackOf(y, m.deed).Some?
    ensures Outcome(y, m, StepSys(y, m))
  {
    var what := CallbackOf(y, m.deed).value;
    CallbackCloses(y, m.deed);
    var k, socks := Locate(y.d.outstanding, what.slot), Completed(y, m.deed);
    var d' := OnTcpDone(y.d, k, what.payload, m.at, m.attempt);
    TcpDoneReacts(y, k, what.payload, m.at, m.attempt);
    TcpAbortsIff(y.d, k, what.payload, m.at, m.attempt);
    assert NextState(y, m) == d';
    if d'.core.mode.phase.InLoop() {
      AfterRestart(y, k, socks, d', m.buf);
    }
  }

  /**
   Any move of a TCP run, with or without colliding IDs: a UDP callback is impossible, a socket calls
   back only the event that owns it, and whether the run crashes or an assertion fails is as the
   guards say. With distinct IDs no assertion fails.
   */
  lemma MoveSafe(y: Sys, m: Move)
    requires Linked(y) && TcpMove(y, m)
    ensures !m.deed.UdpArrives? && CallsOwner(y, m.deed) && Outcome(y, m, StepSys(y, m))
  {
    match m.deed
    case SocketCompletes(_, _, _, _, _) =>
      if CallbackOf(y, m.deed).None? {
        SilentMoves(y, m);
      } else {
        CallbackCloses(y, m.deed);
        CallbackMoves(y, m);
      }
    case TimerFires(_) => TimerMoves(y, m);
    case SessionEnds =>
      StepGood(y.d, Input(m.at, SessionTimer, m.attempt));
      NobodyMoves(y, y.socks);
    case UdpArrives(_) =>
  }

  // ---- Runs ----

  predicate TcpMoves(y: Sys, ms: seq<Move>)
    decreases |ms|
  {
    ms == [] || (TcpMove(y, ms[0]) && TcpMoves(StepSys(y, ms[0]), ms[1..]))
  }

  function RunSys(y: Sys, ms: seq<Move>): Sys
    requires TcpMoves(y, ms)
    decreases |ms|
  {
    if ms == [] then y else RunSys(StepSys(y, ms[0]), ms[1..])
  }

  ghost predicate DistinctAlong(y: Sys, ms: seq<Move>)
    requires TcpMoves(y, ms)
    decreases |ms|
  {
    ms != [] ==> Distinct(y.d.outstanding) && DistinctAlong(StepSys(y, ms[0]), ms[1..])
  }

  ghost predicate NoLateReadFailure(y: Sys, ms: seq<Move>)
    requires TcpMoves(y, ms)
    decreases |ms|
  {
    ms != [] ==> !LateReadFailure(y, ms[0].deed) && NoLateReadFailure(StepSys(y, ms[0]), ms[1..])
  }

  /** Nothing can happen to a run that has left its event loop. */
  lemma OverIsOver(y: Sys, ms: seq<Move>)
    requires TcpMoves(y, ms) && !y.d.core.mode.phase.Running?
    ensures ms == []
  {
  }

  ghost predicate NoClash(y: Sys, ms: seq<Move>)
    requires TcpMoves(y, ms)
    decreases |ms|
  {
    ms != [] ==> !RestartClashes(y, ms[0]) && NoClash(StepSys(y, ms[0]), ms[1..])
  }

  ghost predicate AllCallOwners(y: Sys, ms: seq<Move>)
    requires TcpMoves(y, ms)
    decreases |ms|
  {
    ms != [] ==> CallsOwner(y, ms[0].deed) && AllCallOwners(StepSys(y, ms[0]), ms[1..])
  }

  lemma {:induction false} RunLinked(y: Sys, ms: seq<Move>)
    requires Linked(y) && TcpMoves(y, ms)
    ensures AllCallOwners(y, ms)
    ensures var y' := RunSys(y, ms);
            && (y'.d.core.mode.phase.InLoop() ==> Linked(y'))
            && (y'.d.core.mode.phase.Crashed? <==> !NoLateReadFailure(y, ms))
            && (y'.d.core.mode.phase.Aborted? <==> !NoClash(y, ms))
    decreases |ms|
  {
    if ms != [] {
      MoveSafe(y, ms[0]);
      var y' := StepSys(y, ms[0]);
      if y'.d.core.mode.phase.InLoop() {
        RunLinked(y', ms[1..]);
      } else {
        OverIsOver(y', ms[1..]);
      }
    }
  }

  lemma {:induction false} RunSafe(y: Sys, ms: seq<Move>)
    requires SysInv(y) && TcpMoves(y, ms) && DistinctAlong(y, ms)
    ensures var y' := RunSys(y, ms);
            !y'.d.core.mode.phase.Aborted? && (y'.d.core.mode.phase.InLoop() ==> SysInv(y'))
    decreases |ms|
  {
    if ms != [] {
      MoveSafe(y, ms[0]);
      var y' := StepSys(y, ms[0]);
      if y'.d.core.mode.phase.InLoop() {
        RunSafe(y', ms[1..]);
      } else {
        OverIsOver(y', ms[1..]);
      }
    }
  }

  // ---- From the start ----

  function Opened(q: seq<Ev>, bufs: seq<seq<byte>>): (socks: seq<Bound>)
    ensures |socks| == |bufs|
    ensures forall i | 0 <= i < |socks| :: socks[i] == Bound(OwnerSlot(q, i), Started(bufs[i]))
  {
    seq(|bufs|, i requires 0 <= i < |bufs| => Bound(OwnerSlot(q, i), Started(bufs[i])))
  }

  /** At the entry of the event loop one socket is connecting for each event. */
  function BeginSys(window: nat, timeout: int, tries: seq<Try>, bufs: seq<seq<byte>>): Sys
    requires |tries| == |bufs| == window
  {
    var d := Begin(window, timeout, tries);
    Sys(d, Opened(d.outstanding, bufs))
  }

  ghost predicate TcpStart(tries: seq<Try>, bufs: seq<seq<byte>>) {
    && (forall i | 0 <= i < |tries| :: AllTcp(tries[i].attempt))
    && (forall i | 0 <= i < |bufs| :: |bufs[i]| >= MAX_MESSAGE)
  }

  /** The first `i` events own the sockets of their own numbers, and no other socket exists. */
  ghost predicate OpenedUpTo(s: State, i: nat) {
    Dispatched(s, i) && s.core.net == Net(i, 0, false) && forall k | 0 <= k < i :: s.outstanding[k].sock == Some(k)
  }

  lemma {:induction false} DispatchOpens(s: State, i: nat, tries: seq<Try>)
    requires OpenedUpTo(s, i) && |tries| == |s.outstanding| && forall k | 0 <= k < |tries| :: AllTcp(tries[k].attempt)
    ensures var s' := Dispatch(s, i, tries);
            if s'.core.mode.phase.Running? then OpenedUpTo(s', |tries|) else s'.core.mode.phase.Threw?
    decreases |s.outstanding| - i
  {
    if i < |s.outstanding| {
      DispatchOne(s, i, tries[i].at, tries[i].attempt);
      SendNet(s.core, s.outstanding[i], tries[i].at, tries[i].attempt);
      var (c, e) := Send(s.core, s.outstanding[i], tries[i].at, tries[i].attempt);
      if c.mode.phase.Running? {
        DispatchOpens(State(c, s.outstanding[i := e]), i + 1, tries);
      }
    }
  }

  /** The events own the sockets of their own numbers. */
  ghost predicate Numbered(q: seq<Ev>) {
    forall k | 0 <= k < |q| :: q[k].slot == k && q[k].sock == Some(k)
  }

  lemma NumberedLinks(q: seq<Ev>, bufs: seq<seq<byte>>)
    requires Numbered(q) && |q| == |bufs| && forall i | 0 <= i < |bufs| :: |bufs[i]| >= MAX_MESSAGE
    ensures AllMayOwn(Opened(q, bufs), q) && AllOk(q, Opened(q, bufs))
  {
    var socks := Opened(q, bufs);
    forall id: nat | id < |socks| ensures SockOk(q, socks[id].sock, id) && socks[id].slot == id {
      StartedOk(bufs[id]);
      assert q[id].sock == Some(id);
      OwnerSlotIs(q, id, id);
    }
    forall k | 0 <= k < |q| ensures MayOwn(socks, q[k]) {
      assert q[k].sock == Some(k);
    }
  }

  lemma BeginInv(window: nat, timeout: int, tries: seq<Try>, bufs: seq<seq<byte>>)
    requires |tries| == |bufs| == window > 0 && TcpStart(tries, bufs)
    ensures var y := BeginSys(window, timeout, tries, bufs);
            if y.d.core.mode.phase.Running? then SysInv(y) else y.d.core.mode.phase.Threw?
  {
    BeginGood(window, timeout, tries);
    DispatchOpens(Idle(window, timeout), 0, tries);
    var d := Begin(window, timeout, tries);
    if d.core.mode.phase.Running? {
      assert Numbered(d.outstanding);
      NumberedLinks(d.outstanding, bufs);
    }
  }

  /** What the invariant says to a reader: `e` owns exactly one socket, which works for it with one
      operation pending. */
  ghost predicate Served(y: Sys, e: Ev) {
    && Owns(y.socks, e)
    && var b := y.socks[e.sock.value].sock;
       !b.released && !b.completed && !b.cancelled && |b.pending| == 1
  }

  /** Every other socket has been released, and its callback will not come. */
  ghost predicate Retired(y: Sys, id: nat) {
    id < |y.socks| && y.socks[id].sock.released &&
    forall c: S.Completion | S.Legal(y.socks[id].sock, S.Complete(c)) && !c.ownerReleases ::
      S.CompleteSock(y.socks[id].sock, c).reports == y.socks[id].sock.reports
  }

  lemma EveryEventServed(y: Sys)
    requires SysInv(y)
    ensures forall k {:trigger y.d.outstanding[k]} | 0 <= k < |y.d.outstanding| :: Served(y, y.d.outstanding[k])
    ensures forall j, k {:trigger y.d.outstanding[j], y.d.outstanding[k]} | 0 <= j < k < |y.d.outstanding| ::
              y.d.outstanding[j].sock != y.d.outstanding[k].sock
    ensures forall id: nat | id < |y.socks| && !Owned(y.d.outstanding, id) :: Retired(y, id)
  {
    var q := y.d.outstanding;
    forall k | 0 <= k < |q| ensures Served(y, q[k]) {
      assert MayOwn(y.socks, q[k]);
      var id := q[k].sock.value;
      assert Owned(q, id);
      assert SockOk(q, y.socks[id].sock, id);
    }
    forall j, k | 0 <= j < k < |q| ensures q[j].sock != q[k].sock {
      assert MayOwn(y.socks, q[j]) && MayOwn(y.socks, q[k]);
      OwnersDiffer(y.socks, q, j, k);
    }
    forall id: nat | id < |y.socks| && !Owned(q, id) ensures Retired(y, id) {
      assert SockOk(q, y.socks[id].sock, id);
      forall c: S.Completion | S.Legal(y.socks[id].sock, S.Complete(c)) && !c.ownerReleases
        ensures S.CompleteSock(y.socks[id].sock, c).reports == y.socks[id].sock.reports
      {
        SockCompletes(y.socks[id].sock, c);
      }
    }
  }

  /**
   The composition over whole runs: when all queries go over TCP and IDs are distinct, neither
   assertion ever fails; at every boundary of the event loop each outstanding event owns exactly one
   socket, at work on its behalf, while all others are retired; sockets created = queries sent, sockets
   released = sent minus outstanding; and the UDP socket never calls back. The run crashes if and
   only if some data read fails, other than by end of file, after a first message was kept.
   */
  lemma TcpRunSafe(window: nat, timeout: int, tries: seq<Try>, bufs: seq<seq<byte>>, ms: seq<Move>)
    requires |tries| == |bufs| == window > 0 && TcpStart(tries, bufs)
    requires var y := BeginSys(window, timeout, tries, bufs); TcpMoves(y, ms) && DistinctAlong(y, ms)
    ensures var y := BeginSys(window, timeout, tries, bufs);
            var y' := RunSys(y, ms);
            var d, net := y'.d, y'.d.core.net;
            && !d.core.mode.phase.Aborted?
            && (d.core.mode.phase.Crashed? <==> !NoLateReadFailure(y, ms))
            && (d.core.mode.phase.InLoop() ==>
                  && net.created == d.core.tally.sent == |y'.socks|
                  && net.released == d.core.tally.sent - |d.outstanding|
                  && (forall qid :: !Enabled(d, Response(qid)))
                  && (forall k {:trigger d.outstanding[k]} | 0 <= k < |d.outstanding| :: Served(y', d.outstanding[k]))
                  && (forall j, k {:trigger d.outstanding[j], d.outstanding[k]} | 0 <= j < k < |d.outstanding| ::
                        d.outstanding[j].sock != d.outstanding[k].sock)
                  && (forall id: nat | id < |y'.socks| && !Owned(d.outstanding, id) :: Retired(y', id)))
  {
    var y := BeginSys(window, timeout, tries, bufs);
    BeginInv(window, timeout, tries, bufs);
    if y.d.core.mode.phase.Running? {
      RunLinked(y, ms);
      RunSafe(y, ms);
      var y' := RunSys(y, ms);
      if y'.d.core.mode.phase.InLoop() {
        EveryEventServed(y');
      }
    } else {
      OverIsOver(y, ms);
    }
  }

  /**
   The same without any condition on IDs: a socket calls back only the event that owns it, so that the
   assertion of `clearTCPSocket` never fails; the run dies on an assertion if and only if some restart
   is about to send on an event that owns a socket already; it crashes as above.
   */
  lemma TcpRunAborts(window: nat, timeout: int, tries: seq<Try>, bufs: seq<seq<byte>>, ms: seq<Move>)
    requires |tries| == |bufs| == window > 0 && TcpStart(tries, bufs)
    requires TcpMoves(BeginSys(window, timeout, tries, bufs), ms)
    ensures var y := BeginSys(window, timeout, tries, bufs);
            var phase := RunSys(y, ms).d.core.mode.phase;
            && AllCallOwners(y, ms)
            && (phase.Aborted? <==> !NoClash(y, ms))
            && (phase.Crashed? <==> !NoLateReadFailure(y, ms))
  {
    var y := BeginSys(window, timeout, tries, bufs);
    BeginInv(window, timeout, tries, bufs);
    if y.d.core.mode.phase.Running? {
      RunLinked(y, ms);
    } else {
      OverIsOver(y, ms);
    }
  }

  // ---- Distinct IDs from the clock ----

  ghost predicate PunctualMoves(y: Sys, ms: seq<Move>, lag: nat)
    requires TcpMoves(y, ms)
    decreases |ms|
  {
    ms != [] ==> Punctual(y.d, ms[0].at, lag) && PunctualMoves(StepSys(y, ms[0]), ms[1..], lag)
  }

  lemma MoveLogGrows(y: Sys, m: Move)
    requires CanHappen(y, m.deed)
    ensures y.d.core.tally.log <= StepSys(y, m).d.core.tally.log
    ensures SameConf(y.d.core, StepSys(y, m).d.core)
  {
    var what := CallbackOf(y, m.deed);
    if what.Some? && Enabled(y.d, what.value) {
      StepLogGrows(y.d, Input(m.at, what.value, m.attempt));
      StepKeepsWindow(y.d, Input(m.at, what.value, m.attempt));
    }
  }

  lemma {:induction false} RunSysLogGrows(y: Sys, ms: seq<Move>)
    requires TcpMoves(y, ms)
    ensures y.d.core.tally.log <= RunSys(y, ms).d.core.tally.log
    decreases |ms|
  {
    if ms != [] {
      MoveLogGrows(y, ms[0]);
      RunSysLogGrows(StepSys(y, ms[0]), ms[1..]);
    }
  }

  lemma MoveTimed(y: Sys, m: Move, lag: nat)
    requires SysInv(y) && Distinct(y.d.outstanding) && TcpMove(y, m)
    requires Timed(y.d, lag) && Punctual(y.d, m.at, lag)
    ensures var d' := StepSys(y, m).d; d'.core.mode.phase.InLoop() ==> Timed(d', lag)
  {
    var what := CallbackOf(y, m.deed);
    if what.Some? && Enabled(y.d, what.value) {
      StepTimed(y.d, Input(m.at, what.value, m.attempt), lag);
    }
  }

  lemma {:induction false} RateMakesRunDistinct(y: Sys, ms: seq<Move>, lag: nat)
    requires SysInv(y) && Timed(y.d, lag) && TcpMoves(y, ms) && PunctualMoves(y, ms, lag)
    requires RateBound(RunSys(y, ms).d.core.tally.log, y.d.core.timeout + lag)
    ensures DistinctAlong(y, ms)
    decreases |ms|
  {
    if ms != [] {
      RunSysLogGrows(y, ms);
      RatePrefix(y.d.core.tally.log, RunSys(y, ms).d.core.tally.log, y.d.core.timeout + lag);
      RateMakesDistinct(y.d, lag);
      var y' := StepSys(y, ms[0]);
      MoveSafe(y, ms[0]);
      MoveTimed(y, ms[0], lag);
      MoveLogGrows(y, ms[0]);
      if y'.d.core.mode.phase.InLoop() {
        RateMakesRunDistinct(y', ms[1..], lag);
      } else {
        OverIsOver(y', ms[1..]);
      }
    }
  }

  /** The condition on IDs comes for free when no timer is overdue by more than `lag` and no interval of
      one timeout plus `lag` holds more than 65536 sends. */
  lemma TimedTcpRunIsDistinct(window: nat, timeout: int, tries: seq<Try>, bufs: seq<seq<byte>>, ms: seq<Move>,
                              lag: nat)
    requires |tries| == |bufs| == window > 0 && TcpStart(tries, bufs) && PromptStart(timeout, tries, lag)
    requires var y := BeginSys(window, timeout, tries, bufs);
             && TcpMoves(y, ms) && PunctualMoves(y, ms, lag)
             && RateBound(RunSys(y, ms).d.core.tally.log, timeout + lag)
    ensures DistinctAlong(BeginSys(window, timeout, tries, bufs), ms)
  {
    var y := BeginSys(window, timeout, tries, bufs);
    BeginInv(window, timeout, tries, bufs);
    if y.d.core.mode.phase.Running? {
      DispatchKeepsWindow(Idle(window, timeout), 0, tries);
      DispatchOnTime(Idle(window, timeout), 0, tries, lag);
      RateMakesRunDistinct(y, ms, lag);
    } else {
      OverIsOver(y, ms);
    }
  }
}
