/**
 What every run of the dispatcher keeps, even when query IDs collide: each query
 sent is completed, failed or outstanding, exactly one of these; the window is
 full while sending is on; `stop` is called once, when nothing is left.
 */
module Conservation {
  import opened Wrappers
  import opened DispatcherSpec
  import opened RepositorySpec

  ghost function Seqs(q: seq<Ev>): set<nat> {
    set e | e in q :: e.seqno
  }

  ghost function Upto(n: nat): (r: set<nat>)
    ensures forall k: nat :: k in r <==> k < n
  {
    if n == 0 then {} else Upto(n - 1) + {n - 1}
  }

  /** Events are distinct objects and stand for distinct queries. */
  ghost predicate Uniq(q: seq<Ev>) {
    forall i, j {:trigger Differ(q[i], q[j])} | 0 <= i < j < |q| :: Differ(q[i], q[j])
  }

  ghost predicate Differ(a: Ev, b: Ev) {
    a.slot != b.slot && a.seqno != b.seqno
  }

  lemma UniqAt(q: seq<Ev>, i: nat, j: nat)
    requires Uniq(q) && i < |q| && j < |q| && i != j
    ensures q[i].slot != q[j].slot && q[i].seqno != q[j].seqno
  {
    assert if i < j then Differ(q[i], q[j]) else Differ(q[j], q[i]);
  }

  lemma LocateOwn(q: seq<Ev>, k: nat)
    requires Uniq(q) && k < |q|
    ensures Locate(q, q[k].slot) == k
  {
    var f := Locate(q, q[k].slot);
    if f < k {
      UniqAt(q, f, k);
    }
  }

  ghost predicate EvOk(t: Tally, e: Ev) {
    e.seqno < |t.log| && e.qid == Wrap16(e.seqno) && t.log[e.seqno].slot == e.slot
  }

  ghost predicate EvsOk(t: Tally, q: seq<Ev>) {
    forall k {:trigger EvOk(t, q[k])} | 0 <= k < |q| :: EvOk(t, q[k])
  }

  ghost predicate LogOk(t: Tally) {
    && |t.log| == t.sent
    && t.nextQid == Wrap16(t.sent)
    && forall k | 0 <= k < |t.log| :: t.log[k].qid == Wrap16(k)
  }

  ghost predicate Parts(all: set<nat>, a: set<nat>, b: set<nat>, c: set<nat>) {
    a + b + c == all && a !! b && a !! c && b !! c
  }

  /** The queries sent are completed, failed or outstanding, and the counters say how many. */
  ghost predicate Partition(t: Tally, q: seq<Ev>) {
    && Parts(Upto(t.sent), t.completedSeqs, t.failedSeqs, Seqs(q))
    && t.completed == |t.completedSeqs|
    && t.sent == t.completed + |t.failedSeqs| + |q|
  }

  ghost predicate Books(t: Tally, q: seq<Ev>) {
    LogOk(t) && Uniq(q) && EvsOk(t, q) && Partition(t, q)
  }

  ghost predicate ModeOk(c: Core, n: nat) {
    && c.window > 0
    && (c.mode.keepSending ==> n == c.window)
    && c.mode.phase.InLoop()
    && (c.mode.phase.Stopped? <==> n == 0)
    && c.mode.stops == (if n == 0 then 1 else 0)
  }

  /** The invariant at every boundary of the event loop. */
  ghost predicate Good(s: State) {
    Books(s.core.tally, s.outstanding) && ModeOk(s.core, |s.outstanding|)
  }

  /** What is left of it when a run dies. */
  ghost predicate Bounded(c: Core) {
    && c.tally.completed + |c.tally.failedSeqs| <= c.tally.sent
    && c.tally.completed == |c.tally.completedSeqs|
    && LogOk(c.tally)
    && c.mode.stops <= 1
  }

  lemma UniqWithout(q: seq<Ev>, i: nat)
    requires Uniq(q) && i < |q|
    ensures Uniq(Without(q, i))
  {
    var r := Without(q, i);
    forall j, k | 0 <= j < k < |r| ensures Differ(r[j], r[k]) {
      UniqAt(q, if j < i then j else j + 1, if k < i then k else k + 1);
    }
  }

  lemma SeqsWithout(q: seq<Ev>, i: nat)
    requires Uniq(q) && i < |q|
    ensures Seqs(Without(q, i)) == Seqs(q) - {q[i].seqno}
  {
    var r := Without(q, i);
    forall k | k in Seqs(q) - {q[i].seqno} ensures k in Seqs(r) {
      var j :| 0 <= j < |q| && q[j].seqno == k;
      assert r[if j < i then j else j - 1] == q[j];
    }
    forall k | k in Seqs(r) ensures k in Seqs(q) - {q[i].seqno} {
      var j :| 0 <= j < |r| && r[j].seqno == k;
      var j' := if j < i then j else j + 1;
      UniqAt(q, i, j');
      assert q[j'] in q;
    }
  }

  lemma SeqsUpdate(q: seq<Ev>, i: nat, e: Ev)
    requires i < |q| && e.seqno == q[i].seqno
    ensures Seqs(q[i := e]) == Seqs(q)
  {
    var r := q[i := e];
    forall k | k in Seqs(q) ensures k in Seqs(r) {
      var j :| 0 <= j < |q| && q[j].seqno == k;
      assert r[j] in r;
    }
    forall k | k in Seqs(r) ensures k in Seqs(q) {
      var j :| 0 <= j < |r| && r[j].seqno == k;
      assert q[j] in q;
    }
  }

  lemma SeqsSnoc(q: seq<Ev>, e: Ev)
    ensures Seqs(q + [e]) == Seqs(q) + {e.seqno}
  {
    forall k | k in Seqs(q) + {e.seqno} ensures k in Seqs(q + [e]) {
      if k in Seqs(q) {
        var f :| f in q && f.seqno == k;
        assert f in q + [e];
      } else {
        assert e in q + [e];
      }
    }
  }

  lemma UniqUpdate(q: seq<Ev>, i: nat, e: Ev)
    requires Uniq(q) && i < |q| && e.seqno == q[i].seqno && e.slot == q[i].slot
    ensures Uniq(q[i := e])
  {
    var r := q[i := e];
    forall j, k | 0 <= j < k < |r| ensures Differ(r[j], r[k]) {
      UniqAt(q, j, k);
    }
  }

  /** Changing only the timer or the socket of one event keeps the books. */
  lemma MarkBooks(t: Tally, q: seq<Ev>, i: nat, e: Ev)
    requires Books(t, q) && i < |q|
    requires e == q[i].(deadline := e.deadline, sock := e.sock)
    ensures Books(t, q[i := e])
  {
    SeqsUpdate(q, i, e);
    UniqUpdate(q, i, e);
    var r := q[i := e];
    forall k | 0 <= k < |r| ensures EvOk(t, r[k]) {
      assert EvOk(t, q[k]);
    }
  }

  /** One element moves from the third part of a partition to the first, or to the second. */
  lemma PartMoves(all: set<nat>, a: set<nat>, b: set<nat>, c: set<nat>, x: nat)
    requires Parts(all, a, b, c) && x in c
    ensures Parts(all, a + {x}, b, c - {x}) && x !in a
    ensures Parts(all, a, b + {x}, c - {x}) && x !in b
  {
    assert (a + {x}) + b + (c - {x}) == a + b + c;
    assert a + (b + {x}) + (c - {x}) == a + b + c;
  }

  /** A new element joins the third part. */
  lemma PartGrows(all: set<nat>, a: set<nat>, b: set<nat>, c: set<nat>, x: nat)
    requires Parts(all, a, b, c) && x !in all
    ensures Parts(all + {x}, a, b, c + {x})
  {
    assert x in a || x in b || x in c ==> x in a + b + c;
    assert a + b + (c + {x}) == (a + b + c) + {x};
  }

  lemma UptoNext(n: nat)
    ensures Upto(n + 1) == Upto(n) + {n} && n !in Upto(n)
  {
  }

  lemma PartitionCounted(t: Tally, q: seq<Ev>, e: Ev, r: seq<Ev>, answered: bool)
    requires Partition(t, q) && e.seqno in Seqs(q)
    requires Seqs(r) == Seqs(q) - {e.seqno} && |r| == |q| - 1
    ensures Partition(Counted(t, e, answered), r)
  {
    PartMoves(Upto(t.sent), t.completedSeqs, t.failedSeqs, Seqs(q), e.seqno);
    var t' := Counted(t, e, answered);
    assert Parts(Upto(t'.sent), t'.completedSeqs, t'.failedSeqs, Seqs(r));
  }

  lemma EvsOkWithout(t: Tally, q: seq<Ev>, i: nat, answered: bool)
    requires EvsOk(t, q) && i < |q|
    ensures EvsOk(Counted(t, q[i], answered), Without(q, i))
  {
    var t', r := Counted(t, q[i], answered), Without(q, i);
    forall k | 0 <= k < |r| ensures EvOk(t', r[k]) {
      assert EvOk(t, q[if k < i then k else k + 1]);
    }
  }

  lemma SlotGone(q: seq<Ev>, i: nat)
    requires Uniq(q) && i < |q|
    ensures forall e | e in Without(q, i) :: e.slot != q[i].slot
  {
    var r := Without(q, i);
    forall e | e in r ensures e.slot != q[i].slot {
      var k :| 0 <= k < |r| && r[k] == e;
      UniqAt(q, i, if k < i then k else k + 1);
    }
  }

  /** Counting an event and taking it off the list. */
  lemma CountBooks(t: Tally, q: seq<Ev>, i: nat, answered: bool)
    requires Books(t, q) && i < |q|
    ensures Books(Counted(t, q[i], answered), Without(q, i))
    ensures forall e | e in Without(q, i) :: e.slot != q[i].slot
  {
    SlotGone(q, i);
    UniqWithout(q, i);
    SeqsWithout(q, i);
    EvsOkWithout(t, q, i, answered);
    assert q[i] in q;
    PartitionCounted(t, q, q[i], Without(q, i), answered);
  }

  lemma SeqnosBelow(t: Tally, q: seq<Ev>)
    requires Partition(t, q)
    ensures forall k | 0 <= k < |q| :: q[k].seqno < t.sent
  {
    forall k | 0 <= k < |q| ensures q[k].seqno < t.sent {
      assert q[k] in q;
      assert q[k].seqno in Seqs(q);
    }
  }

  lemma PartitionLogged(t: Tally, rest: seq<Ev>, t': Tally, e: Ev)
    requires Partition(t, rest) && e.seqno == t.sent
    requires t' == t.(nextQid := t'.nextQid, sent := t.sent + 1, log := t'.log)
    ensures Partition(t', rest + [e])
  {
    var n, c := t.sent, Seqs(rest);
    SeqsSnoc(rest, e);
    UptoNext(n);
    PartGrows(Upto(n), t.completedSeqs, t.failedSeqs, c, n);
  }

  lemma LogLogged(t: Tally, e: Ev, q: Query, now: int)
    requires LogOk(t)
    ensures LogOk(Logged(t, e, q, now))
  {
  }

  /** A query sent with the next number joins the books. `e` is the event as sent. */
  lemma LogBooks(t: Tally, rest: seq<Ev>, e: Ev, q: Query, now: int)
    requires Books(t, rest)
    requires forall f | f in rest :: f.slot != e.slot
    requires e.seqno == t.sent && e.qid == t.nextQid
    ensures Books(Logged(t, e, q, now), rest + [e])
  {
    var t' := Logged(t, e, q, now);
    LogLogged(t, e, q, now);
    PartitionLogged(t, rest, t', e);
    SeqnosBelow(t, rest);
    forall k | 0 <= k < |rest| ensures EvOk(t', rest[k]) {
      assert EvOk(t, rest[k]);
    }
    forall j, k | 0 <= j < k < |rest + [e]| ensures Differ((rest + [e])[j], (rest + [e])[k]) {
      if k < |rest| {
        UniqAt(rest, j, k);
      }
    }
  }

  // ---- Steps ----

  /** What `Send` does to the parts that the invariant speaks of. */
  lemma SendFacts(c: Core, e: Ev, now: int, a: Attempt)
    requires c.mode.phase.Running?
    ensures var (c', e') := Send(c, e, now, a);
            && c'.window == c.window && c'.timeout == c.timeout
            && c'.mode == c.mode.(phase := c'.mode.phase)
            && (c'.mode.phase.Running? ==>
                  && a.SendOk? && c'.tally == Logged(c.tally, e, a.query, now)
                  && e'.slot == e.slot && e'.seqno == c.tally.sent && e'.qid == c.tally.nextQid)
            && (!c'.mode.phase.Running? ==>
                  !c'.mode.phase.Stopped? && c'.tally == c.tally && e'.seqno == e.seqno && e'.slot == e.slot)
  {
  }

  lemma BooksBounded(t: Tally, q: seq<Ev>)
    requires Books(t, q)
    ensures t.completed + |t.failedSeqs| <= t.sent && t.completed == |t.completedSeqs| && LogOk(t)
  {
  }

  lemma ResendGood(s: State, i: nat, answered: bool, now: int, a: Attempt)
    requires Good(s) && s.core.mode.phase.Running? && s.core.mode.keepSending && i < |s.outstanding|
    ensures var s' := Resend(s, i, answered, now, a);
            Bounded(s'.core) && (s'.core.mode.phase.InLoop() ==> Good(s'))
  {
    var e, rest := s.outstanding[i], Without(s.outstanding, i);
    var c := Count(s.core, e, answered);
    CountBooks(s.core.tally, s.outstanding, i, answered);
    BooksBounded(c.tally, rest);
    SendFacts(c, e, now, a);
    var (c', e') := Send(c, e, now, a);
    if c'.mode.phase.Running? {
      assert Logged(c.tally, e', a.query, now) == c'.tally;
      LogBooks(c.tally, rest, e', a.query, now);
      BooksBounded(c'.tally, rest + [e']);
    }
  }

  lemma EraseFacts(c: Core, e: Ev, last: bool)
    ensures var c' := Erase(c, e, last);
            && c'.window == c.window && c'.timeout == c.timeout && c'.tally == c.tally
            && c'.mode == if last then c.mode.(phase := Stopped, stops := c.mode.stops + 1) else c.mode
  {
  }

  lemma DropGood(s: State, i: nat, answered: bool)
    requires Good(s) && s.core.mode.phase.Running? && !s.core.mode.keepSending && i < |s.outstanding|
    ensures var s' := Drop(s, i, answered);
            Bounded(s'.core) && Good(s')
  {
    var e, rest := s.outstanding[i], Without(s.outstanding, i);
    var c := Count(s.core, e, answered);
    CountBooks(s.core.tally, s.outstanding, i, answered);
    BooksBounded(c.tally, rest);
    EraseFacts(c, e, |s.outstanding| == 1);
    var c' := Erase(c, e, |s.outstanding| == 1);
    assert ModeOk(c', |rest|);
  }

  lemma RestartGood(s: State, qid: nat, answered: bool, now: int, a: Attempt)
    requires Good(s) && s.core.mode.phase.Running?
    ensures var s' := Restart(s, qid, answered, now, a);
            Bounded(s'.core) && (s'.core.mode.phase.InLoop() ==> Good(s'))
  {
    var i := Find(s.outstanding, qid);
    if i == |s.outstanding| {
      BooksBounded(s.core.tally, s.outstanding);
    } else if s.core.mode.keepSending {
      ResendGood(s, i, answered, now, a);
    } else {
      DropGood(s, i, answered);
    }
  }

  lemma TimeoutGood(s: State, k: nat, now: int, a: Attempt)
    requires Good(s) && s.core.mode.phase.Running? && k < |s.outstanding|
    ensures var s' := OnTimeout(s, k, now, a);
            Bounded(s'.core) && (s'.core.mode.phase.InLoop() ==> Good(s'))
  {
    var (c, e) := Expire(s.core, s.outstanding[k]);
    MarkBooks(s.core.tally, s.outstanding, k, e);
    RestartGood(State(c, s.outstanding[k := e]), e.qid, false, now, a);
  }

  lemma TcpDoneGood(s: State, k: nat, payload: Payload, now: int, a: Attempt)
    requires Good(s) && s.core.mode.phase.Running? && k < |s.outstanding|
    ensures var s' := OnTcpDone(s, k, payload, now, a);
            Bounded(s'.core) && (s'.core.mode.phase.InLoop() ==> Good(s'))
  {
    BooksBounded(s.core.tally, s.outstanding);
    if s.outstanding[k].sock.Some? {
      var (c, e) := Clear(s.core, s.outstanding[k]);
      MarkBooks(s.core.tally, s.outstanding, k, e);
      RestartGood(State(c, s.outstanding[k := e]), e.qid, payload.Header?, now, a);
    }
  }

  lemma StepGood(s: State, i: Input)
    requires Good(s) && Enabled(s, i.what)
    ensures var s' := Step(s, i);
            Bounded(s'.core) && (s'.core.mode.phase.InLoop() ==> Good(s'))
  {
    match i.what
    case Response(qid) =>
      BooksBounded(s.core.tally, s.outstanding);
      if qid.Some? {
        RestartGood(s, qid.value, true, i.at, i.attempt);
      }
    case QueryTimeout(slot) => TimeoutGood(s, Locate(s.outstanding, slot), i.at, i.attempt);
    case TcpDone(slot, payload) => TcpDoneGood(s, Locate(s.outstanding, slot), payload, i.at, i.attempt);
    case SessionTimer => BooksBounded(s.core.tally, s.outstanding);
  }

  lemma DeadRun(s: State, ins: seq<Input>)
    requires ValidRun(s, ins) && !s.core.mode.phase.Running?
    ensures ins == []
  {
  }

  lemma {:induction false} RunGood(s: State, ins: seq<Input>)
    requires Good(s) && ValidRun(s, ins)
    ensures Bounded(Run(s, ins).core)
    ensures Run(s, ins).core.mode.phase.InLoop() ==> Good(Run(s, ins))
    decreases |ins|
  {
    if ins != [] {
      var s' := Step(s, ins[0]);
      StepGood(s, ins[0]);
      if s'.core.mode.phase.InLoop() {
        RunGood(s', ins[1..]);
      } else {
        DeadRun(s', ins[1..]);
      }
    }
  }

  // ---- The start ----

  /** The first `i` events of the pool have been sent. */
  ghost predicate Dispatched(s: State, i: nat) {
    && i <= |s.outstanding| == s.core.window
    && s.core.mode == Mode(true, true, Running, 0)
    && s.core.tally == Tally(Wrap16(i), i, 0, s.core.tally.log, {}, {})
    && LogOk(s.core.tally)
    && (forall k | 0 <= k < i ::
          s.outstanding[k].seqno == k == s.outstanding[k].slot && EvOk(s.core.tally, s.outstanding[k]))
    && (forall k | i <= k < |s.outstanding| :: s.outstanding[k] == Ev(k, 0, 0, None, None))
  }

  lemma SeqsDispatched(q: seq<Ev>)
    requires forall k | 0 <= k < |q| :: q[k].seqno == k
    ensures Seqs(q) == Upto(|q|)
  {
    forall k | k in Upto(|q|) ensures k in Seqs(q) {
      assert q[k] in q;
    }
  }

  lemma DispatchOne(s: State, i: nat, now: int, a: Attempt)
    requires Dispatched(s, i) && i < |s.outstanding|
    ensures var (c, e) := Send(s.core, s.outstanding[i], now, a);
            && Bounded(c)
            && (if a.SendOk? then Dispatched(State(c, s.outstanding[i := e]), i + 1) else c.mode.phase.Threw?)
  {
    var (c, e) := Send(s.core, s.outstanding[i], now, a);
    if a.SendOk? {
      assert c.tally == Logged(s.core.tally, e, a.query, now);
      LogLogged(s.core.tally, e, a.query, now);
      forall k | 0 <= k < i ensures EvOk(c.tally, s.outstanding[k]) {
        assert EvOk(s.core.tally, s.outstanding[k]);
      }
    }
  }

  lemma {:induction false} DispatchGood(s: State, i: nat, tries: seq<Try>)
    requires Dispatched(s, i) && s.core.window > 0 && |tries| == |s.outstanding|
    ensures var s' := Dispatch(s, i, tries);
            Bounded(s'.core) && (s'.core.mode.phase.InLoop() ==> Good(s') && s'.core.mode.phase.Running?)
    decreases |s.outstanding| - i
  {
    if i == |s.outstanding| {
      var q := s.outstanding;
      SeqsDispatched(q);
      forall j, k | 0 <= j < k < |q| ensures Differ(q[j], q[k]) {
        assert q[j].slot == j && q[k].slot == k;
      }
    } else {
      DispatchOne(s, i, tries[i].at, tries[i].attempt);
      var (c, e) := Send(s.core, s.outstanding[i], tries[i].at, tries[i].attempt);
      if c.mode.phase.Running? {
        DispatchGood(State(c, s.outstanding[i := e]), i + 1, tries);
      }
    }
  }

  lemma BeginGood(window: nat, timeout: int, tries: seq<Try>)
    requires window > 0 && |tries| == window
    ensures var s := Begin(window, timeout, tries);
            Bounded(s.core) && (s.core.mode.phase.InLoop() ==> Good(s) && s.core.mode.phase.Running?)
  {
    DispatchGood(Idle(window, timeout), 0, tries);
  }

  /** An initial dispatch without an exception has sent one query for each event, in order. */
  lemma {:induction false} DispatchInOrder(s: State, i: nat, tries: seq<Try>)
    requires Dispatched(s, i) && |tries| == |s.outstanding|
    ensures var s' := Dispatch(s, i, tries);
            s'.core.mode.phase.InLoop() ==> Dispatched(s', |tries|)
    decreases |s.outstanding| - i
  {
    if i < |s.outstanding| {
      DispatchOne(s, i, tries[i].at, tries[i].attempt);
      var (c, e) := Send(s.core, s.outstanding[i], tries[i].at, tries[i].attempt);
      if c.mode.phase.Running? {
        DispatchInOrder(State(c, s.outstanding[i := e]), i + 1, tries);
      }
    }
  }

  /**
   Conservation over every run from the start, colliding IDs or not: at each boundary of the event
   loop sent = completed + failed + outstanding, as a partition of the queries sent; the window is
   full while sending is on; the next ID is the number sent in 16 bits; `stop` has been called
   once if nothing is outstanding and not otherwise. Completed never exceeds sent, even in a run
   that an exception or an assertion ended.
   */
  lemma RunConserves(window: nat, timeout: int, tries: seq<Try>, ins: seq<Input>)
    requires window > 0 && |tries| == window && ValidRun(Begin(window, timeout, tries), ins)
    ensures var s := Run(Begin(window, timeout, tries), ins);
            var t, mode := s.core.tally, s.core.mode;
            && t.completed <= t.sent == |t.log|
            && (mode.phase.InLoop() ==>
                  && t.sent == t.completed + |t.failedSeqs| + |s.outstanding|
                  && t.completedSeqs + t.failedSeqs + Seqs(s.outstanding) == Upto(t.sent)
                  && t.completed == |t.completedSeqs|
                  && (mode.keepSending ==> |s.outstanding| == window)
                  && t.nextQid == Wrap16(t.sent)
                  && mode.stops == (if s.outstanding == [] then 1 else 0)
                  && (mode.phase.Stopped? <==> s.outstanding == []))
  {
    BeginGood(window, timeout, tries);
    var s := Begin(window, timeout, tries);
    DispatchKeepsWindow(Idle(window, timeout), 0, tries);
    RunKeepsWindow(s, ins);
    if s.core.mode.phase.Running? {
      RunGood(s, ins);
    } else {
      DeadRun(s, ins);
    }
  }

  ghost predicate SameConf(c: Core, c': Core) {
    c'.window == c.window && c'.timeout == c.timeout
  }

  lemma RestartKeepsWindow(s: State, qid: nat, answered: bool, now: int, a: Attempt)
    ensures SameConf(s.core, Restart(s, qid, answered, now, a).core)
  {
  }

  lemma StepKeepsWindow(s: State, i: Input)
    requires Enabled(s, i.what)
    ensures SameConf(s.core, Step(s, i).core)
  {
    match i.what
    case Response(qid) =>
      if qid.Some? {
        RestartKeepsWindow(s, qid.value, true, i.at, i.attempt);
      }
    case QueryTimeout(slot) =>
      var k := Locate(s.outstanding, slot);
      var (c, e) := Expire(s.core, s.outstanding[k]);
      RestartKeepsWindow(State(c, s.outstanding[k := e]), e.qid, false, i.at, i.attempt);
    case TcpDone(slot, payload) =>
      var k := Locate(s.outstanding, slot);
      var (c, e) := Clear(s.core, s.outstanding[k]);
      RestartKeepsWindow(State(c, s.outstanding[k := e]), e.qid, payload.Header?, i.at, i.attempt);
    case SessionTimer =>
  }

  lemma {:induction false} RunKeepsWindow(s: State, ins: seq<Input>)
    requires ValidRun(s, ins)
    ensures SameConf(s.core, Run(s, ins).core)
    decreases |ins|
  {
    if ins != [] {
      StepKeepsWindow(s, ins[0]);
      RunKeepsWindow(Step(s, ins[0]), ins[1..]);
    }
  }

  lemma {:induction false} DispatchKeepsWindow(s: State, i: nat, tries: seq<Try>)
    requires i <= |s.outstanding| == |tries|
    ensures SameConf(s.core, Dispatch(s, i, tries).core)
    decreases |s.outstanding| - i
  {
    if i < |s.outstanding| && s.core.mode.phase.Running? {
      var (c, e) := Send(s.core, s.outstanding[i], tries[i].at, tries[i].attempt);
      DispatchKeepsWindow(State(c, s.outstanding[i := e]), i + 1, tries);
    }
  }
}
