/**
 The dispatcher together with the repository it draws from: which steps take a
 request, and what the sequence of queries sent then is.
 */
module QueryFlow {
  import opened Wrappers
  import opened LineReader
  import opened CyclicReader
  import opened RepositorySpec
  import opened DispatcherSpec
  import opened Conservation

  /** What the timer and the sockets do when a query is to be sent. */
  datatype SendIo = IoOk | TimerThrows | SocketThrows

  /** The attempt that results, given what the repository hands out. */
  function AttemptOf(io: SendIo, q: Option<Query>): Attempt {
    if io.TimerThrows? then TimerFailed
    else if io.SocketThrows? || q.None? then SendFailed
    else SendOk(q.value)
  }

  datatype Pair = Pair(d: State, r: Repo)

  ghost function NextAttempt(r: Repo, io: SendIo): Attempt
    requires Ready(r)
  {
    AttemptOf(io, NextQuery(r))
  }

  /** `QueryContext::start` takes one request, unless the timer has thrown before. */
  ghost function Taken(r: Repo, io: SendIo): Repo
    requires Ready(r)
  {
    if io.TimerThrows? then r else AfterNext(r)
  }

  /** Whether a restart by this ID sends. */
  predicate Sends(s: State, qid: nat) {
    s.core.mode.keepSending && Find(s.outstanding, qid) < |s.outstanding|
  }

  /** Whether the callback comes to send the next query. */
  predicate Attempts(s: State, what: What) {
    s.core.mode.keepSending &&
    match what
    case Response(qid) => qid.Some? && Find(s.outstanding, qid.value) < |s.outstanding|
    case QueryTimeout(_) => true
    case TcpDone(slot, payload) =>
      var i := Locate(s.outstanding, slot);
      i < |s.outstanding| && s.outstanding[i].sock.Some? && (payload == NoData || payload == Header(true))
    case SessionTimer => false
  }

  ghost function PairStep(p: Pair, at: int, what: What, io: SendIo): Pair
    requires Ready(p.r) && Enabled(p.d, what)
  {
    Pair(Step(p.d, Input(at, what, NextAttempt(p.r, io))),
         if Attempts(p.d, what) then Taken(p.r, io) else p.r)
  }

  // ---- Runs ----

  datatype Event = Event(at: int, what: What, io: SendIo)

  ghost predicate ValidPairRun(p: Pair, evs: seq<Event>)
    requires Ready(p.r)
    decreases |evs|
  {
    AfterNextReady(p.r);
    evs == [] ||
    (Enabled(p.d, evs[0].what) && ValidPairRun(PairStep(p, evs[0].at, evs[0].what, evs[0].io), evs[1..]))
  }

  ghost function PairRun(p: Pair, evs: seq<Event>): Pair
    requires Ready(p.r) && ValidPairRun(p, evs)
    decreases |evs|
  {
    AfterNextReady(p.r);
    if evs == [] then p else PairRun(PairStep(p, evs[0].at, evs[0].what, evs[0].io), evs[1..])
  }

  datatype TryIo = TryIo(at: int, io: SendIo)

  /** The initial dispatch, drawing on the repository. */
  ghost function PairDispatch(p: Pair, i: nat, tries: seq<TryIo>): (p': Pair)
    requires Ready(p.r) && i <= |p.d.outstanding| == |tries|
    ensures Ready(p'.r)
    decreases |tries| - i
  {
    AfterNextReady(p.r);
    if i == |tries| || !p.d.core.mode.phase.Running? then p
    else
      var (c, e) := Send(p.d.core, p.d.outstanding[i], tries[i].at, NextAttempt(p.r, tries[i].io));
      PairDispatch(Pair(State(c, p.d.outstanding[i := e]), Taken(p.r, tries[i].io)), i + 1, tries)
  }

  ghost function PairBegin(window: nat, timeout: int, r: Repo, tries: seq<TryIo>): (p: Pair)
    requires Ready(r) && |tries| == window
    ensures Ready(p.r)
  {
    PairDispatch(Pair(Idle(window, timeout), r), 0, tries)
  }

  // ---- A run of the pair is a run of the dispatcher ----

  ghost function Inputs(p: Pair, evs: seq<Event>): (ins: seq<Input>)
    requires Ready(p.r) && ValidPairRun(p, evs)
    ensures |ins| == |evs|
    decreases |evs|
  {
    AfterNextReady(p.r);
    if evs == [] then []
    else
      [Input(evs[0].at, evs[0].what, NextAttempt(p.r, evs[0].io))]
      + Inputs(PairStep(p, evs[0].at, evs[0].what, evs[0].io), evs[1..])
  }

  lemma {:induction false} RunProjects(p: Pair, evs: seq<Event>)
    requires Ready(p.r) && ValidPairRun(p, evs)
    ensures ValidRun(p.d, Inputs(p, evs)) && Run(p.d, Inputs(p, evs)) == PairRun(p, evs).d
    decreases |evs|
  {
    if evs != [] {
      AfterNextReady(p.r);
      var i := Input(evs[0].at, evs[0].what, NextAttempt(p.r, evs[0].io));
      var p' := PairStep(p, evs[0].at, evs[0].what, evs[0].io);
      RunProjects(p', evs[1..]);
      assert Inputs(p, evs)[0] == i && Inputs(p, evs)[1..] == Inputs(p', evs[1..]);
    }
  }

  /** The attempts of the initial dispatch; what those after a failure would have been is moot. */
  ghost function Tries(p: Pair, i: nat, tries: seq<TryIo>): (ts: seq<Try>)
    requires Ready(p.r) && i <= |p.d.outstanding| == |tries|
    ensures |ts| == |tries| - i
    decreases |tries| - i
  {
    AfterNextReady(p.r);
    if i == |tries| then []
    else
      var a := NextAttempt(p.r, tries[i].io);
      var (c, e) := Send(p.d.core, p.d.outstanding[i], tries[i].at, a);
      [Try(tries[i].at, a)] + Tries(Pair(State(c, p.d.outstanding[i := e]), Taken(p.r, tries[i].io)), i + 1, tries)
  }

  lemma {:induction false} DispatchProjects(p: Pair, i: nat, tries: seq<TryIo>, all: seq<Try>)
    requires Ready(p.r) && i <= |p.d.outstanding| == |tries| == |all|
    requires all[i..] == Tries(p, i, tries)
    ensures PairDispatch(p, i, tries).d == Dispatch(p.d, i, all)
    decreases |tries| - i
  {
    if i < |tries| && p.d.core.mode.phase.Running? {
      AfterNextReady(p.r);
      var a := NextAttempt(p.r, tries[i].io);
      assert all[i] == all[i..][0] == Try(tries[i].at, a);
      var (c, e) := Send(p.d.core, p.d.outstanding[i], tries[i].at, a);
      assert all[i + 1..] == all[i..][1..];
      DispatchProjects(Pair(State(c, p.d.outstanding[i := e]), Taken(p.r, tries[i].io)), i + 1, tries, all);
    }
  }

  /** Whatever repository feeds it, the start of a run is one that `Begin` describes. */
  lemma BeginProjects(window: nat, timeout: int, r: Repo, tries: seq<TryIo>) returns (ts: seq<Try>)
    requires Ready(r) && |tries| == window
    ensures |ts| == window && PairBegin(window, timeout, r, tries).d == Begin(window, timeout, ts)
  {
    var p := Pair(Idle(window, timeout), r);
    ts := Tries(p, 0, tries);
    assert ts[0..] == ts;
    DispatchProjects(p, 0, tries, ts);
  }

  // ---- Which query is which ----

  /** The queries sent so far are those of the requests in turn, with the IDs in turn; and while the
      run goes on the repository stands where the next one comes from. */
  ghost predicate InTurn(p: Pair, r: Repo)
    requires Ready(r)
  {
    && LogOk(p.d.core.tally)
    && (forall i: nat | i < |p.d.core.tally.log| :: NthQuery(r, i) == Some(p.d.core.tally.log[i].query))
    && (p.d.core.mode.phase.Running? ==> p.r == AfterMany(r, p.d.core.tally.sent))
  }

  /** One query is taken from the repository and sent, or the run dies. */
  lemma SendInTurn(p: Pair, c: Core, e: Ev, now: int, io: SendIo, r: Repo, q: seq<Ev>)
    requires Ready(r) && Ready(p.r) && InTurn(p, r) && p.d.core.mode.phase.Running?
    requires c.mode.phase.Running? && LogOk(c.tally)
    requires c.tally.log == p.d.core.tally.log && c.tally.sent == p.d.core.tally.sent
    ensures InTurn(Pair(State(Send(c, e, now, NextAttempt(p.r, io)).0, q), Taken(p.r, io)), r)
  {
    var a := NextAttempt(p.r, io);
    var (c', e') := Send(c, e, now, a);
    SendFacts(c, e, now, a);
    if c'.mode.phase.Running? {
      LogLogged(c.tally, e, a.query, now);
      assert NthQuery(r, c.tally.sent) == Some(a.query);
      assert AfterMany(r, c.tally.sent + 1) == AfterNext(p.r);
    }
  }

  lemma RestartInTurn(p: Pair, s: State, qid: nat, answered: bool, now: int, io: SendIo, r: Repo)
    requires Ready(r) && Ready(p.r) && InTurn(p, r) && p.d.core.mode.phase.Running?
    requires s.core.tally == p.d.core.tally && s.core.mode == p.d.core.mode
    ensures InTurn(Pair(Restart(s, qid, answered, now, NextAttempt(p.r, io)),
                        if Sends(s, qid) then Taken(p.r, io) else p.r), r)
  {
    var i := Find(s.outstanding, qid);
    if i < |s.outstanding| {
      var e := s.outstanding[i];
      if s.core.mode.keepSending {
        var s' := Resend(s, i, answered, now, NextAttempt(p.r, io));
        SendInTurn(p, Count(s.core, e, answered), e, now, io, r, s'.outstanding);
      } else {
        EraseFacts(Count(s.core, e, answered), e, |s.outstanding| == 1);
      }
    }
  }

  lemma TimeoutInTurn(p: Pair, k: nat, at: int, io: SendIo, r: Repo)
    requires Ready(r) && Ready(p.r) && InTurn(p, r) && p.d.core.mode.phase.Running? && k < |p.d.outstanding|
    ensures var d := OnTimeout(p.d, k, at, NextAttempt(p.r, io));
            InTurn(Pair(d, if p.d.core.mode.keepSending then Taken(p.r, io) else p.r), r)
  {
    var (c, e) := Expire(p.d.core, p.d.outstanding[k]);
    var q := p.d.outstanding[k := e];
    assert q[k].qid == e.qid;
    RestartInTurn(p, State(c, q), e.qid, false, at, io, r);
  }

  lemma TcpDoneInTurn(p: Pair, k: nat, payload: Payload, at: int, io: SendIo, r: Repo)
    requires Ready(r) && Ready(p.r) && InTurn(p, r) && p.d.core.mode.phase.Running? && k < |p.d.outstanding|
    ensures var d := OnTcpDone(p.d, k, payload, at, NextAttempt(p.r, io));
            var attempts := p.d.core.mode.keepSending && p.d.outstanding[k].sock.Some?
                            && (payload == NoData || payload == Header(true));
            InTurn(Pair(d, if attempts then Taken(p.r, io) else p.r), r)
  {
    var (c, e) := Clear(p.d.core, p.d.outstanding[k]);
    var q := p.d.outstanding[k := e];
    assert q[k].qid == e.qid;
    RestartInTurn(p, State(c, q), e.qid, payload.Header?, at, io, r);
  }

  lemma StepInTurn(p: Pair, at: int, what: What, io: SendIo, r: Repo)
    requires Ready(r) && Ready(p.r) && InTurn(p, r) && Enabled(p.d, what)
    ensures InTurn(PairStep(p, at, what, io), r)
  {
    match what
    case Response(qid) =>
      if qid.Some? {
        RestartInTurn(p, p.d, qid.value, true, at, io, r);
      }
    case QueryTimeout(slot) => TimeoutInTurn(p, Locate(p.d.outstanding, slot), at, io, r);
    case TcpDone(slot, payload) => TcpDoneInTurn(p, Locate(p.d.outstanding, slot), payload, at, io, r);
    case SessionTimer =>
  }

  lemma {:induction false} RunInTurn(p: Pair, evs: seq<Event>, r: Repo)
    requires Ready(r) && Ready(p.r) && InTurn(p, r) && ValidPairRun(p, evs)
    ensures InTurn(PairRun(p, evs), r)
    decreases |evs|
  {
    AfterNextReady(p.r);
    if evs != [] {
      StepInTurn(p, evs[0].at, evs[0].what, evs[0].io, r);
      RunInTurn(PairStep(p, evs[0].at, evs[0].what, evs[0].io), evs[1..], r);
    }
  }

  lemma {:induction false} DispatchInTurn(p: Pair, i: nat, tries: seq<TryIo>, r: Repo)
    requires Ready(r) && Ready(p.r) && i <= |p.d.outstanding| == |tries| && InTurn(p, r)
    ensures InTurn(PairDispatch(p, i, tries), r)
    decreases |tries| - i
  {
    AfterNextReady(p.r);
    if i < |tries| && p.d.core.mode.phase.Running? {
      var (c, e) := Send(p.d.core, p.d.outstanding[i], tries[i].at, NextAttempt(p.r, tries[i].io));
      var q := p.d.outstanding[i := e];
      SendInTurn(p, p.d.core, p.d.outstanding[i], tries[i].at, tries[i].io, r, q);
      DispatchInTurn(Pair(State(c, q), Taken(p.r, tries[i].io)), i + 1, tries, r);
    }
  }

  /**
   End to end: over any run on any repository, the i-th query sent has the ID i modulo 65536 and is
   the i-th the repository hands out, whichever events the callbacks selected, and even if an
   exception ended the run.
   */
  lemma QueriesInTurn(window: nat, timeout: int, r: Repo, tries: seq<TryIo>, evs: seq<Event>)
    requires Ready(r) && |tries| == window && ValidPairRun(PairBegin(window, timeout, r, tries), evs)
    ensures var log := PairRun(PairBegin(window, timeout, r, tries), evs).d.core.tally.log;
            forall i: nat | i < |log| :: log[i].qid == i % 65536 && NthQuery(r, i) == Some(log[i].query)
  {
    var p := Pair(Idle(window, timeout), r);
    assert AfterMany(r, 0) == r;
    DispatchInTurn(p, 0, tries, r);
    RunInTurn(PairBegin(window, timeout, r, tries), evs, r);
  }

  /** On a preloaded repository with a fresh cursor it carries request i modulo their number. */
  lemma PreloadedInTurn(window: nat, timeout: int, r: Repo, tries: seq<TryIo>, evs: seq<Event>)
    requires Ready(r) && r.params != [] && r.current == 0
    requires |tries| == window && ValidPairRun(PairBegin(window, timeout, r, tries), evs)
    ensures var log := PairRun(PairBegin(window, timeout, r, tries), evs).d.core.tally.log;
            forall i: nat | i < |log| ::
              log[i].qid == i % 65536 && MadeOf(r.params[i % |r.params|], r.conf.useDnssec, log[i].query)
  {
    QueriesInTurn(window, timeout, r, tries, evs);
    var log := PairRun(PairBegin(window, timeout, r, tries), evs).d.core.tally.log;
    forall i: nat | i < |log| ensures MadeOf(r.params[i % |r.params|], r.conf.useDnssec, log[i].query) {
      PreloadedNth(r, i);
    }
  }

  /** After a load it asks what valid line i modulo their number said. */
  lemma LoadedInTurn(window: nat, timeout: int, r: Repo, tries: seq<TryIo>, evs: seq<Event>)
    requires r.ks != [] && r.at <= |r.ks| && Scan(r.ks[r.at..], 0).entries != []
    requires Ready(Preloaded(r)) && |tries| == window
    requires ValidPairRun(PairBegin(window, timeout, Preloaded(r), tries), evs)
    ensures var log := PairRun(PairBegin(window, timeout, Preloaded(r), tries), evs).d.core.tally.log;
            var es := Scan(r.ks[r.at..], 0).entries;
            forall i: nat | i < |log| :: log[i].qid == i % 65536 && Asks(r.conf, es[i % |es|], log[i].query)
  {
    QueriesInTurn(window, timeout, Preloaded(r), tries, evs);
    var log := PairRun(PairBegin(window, timeout, Preloaded(r), tries), evs).d.core.tally.log;
    var es := Scan(r.ks[r.at..], 0).entries;
    forall i: nat | i < |log| ensures Asks(r.conf, es[i % |es|], log[i].query) {
      LoadedAsks(r, i);
    }
  }

  /** On a repository that streams it asks what valid line i modulo their number said. */
  lemma StreamedInTurn(window: nat, timeout: int, ks: seq<Kind>, conf: Settings,
                       tries: seq<TryIo>, evs: seq<Event>)
    requires Entries(ks) != [] && !HasCyclicBlankRun(ks) && Ready(Fresh(ks, conf))
    requires |tries| == window && ValidPairRun(PairBegin(window, timeout, Fresh(ks, conf), tries), evs)
    ensures var log := PairRun(PairBegin(window, timeout, Fresh(ks, conf), tries), evs).d.core.tally.log;
            forall i: nat | i < |log| ::
              log[i].qid == i % 65536 && Asks(conf, Entries(ks)[i % |Entries(ks)|], log[i].query)
  {
    var r := Fresh(ks, conf);
    QueriesInTurn(window, timeout, r, tries, evs);
    var log := PairRun(PairBegin(window, timeout, r, tries), evs).d.core.tally.log;
    forall i: nat | i < |log| ensures Asks(conf, Entries(ks)[i % |Entries(ks)|], log[i].query) {
      AsksInTurn(ks, conf, i);
    }
  }
}
