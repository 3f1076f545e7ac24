/**
 The summary over all workers: `accumulateResult`, the loop over the dispatchers
 and the lost count, in unsigned 64-bit arithmetic.
 */
module Statistics {
  import opened Wrappers
  import opened DispatcherSpec
  import opened QueryFlow
  import opened RepositorySpec
  import Conservation
  import Dispatcher

  /** One more than the largest `size_t`. */
  const SIZE_LIMIT := 0x1_0000_0000_0000_0000

  /** A worker and what happened to it. Workers share no state. */
  datatype Worker = Worker(window: nat, timeout: int, tries: seq<Try>, ins: seq<Input>) {
    ghost predicate Possible() {
      window > 0 && |tries| == window && ValidRun(Begin(window, timeout, tries), ins)
    }

    ghost function End(): State
      requires Possible()
    {
      Run(Begin(window, timeout, tries), ins)
    }
  }

  ghost predicate AllPossible(ws: seq<Worker>) {
    forall i | 0 <= i < |ws| :: ws[i].Possible()
  }

  ghost function TotalSent(ws: seq<Worker>): nat
    requires AllPossible(ws)
  {
    if ws == [] then 0 else TotalSent(ws[..|ws| - 1]) + ws[|ws| - 1].End().core.tally.sent
  }

  ghost function TotalCompleted(ws: seq<Worker>): nat
    requires AllPossible(ws)
  {
    if ws == [] then 0 else TotalCompleted(ws[..|ws| - 1]) + ws[|ws| - 1].End().core.tally.completed
  }

  ghost function TotalFailed(ws: seq<Worker>): nat
    requires AllPossible(ws)
  {
    if ws == [] then 0 else TotalFailed(ws[..|ws| - 1]) + |ws[|ws| - 1].End().core.tally.failedSeqs|
  }

  ghost predicate AllDrained(ws: seq<Worker>)
    requires AllPossible(ws)
  {
    forall i | 0 <= i < |ws| :: ws[i].End().core.mode.phase.Stopped?
  }

  /** Completed never exceeds sent, however the workers ended; and when all of them drained, the
      difference is the number of queries that failed. */
  lemma {:induction false} WorkersSound(ws: seq<Worker>)
    requires AllPossible(ws)
    ensures TotalCompleted(ws) <= TotalSent(ws)
    ensures AllDrained(ws) ==> TotalSent(ws) - TotalCompleted(ws) == TotalFailed(ws)
  {
    if ws != [] {
      var rest, w := ws[..|ws| - 1], ws[|ws| - 1];
      WorkersSound(rest);
      Conservation.RunConserves(w.window, w.timeout, w.tries, w.ins);
    }
  }

  /** Modular sums agree with the modular total. */
  lemma AddWraps(total: nat, more: nat)
    ensures (total % SIZE_LIMIT + more) % SIZE_LIMIT == (total + more) % SIZE_LIMIT
  {
  }

  lemma DifferenceWraps(sent: nat, completed: nat)
    requires completed <= sent
    ensures (sent % SIZE_LIMIT - completed % SIZE_LIMIT) % SIZE_LIMIT == (sent - completed) % SIZE_LIMIT
  {
  }

  class QueryStatistics {
    var queriesSent: nat
    var queriesCompleted: nat

    constructor ()
      ensures queriesSent == 0 && queriesCompleted == 0
    {
      queriesSent, queriesCompleted := 0, 0;
    }

    method AccumulateResult(disp: Dispatcher.DispatcherImpl)
      modifies this
      ensures queriesSent == (old(queriesSent) + disp.queriesSent) % SIZE_LIMIT
      ensures queriesCompleted == (old(queriesCompleted) + disp.queriesCompleted) % SIZE_LIMIT
    {
      queriesSent := (queriesSent + disp.queriesSent) % SIZE_LIMIT;
      queriesCompleted := (queriesCompleted + disp.queriesCompleted) % SIZE_LIMIT;
    }
  }

  /** The dispatcher's counters are those of the worker's end. */
  ghost predicate Counts(d: Dispatcher.DispatcherImpl, w: Worker)
    requires w.Possible()
    reads d
  {
    d.queriesSent == w.End().core.tally.sent && d.queriesCompleted == w.End().core.tally.completed
  }

  /** A dispatcher that has come to the end of any run on any repository has the counters of a worker. */
  lemma RunCounts(d: Dispatcher.DispatcherImpl, window: nat, timeout: int, r: Repo, tries: seq<TryIo>, evs: seq<Event>)
    returns (w: Worker)
    requires window > 0 && |tries| == window && Ready(r)
    requires var p := PairBegin(window, timeout, r, tries);
             ValidPairRun(p, evs) && d.Is(PairRun(p, evs))
    ensures w.window == window && w.timeout == timeout && w.Possible() && Counts(d, w)
    ensures w.End() == d.View()
  {
    var p := PairBegin(window, timeout, r, tries);
    var ts := BeginProjects(window, timeout, r, tries);
    RunProjects(p, evs);
    w := Worker(window, timeout, ts, Inputs(p, evs));
  }

  /** What a worker thread does with its dispatcher, whatever the environment makes of it. */
  method RunWorker(d: Dispatcher.DispatcherImpl, tries: seq<TryIo>, evs: seq<Event>, ghost r: Repo)
    returns (ghost w: Worker)
    requires d.Is(Pair(Idle(d.window, d.queryTimeout).(outstanding := []), r)) && d.pool == {}
    requires |tries| == d.window > 0 && ValidPairRun(PairBegin(d.window, d.queryTimeout, r, tries), evs)
    modifies d, d.udpSocket, d.repository
    ensures w.Possible() && Counts(d, w) && w.End() == d.View()
  {
    d.Run(tries, evs, r);
    w := RunCounts(d, d.window, d.queryTimeout, r, tries, evs);
  }

  lemma NextTotals(ws: seq<Worker>, i: nat)
    requires AllPossible(ws) && i < |ws|
    ensures AllPossible(ws[..i]) && AllPossible(ws[..i + 1])
    ensures TotalSent(ws[..i + 1]) == TotalSent(ws[..i]) + ws[i].End().core.tally.sent
    ensures TotalCompleted(ws[..i + 1]) == TotalCompleted(ws[..i]) + ws[i].End().core.tally.completed
  {
    assert ws[..i + 1][..i] == ws[..i] && ws[..i + 1][i] == ws[i];
  }

  method AddWorker(result: QueryStatistics, d: Dispatcher.DispatcherImpl, ghost ws: seq<Worker>, ghost i: nat)
    requires i < |ws| && AllPossible(ws) && Counts(d, ws[i])
    requires result.queriesSent == TotalSent(ws[..i]) % SIZE_LIMIT
    requires result.queriesCompleted == TotalCompleted(ws[..i]) % SIZE_LIMIT
    modifies result
    ensures AllPossible(ws[..i + 1])
    ensures result.queriesSent == TotalSent(ws[..i + 1]) % SIZE_LIMIT
    ensures result.queriesCompleted == TotalCompleted(ws[..i + 1]) % SIZE_LIMIT
  {
    NextTotals(ws, i);
    AddWraps(TotalSent(ws[..i]), d.queriesSent);
    AddWraps(TotalCompleted(ws[..i]), d.queriesCompleted);
    result.AccumulateResult(d);
  }

  /** The loop that accumulates the workers' counters. */
  method AccumulateAll(dispatchers: seq<Dispatcher.DispatcherImpl>, ghost ws: seq<Worker>)
    returns (sent: nat, completed: nat)
    requires |dispatchers| == |ws| && AllPossible(ws) && forall i | 0 <= i < |ws| :: Counts(dispatchers[i], ws[i])
    ensures sent == TotalSent(ws) % SIZE_LIMIT && completed == TotalCompleted(ws) % SIZE_LIMIT
  {
    var result := new QueryStatistics();
    assert ws[..|ws|] == ws;
    for i := 0 to |dispatchers|
      invariant AllPossible(ws[..i])
      invariant result.queriesSent == TotalSent(ws[..i]) % SIZE_LIMIT
      invariant result.queriesCompleted == TotalCompleted(ws[..i]) % SIZE_LIMIT
    {
      AddWorker(result, dispatchers[i], ws, i);
    }
    sent, completed := result.queriesSent, result.queriesCompleted;
  }

  /**
   The totals and the lost count (none when nothing was sent) over dispatchers that have come to the
   ends of these runs. As long as the total sent fits its 64 bits nothing wraps, and after a normal
   end the lost count is the number of failed queries.
   */
  method Summarize(dispatchers: seq<Dispatcher.DispatcherImpl>, ghost ws: seq<Worker>)
    returns (sent: nat, completed: nat, lost: Option<nat>)
    requires |dispatchers| == |ws| && AllPossible(ws) && forall i | 0 <= i < |ws| :: Counts(dispatchers[i], ws[i])
    ensures sent == TotalSent(ws) % SIZE_LIMIT && completed == TotalCompleted(ws) % SIZE_LIMIT
    ensures lost.Some? <==> sent > 0
    ensures lost.Some? ==> lost.value == (TotalSent(ws) - TotalCompleted(ws)) % SIZE_LIMIT
    ensures TotalSent(ws) < SIZE_LIMIT && lost.Some? ==>
              && completed <= sent && lost.value == sent - completed
              && (AllDrained(ws) ==> lost.value == TotalFailed(ws))
  {
    sent, completed := AccumulateAll(dispatchers, ws);
    WorkersSound(ws);
    DifferenceWraps(TotalSent(ws), TotalCompleted(ws));
    lost := if sent > 0 then Some((sent - completed) % SIZE_LIMIT) else None;
  }
}
