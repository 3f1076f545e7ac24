/**
 The order of the outstanding list cannot be observed while IDs are distinct. The
 list and its linear search are simulated step by step by a finite map from IDs to
 events; and whatever permutations the list undergoes between steps, the same runs
 are possible, with the same sends, counters and stop.

 The call that moves a matched event passes the list's end as the element to
 move, which the C++ standard leaves undefined; any permutation it may amount to
 is covered here.
 */
module Order {
  import opened DispatcherSpec
  import opened Conservation
  import opened DistinctIds

  datatype MapState = MapState(core: Core, events: map<nat, Ev>)

  ghost function AsMap(q: seq<Ev>): (m: map<nat, Ev>)
    requires Distinct(q)
    ensures forall e | e in q :: e.qid in m && m[e.qid] == e
    ensures forall id | id in m :: m[id] in q && m[id].qid == id
  {
    AsMapUnique(q);
    map e | e in q :: e.qid := e
  }

  lemma AsMapUnique(q: seq<Ev>)
    requires Distinct(q)
    ensures forall e, f | e in q && f in q && e.qid == f.qid :: e == f
  {
    forall e, f | e in q && f in q && e.qid == f.qid ensures e == f {
      var i, j :| 0 <= i < |q| && 0 <= j < |q| && q[i] == e && q[j] == f;
      if i != j {
        DistinctAt(q, i, j);
      }
    }
  }

  ghost function Abs(s: State): MapState
    requires Distinct(s.outstanding)
  {
    MapState(s.core, AsMap(s.outstanding))
  }

  // ---- The map machine ----

  ghost predicate HasSlot(m: map<nat, Ev>, slot: nat) {
    exists id :: id in m && m[id].slot == slot
  }

  ghost function AtSlot(m: map<nat, Ev>, slot: nat): (e: Ev)
    requires HasSlot(m, slot)
    ensures e.qid in m ==> e.slot == slot
  {
    var id :| id in m && m[id].slot == slot;
    m[id]
  }

  ghost function MapResend(s: MapState, e: Ev, answered: bool, now: int, a: Attempt): MapState {
    var (c', e') := Send(Count(s.core, e, answered), e, now, a);
    MapState(c', (s.events - {e.qid})[e'.qid := e'])
  }

  ghost function MapDrop(s: MapState, e: Ev, answered: bool): MapState {
    MapState(Erase(Count(s.core, e, answered), e, s.events.Keys == {e.qid}), s.events - {e.qid})
  }

  ghost function MapRestart(s: MapState, qid: nat, answered: bool, now: int, a: Attempt): MapState {
    if qid !in s.events then s
    else if s.core.mode.keepSending then MapResend(s, s.events[qid], answered, now, a)
    else MapDrop(s, s.events[qid], answered)
  }

  ghost function MapTimeout(s: MapState, found: Ev, now: int, a: Attempt): MapState {
    var (c, e) := Expire(s.core, found);
    MapRestart(MapState(c, s.events[e.qid := e]), e.qid, false, now, a)
  }

  ghost function MapTcpDone(s: MapState, found: Ev, payload: Payload, now: int, a: Attempt): MapState {
    if found.sock.None? then MapState(Enter(s.core, Aborted), s.events)
    else
      var (c, e) := Clear(s.core, found);
      var s1 := MapState(c, s.events[e.qid := e]);
      match payload
      case NoData => MapRestart(s1, e.qid, false, now, a)
      case Header(ok) =>
        if ok then MapRestart(s1, e.qid, true, now, a) else MapState(Enter(c, Threw), s1.events)
      case NullData => MapState(Enter(c, Crashed), s1.events)
  }

  ghost function MapStep(s: MapState, i: Input): MapState {
    match i.what
    case Response(qid) =>
      if qid.None? then MapState(Enter(s.core, Threw), s.events)
      else MapRestart(s, qid.value, true, i.at, i.attempt)
    case QueryTimeout(slot) =>
      if HasSlot(s.events, slot) then MapTimeout(s, AtSlot(s.events, slot), i.at, i.attempt) else s
    case TcpDone(slot, payload) =>
      if HasSlot(s.events, slot) then MapTcpDone(s, AtSlot(s.events, slot), payload, i.at, i.attempt) else s
    case SessionTimer =>
      s.(core := s.core.(mode := s.core.mode.(keepSending := false, sessionArmed := false)))
  }

  // ---- Simulation ----

  /** The list after a step, as the map machine has it; nothing is claimed about the list of a run
      that has died. */
  ghost predicate Simulates(s: State, m: MapState) {
    s.core == m.core && (s.core.mode.phase.InLoop() && Distinct(s.outstanding) ==> AsMap(s.outstanding) == m.events)
  }

  lemma MapIs(q: seq<Ev>, m: map<nat, Ev>)
    requires Distinct(q)
    requires forall e | e in q :: e.qid in m && m[e.qid] == e
    requires forall id | id in m :: m[id] in q && m[id].qid == id
    ensures AsMap(q) == m
  {
    assert forall id | id in m :: id in AsMap(q) && AsMap(q)[id] == m[id];
  }

  lemma LeftInMap(q: seq<Ev>, i: nat, k: nat)
    requires Distinct(q) && i < |q| && k < |q| - 1
    ensures var e, m := Without(q, i)[k], AsMap(q) - {q[i].qid};
            e.qid in m && m[e.qid] == e
  {
    var j := if k < i then k else k + 1;
    assert Without(q, i)[k] == q[j];
    DistinctAt(q, i, j);
    assert q[j].qid in AsMap(q);
  }

  lemma OthersLeft(q: seq<Ev>, i: nat, id: nat)
    requires Distinct(q) && i < |q| && id in AsMap(q) && id != q[i].qid
    ensures AsMap(q)[id] in Without(q, i)
  {
    var k :| 0 <= k < |q| && q[k] == AsMap(q)[id];
    assert Without(q, i)[if k < i then k else k - 1] == q[k];
  }

  lemma MapWithout(q: seq<Ev>, i: nat)
    requires Distinct(q) && i < |q|
    ensures Distinct(Without(q, i)) && AsMap(Without(q, i)) == AsMap(q) - {q[i].qid}
  {
    var r, m := Without(q, i), AsMap(q) - {q[i].qid};
    DistinctWithout(q, i);
    forall e | e in r ensures e.qid in m && m[e.qid] == e {
      var k :| 0 <= k < |r| && r[k] == e;
      LeftInMap(q, i, k);
    }
    forall id | id in m ensures m[id] in r && m[id].qid == id {
      OthersLeft(q, i, id);
    }
    MapIs(r, m);
  }

  lemma OneLeft(q: seq<Ev>, i: nat)
    requires Distinct(q) && i < |q|
    ensures AsMap(q).Keys == {q[i].qid} <==> |q| == 1
  {
    if |q| > 1 {
      var k := if i == 0 then 1 else 0;
      DistinctAt(q, i, k);
      assert q[k].qid in AsMap(q);
    }
  }

  lemma MapUpdate(q: seq<Ev>, i: nat, e: Ev)
    requires Distinct(q) && i < |q| && e.qid == q[i].qid
    ensures Distinct(q[i := e]) && AsMap(q[i := e]) == AsMap(q)[e.qid := e]
  {
    var r, m := q[i := e], AsMap(q)[e.qid := e];
    FindOwn(q, i, e);
    forall f | f in r ensures f.qid in m && m[f.qid] == f {
      var k :| 0 <= k < |r| && r[k] == f;
      if k != i {
        DistinctAt(q, i, k);
        assert f in q;
      }
    }
    forall id | id in m ensures m[id] in r && m[id].qid == id {
      if id != e.qid {
        var k :| 0 <= k < |q| && q[k] == m[id];
        assert r[k] == m[id];
      } else {
        assert r[i] == e;
      }
    }
    MapIs(r, m);
  }

  lemma MapSnoc(q: seq<Ev>, e: Ev)
    requires Distinct(q) && Distinct(q + [e])
    ensures AsMap(q + [e]) == AsMap(q)[e.qid := e]
  {
    var r, m := q + [e], AsMap(q)[e.qid := e];
    assert r[|q|] == e;
    forall f | f in r ensures f.qid in m && m[f.qid] == f {
      var k :| 0 <= k < |r| && r[k] == f;
      if k < |q| {
        DistinctAt(r, k, |q|);
        assert q[k] == f && f in q;
      }
    }
    forall id | id in m ensures m[id] in r && m[id].qid == id {
      if id != e.qid {
        assert m[id] in q;
      }
    }
    MapIs(r, m);
  }

  lemma FindInMap(q: seq<Ev>, qid: nat)
    requires Distinct(q)
    ensures qid in AsMap(q) <==> Find(q, qid) < |q|
    ensures qid in AsMap(q) ==> AsMap(q)[qid] == q[Find(q, qid)]
  {
    var i := Find(q, qid);
    if qid in AsMap(q) {
      var k :| 0 <= k < |q| && q[k] == AsMap(q)[qid];
      assert i <= k;
    }
    if i < |q| {
      assert q[i] in q;
    }
  }

  lemma LocateInMap(q: seq<Ev>, slot: nat)
    requires Distinct(q) && Uniq(q)
    ensures HasSlot(AsMap(q), slot) <==> Locate(q, slot) < |q|
    ensures HasSlot(AsMap(q), slot) ==> AtSlot(AsMap(q), slot) == q[Locate(q, slot)]
  {
    var m, i := AsMap(q), Locate(q, slot);
    if i < |q| {
      assert q[i] in q;
      assert q[i].qid in m && m[q[i].qid].slot == slot;
    }
    if HasSlot(m, slot) {
      var id :| id in m && m[id].slot == slot && AtSlot(m, slot) == m[id];
      var k :| 0 <= k < |q| && q[k] == m[id];
      if k != i {
        UniqAt(q, i, k);
      }
    }
  }

  lemma ResendSimulates(s: State, i: nat, answered: bool, now: int, a: Attempt)
    requires Distinct(s.outstanding) && i < |s.outstanding| && s.core.mode.phase.Running?
    ensures Simulates(Resend(s, i, answered, now, a), MapResend(Abs(s), s.outstanding[i], answered, now, a))
  {
    var e, s' := s.outstanding[i], Resend(s, i, answered, now, a);
    SendFacts(Count(s.core, e, answered), e, now, a);
    if s'.core.mode.phase.Running? && Distinct(s'.outstanding) {
      MapWithout(s.outstanding, i);
      MapSnoc(Without(s.outstanding, i), s'.outstanding[|s'.outstanding| - 1]);
    }
  }

  lemma DropSimulates(s: State, i: nat, answered: bool)
    requires Distinct(s.outstanding) && i < |s.outstanding|
    ensures Simulates(Drop(s, i, answered), MapDrop(Abs(s), s.outstanding[i], answered))
  {
    MapWithout(s.outstanding, i);
    OneLeft(s.outstanding, i);
  }

  lemma RestartSimulates(s: State, qid: nat, answered: bool, now: int, a: Attempt)
    requires Distinct(s.outstanding) && s.core.mode.phase.Running?
    ensures Simulates(Restart(s, qid, answered, now, a), MapRestart(Abs(s), qid, answered, now, a))
  {
    var i := Find(s.outstanding, qid);
    FindInMap(s.outstanding, qid);
    if i < |s.outstanding| {
      if s.core.mode.keepSending {
        ResendSimulates(s, i, answered, now, a);
      } else {
        DropSimulates(s, i, answered);
      }
    }
  }

  lemma MarkedSimulates(s: State, k: nat, c: Core, e: Ev, answered: bool, now: int, a: Attempt)
    requires Distinct(s.outstanding) && k < |s.outstanding| && e.qid == s.outstanding[k].qid
    requires c.mode.phase.Running?
    ensures Simulates(Restart(State(c, s.outstanding[k := e]), e.qid, answered, now, a),
                      MapRestart(MapState(c, AsMap(s.outstanding)[e.qid := e]), e.qid, answered, now, a))
  {
    MapUpdate(s.outstanding, k, e);
    RestartSimulates(State(c, s.outstanding[k := e]), e.qid, answered, now, a);
  }

  lemma TimeoutSimulates(s: State, k: nat, now: int, a: Attempt)
    requires Distinct(s.outstanding) && k < |s.outstanding| && s.core.mode.phase.Running?
    ensures Simulates(OnTimeout(s, k, now, a), MapTimeout(Abs(s), s.outstanding[k], now, a))
  {
    var (c, e) := Expire(s.core, s.outstanding[k]);
    MarkedSimulates(s, k, c, e, false, now, a);
  }

  lemma TcpDoneSimulates(s: State, k: nat, payload: Payload, now: int, a: Attempt)
    requires Distinct(s.outstanding) && k < |s.outstanding| && s.core.mode.phase.Running?
    ensures Simulates(OnTcpDone(s, k, payload, now, a), MapTcpDone(Abs(s), s.outstanding[k], payload, now, a))
  {
    var (c, e) := Clear(s.core, s.outstanding[k]);
    MarkedSimulates(s, k, c, e, payload.Header?, now, a);
  }

  /** One step of the list machine is one step of the map machine. */
  lemma StepSimulates(s: State, i: Input)
    requires Good(s) && Distinct(s.outstanding) && Enabled(s, i.what)
    ensures Simulates(Step(s, i), MapStep(Abs(s), i))
  {
    match i.what
    case Response(qid) =>
      if qid.Some? {
        RestartSimulates(s, qid.value, true, i.at, i.attempt);
      }
    case QueryTimeout(slot) =>
      LocateInMap(s.outstanding, slot);
      TimeoutSimulates(s, Locate(s.outstanding, slot), i.at, i.attempt);
    case TcpDone(slot, payload) =>
      LocateInMap(s.outstanding, slot);
      TcpDoneSimulates(s, Locate(s.outstanding, slot), payload, i.at, i.attempt);
    case SessionTimer =>
  }

  // ---- Any permutation between steps ----

  /** A run in which the list is replaced after each step by the next of `orders`. */
  ghost predicate ShuffledRun(s: State, ins: seq<Input>, orders: seq<seq<Ev>>)
    requires |orders| == |ins|
    decreases |ins|
  {
    ins == [] ||
    (&& Enabled(s, ins[0].what)
     && Distinct(s.outstanding)
     && multiset(orders[0]) == multiset(Step(s, ins[0]).outstanding)
     && ShuffledRun(State(Step(s, ins[0]).core, orders[0]), ins[1..], orders[1..]))
  }

  ghost function ShuffledEnd(s: State, ins: seq<Input>, orders: seq<seq<Ev>>): State
    requires |orders| == |ins| && ShuffledRun(s, ins, orders)
    decreases |ins|
  {
    if ins == [] then s
    else ShuffledEnd(State(Step(s, ins[0]).core, orders[0]), ins[1..], orders[1..])
  }

  /** Each of `orders` permutes the list that its own step leaves, as far as the inputs can be taken. */
  ghost predicate Shuffles(s: State, ins: seq<Input>, orders: seq<seq<Ev>>)
    requires |orders| == |ins|
    decreases |ins|
  {
    ins == [] || !Enabled(s, ins[0].what) ||
    (&& multiset(orders[0]) == multiset(Step(s, ins[0]).outstanding)
     && Shuffles(State(Step(s, ins[0]).core, orders[0]), ins[1..], orders[1..]))
  }

  lemma SameElements(p: seq<Ev>, q: seq<Ev>)
    requires multiset(p) == multiset(q)
    ensures |p| == |q| && forall e :: e in p <==> e in q
  {
    assert |multiset(p)| == |p| && |multiset(q)| == |q|;
    assert forall e :: e in multiset(p) <==> e in p;
    assert forall e :: e in multiset(q) <==> e in q;
  }

  /** A permutation of a list of distinct events is one, too. */
  lemma PermutedUniq(p: seq<Ev>, q: seq<Ev>)
    requires multiset(p) == multiset(q) && Uniq(q)
    ensures Uniq(p)
  {
    SameElements(p, q);
    forall i, j | 0 <= i < j < |p| ensures Differ(p[i], p[j]) {
      assert p[i] in q && p[j] in q;
      if p[i] == p[j] {
        TwiceIn(p, i, j);
        OnceIn(q, p[i]);
      }
      var k, l :| 0 <= k < |q| && 0 <= l < |q| && q[k] == p[i] && q[l] == p[j];
      UniqAt(q, k, l);
    }
  }

  lemma TwiceIn(p: seq<Ev>, i: nat, j: nat)
    requires i < j < |p| && p[i] == p[j]
    ensures multiset(p)[p[i]] >= 2
  {
    assert p == p[..j] + [p[j]] + p[j + 1..];
    assert p[i] in p[..j];
    assert p[i] in multiset(p[..j]);
  }

  lemma OnceIn(q: seq<Ev>, e: Ev)
    requires Uniq(q)
    ensures multiset(q)[e] <= 1
    decreases |q|
  {
    if q != [] {
      var n := |q| - 1;
      var r := q[..n];
      assert q == r + [q[n]];
      forall i, j | 0 <= i < j < |r| ensures Differ(r[i], r[j]) {
        UniqAt(q, i, j);
      }
      OnceIn(r, e);
      if e == q[n] && e in r {
        var i :| 0 <= i < |r| && r[i] == e;
        UniqAt(q, i, n);
      }
    }
  }

  lemma PermutedGood(s: State, p: seq<Ev>)
    requires Good(s) && multiset(p) == multiset(s.outstanding)
    ensures Good(State(s.core, p))
  {
    var q, t := s.outstanding, s.core.tally;
    SameElements(p, q);
    PermutedUniq(p, q);
    assert Seqs(p) == Seqs(q);
    forall k | 0 <= k < |p| ensures EvOk(t, p[k]) {
      assert p[k] in q;
      var j :| 0 <= j < |q| && q[j] == p[k];
      assert EvOk(t, q[j]);
    }
  }

  lemma PermutedDistinct(q: seq<Ev>, p: seq<Ev>)
    requires multiset(p) == multiset(q) && Uniq(q) && Distinct(p)
    ensures Distinct(q)
  {
    SameElements(p, q);
    AsMapUnique(p);
    forall i, j | 0 <= i < j < |q| ensures OtherId(q[i], q[j]) {
      UniqAt(q, i, j);
      assert q[i] in p && q[j] in p;
    }
  }

  // ---- One step from two orders ----

  /** Two states that differ in the order of the list alone. */
  ghost predicate Alike(s: State, t: State) {
    s.core == t.core && multiset(s.outstanding) == multiset(t.outstanding)
  }

  lemma ElementsWithout(q: seq<Ev>, i: nat)
    requires i < |q|
    ensures multiset(Without(q, i)) == multiset(q) - multiset{q[i]}
  {
    assert q == q[..i] + [q[i]] + q[i + 1..];
  }

  lemma FindSame(p: seq<Ev>, q: seq<Ev>, qid: nat)
    requires multiset(p) == multiset(q) && Distinct(p) && Distinct(q)
    ensures Find(p, qid) < |p| <==> Find(q, qid) < |q|
    ensures Find(p, qid) < |p| ==> p[Find(p, qid)] == q[Find(q, qid)]
  {
    SameElements(p, q);
    AsMapUnique(p);
    var i, j := Find(p, qid), Find(q, qid);
    if i < |p| {
      assert p[i] in q;
      var k :| 0 <= k < |q| && q[k] == p[i];
      assert j <= k;
    }
    if j < |q| {
      assert q[j] in p;
      var k :| 0 <= k < |p| && p[k] == q[j];
      assert i <= k;
    }
  }

  lemma LocateSame(p: seq<Ev>, q: seq<Ev>, slot: nat)
    requires multiset(p) == multiset(q) && Uniq(p) && Uniq(q)
    ensures Locate(p, slot) < |p| <==> Locate(q, slot) < |q|
    ensures Locate(p, slot) < |p| ==> p[Locate(p, slot)] == q[Locate(q, slot)]
  {
    SameElements(p, q);
    var i, j := Locate(p, slot), Locate(q, slot);
    if i < |p| {
      assert p[i] in q;
      var k: nat :| k < |q| && q[k] == p[i];
      assert j <= k;
      if j != k {
        UniqAt(q, j, k);
      }
    }
    if j < |q| {
      assert q[j] in p;
      var k :| 0 <= k < |p| && p[k] == q[j];
      assert i <= k;
    }
  }

  /** Two lists of the same elements from which the same element goes. */
  lemma SameWithout(p: seq<Ev>, i: nat, q: seq<Ev>, j: nat)
    requires multiset(p) == multiset(q) && i < |p| && j < |q| && p[i] == q[j]
    ensures |p| == |q| && multiset(Without(p, i)) == multiset(Without(q, j))
  {
    SameElements(p, q);
    ElementsWithout(p, i);
    ElementsWithout(q, j);
  }

  lemma ResendAlike(s: State, i: nat, t: State, j: nat, answered: bool, now: int, a: Attempt)
    requires Alike(s, t) && i < |s.outstanding| && j < |t.outstanding| && s.outstanding[i] == t.outstanding[j]
    ensures Alike(Resend(s, i, answered, now, a), Resend(t, j, answered, now, a))
  {
    var p, q := s.outstanding, t.outstanding;
    SameWithout(p, i, q, j);
    var (c', e') := Send(Count(s.core, p[i], answered), p[i], now, a);
    assert multiset(Without(p, i) + [e']) == multiset(Without(q, j) + [e']);
    assert multiset(p[i := e']) == multiset(q[j := e']);
  }

  lemma DropAlike(s: State, i: nat, t: State, j: nat, answered: bool)
    requires Alike(s, t) && i < |s.outstanding| && j < |t.outstanding| && s.outstanding[i] == t.outstanding[j]
    ensures Alike(Drop(s, i, answered), Drop(t, j, answered))
  {
    SameWithout(s.outstanding, i, t.outstanding, j);
  }

  lemma RestartAlike(s: State, t: State, qid: nat, answered: bool, now: int, a: Attempt)
    requires Alike(s, t) && Distinct(s.outstanding) && Distinct(t.outstanding)
    ensures Alike(Restart(s, qid, answered, now, a), Restart(t, qid, answered, now, a))
  {
    var i, j := Find(s.outstanding, qid), Find(t.outstanding, qid);
    FindSame(s.outstanding, t.outstanding, qid);
    if i < |s.outstanding| {
      if s.core.mode.keepSending {
        ResendAlike(s, i, t, j, answered, now, a);
      } else {
        DropAlike(s, i, t, j, answered);
      }
    }
  }

  /** The same event is marked in both lists and restarted by its ID. */
  lemma MarkedAlike(s: State, i: nat, t: State, j: nat, c: Core, e: Ev, answered: bool, now: int, a: Attempt)
    requires Alike(s, t) && Distinct(s.outstanding) && Distinct(t.outstanding)
    requires i < |s.outstanding| && j < |t.outstanding| && s.outstanding[i] == t.outstanding[j]
    requires e.qid == s.outstanding[i].qid
    ensures Alike(State(c, s.outstanding[i := e]), State(c, t.outstanding[j := e]))
    ensures Alike(Restart(State(c, s.outstanding[i := e]), e.qid, answered, now, a),
                  Restart(State(c, t.outstanding[j := e]), e.qid, answered, now, a))
  {
    FindOwn(s.outstanding, i, e);
    FindOwn(t.outstanding, j, e);
    RestartAlike(State(c, s.outstanding[i := e]), State(c, t.outstanding[j := e]), e.qid, answered, now, a);
  }

  lemma TimeoutAlike(s: State, i: nat, t: State, j: nat, now: int, a: Attempt)
    requires Alike(s, t) && Distinct(s.outstanding) && Distinct(t.outstanding)
    requires i < |s.outstanding| && j < |t.outstanding| && s.outstanding[i] == t.outstanding[j]
    ensures Alike(OnTimeout(s, i, now, a), OnTimeout(t, j, now, a))
  {
    var (c, e) := Expire(s.core, s.outstanding[i]);
    MarkedAlike(s, i, t, j, c, e, false, now, a);
  }

  lemma TcpDoneAlike(s: State, i: nat, t: State, j: nat, payload: Payload, now: int, a: Attempt)
    requires Alike(s, t) && Distinct(s.outstanding) && Distinct(t.outstanding)
    requires i < |s.outstanding| && j < |t.outstanding| && s.outstanding[i] == t.outstanding[j]
    ensures Alike(OnTcpDone(s, i, payload, now, a), OnTcpDone(t, j, payload, now, a))
  {
    var (c, e) := Clear(s.core, s.outstanding[i]);
    MarkedAlike(s, i, t, j, c, e, payload.Header?, now, a);
  }

  /** With distinct IDs both orders can take the same callback, and then differ again in order alone. */
  lemma StepAlike(s: State, t: State, i: Input)
    requires Alike(s, t) && Good(s) && Good(t) && Distinct(s.outstanding) && Distinct(t.outstanding)
    requires Enabled(s, i.what)
    ensures Enabled(t, i.what) && Alike(Step(s, i), Step(t, i))
  {
    match i.what
    case Response(qid) =>
      if qid.Some? {
        RestartAlike(s, t, qid.value, true, i.at, i.attempt);
      }
    case QueryTimeout(slot) =>
      LocateSame(s.outstanding, t.outstanding, slot);
      TimeoutAlike(s, Locate(s.outstanding, slot), t, Locate(t.outstanding, slot), i.at, i.attempt);
    case TcpDone(slot, payload) =>
      LocateSame(s.outstanding, t.outstanding, slot);
      TcpDoneAlike(s, Locate(s.outstanding, slot), t, Locate(t.outstanding, slot), payload, i.at, i.attempt);
    case SessionTimer =>
  }

  lemma AlikeGood(s: State, t: State)
    requires Alike(s, t) && Good(s) && Distinct(s.outstanding)
    ensures Good(t) && Distinct(t.outstanding)
  {
    PermutedGood(s, t.outstanding);
    PermutedDistinct(t.outstanding, s.outstanding);
  }

  /**
   The order of the list cannot be noticed while IDs are distinct: if one order takes a run with
   distinct IDs, shuffled along the way as it may be, then from any other order, shuffled in any
   other way, the same inputs can be taken, IDs are distinct too, and both agree at the end on all
   sends, counters, sockets and on having stopped.
   */
  lemma {:induction false} OrderUnobservable(s: State, t: State, ins: seq<Input>,
                                            orders: seq<seq<Ev>>, orders': seq<seq<Ev>>)
    requires Good(s) && Alike(s, t) && |orders| == |orders'| == |ins|
    requires ShuffledRun(s, ins, orders) && Shuffles(t, ins, orders')
    ensures ShuffledRun(t, ins, orders')
    ensures ShuffledEnd(s, ins, orders).core == ShuffledEnd(t, ins, orders').core
    decreases |ins|
  {
    if ins != [] {
      AlikeGood(s, t);
      StepAlike(s, t, ins[0]);
      StepGood(s, ins[0]);
      var s', t' := Step(s, ins[0]), Step(t, ins[0]);
      var s1, t1 := State(s'.core, orders[0]), State(t'.core, orders'[0]);
      if ins[1..] != [] {
        PermutedGood(s', orders[0]);
        OrderUnobservable(s1, t1, ins[1..], orders[1..], orders'[1..]);
      }
    }
  }

  /** In particular the run with the intended order stands for a run with any other. */
  lemma {:induction false} IntendedOrderStands(s: State, t: State, ins: seq<Input>, orders: seq<seq<Ev>>)
    requires Good(s) && Alike(s, t) && ValidRun(s, ins) && DistinctThroughout(s, ins)
    requires |orders| == |ins| && Shuffles(t, ins, orders)
    ensures ShuffledRun(t, ins, orders) && ShuffledEnd(t, ins, orders).core == Run(s, ins).core
    decreases |ins|
  {
    if ins != [] {
      AlikeGood(s, t);
      StepAlike(s, t, ins[0]);
      StepGood(s, ins[0]);
      var s', t' := Step(s, ins[0]), Step(t, ins[0]);
      if s'.core.mode.phase.InLoop() {
        IntendedOrderStands(s', State(t'.core, orders[0]), ins[1..], orders[1..]);
      } else {
        DeadRun(s', ins[1..]);
      }
    }
  }
}
