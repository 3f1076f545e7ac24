/**
 The query repository as a value: the kinds of its input lines, where the
 stream is, the settings, and the preloaded requests with their cursor.
 */
module RepositorySpec {
  import opened Wrappers
  import opened DataLine
  import opened LineReader
  import opened CyclicReader

  datatype Protocol = Udp | Tcp

  datatype Settings = Settings(qclass: nat, proto: Protocol, useEdns: bool, useDnssec: bool)

  /** The parameters of one request. */
  datatype Param = Param(entry: Entry, qclass: nat, proto: Protocol, useDnssec: bool, useEdns: bool)

  datatype Edns = Edns(udpSize: nat, dnssecOk: bool)

  /** A query message, all but its ID. `authority` is the serial of the SOA of an IXFR query. */
  datatype Query = Query(qname: string, qclass: nat, qtype: nat, authority: Option<nat>, edns: Option<Edns>,
                         proto: Protocol)

  /** `setEDNSPolicy`: zone transfers go without EDNS. */
  function MakeParam(conf: Settings, e: Entry): (p: Param)
    ensures p.entry == e
  {
    if e.qtype == AXFR || e.qtype == IXFR then Param(e, conf.qclass, conf.proto, false, false)
    else Param(e, conf.qclass, conf.proto, conf.useDnssec, conf.useEdns)
  }

  /** `getNextQuery` on the chosen parameters; the EDNS template carries the DNSSEC flag. */
  function MakeQuery(p: Param, dnssecOk: bool): Query {
    Query(p.entry.name, p.qclass, p.entry.qtype, p.entry.serial,
          if p.useEdns || p.useDnssec then Some(Edns(4096, dnssecOk)) else None, p.proto)
  }

  /** What a setting means for a request: EDNS unless both flags are off or it is a zone transfer,
      with the DNSSEC flag exactly when that is on; an authority record for IXFR only. */
  lemma EdnsDecision(conf: Settings, dns: Dns, line: string)
    requires ParseLine(dns, line).Some?
    ensures |Fields(line)| >= 2 && forall o | o in Fields(line)[2..] :: GoodOption(o)
    ensures var e := ParseLine(dns, line).value;
            var q := MakeQuery(MakeParam(conf, e), conf.useDnssec);
            && (q.edns.Some? <==> (conf.useEdns || conf.useDnssec) && e.qtype != AXFR && e.qtype != IXFR)
            && (q.edns.Some? ==> q.edns.value.dnssecOk == conf.useDnssec)
            && q.authority == (if e.qtype == IXFR then Some(LastSerial(Fields(line)[2..], 0)) else None)
            && q.proto == conf.proto
  {
    SerialIsOwnLast(dns, line);
  }

  /** The message asks what the line said, in the class and over the protocol set. EDNS, with a buffer of
      4096 bytes and the DNSSEC flag as set, goes with it unless both flags are off or it is a zone
      transfer, IXFR (251) or AXFR (252). */
  ghost predicate Asks(conf: Settings, e: Entry, q: Query) {
    && q.qname == e.name && q.qtype == e.qtype && q.qclass == conf.qclass
    && q.authority == e.serial && q.proto == conf.proto
    && q.edns == if (conf.useEdns || conf.useDnssec) && e.qtype != 251 && e.qtype != 252
                 then Some(Edns(4096, conf.useDnssec)) else None
  }

  /** The message carries these parameters; the DNSSEC flag is that of the EDNS template. */
  ghost predicate MadeOf(p: Param, dnssecOk: bool, q: Query) {
    && q.qname == p.entry.name && q.qtype == p.entry.qtype && q.qclass == p.qclass
    && q.authority == p.entry.serial && q.proto == p.proto
    && q.edns == if p.useEdns || p.useDnssec then Some(Edns(4096, dnssecOk)) else None
  }

  datatype Repo = Repo(ks: seq<Kind>, at: nat, conf: Settings, params: seq<Param>, current: nat)

  /** What `getNextQuery` needs in order to return at all: preloaded requests, or input on which
      streaming reads end. */
  ghost predicate Ready(r: Repo) {
    && r.ks != [] && r.at <= |r.ks|
    && if r.params != [] then r.current < |r.params| else HasGood(r.ks) || HasCyclicBlankRun(r.ks)
  }

  lemma ReadyHalts(r: Repo)
    requires Ready(r) && r.params == []
    ensures Halts(r.ks, true, r.at)
  {
    HaltsFrom(r.ks, r.at);
  }

  /** The outcome of `getNextParam`: the request, or None when the reader throws. */
  ghost function NextParam(r: Repo): Option<Param>
    requires Ready(r)
  {
    if r.params != [] then Some(r.params[r.current])
    else
      ReadyHalts(r);
      match Result(r.ks, true, r.at)
      case Got(e, _) => Some(MakeParam(r.conf, e))
      case _ => None
  }

  /** The repository after `getNextParam`. */
  ghost function AfterNext(r: Repo): Repo
    requires Ready(r)
  {
    if r.params != [] then r.(current := if r.current + 1 == |r.params| then 0 else r.current + 1)
    else
      ReadyHalts(r);
      match Result(r.ks, true, r.at)
      case Got(_, at) => r.(at := at)
      case GuardThrew(at) => r.(at := at)
      case NoMore => r
  }

  ghost function NextQuery(r: Repo): Option<Query>
    requires Ready(r)
  {
    match NextParam(r)
    case None => None
    case Some(p) => Some(MakeQuery(p, r.conf.useDnssec))
  }

  lemma AfterNextReady(r: Repo)
    requires Ready(r)
    ensures Ready(AfterNext(r))
  {
    if r.params == [] {
      ReadyHalts(r);
      ResultInRange(r.ks, r.at);
    }
  }

  /** The next `k` queries; None when one of the calls throws. */
  ghost function Serve(r: Repo, k: nat): Option<seq<Query>>
    requires Ready(r)
    decreases k
  {
    AfterNextReady(r);
    if k == 0 then Some([])
    else if NextQuery(r).None? then None
    else match Serve(AfterNext(r), k - 1)
      case None => None
      case Some(rest) => Some([NextQuery(r).value] + rest)
  }

  /** The repository after `k` requests have been taken. */
  ghost function AfterMany(r: Repo, k: nat): (r': Repo)
    requires Ready(r)
    ensures Ready(r')
    decreases k
  {
    if k == 0 then r
    else
      AfterNextReady(AfterMany(r, k - 1));
      AfterNext(AfterMany(r, k - 1))
  }

  /** The query made of the request number `k`. */
  ghost function NthQuery(r: Repo, k: nat): Option<Query>
    requires Ready(r)
  {
    NextQuery(AfterMany(r, k))
  }

  lemma {:induction false} AfterManyCons(r: Repo, k: nat)
    requires Ready(r)
    ensures Ready(AfterNext(r)) && AfterMany(AfterNext(r), k) == AfterMany(r, k + 1)
    decreases k
  {
    AfterNextReady(r);
    if k == 0 {
      assert AfterMany(r, 0) == r;
    } else {
      AfterManyCons(r, k - 1);
    }
  }

  /** What is served is the queries by their numbers. */
  lemma {:induction false} ServedByNumber(r: Repo, k: nat, i: nat)
    requires Ready(r) && Serve(r, k).Some? && i < k
    ensures |Serve(r, k).value| == k && NthQuery(r, i) == Some(Serve(r, k).value[i])
    decreases k
  {
    AfterNextReady(r);
    var rest := Serve(AfterNext(r), k - 1).value;
    assert Serve(r, k).value == [NextQuery(r).value] + rest;
    if k == 1 {
      assert rest == [];
    } else {
      ServedByNumber(AfterNext(r), k - 1, if i == 0 then 0 else i - 1);
      if i > 0 {
        AfterManyCons(r, i - 1);
      }
    }
  }

  /** Preloaded requests go round. */
  lemma {:induction false} PreloadedNth(r: Repo, k: nat)
    requires Ready(r) && r.params != [] && r.current == 0
    ensures AfterMany(r, k) == r.(current := k % |r.params|)
    ensures NthQuery(r, k) == Some(MakeQuery(r.params[k % |r.params|], r.conf.useDnssec))
    decreases k
  {
    if k == 0 {
      ModIs(0, 0, 0, |r.params|);
    } else {
      PreloadedNth(r, k - 1);
      ModNext(k - 1, |r.params|);
    }
  }

  function Fresh(ks: seq<Kind>, conf: Settings): Repo {
    Repo(ks, 0, conf, [], 0)
  }

  function MakeParams(conf: Settings, es: seq<Entry>): (ps: seq<Param>)
    ensures |ps| == |es| && forall i | 0 <= i < |es| :: ps[i] == MakeParam(conf, es[i])
  {
    seq(|es|, i requires 0 <= i < |es| => MakeParam(conf, es[i]))
  }

  function MakeQueries(conf: Settings, es: seq<Entry>): (qs: seq<Query>)
    ensures |qs| == |es| && forall i | 0 <= i < |es| :: qs[i] == MakeQuery(MakeParam(conf, es[i]), conf.useDnssec)
  {
    seq(|es|, i requires 0 <= i < |es| => MakeQuery(MakeParam(conf, es[i]), conf.useDnssec))
  }

  /** `load` on an input it can read to the end. */
  function Preloaded(r: Repo): Repo
    requires r.at <= |r.ks|
  {
    r.(at := |r.ks|, params := MakeParams(r.conf, Scan(r.ks[r.at..], 0).entries), current := 0)
  }

  // ---- Streaming and preloading serve the same queries ----

  lemma {:induction false} PreloadedServes(r: Repo, es: seq<Entry>, k: nat)
    requires Ready(r) && es != [] && r.params == MakeParams(r.conf, es)
    ensures Serve(r, k) == Some(MakeQueries(r.conf, Cycle(es, r.current, k)))
    decreases k
  {
    if k == 0 {
      assert MakeQueries(r.conf, Cycle(es, r.current, 0)) == [];
    } else {
      AfterNextReady(r);
      PreloadedServes(AfterNext(r), es, k - 1);
      var c := AfterNext(r).current;
      WrapCount(r.current, |es|);
      ModNext(r.current, |es|);
      ModIs(c, 0, c, |es|);
      CycleCons(es, r.current, c, k - 1);
      QueriesCons(r.conf, es[r.current], Cycle(es, c, k - 1));
    }
  }

  lemma QueriesCons(conf: Settings, e: Entry, es: seq<Entry>)
    ensures MakeQueries(conf, [e] + es) == [MakeQuery(MakeParam(conf, e), conf.useDnssec)] + MakeQueries(conf, es)
  {
  }

  lemma {:induction false} StreamedServes(r: Repo, k: nat)
    requires Ready(r) && r.params == []
    ensures Serve(r, k) == match Stream(r.ks, r.at, k)
                           case None => None
                           case Some(es) => Some(MakeQueries(r.conf, es))
    decreases k
  {
    if k > 0 {
      ReadyHalts(r);
      ResultInRange(r.ks, r.at);
      AfterNextReady(r);
      StreamedServes(AfterNext(r), k - 1);
      match Result(r.ks, true, r.at)
      case Got(e, j) =>
        if Stream(r.ks, j, k - 1).Some? {
          QueriesCons(r.conf, e, Stream(r.ks, j, k - 1).value);
        }
      case _ =>
    }
  }

  /**
   On an input with a valid line and without 1000 blank or comment reads in a row, the repository
   serves the same queries streaming as preloaded, namely its valid lines round and round.
   */
  lemma StreamingEqualsPreloading(ks: seq<Kind>, conf: Settings, k: nat)
    requires ks != [] && Entries(ks) != [] && !HasCyclicBlankRun(ks)
    ensures Ready(Fresh(ks, conf)) && Ready(Preloaded(Fresh(ks, conf)))
    ensures Serve(Fresh(ks, conf), k) == Serve(Preloaded(Fresh(ks, conf)), k)
    ensures Serve(Fresh(ks, conf), k) == Some(MakeQueries(conf, Cycle(Entries(ks), 0, k)))
  {
    var r := Fresh(ks, conf);
    EntriesNonEmptyIff(ks);
    StreamableLoads(ks);
    assert ks[0..] == ks;
    StreamedServes(r, k);
    StreamIsCyclic(ks, k);
    PreloadedServes(Preloaded(r), Entries(ks), k);
  }

  /** The request number `k` of a stream is the valid line number `k`, round and round. */
  lemma StreamedNth(ks: seq<Kind>, conf: Settings, k: nat)
    requires Entries(ks) != [] && !HasCyclicBlankRun(ks)
    ensures Ready(Fresh(ks, conf))
    ensures NthQuery(Fresh(ks, conf), k) ==
            Some(MakeQuery(MakeParam(conf, Entries(ks)[k % |Entries(ks)|]), conf.useDnssec))
  {
    StreamingEqualsPreloading(ks, conf, k + 1);
    ServedByNumber(Fresh(ks, conf), k + 1, k);
    assert Cycle(Entries(ks), 0, k + 1)[k] == Entries(ks)[(0 + k) % |Entries(ks)|];
  }

  /**
   What is asked: on such an input the query number `k`, streamed or preloaded, asks exactly what the
   valid line number `k` said, round and round.
   */
  lemma AsksInTurn(ks: seq<Kind>, conf: Settings, k: nat)
    requires Entries(ks) != [] && !HasCyclicBlankRun(ks)
    ensures Ready(Fresh(ks, conf)) && Ready(Preloaded(Fresh(ks, conf)))
    ensures NthQuery(Fresh(ks, conf), k).Some?
            && Asks(conf, Entries(ks)[k % |Entries(ks)|], NthQuery(Fresh(ks, conf), k).value)
    ensures NthQuery(Preloaded(Fresh(ks, conf)), k) == NthQuery(Fresh(ks, conf), k)
  {
    StreamedNth(ks, conf, k);
    StreamingEqualsPreloading(ks, conf, 0);
    StreamableLoads(ks);
    assert ks[0..] == ks;
    PreloadedNth(Preloaded(Fresh(ks, conf)), k);
  }

  /** Preloaded queries ask so whatever the rest of the input was that has been loaded. */
  lemma LoadedAsks(r: Repo, k: nat)
    requires r.ks != [] && r.at <= |r.ks| && Scan(r.ks[r.at..], 0).entries != []
    ensures Ready(Preloaded(r)) && NthQuery(Preloaded(r), k).Some?
    ensures var es := Scan(r.ks[r.at..], 0).entries;
            Asks(r.conf, es[k % |es|], NthQuery(Preloaded(r), k).value)
  {
    PreloadedNth(Preloaded(r), k);
  }

  /**
   The exact condition: on an input that loads, streaming and preloading serve the same queries for
   ever if and only if no 1000 blank or comment reads follow one another round the end of the input.
   */
  lemma StreamingAgreesIff(ks: seq<Kind>, conf: Settings)
    requires Entries(ks) != [] && !Scan(ks, 0).threw
    ensures Ready(Fresh(ks, conf)) && Ready(Preloaded(Fresh(ks, conf)))
    ensures (forall k: nat :: Serve(Fresh(ks, conf), k) == Serve(Preloaded(Fresh(ks, conf)), k)) <==>
            !HasCyclicBlankRun(ks)
  {
    var r := Fresh(ks, conf);
    EntriesNonEmptyIff(ks);
    LoadMeaning(ks);
    assert ks[0..] == ks;
    var p := Preloaded(r);
    if HasCyclicBlankRun(ks) {
      StreamingWorksIff(ks);
      var k: nat :| Stream(ks, 0, k).None?;
      StreamedServes(r, k);
      PreloadedServes(p, Entries(ks), k);
      assert Serve(r, k) != Serve(p, k);
    } else {
      forall k: nat ensures Serve(r, k) == Serve(p, k) {
        StreamingEqualsPreloading(ks, conf, k);
      }
    }
  }
}
