/**
 `QueryRepository` as an object: the loops that consume and rewind the stream,
 and the preloaded vector, proved against the machine over lines.
 */
module Repository {
  import opened Wrappers
  import opened DataLine
  import Decimal
  import LineFeed
  import opened LineReader
  import opened CyclicReader
  import opened RepositorySpec

  /** How `readNextRequest` ends. The authority section of the request comes with it. */
  datatype ReadResult = NextRequest(entry: Entry) | EndOfInput | EmptyLoop

  datatype LoadResult = LoadOk | DuplicateLoad | LoadGuard | EmptyInput

  class QueryRepository {
    const dns: Dns
    var input: LineFeed.Stream
    var qclass: nat
    var useEdns: bool
    var useDnssec: bool
    var ednsDnssecOk: bool       // the DO bit of the shared EDNS template
    var proto: Protocol
    var params: seq<Param>
    var currentParam: nat
    var optionSerial: nat        // options_.serial
    ghost var at: nat            // the line the stream is about to read

    ghost function Ks(): seq<Kind>
      reads this
    {
      Kinds(dns, LineFeed.Lines(input.content))
    }

    ghost function Conf(): Settings
      reads this
    {
      Settings(qclass, proto, useEdns, useDnssec)
    }

    ghost function View(): Repo
      reads this
    {
      Repo(Ks(), at, Conf(), params, currentParam)
    }

    ghost predicate Valid()
      reads this
    {
      && LineFeed.At(input, at)
      && ednsDnssecOk == useDnssec
      && (params != [] ==> currentParam < |params|)
    }

    constructor (lib: Dns, content: string)
      ensures Valid() && View() == Fresh(Kinds(lib, LineFeed.Lines(content)), Settings(1, Udp, true, true))
      ensures dns == lib && input.content == content
    {
      dns := lib;
      input := LineFeed.Open(content);
      qclass := 1;
      useEdns, useDnssec, ednsDnssecOk := true, true, true;
      proto := Udp;
      params, currentParam, optionSerial, at := [], 0, 0, 0;
    }

    /** Options up to the end of the string stream; false when one of them throws. */
    method ParseQueryOptions(ss: Words) returns (ok: bool)
      requires Sane(ss)
      modifies this`optionSerial
      ensures ok == ParseOptions(ss, old(optionSerial)).Some?
      ensures ok ==> optionSerial == ParseOptions(ss, old(optionSerial)).value
    {
      var w := ss;
      while !w.eof
        invariant Sane(w)
        invariant ParseOptions(w, optionSerial) == ParseOptions(ss, old(optionSerial))
        decreases if w.eof then 0 else 1 + |w.text| - w.pos
      {
        var (option, w') := Extract(w);
        var posDelim := EqualsAt(option);
        if posDelim == |option| {
          return false;
        }
        if option[..posDelim] == "serial" {
          var arg := Decimal.ParseU32(option[posDelim + 1..]);
          if arg.None? {
            return false;
          }
          optionSerial := arg.value;
        }
        w := w';
      }
      return true;
    }

    /** The part of `readNextRequest` that follows the inner loop. */
    method ParseRequest(line: string) returns (question: Option<Entry>)
      modifies this`optionSerial
      ensures question == ParseLine(dns, line)
    {
      optionSerial := 0;
      var authorities: Option<nat> := None;
      var (qname, ss1) := Extract(Open(line));
      var (qtypeText, ss2) := Extract(ss1);
      if ss2.fail {
        return None;
      }
      if !ss2.eof {
        var ok := ParseQueryOptions(ss2);
        if !ok {
          return None;
        }
      }
      var qtype := dns.typeCode(Alias(qtypeText));
      if qtype.None? || !dns.validName(qname) {
        return None;
      }
      if qtype.value == IXFR {
        authorities := Some(optionSerial);
      }
      return Some(Entry(qname, qtype.value, authorities));
    }

    /** One `getline`, with the rewinding at the end of the input. False when the caller returns
        without a request. */
    method NextLine(rewind: bool, ghost ks: seq<Kind>) returns (line: string, more: bool)
      requires Valid() && ks == Ks()
      modifies this`input, this`at
      ensures Valid() && input.content == old(input.content)
      ensures Classify(dns, line) == KindAt(ks, old(at))
      ensures at == After(ks, rewind, old(at))
      ensures more == (rewind || old(at) + 1 < |ks| || line != "")
    {
      LineFeed.GetLineIsNextLine(input, at);
      var (text, st) := LineFeed.GetLine(input);
      line := text;
      input := st;
      at := if at < |ks| then at + 1 else at;
      more := true;
      if input.eof {
        if rewind {
          LineFeed.RewindIsFirst(input);
          input := LineFeed.Rewind(input);
          at := 0;
        } else if line == "" {
          more := false;
        }
      } else if input.fail {
        // "unexpected failure in reading input data"
        assert false;
      }
    }

    /** One turn of the inner loop: a line is read, and cleared if it is a comment. It is one read of
        the machine that has met `loopCount` blank lines so far. */
    method NextContent(rewind: bool, ghost ks: seq<Kind>, ghost loopCount: nat)
      returns (line: string, more: bool, ghost next: Reader)
      requires Valid() && ks == Ks() && loopCount < MAX_EMPTY_LOOP
      modifies this`input, this`at
      ensures Valid() && input.content == old(input.content)
      ensures next == Read(ks, rewind, Reading(old(at), loopCount))
      ensures next == if !more then Done(NoMore)
                      else if line == "" then Skipping(at, loopCount + 1)
                      else AfterCandidate(dns, line, at)
      ensures !more ==> at == |ks|
    {
      next := Read(ks, rewind, Reading(at, loopCount));
      line, more := NextLine(rewind, ks);
      if line != "" && line[0] == ';' {
        line := "";
      }
    }

    /** The same turn placed in the run of the machine that started at line `start`: its `n`-th read. */
    method Turn(rewind: bool, ghost ks: seq<Kind>, ghost loopCount: nat,
                ghost start: nat, ghost n: nat, ghost bound: nat)
      returns (line: string, more: bool, ghost next: Reader)
      requires Valid() && ks == Ks() && loopCount < MAX_EMPTY_LOOP && DoneBy(ks, rewind, start, bound)
      requires During(ks, rewind, start, n, Reading(at, loopCount))
      modifies this`input, this`at
      ensures Valid() && input.content == old(input.content)
      ensures n < bound && During(ks, rewind, start, n + 1, next)
      ensures next == if !more then Done(NoMore)
                      else if line == "" then Skipping(at, loopCount + 1)
                      else AfterCandidate(dns, line, at)
      ensures !more ==> at == |ks|
    {
      StepOver(ks, rewind, start, n, at, loopCount, bound);
      line, more, next := NextContent(rewind, ks, loopCount);
    }

    /** The inner loop: up to a line that is neither blank nor a comment, unless the call ends. The
        ghost parameters place it in the run of the machine that started at line `start`. */
    method NextCandidate(rewind: bool, ghost ks: seq<Kind>, ghost start: nat, ghost n0: nat, ghost bound: nat)
      returns (line: string, stop: Option<ReadResult>, ghost n: nat, ghost r: Reader)
      requires Valid() && ks == Ks() && DoneBy(ks, rewind, start, bound)
      requires During(ks, rewind, start, n0, Reading(at, 0))
      modifies this`input, this`at
      ensures Valid() && input.content == old(input.content)
      ensures n0 <= n && During(ks, rewind, start, n, r)
      ensures stop.Some? ==> r.Done? && Reports(ks, stop.value, at, r.outcome)
      ensures stop.None? ==> n0 < n <= bound && r == AfterCandidate(dns, line, at)
    {
      n, r, line := n0, Reading(at, 0), "";
      var loopCount := 0;
      while line == ""
        invariant Valid() && input.content == old(input.content)
        invariant n0 <= n && During(ks, rewind, start, n, r)
        invariant loopCount <= MAX_EMPTY_LOOP
        invariant r == if line == "" then Skipping(at, loopCount) else AfterCandidate(dns, line, at)
        invariant line != "" ==> n0 < n <= bound
        decreases bound - n
      {
        if loopCount == MAX_EMPTY_LOOP {
          stop := Some(EmptyLoop);
          return;
        }
        var more;
        line, more, r := Turn(rewind, ks, loopCount, start, n, bound);
        n := n + 1;
        if !more {
          stop := Some(EndOfInput);
          return;
        }
        loopCount := loopCount + 1;
      }
      stop := None;
    }

    method ReadNextRequest(rewind: bool) returns (r: ReadResult)
      requires Valid() && (rewind ==> Halts(Ks(), true, at))
      modifies this`input, this`at, this`optionSerial
      ensures Valid() && input.content == old(input.content)
      ensures Halts(Ks(), rewind, old(at))
      ensures Reports(Ks(), r, at, Result(Ks(), rewind, old(at)))
    {
      ghost var ks, start := Ks(), at;
      ghost var bound := Bound(ks, rewind, start);
      ghost var n: nat := 0;
      if !rewind && input.eof {
        AtEnd(ks);
        return EndOfInput;
      }
      var question: Option<Entry> := None;
      while question.None?
        invariant Valid() && input.content == old(input.content)
        invariant During(ks, rewind, start, n, if question.Some? then Done(Got(question.value, at)) else Reading(at, 0))
        decreases bound - n, question.None?
      {
        var line, stop;
        ghost var r;
        line, stop, n, r := NextCandidate(rewind, ks, start, n, bound);
        if stop.Some? {
          Conclude(ks, rewind, start, n);
          return stop.value;
        }
        question := ParseRequest(line);
      }
      Conclude(ks, rewind, start, n);
      return NextRequest(question.value);
    }

    method GetNextParam() returns (param: Option<Param>)
      requires Valid() && Ready(View())
      modifies this
      ensures Valid() && param == NextParam(old(View())) && View() == AfterNext(old(View()))
      ensures input.content == old(input.content)
    {
      ReadyHalts'();
      if params != [] {
        param := Some(params[currentParam]);
        currentParam := currentParam + 1;
        if currentParam == |params| {
          currentParam := 0;
        }
        return;
      }
      ResultInRange(Ks(), at);
      var r := ReadNextRequest(true);
      if r.NextRequest? {
        param := Some(MakeParam(Settings(qclass, proto, useEdns, useDnssec), r.entry));
      } else {
        param := None;
      }
    }

    lemma ReadyHalts'()
      requires Ready(View())
      ensures params == [] ==> Halts(Ks(), true, at)
    {
      if params == [] {
        ReadyHalts(View());
      }
    }

    /** Fills a cleared message with the next request. */
    method GetNextQuery() returns (query: Option<Query>)
      requires Valid() && Ready(View())
      modifies this
      ensures Valid() && Ready(View())
      ensures query == NextQuery(old(View())) && View() == AfterNext(old(View()))
      ensures input.content == old(input.content)
    {
      AfterNextReady(View());
      var param := GetNextParam();
      match param
      case None => query := None;
      case Some(p) => query := Some(MakeQuery(p, ednsDnssecOk));
    }

    /** Reads the rest of the input into the vector. */
    method Load() returns (r: LoadResult)
      requires Valid()
      modifies this
      ensures Valid() && input.content == old(input.content) && Conf() == old(Conf())
      ensures r.DuplicateLoad? <==> old(params) != []
      ensures r.DuplicateLoad? ==> View() == old(View())
      ensures !r.DuplicateLoad? ==>
                params == MakeParams(Conf(), Scan(Ks()[old(at)..], 0).entries)
      ensures r.LoadGuard? <==> old(params) == [] && Scan(Ks()[old(at)..], 0).threw
      ensures r.LoadOk? ==> View() == Preloaded(old(View())) && Ready(View())
      ensures r.EmptyInput? <==> old(params) == [] && Scan(Ks()[old(at)..], 0) == Loaded([], false)
    {
      if params != [] {
        return DuplicateLoad;
      }
      var threw := ReadAll(Ks(), Scan(Ks()[at..], 0));
      if threw {
        return LoadGuard;
      }
      if params == [] {
        return EmptyInput;
      }
      currentParam := 0;
      return LoadOk;
    }

    method AddParam(e: Entry, ghost loaded: seq<Entry>)
      requires params == MakeParams(Conf(), loaded)
      modifies this`params
      ensures params == MakeParams(Conf(), loaded + [e])
    {
      ParamsSnoc(Conf(), loaded, e);
      params := params + [MakeParam(Settings(qclass, proto, useEdns, useDnssec), e)];
    }

    /** The loop of `load`: appends the requests of the rest of the input; true when the guard stops it. */
    method ReadAll(ghost ks: seq<Kind>, ghost all: Loaded) returns (threw: bool)
      requires Valid() && ks == Ks() && params == [] && all == Scan(ks[at..], 0)
      modifies this`input, this`at, this`optionSerial, this`params, this`currentParam
      ensures Valid() && input.content == old(input.content)
      ensures params == MakeParams(Conf(), all.entries) && threw == all.threw
      ensures !threw ==> at == |ks|
    {
      ghost var loaded: seq<Entry>, rest := [], all;
      currentParam := 0;
      while true
        invariant Valid() && input.content == old(input.content)
        invariant currentParam == 0 && params == MakeParams(Conf(), loaded)
        invariant rest == Scan(ks[at..], 0) && all == Before(loaded, rest)
        decreases |ks| - at
      {
        NextScan(ks, at);
        var question := ReadNextRequest(false);
        match question
        case NextRequest(e) =>
          rest := Scan(ks[at..], 0);
          BeforeOne(loaded, e, rest);
          AddParam(e, loaded);
          loaded := loaded + [e];
        case EmptyLoop =>
          BeforeEnd(loaded, true);
          return true;
        case EndOfInput =>
          BeforeEnd(loaded, false);
          return false;
      }
    }

    method SetQueryClass(c: nat) returns (ok: bool)
      requires Valid()
      modifies this`qclass
      ensures Valid() && ok == (params == []) && qclass == if ok then c else old(qclass)
    {
      if params != [] {
        return false;
      }
      qclass := c;
      return true;
    }

    method SetDnssec(on: bool) returns (ok: bool)
      requires Valid()
      modifies this`useDnssec, this`ednsDnssecOk
      ensures Valid() && ok == (params == []) && useDnssec == if ok then on else old(useDnssec)
    {
      if params != [] {
        return false;
      }
      useDnssec := on;
      ednsDnssecOk := on;
      return true;
    }

    method SetEdns(on: bool) returns (ok: bool)
      requires Valid()
      modifies this`useEdns
      ensures Valid() && ok == (params == []) && useEdns == if ok then on else old(useEdns)
    {
      if params != [] {
        return false;
      }
      useEdns := on;
      return true;
    }

    /** None stands for a protocol that is neither UDP nor TCP. */
    method SetProtocol(p: Option<Protocol>) returns (ok: bool)
      requires Valid()
      modifies this`proto
      ensures Valid() && ok == (params == [] && p.Some?) && proto == if ok then p.value else old(proto)
    {
      if params != [] || p.None? {
        return false;
      }
      proto := p.value;
      return true;
    }
  }

  /** What a load that has already collected `es` will have collected in the end. */
  ghost function Before(es: seq<Entry>, l: Loaded): Loaded {
    Loaded(es + l.entries, l.threw)
  }

  lemma BeforeOne(es: seq<Entry>, e: Entry, l: Loaded)
    ensures Before(es, Before([e], l)) == Before(es + [e], l)
  {
    assert es + ([e] + l.entries) == (es + [e]) + l.entries;
  }

  /** After `n` reads, a call that started at line `start` is at `r`. */
  ghost predicate During(ks: seq<Kind>, rewind: bool, start: nat, n: nat, r: Reader) {
    Reads(ks, rewind, Reading(start, 0), n) == r
  }

  /** What the object reports agrees with the machine's outcome. */
  ghost predicate Reports(ks: seq<Kind>, r: ReadResult, at: nat, o: Outcome) {
    match o
    case Got(e, j) => r == NextRequest(e) && at == j
    case NoMore => r == EndOfInput && at == |ks|
    case GuardThrew(j) => r == EmptyLoop && at == j
  }

  /** The machine at the head of the inner loop. */
  ghost function Skipping(at: nat, loopCount: nat): Reader {
    if loopCount >= MAX_EMPTY_LOOP then Done(GuardThrew(at)) else Reading(at, loopCount)
  }

  /** The machine once the candidate has been parsed. */
  ghost function AfterCandidate(dns: Dns, line: string, at: nat): Reader {
    match ParseLine(dns, line)
    case None => Reading(at, 0)
    case Some(e) => Done(Got(e, at))
  }

  lemma ParamsSnoc(conf: Settings, es: seq<Entry>, e: Entry)
    ensures MakeParams(conf, es + [e]) == MakeParams(conf, es) + [MakeParam(conf, e)]
  {
  }

  lemma BeforeEnd(es: seq<Entry>, threw: bool)
    ensures Before(es, Loaded([], threw)) == Loaded(es, threw)
  {
    assert es + [] == es;
  }

  /** The next forward read, in terms of what a load collects. */
  lemma NextScan(ks: seq<Kind>, j: nat)
    requires j <= |ks| && ks != []
    ensures Halts(ks, false, j)
    ensures match Result(ks, false, j)
            case Got(e, j') => j < j' <= |ks| && Scan(ks[j..], 0) == Before([e], Scan(ks[j'..], 0))
            case NoMore => Scan(ks[j..], 0) == Loaded([], false)
            case GuardThrew(_) => Scan(ks[j..], 0) == Loaded([], true)
  {
    var n := ForwardScan(ks, j, 0);
    ResultIs(ks, false, j, n);
  }

  lemma Bound(ks: seq<Kind>, rewind: bool, start: nat) returns (bound: nat)
    requires start <= |ks| && ks != []
    requires rewind ==> Halts(ks, true, start)
    ensures DoneBy(ks, rewind, start, bound)
  {
    if rewind {
      bound :| DoneBy(ks, true, start, bound);
    } else {
      ForwardTerminates(ks, start, 0);
      bound := |ks| + 1 - start;
    }
  }

  lemma AtEnd(ks: seq<Kind>)
    ensures Halts(ks, false, |ks|) && Result(ks, false, |ks|) == NoMore
  {
    ReadsOneMore(ks, false, Reading(|ks|, 0), 0);
    ResultIs(ks, false, |ks|, 1);
  }

  lemma Conclude(ks: seq<Kind>, rewind: bool, start: nat, n: nat)
    requires Reads(ks, rewind, Reading(start, 0), n).Done?
    ensures Halts(ks, rewind, start)
    ensures During(ks, rewind, start, n, Done(Result(ks, rewind, start)))
  {
    ResultIs(ks, rewind, start, n);
  }

  lemma StepOver(ks: seq<Kind>, rewind: bool, start: nat, n: nat, j: nat, blanks: nat, bound: nat)
    requires During(ks, rewind, start, n, Reading(j, blanks)) && DoneBy(ks, rewind, start, bound)
    ensures n < bound
    ensures During(ks, rewind, start, n + 1, Read(ks, rewind, Reading(j, blanks)))
  {
    StillReading(ks, rewind, start, n, bound);
    ReadsOneMore(ks, rewind, Reading(start, 0), n);
  }

  lemma StillReading(ks: seq<Kind>, rewind: bool, start: nat, n: nat, bound: nat)
    requires DoneBy(ks, rewind, start, bound)
    requires Reads(ks, rewind, Reading(start, 0), n).Reading?
    ensures n < bound
  {
    if bound <= n {
      ReadsLater(ks, rewind, Reading(start, 0), bound, n);
    }
  }

  lemma ReadsOneMore(ks: seq<Kind>, rewind: bool, r: Reader, n: nat)
    ensures Reads(ks, rewind, r, n + 1) == Read(ks, rewind, Reads(ks, rewind, r, n))
  {
    ReadsConcat(ks, rewind, r, n, 1);
    var r' := Read(ks, rewind, Reads(ks, rewind, r, n));
    assert Reads(ks, rewind, r', 0) == r';
  }
}
