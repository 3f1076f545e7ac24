/**
 `readNextRequest` as a machine over the lines of the input: one transition per
 `getline`. With `rewind` the machine goes round the lines for ever; without it
 stops at the end.
 */
module LineReader {
  import opened DataLine

  /** The guard against an empty input: so many blank or comment lines in a row are too many. */
  const MAX_EMPTY_LOOP: nat := 1000

  /** What the reader makes of a line. */
  datatype Kind = Empty | Comment | Malformed | Good(entry: Entry) {
    predicate IsBlank() { Empty? || Comment? }
  }

  function Classify(dns: Dns, line: string): Kind {
    if line == "" then Empty
    else if line[0] == ';' then Comment
    else match ParseLine(dns, line)
      case None => Malformed
      case Some(e) => Good(e)
  }

  /** The lines of the input as the reader takes them; past the last one a read finds nothing. */
  function Kinds(dns: Dns, lines: seq<string>): (ks: seq<Kind>)
    ensures |ks| == |lines| && forall i | 0 <= i < |lines| :: ks[i] == Classify(dns, lines[i])
  {
    seq(|lines|, i requires 0 <= i < |lines| => Classify(dns, lines[i]))
  }

  function KindAt(ks: seq<Kind>, j: nat): Kind {
    if j < |ks| then ks[j] else Empty
  }

  /** How a call ends: a request and where the stream is left, no more input, or the guard's exception. */
  datatype Outcome = Got(entry: Entry, at: nat) | NoMore | GuardThrew(at: nat)

  /** A call in progress: the next line, and the blank reads of the present inner loop. */
  datatype Reader = Reading(at: nat, blanks: nat) | Done(outcome: Outcome)

  /** Where reading line `j` leaves the stream. */
  function After(ks: seq<Kind>, rewind: bool, j: nat): nat {
    if j + 1 < |ks| then j + 1 else if rewind then 0 else |ks|
  }

  function Read(ks: seq<Kind>, rewind: bool, r: Reader): Reader {
    match r
    case Done(_) => r
    case Reading(j, blanks) =>
      var kind, j' := KindAt(ks, j), After(ks, rewind, j);
      if !rewind && j + 1 >= |ks| && kind.Empty? then Done(NoMore)
      else if kind.IsBlank() then
        if blanks + 1 >= MAX_EMPTY_LOOP then Done(GuardThrew(j')) else Reading(j', blanks + 1)
      else if kind.Good? then Done(Got(kind.entry, j'))
      else Reading(j', 0)
  }

  function Reads(ks: seq<Kind>, rewind: bool, r: Reader, n: nat): Reader
    decreases n
  {
    if n == 0 then r else Reads(ks, rewind, Read(ks, rewind, r), n - 1)
  }

  ghost predicate DoneBy(ks: seq<Kind>, rewind: bool, j: nat, n: nat) {
    Reads(ks, rewind, Reading(j, 0), n).Done?
  }

  /** The call returns or throws. */
  ghost predicate Halts(ks: seq<Kind>, rewind: bool, j: nat) {
    exists n: nat :: DoneBy(ks, rewind, j, n)
  }

  ghost function Result(ks: seq<Kind>, rewind: bool, j: nat): Outcome
    requires Halts(ks, rewind, j)
  {
    var n: nat :| DoneBy(ks, rewind, j, n);
    Reads(ks, rewind, Reading(j, 0), n).outcome
  }

  lemma {:induction false} ReadsDone(ks: seq<Kind>, rewind: bool, o: Outcome, n: nat)
    ensures Reads(ks, rewind, Done(o), n) == Done(o)
  {
    if n > 0 {
      ReadsDone(ks, rewind, o, n - 1);
    }
  }

  lemma {:induction false} ReadsConcat(ks: seq<Kind>, rewind: bool, r: Reader, a: nat, b: nat)
    ensures Reads(ks, rewind, r, a + b)
         == Reads(ks, rewind, Reads(ks, rewind, r, a), b)
    decreases a
  {
    if a > 0 {
      ReadsConcat(ks, rewind, Read(ks, rewind, r), a - 1, b);
    }
  }

  lemma ReadsLater(ks: seq<Kind>, rewind: bool, r: Reader, a: nat, b: nat)
    requires Reads(ks, rewind, r, a).Done? && a <= b
    ensures Reads(ks, rewind, r, b) == Reads(ks, rewind, r, a)
  {
    ReadsConcat(ks, rewind, r, a, b - a);
    ReadsDone(ks, rewind, Reads(ks, rewind, r, a).outcome, b - a);
  }

  /** The outcome does not depend on how many reads one allows. */
  lemma ResultIs(ks: seq<Kind>, rewind: bool, j: nat, n: nat)
    requires DoneBy(ks, rewind, j, n)
    ensures Halts(ks, rewind, j)
    ensures Result(ks, rewind, j) == Reads(ks, rewind, Reading(j, 0), n).outcome
  {
    var m: nat :| DoneBy(ks, rewind, j, m) &&
      Result(ks, rewind, j) == Reads(ks, rewind, Reading(j, 0), m).outcome;
    if m <= n {
      ReadsLater(ks, rewind, Reading(j, 0), m, n);
    } else {
      ReadsLater(ks, rewind, Reading(j, 0), n, m);
    }
  }

  // ---- The requests of a text ----

  function Entries(ks: seq<Kind>): seq<Entry> {
    if ks == [] then []
    else match ks[0]
      case Good(e) => [e] + Entries(ks[1..])
      case _ => Entries(ks[1..])
  }

  ghost predicate GoodAt(ks: seq<Kind>, g: nat) {
    g < |ks| && ks[g].Good?
  }

  ghost predicate HasGood(ks: seq<Kind>) {
    exists g: nat :: GoodAt(ks, g)
  }

  lemma {:induction false} EntriesNonEmptyIff(ks: seq<Kind>)
    ensures Entries(ks) != [] <==> HasGood(ks)
  {
    if ks != [] {
      EntriesNonEmptyIff(ks[1..]);
      assert forall g: nat :: GoodAt(ks, g + 1) <==> GoodAt(ks[1..], g);
      assert GoodAt(ks, 0) <==> ks[0].Good?;
      if g: nat :| GoodAt(ks, g) && g > 0 {
        assert GoodAt(ks[1..], g - 1);
      }
    }
  }

  // ---- Reading without rewinding ----

  /** A read without rewinding ends, by the characters and then the flag running out. */
  lemma {:induction false} ForwardTerminates(ks: seq<Kind>, j: nat, blanks: nat)
    requires j <= |ks| && ks != []
    ensures Reads(ks, false, Reading(j, blanks), |ks| + 1 - j).Done?
    decreases |ks| - j
  {
    var r := Read(ks, false, Reading(j, blanks));
    if r.Done? {
      ReadsDone(ks, false, r.outcome, |ks| - j);
    } else {
      ForwardTerminates(ks, r.at, r.blanks);
    }
  }

  /** What `load` collects from the rest of the input, and whether the guard stopped it. */
  datatype Loaded = Loaded(entries: seq<Entry>, threw: bool)

  function Scan(rest: seq<Kind>, blanks: nat): Loaded {
    if rest == [] || rest == [Empty] then Loaded([], false)
    else if rest[0].IsBlank() then
      if blanks + 1 >= MAX_EMPTY_LOOP then Loaded([], true) else Scan(rest[1..], blanks + 1)
    else
      var l := Scan(rest[1..], 0);
      if rest[0].Good? then Loaded([rest[0].entry] + l.entries, l.threw) else l
  }

  /** The next forward read peels off the next entry of the scan. */
  lemma {:induction false} ForwardScan(ks: seq<Kind>, j: nat, blanks: nat) returns (n: nat)
    requires j <= |ks| && ks != []
    ensures n <= |ks| + 1 - j && Reads(ks, false, Reading(j, blanks), n).Done?
    ensures match Reads(ks, false, Reading(j, blanks), n).outcome
            case Got(e, j') =>
              j < j' <= |ks| &&
              Scan(ks[j..], blanks)
                == Loaded([e] + Scan(ks[j'..], 0).entries, Scan(ks[j'..], 0).threw)
            case NoMore => Scan(ks[j..], blanks) == Loaded([], false)
            case GuardThrew(_) => Scan(ks[j..], blanks) == Loaded([], true)
    decreases |ks| - j
  {
    var r := Read(ks, false, Reading(j, blanks));
    if j < |ks| {
      assert ks[j..][1..] == ks[j + 1..];
      assert ks[j..] == [Empty] <==> j + 1 == |ks| && ks[j] == Empty;
    }
    if r.Done? {
      n := 1;
      assert Reads(ks, false, r, 0) == r;
    } else {
      n := ForwardScan(ks, r.at, r.blanks);
      n := n + 1;
    }
  }

  /** The lines that `load` may have to read: a final empty piece only marks the end. */
  function Body(ks: seq<Kind>): seq<Kind> {
    if ks != [] && ks[|ks| - 1] == Empty then ks[..|ks| - 1] else ks
  }

  ghost predicate BlankRunAt(ks: seq<Kind>, i: nat, n: nat) {
    i + n <= |ks| && forall k | i <= k < i + n :: ks[k].IsBlank()
  }

  lemma {:induction false} ScanThrowsIff(rest: seq<Kind>, blanks: nat)
    requires blanks < MAX_EMPTY_LOOP
    ensures Scan(rest, blanks).threw <==>
            (BlankRunAt(Body(rest), 0, MAX_EMPTY_LOOP - blanks)
             || exists i: nat :: BlankRunAt(Body(rest), i, MAX_EMPTY_LOOP))
    decreases |rest|
  {
    if rest != [] && rest != [Empty] {
      var body, tail := Body(rest), Body(rest[1..]);
      assert tail == body[1..];
      var kind := rest[0];
      var next := if kind.IsBlank() then blanks + 1 else 0;
      if i: nat :| BlankRunAt(body, i, MAX_EMPTY_LOOP) {
        assert i > 0 ==> BlankRunAt(tail, i - 1, MAX_EMPTY_LOOP);
        assert i == 0 ==> BlankRunAt(body, 0, MAX_EMPTY_LOOP - blanks);
      }
      if i: nat :| BlankRunAt(tail, i, MAX_EMPTY_LOOP) {
        assert BlankRunAt(body, i + 1, MAX_EMPTY_LOOP);
      }
      if next < MAX_EMPTY_LOOP {
        ScanThrowsIff(rest[1..], next);
        if kind.IsBlank() {
          if BlankRunAt(tail, 0, MAX_EMPTY_LOOP - next) {
            assert BlankRunAt(body, 0, MAX_EMPTY_LOOP - blanks);
          }
          if BlankRunAt(body, 0, MAX_EMPTY_LOOP - blanks) {
            assert forall k | 0 <= k < MAX_EMPTY_LOOP - next :: tail[k] == body[k + 1];
            assert BlankRunAt(tail, 0, MAX_EMPTY_LOOP - next);
          }
        } else {
          assert body[0] == rest[0];
          assert BlankRunAt(tail, 0, MAX_EMPTY_LOOP) ==> BlankRunAt(body, 1, MAX_EMPTY_LOOP);
        }
      } else {
        assert BlankRunAt(body, 0, MAX_EMPTY_LOOP - blanks);
      }
    }
  }

  lemma {:induction false} ScanEntries(rest: seq<Kind>, blanks: nat)
    ensures Scan(rest, blanks).entries <= Entries(rest)
    ensures !Scan(rest, blanks).threw ==> Scan(rest, blanks).entries == Entries(rest)
    decreases |rest|
  {
    if rest == [Empty] {
      assert rest[1..] == [];
    } else if rest != [] {
      ScanEntries(rest[1..], if rest[0].IsBlank() then blanks + 1 else 0);
    }
  }

  /**
   Preloading reads every request of the text, or throws on the guard; and it throws exactly
   when somewhere 1000 lines in a row, the empty piece after a final newline apart, are blank
   or comments.
   */
  lemma LoadMeaning(ks: seq<Kind>)
    ensures Scan(ks, 0).threw <==> exists i: nat :: BlankRunAt(Body(ks), i, 1000)
    ensures !Scan(ks, 0).threw ==> Scan(ks, 0).entries == Entries(ks)
  {
    ScanThrowsIff(ks, 0);
    ScanEntries(ks, 0);
  }

  // ---- The guard, on the lines themselves ----

  /** `n` lines in a row, from line `i` on, are empty or comments. */
  ghost predicate SkippedAt(lines: seq<string>, i: nat, n: nat) {
    i + n <= |lines| && forall k | i <= k < i + n :: lines[k] == "" || lines[k][0] == ';'
  }

  /** All lines, but for an empty piece after a final newline. */
  function Written(lines: seq<string>): seq<string> {
    if lines != [] && lines[|lines| - 1] == "" then lines[..|lines| - 1] else lines
  }

  lemma WrittenBody(dns: Dns, lines: seq<string>, i: nat, n: nat)
    ensures BlankRunAt(Body(Kinds(dns, lines)), i, n) <==> SkippedAt(Written(lines), i, n)
  {
    var ks, body, written := Kinds(dns, lines), Body(Kinds(dns, lines)), Written(lines);
    assert |body| == |written|;
    forall k | 0 <= k < |body| ensures body[k].IsBlank() <==> written[k] == "" || written[k][0] == ';' {
      assert body[k] == ks[k] == Classify(dns, lines[k]) && written[k] == lines[k];
    }
  }

  /** Preloading throws exactly when 1000 lines in a row are empty or comments. */
  lemma GuardFiresIff(dns: Dns, lines: seq<string>)
    ensures Scan(Kinds(dns, lines), 0).threw <==> exists i: nat :: SkippedAt(Written(lines), i, 1000)
  {
    var ks := Kinds(dns, lines);
    LoadMeaning(ks);
    forall i: nat ensures BlankRunAt(Body(ks), i, 1000) <==> SkippedAt(Written(lines), i, 1000) {
      WrittenBody(dns, lines, i, 1000);
    }
  }
}
