/**
 Two inputs on which streaming goes wrong, as texts: one on which it never
 returns, and one that loads but whose stream throws.
 */
module ReaderWitnesses {
  import opened DataLine
  import opened LineReader
  import opened CyclicReader
  import opened DataFile
  import LineFeed
  import Wrappers

  /** The one line of a text without a newline. */
  lemma SingleLine(text: string)
    requires LineFeed.NewlineFree(text)
    ensures LineFeed.Lines(text) == [text]
  {
    assert LineFeed.Join([text]) == text;
    LineFeed.SplitJoin([text]);
  }

  /** A single word has no type next to it, so nothing is ever accepted and nothing counts as blank. */
  lemma OneWordNeverReturns(dns: Dns, word: string)
    requires IsWord(word) && word[0] != ';' && LineFeed.NewlineFree(word)
    ensures var ks := Kinds(dns, LineFeed.Lines(word));
            ks == [Malformed] && !Halts(ks, true, 0)
  {
    SingleLine(word);
    assert word[0..] == word;
    LastWord(word, 0, word);
    ParseLineMeaning(dns, word);
    var ks := Kinds(dns, LineFeed.Lines(word));
    assert ks == [Malformed];
    assert !HasGood(ks);
    forall i: nat, n: nat ensures !LongRun(ks, i, n) {
    }
    StreamingHaltsIff(ks, 0);
  }

  function Fillers(m: nat): (items: seq<Item>)
    ensures |items| == m && forall i | 0 <= i < m :: items[i] == Filler("")
  {
    seq(m, i requires 0 <= i < m => Filler(""))
  }

  /** One record with `m` blank lines before it and as many behind it. */
  function Sparse(r: Record, m: nat): (items: seq<Item>)
    ensures |items| == 2 * m + 1
    ensures forall i | 0 <= i < |items| :: items[i] == if i == m then Rec(r) else Filler("")
  {
    Fillers(m) + [Rec(r)] + Fillers(m)
  }

  lemma {:induction false} BlankRunJoin(ks: seq<Kind>, j: nat, a: nat, b: nat)
    requires BlankRun(ks, j, a) && BlankRun(ks, Walk(ks, j, a), b)
    ensures BlankRun(ks, j, a + b)
    decreases a
  {
    if a > 0 {
      BlankRunJoin(ks, After(ks, true, j), a - 1, b);
    }
  }

  lemma {:induction false} WalkToEnd(ks: seq<Kind>, j: nat, n: nat)
    requires n > 0 && j + n == |ks|
    ensures Walk(ks, j, n) == 0
    decreases n
  {
    if n > 1 {
      WalkToEnd(ks, j + 1, n - 1);
    } else {
      assert Walk(ks, After(ks, true, j), 0) == 0;
    }
  }

  lemma SparseLines(dns: Dns, r: Record, m: nat)
    requires Printable(dns, Rec(r))
    ensures LineFeed.Lines(FileText(Sparse(r, m), true)) == PrintAll(Sparse(r, m)) + [""]
  {
    var items := Sparse(r, m);
    assert Printable(dns, Filler(""));
    forall i | i in items ensures Printable(dns, i) {
    }
    FileLinesFree(dns, items, true);
    LineFeed.SplitJoin(FileLines(items, true));
  }

  /** The lines of the printed file. */
  lemma SparseKinds(dns: Dns, r: Record, m: nat)
    requires Printable(dns, Rec(r))
    ensures var ks := Kinds(dns, LineFeed.Lines(FileText(Sparse(r, m), true)));
            && |ks| == 2 * m + 2 && ks[m] == Good(EntryOf(dns, r))
            && forall i | 0 <= i < |ks| && i != m :: ks[i] == Empty
  {
    SparseLines(dns, r, m);
    PrintedRecordIsGood(dns, r);
    var lines := PrintAll(Sparse(r, m)) + [""];
    assert forall i | 0 <= i < |lines| && i != m :: lines[i] == "";
  }

  lemma {:induction false} FillersYieldNothing(dns: Dns, items: seq<Item>)
    requires forall i | 0 <= i < |items| :: items[i] == Filler("")
    ensures (forall i | i in items :: Printable(dns, i)) && RecordEntries(dns, items) == []
  {
    assert Printable(dns, Filler(""));
    if items != [] {
      FillersYieldNothing(dns, items[1..]);
    }
  }

  lemma {:induction false} OneRecord(dns: Dns, items: seq<Item>, r: Record, m: nat)
    requires m < |items| && Printable(dns, Rec(r))
    requires forall i | 0 <= i < |items| :: items[i] == if i == m then Rec(r) else Filler("")
    ensures forall i | i in items :: Printable(dns, i)
    ensures RecordEntries(dns, items) == [EntryOf(dns, r)]
    decreases m
  {
    assert forall i | 0 <= i < |items| :: Printable(dns, items[i]);
    if m == 0 {
      FillersYieldNothing(dns, items[1..]);
    } else {
      OneRecord(dns, items[1..], r, m - 1);
    }
  }

  lemma SparseLoads(dns: Dns, r: Record, m: nat)
    requires Printable(dns, Rec(r)) && m < MAX_EMPTY_LOOP
    ensures Scan(Kinds(dns, LineFeed.Lines(FileText(Sparse(r, m), true))), 0) == Loaded([EntryOf(dns, r)], false)
  {
    var items := Sparse(r, m);
    OneRecord(dns, items, r, m);
    assert !items[m].Filler?;
    forall i: nat ensures !FillerRunAt(items, i, MAX_EMPTY_LOOP) {
    }
    FileRoundTrip(dns, items, true);
  }

  lemma {:induction false} ReadBlanks(ks: seq<Kind>, j: nat, blanks: nat, n: nat)
    requires j + n < |ks| && blanks + n < MAX_EMPTY_LOOP && forall i | j <= i < j + n :: ks[i] == Empty
    ensures Reads(ks, true, Reading(j, blanks), n) == Reading(j + n, blanks + n)
    decreases n
  {
    if n > 0 {
      ReadBlanks(ks, j + 1, blanks + 1, n - 1);
    }
  }

  /** The only valid line is read first. */
  lemma FirstRequest(ks: seq<Kind>, m: nat)
    requires m + 1 < |ks| && m < MAX_EMPTY_LOOP && ks[m].Good? && forall i | 0 <= i < m :: ks[i] == Empty
    ensures Halts(ks, true, 0) && Result(ks, true, 0) == Got(ks[m].entry, m + 1)
  {
    ReadBlanks(ks, 0, 0, m);
    ReadsConcat(ks, true, Reading(0, 0), m, 1);
    var r := Read(ks, true, Reading(m, m));
    assert Reads(ks, true, Reading(m, m), 1) == r by { assert Reads(ks, true, r, 0) == r; }
    ResultIs(ks, true, 0, m + 1);
  }

  /** The next read meets the blank lines behind it, the end, and those before it. */
  lemma NextThrows(ks: seq<Kind>, m: nat)
    requires |ks| == 2 * m + 2 && MAX_EMPTY_LOOP <= 2 * m + 1
    requires forall i | 0 <= i < |ks| && i != m :: ks[i] == Empty
    ensures Halts(ks, true, m + 1) && Result(ks, true, m + 1).GuardThrew?
  {
    assert BlankRunAt(ks, m + 1, m + 1) && BlankRunAt(ks, 0, m);
    LinearRunIsCyclic(ks, m + 1, m + 1);
    LinearRunIsCyclic(ks, 0, m);
    WalkToEnd(ks, m + 1, m + 1);
    BlankRunJoin(ks, m + 1, m + 1, m);
    BlankRunThrows(ks, m + 1, 0, 2 * m + 1);
    ResultIs(ks, true, m + 1, 2 * m + 1);
  }

  lemma StreamsOnlyOne(ks: seq<Kind>, e: Entry, j: nat)
    requires Halts(ks, true, 0) && Result(ks, true, 0) == Got(e, j)
    requires Halts(ks, true, j) && Result(ks, true, j).GuardThrew?
    ensures Stream(ks, 0, 1) == Wrappers.Some([e]) && Stream(ks, 0, 2) == Wrappers.None
  {
    assert Stream(ks, j, 0) == Wrappers.Some([]) && Stream(ks, j, 1) == Wrappers.None;
    assert [e] + [] == [e];
    StreamStep(ks, 0, 0);
    StreamStep(ks, 0, 1);
  }

  lemma StreamStep(ks: seq<Kind>, j: nat, k: nat)
    requires Halts(ks, true, j) && Result(ks, true, j).Got?
    ensures var o := Result(ks, true, j);
            Stream(ks, j, k + 1) == match Stream(ks, o.at, k)
                                    case None => Wrappers.None
                                    case Some(rest) => Wrappers.Some([o.entry] + rest)
  {
  }

  /**
   Fewer than 1000 blank lines on either side of the only record let the file load, but reading it
   round the end throws: the guard adds up those at the end and those at the start. The first
   request is still served.
   */
  lemma LoadsButStreamThrows(dns: Dns, r: Record, m: nat)
    requires Printable(dns, Rec(r)) && m < 1000 <= 2 * m + 1
    ensures var ks := Kinds(dns, LineFeed.Lines(FileText(Sparse(r, m), true)));
            && Scan(ks, 0) == Loaded([EntryOf(dns, r)], false)
            && Stream(ks, 0, 1) == Wrappers.Some([EntryOf(dns, r)])
            && Halts(ks, true, m + 1) && Result(ks, true, m + 1).GuardThrew?
            && Stream(ks, 0, 2) == Wrappers.None
  {
    var ks := Kinds(dns, LineFeed.Lines(FileText(Sparse(r, m), true)));
    SparseLoads(dns, r, m);
    SparseKinds(dns, r, m);
    FirstRequest(ks, m);
    NextThrows(ks, m);
    StreamsOnlyOne(ks, EntryOf(dns, r), m + 1);
  }
}
