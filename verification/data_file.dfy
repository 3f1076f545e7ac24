/**
 Printing a list of records as a query data file, one per line, among blank
 and comment lines, and reading the file back.
 */
module DataFile {
  import opened Wrappers
  import opened Decimal
  import opened DataLine
  import LineFeed
  import opened LineReader

  datatype Record = Record(name: string, typeText: string, serial: Option<nat>)

  /** A line of the file: a record, or a line to be skipped. */
  datatype Item = Rec(record: Record) | Filler(text: string)

  predicate IsWord(w: string) {
    w != "" && forall i | 0 <= i < |w| :: !IsSpace(w[i])
  }

  ghost predicate Printable(dns: Dns, item: Item) {
    match item
    case Rec(r) =>
      && IsWord(r.name) && r.name[0] != ';' && dns.validName(r.name)
      && IsWord(r.typeText) && dns.typeCode(Alias(r.typeText)).Some?
      && (r.serial.Some? ==> r.serial.value < U32)
    case Filler(t) => LineFeed.NewlineFree(t) && (t == "" || t[0] == ';')
  }

  /** What the record stands for, its type alias resolved. */
  function EntryOf(dns: Dns, r: Record): Entry
    requires dns.typeCode(Alias(r.typeText)).Some?
  {
    var code := dns.typeCode(Alias(r.typeText)).value;
    Entry(r.name, code, if code != IXFR then None else if r.serial.Some? then r.serial else Some(0))
  }

  function SerialText(v: nat): string {
    "serial=" + ToDecimal(v)
  }

  function PrintRecord(r: Record): string {
    r.name + " " + r.typeText + if r.serial.Some? then " " + SerialText(r.serial.value) else ""
  }

  function Print(item: Item): string {
    match item
    case Rec(r) => PrintRecord(r)
    case Filler(t) => t
  }

  function PrintAll(items: seq<Item>): (ls: seq<string>)
    ensures |ls| == |items| && forall i | 0 <= i < |items| :: ls[i] == Print(items[i])
  {
    seq(|items|, i requires 0 <= i < |items| => Print(items[i]))
  }

  /** The file: its lines joined by newlines, and one more newline at the end if so wanted. */
  function FileText(items: seq<Item>, finalNewline: bool): string {
    LineFeed.Join(FileLines(items, finalNewline))
  }

  function FileLines(items: seq<Item>, finalNewline: bool): (ls: seq<string>)
    ensures ls != []
  {
    PrintAll(items) + if finalNewline || items == [] then [""] else []
  }

  ghost function RecordEntries(dns: Dns, items: seq<Item>): seq<Entry>
    requires forall i | i in items :: Printable(dns, i)
  {
    if items == [] then []
    else
      assert Printable(dns, items[0]);
      (if items[0].Rec? then [EntryOf(dns, items[0].record)] else []) + RecordEntries(dns, items[1..])
  }

  ghost predicate FillerRunAt(items: seq<Item>, i: nat, n: nat) {
    i + n <= |items| && forall k | i <= k < i + n :: items[k].Filler?
  }

  // ---- One record ----

  lemma FirstField(s: string, p: nat, w: string)
    requires IsWord(w) && p + |w| <= |s| && s[p..p + |w|] == w
    requires p + |w| < |s| ==> IsSpace(s[p + |w|])
    ensures FieldsFrom(s, p) == [w] + FieldsFrom(s, p + |w|)
    ensures !IsSpace(s[p + |w| - 1])
  {
    assert forall i | p <= i < p + |w| :: s[i] == w[i - p] && !IsSpace(s[i]);
    assert SkipSpaces(s, p) == p;
    assert WordEnd(s, p) == p + |w|;
  }

  lemma SpaceBeforeFields(s: string, p: nat)
    requires p < |s| && IsSpace(s[p])
    ensures FieldsFrom(s, p) == FieldsFrom(s, p + 1)
  {
    assert SkipSpaces(s, p) == SkipSpaces(s, p + 1);
  }

  lemma SplitAtSpace(s: string, p: nat, w: string, tail: string)
    requires p <= |s| && s[p..] == w + " " + tail
    ensures var q := p + |w|;
            q < |s| && s[p..q] == w && s[q] == ' ' && s[q + 1..] == tail
  {
    var rest := s[p..];
    assert |rest| == |w| + 1 + |tail|;
    assert s[p..p + |w|] == rest[..|w|];
    assert s[p + |w|] == rest[|w|];
    assert s[p + |w| + 1..] == rest[|w| + 1..];
  }

  /** A word that starts at `p` and is followed by one space. */
  lemma WordThenFields(s: string, p: nat, w: string, tail: string)
    requires IsWord(w) && p <= |s| && s[p..] == w + " " + tail
    ensures p + |w| + 1 <= |s| && s[p + |w| + 1..] == tail
    ensures FieldsFrom(s, p) == [w] + FieldsFrom(s, p + |w| + 1)
  {
    SplitAtSpace(s, p, w, tail);
    FirstField(s, p, w);
    SpaceBeforeFields(s, p + |w|);
  }

  lemma LastWord(s: string, p: nat, w: string)
    requires IsWord(w) && p <= |s| && s[p..] == w
    ensures FieldsFrom(s, p) == [w] && !EndsInSpace(s)
  {
    assert s[p..p + |w|] == w;
    FirstField(s, p, w);
    assert FieldsFrom(s, |s|) == [];
  }

  lemma SerialOption(v: nat)
    requires v < U32
    ensures IsWord(SerialText(v)) && GoodOption(SerialText(v))
    ensures LastSerial([SerialText(v)], 0) == v
  {
    var option := SerialText(v);
    assert forall i | 7 <= i < |option| :: IsDigit(option[i]) && !IsSpace(option[i]);
    DecimalRoundTrip(v);
    assert option[7..] == ToDecimal(v);
    assert option[6] == '=';
  }

  lemma TwoWords(s: string, p: nat, a: string, b: string)
    requires IsWord(a) && IsWord(b) && p <= |s| && s[p..] == a + " " + b
    ensures FieldsFrom(s, p) == [a, b] && !EndsInSpace(s)
  {
    WordThenFields(s, p, a, b);
    LastWord(s, p + |a| + 1, b);
  }

  lemma ThreeWords(s: string, a: string, tail: string, b: string, c: string)
    requires IsWord(a) && IsWord(b) && IsWord(c)
    requires s == a + " " + tail && tail == b + " " + c
    ensures Fields(s) == [a] + [b, c] && !EndsInSpace(s)
  {
    assert s[0..] == s;
    WordThenFields(s, 0, a, tail);
    TwoWords(s, |a| + 1, b, c);
  }

  /** The fields of a printed record are its parts. */
  lemma FieldsOfPrinted(dns: Dns, r: Record)
    requires Printable(dns, Rec(r))
    ensures Fields(PrintRecord(r))
         == [r.name] + if r.serial.Some? then [r.typeText, SerialText(r.serial.value)] else [r.typeText]
    ensures !EndsInSpace(PrintRecord(r))
  {
    if r.serial.Some? {
      var option := SerialText(r.serial.value);
      SerialOption(r.serial.value);
      ThreeWords(PrintRecord(r), r.name, r.typeText + " " + option, r.typeText, option) by {
        assert PrintRecord(r) == r.name + " " + (r.typeText + " " + option);
      }
    } else {
      TwoWords(PrintRecord(r), 0, r.name, r.typeText) by {
        assert PrintRecord(r)[0..] == r.name + " " + r.typeText;
      }
    }
  }

  lemma PrintedMeaning(dns: Dns, r: Record, line: string)
    requires Printable(dns, Rec(r)) && !EndsInSpace(line)
    requires Fields(line)
          == [r.name] + if r.serial.Some? then [r.typeText, SerialText(r.serial.value)] else [r.typeText]
    ensures Meaning(dns, line) == Some(EntryOf(dns, r))
  {
    var fields := Fields(line);
    if r.serial.Some? {
      SerialOption(r.serial.value);
      assert fields[2..] == [SerialText(r.serial.value)];
    } else {
      assert fields[2..] == [];
    }
  }

  /** A printed record is a valid line, read as the record. */
  lemma PrintedRecordIsGood(dns: Dns, r: Record)
    requires Printable(dns, Rec(r))
    ensures Classify(dns, Print(Rec(r))) == Good(EntryOf(dns, r))
  {
    var line := PrintRecord(r);
    assert line[0] == r.name[0];
    FieldsOfPrinted(dns, r);
    PrintedMeaning(dns, r, line);
    ParseLineMeaning(dns, line);
  }

  // ---- The whole file ----

  lemma PrintedLinesFree(dns: Dns, item: Item)
    requires Printable(dns, item)
    ensures LineFeed.NewlineFree(Print(item))
  {
    if item.Rec? && item.record.serial.Some? {
      SerialOption(item.record.serial.value);
    }
  }

  lemma {:induction false} EntriesOfFile(dns: Dns, items: seq<Item>, tail: seq<Kind>)
    requires forall i | i in items :: Printable(dns, i)
    requires tail == [] || tail == [Empty]
    ensures Entries(Kinds(dns, PrintAll(items)) + tail) == RecordEntries(dns, items)
  {
    var ks := Kinds(dns, PrintAll(items)) + tail;
    if items == [] {
      assert ks == tail;
      assert tail != [] ==> tail[1..] == [];
    } else {
      assert Printable(dns, items[0]);
      assert ks[1..] == Kinds(dns, PrintAll(items[1..])) + tail;
      EntriesOfFile(dns, items[1..], tail);
      if items[0].Rec? {
        PrintedRecordIsGood(dns, items[0].record);
      }
    }
  }

  lemma FileLinesFree(dns: Dns, items: seq<Item>, finalNewline: bool)
    requires forall i | i in items :: Printable(dns, i)
    ensures forall l | l in FileLines(items, finalNewline) :: LineFeed.NewlineFree(l)
  {
    forall i | 0 <= i < |items| ensures LineFeed.NewlineFree(PrintAll(items)[i]) {
      assert Printable(dns, items[i]);
      PrintedLinesFree(dns, items[i]);
    }
    assert forall l | l in PrintAll(items) :: LineFeed.NewlineFree(l);
  }

  lemma BlankLinesAreFillers(dns: Dns, items: seq<Item>, k: nat)
    requires forall i | i in items :: Printable(dns, i)
    requires k < |items| && Classify(dns, Print(items[k])).IsBlank()
    ensures items[k].Filler?
  {
    assert Printable(dns, items[k]);
    if items[k].Rec? {
      PrintedRecordIsGood(dns, items[k].record);
    }
  }

  lemma LongRunIsFiller(dns: Dns, items: seq<Item>, tail: seq<Kind>, i: nat)
    requires forall item | item in items :: Printable(dns, item)
    requires tail == [] || (tail == [Empty])
    requires BlankRunAt(Body(Kinds(dns, PrintAll(items)) + tail), i, MAX_EMPTY_LOOP)
    ensures FillerRunAt(items, i, MAX_EMPTY_LOOP)
  {
    var ks := Kinds(dns, PrintAll(items)) + tail;
    forall k | i <= k < i + MAX_EMPTY_LOOP ensures k < |items| && items[k].Filler? {
      assert Body(ks)[k] == ks[k];
      BlankLinesAreFillers(dns, items, k);
    }
  }

  /**
   Round trip: a file printed from any records, with or without a final newline and with blank and
   comment lines anywhere but never 1000 in a row, preloads as exactly these records.
   */
  lemma FileRoundTrip(dns: Dns, items: seq<Item>, finalNewline: bool)
    requires forall i | i in items :: Printable(dns, i)
    requires forall i: nat :: !FillerRunAt(items, i, 1000)
    ensures Scan(Kinds(dns, LineFeed.Lines(FileText(items, finalNewline))), 0)
         == Loaded(RecordEntries(dns, items), false)
  {
    var lines := FileLines(items, finalNewline);
    FileLinesFree(dns, items, finalNewline);
    LineFeed.SplitJoin(lines);
    var tail := if finalNewline || items == [] then [Empty] else [];
    var ks := Kinds(dns, lines);
    assert ks == Kinds(dns, PrintAll(items)) + tail;
    EntriesOfFile(dns, items, tail);
    LoadMeaning(ks);
    if i: nat :| BlankRunAt(Body(ks), i, MAX_EMPTY_LOOP) {
      LongRunIsFiller(dns, items, tail, i);
    }
  }
}
