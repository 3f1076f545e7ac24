/**
 One line of the query data file: how `readNextRequest` and `parseQueryOptions`
 take it apart with a string stream, and what that means in terms of the
 whitespace-separated fields of the line.
 */
module DataLine {
  import opened Wrappers
  import opened Decimal

  /** The parts of the DNS library the reader consults: whether a name text is valid, and the code
      of a type text. */
  datatype Dns = Dns(validName: string -> bool, typeCode: string -> Option<nat>)

  const IXFR: nat := 251
  const AXFR: nat := 252

  /** A request read from a line. `serial` is the one of the authority record, present for IXFR. */
  datatype Entry = Entry(name: string, qtype: nat, serial: Option<nat>)

  predicate IsSpace(c: char) {
    c == ' ' || c == '\t' || c == '\n' || c == '\r' || c == '\U{0B}' || c == '\U{0C}'
  }

  function SkipSpaces(s: string, p: nat): (q: nat)
    requires p <= |s|
    ensures p <= q <= |s|
    ensures q < |s| ==> !IsSpace(s[q])
    ensures forall i | p <= i < q :: IsSpace(s[i])
    decreases |s| - p
  {
    if p < |s| && IsSpace(s[p]) then SkipSpaces(s, p + 1) else p
  }

  function WordEnd(s: string, p: nat): (q: nat)
    requires p <= |s|
    ensures p <= q <= |s|
    ensures q < |s| ==> IsSpace(s[q])
    ensures forall i | p <= i < q :: !IsSpace(s[i])
    decreases |s| - p
  {
    if p < |s| && !IsSpace(s[p]) then WordEnd(s, p + 1) else p
  }

  // ---- The string stream ----

  datatype Words = Words(text: string, pos: nat, eof: bool, fail: bool)

  predicate Sane(w: Words) {
    w.pos <= |w.text| && (w.fail ==> w.eof)
  }

  function Open(line: string): Words {
    Words(line, 0, false, false)
  }

  /** `ss >> word` on a stream whose word variable is empty. */
  function Extract(w: Words): (r: (string, Words))
    requires Sane(w)
    ensures Sane(r.1) && r.1.text == w.text
    ensures r.1.fail ==> r.0 == ""
    ensures !w.eof && !r.1.eof ==> r.1.pos > w.pos
  {
    if w.eof then ("", w.(fail := true))
    else
      var q := SkipSpaces(w.text, w.pos);
      if q == |w.text| then ("", Words(w.text, q, true, true))
      else
        var e := WordEnd(w.text, q);
        (w.text[q..e], Words(w.text, e, e == |w.text|, false))
  }

  function EqualsAt(s: string): (p: nat)
    ensures p <= |s| && '=' !in s[..p]
    ensures p < |s| ==> s[p] == '='
  {
    if s == "" || s[0] == '=' then 0
    else
      var p := EqualsAt(s[1..]);
      assert s[..p + 1] == [s[0]] + s[1..][..p];
      p + 1
  }

  /** One option applied to the serial so far; None when it throws. */
  function ApplyOption(option: string, serial: nat): Option<nat> {
    var p := EqualsAt(option);
    if p == |option| then None
    else if option[..p] == "serial" then ParseU32(option[p + 1..])
    else Some(serial)
  }

  /** `parseQueryOptions`: options up to the end of the stream; None when it throws. */
  function ParseOptions(w: Words, serial: nat): Option<nat>
    requires Sane(w)
    decreases if w.eof then 0 else 1 + |w.text| - w.pos
  {
    if w.eof then Some(serial)
    else
      var (option, w') := Extract(w);
      match ApplyOption(option, serial)
      case None => None
      case Some(v) => ParseOptions(w', v)
  }

  /** The homebrew type mapping table. */
  function Alias(typeText: string): string {
    if typeText == "A6" then "TYPE38"
    else if typeText == "ANY" then "TYPE255"
    else if typeText == "AXFR" then "TYPE252"
    else if typeText == "IXFR" then "TYPE251"
    else typeText
  }

  function MakeEntry(dns: Dns, name: string, typeText: string, serial: nat): Option<Entry> {
    match dns.typeCode(Alias(typeText))
    case None => None
    case Some(code) =>
      if dns.validName(name) then Some(Entry(name, code, if code == IXFR then Some(serial) else None))
      else None
  }

  /** What one non-blank line yields; None when the line is ignored. */
  function ParseLine(dns: Dns, line: string): Option<Entry> {
    var (name, w1) := Extract(Open(line));
    var (typeText, w2) := Extract(w1);
    if w2.fail then None
    else match ParseOptions(w2, 0)
      case None => None
      case Some(serial) => MakeEntry(dns, name, typeText, serial)
  }

  // ---- The line as a list of fields ----

  function FieldsFrom(s: string, p: nat): seq<string>
    requires p <= |s|
    decreases |s| - p
  {
    var q := SkipSpaces(s, p);
    if q == |s| then [] else
      var e := WordEnd(s, q);
      [s[q..e]] + FieldsFrom(s, e)
  }

  function Fields(line: string): seq<string> {
    FieldsFrom(line, 0)
  }

  predicate EndsInSpace(s: string) {
    s != "" && IsSpace(s[|s| - 1])
  }

  predicate IsSerialOption(option: string) {
    "serial=" <= option
  }

  /** An option is well formed: it has a '=', and a serial has a 32-bit argument. */
  predicate GoodOption(option: string) {
    '=' in option && (IsSerialOption(option) ==> ParseU32(option[7..]).Some?)
  }

  /** The last serial among the options, or `default` when there is none. */
  function LastSerial(options: seq<string>, default: nat): nat
    requires forall o | o in options :: GoodOption(o)
  {
    if options == [] then default
    else
      var last := options[|options| - 1];
      assert GoodOption(last);
      if IsSerialOption(last) then ParseU32(last[7..]).value else LastSerial(options[..|options| - 1], default)
  }

  /** What a line means, said without the stream: two fields and then options, all of them good, and
      no whitespace at the end. */
  function Meaning(dns: Dns, line: string): Option<Entry> {
    var fields := Fields(line);
    if |fields| < 2 || EndsInSpace(line) || exists o | o in fields[2..] :: !GoodOption(o) then None
    else MakeEntry(dns, fields[0], fields[1], LastSerial(fields[2..], 0))
  }

  // ---- The two agree ----

  lemma EqualsAtUnique(s: string, p: nat)
    requires p < |s| && s[p] == '=' && '=' !in s[..p]
    ensures EqualsAt(s) == p
  {
    var q := EqualsAt(s);
    assert forall i | 0 <= i < p :: s[i] == s[..p][i];
    assert forall i | 0 <= i < q :: s[i] == s[..q][i];
  }

  lemma ApplyOptionMeaning(option: string, serial: nat)
    ensures ApplyOption(option, serial).Some? <==> GoodOption(option)
    ensures GoodOption(option) ==>
              ApplyOption(option, serial) ==
              (if IsSerialOption(option) then ParseU32(option[7..]) else Some(serial))
  {
    var p := EqualsAt(option);
    if IsSerialOption(option) {
      assert option[..6] == "serial" && option[6] == '=' by {
        assert option[..7] == "serial=";
        assert option[..6] == option[..7][..6];
      }
      EqualsAtUnique(option, 6);
    }
    if p < |option| && option[..p] == "serial" {
      assert option[..7] == option[..6] + [option[6]];
    }
    if p == |option| {
      assert option[..p] == option;
    }
  }

  lemma {:induction false} LastSerialCons(option: string, rest: seq<string>, default: nat)
    requires GoodOption(option) && forall o | o in rest :: GoodOption(o)
    ensures forall o | o in [option] + rest :: GoodOption(o)
    ensures LastSerial([option] + rest, default) ==
            LastSerial(rest, if IsSerialOption(option) then ParseU32(option[7..]).value else default)
    decreases |rest|
  {
    var all := [option] + rest;
    if rest == [] {
      assert all == [option] && all[..0] == [];
    } else {
      assert all[|all| - 1] == rest[|rest| - 1];
      assert all[..|all| - 1] == [option] + rest[..|rest| - 1];
      LastSerialCons(option, rest[..|rest| - 1], default);
    }
  }

  /** Extraction takes exactly the next field, and reports the end of the stream when that field
      touches the end of the line. */
  lemma ExtractIsNextField(w: Words)
    requires Sane(w) && !w.eof
    ensures var (word, w') := Extract(w);
            var fields := FieldsFrom(w.text, w.pos);
            if fields == [] then w'.fail && word == ""
            else !w'.fail && word == fields[0] && FieldsFrom(w.text, w'.pos) == fields[1..]
                 && (w'.eof <==> fields[1..] == [] && !EndsInSpace(w.text))
  {
    var s, q := w.text, SkipSpaces(w.text, w.pos);
    if q < |s| {
      var e := WordEnd(s, q);
      if e < |s| && FieldsFrom(s, e) == [] {
        assert IsSpace(s[|s| - 1]);
      }
    }
  }

  /** From a point not yet at the end: either no field is left, which makes the next extraction
      throw, or the remaining fields are folded in order. */
  lemma {:induction false} ParseOptionsMeaning(w: Words, serial: nat)
    requires Sane(w) && !w.fail
    requires w.eof ==> FieldsFrom(w.text, w.pos) == [] && !EndsInSpace(w.text)
    requires !w.eof ==> w.pos < |w.text|
    ensures var fields := FieldsFrom(w.text, w.pos);
            ParseOptions(w, serial) ==
            if EndsInSpace(w.text) || exists o | o in fields :: !GoodOption(o) then None
            else Some(LastSerial(fields, serial))
    decreases if w.eof then 0 else 1 + |w.text| - w.pos
  {
    if !w.eof {
      var fields := FieldsFrom(w.text, w.pos);
      var (option, w') := Extract(w);
      ExtractIsNextField(w);
      ApplyOptionMeaning(option, serial);
      if fields == [] {
        assert EndsInSpace(w.text);
      } else {
        assert fields == [option] + fields[1..];
        if GoodOption(option) {
          var v := ApplyOption(option, serial).value;
          ParseOptionsMeaning(w', v);
          if forall o | o in fields[1..] :: GoodOption(o) {
            LastSerialCons(option, fields[1..], serial);
          }
        }
      }
    }
  }

  /** The stream-based reader computes the meaning of the line. */
  lemma ParseLineMeaning(dns: Dns, line: string)
    ensures ParseLine(dns, line) == Meaning(dns, line)
  {
    var fields := Fields(line);
    var (name, w1) := Extract(Open(line));
    ExtractIsNextField(Open(line));
    if fields != [] && !w1.eof {
      var (typeText, w2) := Extract(w1);
      ExtractIsNextField(w1);
      if |fields| >= 2 {
        assert fields[1..][1..] == fields[2..];
        if !w2.eof { assert w2.pos < |line|; }
        ParseOptionsMeaning(w2, 0);
      }
    }
  }

  /** Whitespace after the last field makes a line be ignored, whatever it holds. */
  lemma TrailingSpaceIgnored(dns: Dns, line: string, c: char)
    requires IsSpace(c)
    ensures ParseLine(dns, line + [c]) == None
  {
    ParseLineMeaning(dns, line + [c]);
  }

  /** The serial of a request depends on its own line only: the last `serial=` there, else 0, and
      only IXFR requests carry one. */
  lemma SerialIsOwnLast(dns: Dns, line: string)
    requires ParseLine(dns, line).Some?
    ensures var e := ParseLine(dns, line).value;
            && |Fields(line)| >= 2
            && (forall o | o in Fields(line)[2..] :: GoodOption(o))
            && e.serial == if e.qtype == IXFR then Some(LastSerial(Fields(line)[2..], 0)) else None
  {
    ParseLineMeaning(dns, line);
  }

  // ---- What a line says, in plain terms ----

  /** The space and the five control characters from the tab to the carriage return. */
  predicate White(c: char) {
    c == ' ' || 9 <= c as int <= 13
  }

  /** Option `i` gives the serial `v`, and no later one gives any. */
  ghost predicate LastAt(options: seq<string>, i: nat, v: nat) {
    && i < |options| && "serial=" <= options[i] && ParseU32(options[i][7..]) == Some(v)
    && forall j | i < j < |options| :: !("serial=" <= options[j])
  }

  /** The options give the serial `v`: that of the last `serial=`, or 0 if there is none. */
  ghost predicate GiveSerial(options: seq<string>, v: nat) {
    || (v == 0 && forall j | 0 <= j < |options| :: !("serial=" <= options[j]))
    || exists i: nat :: LastAt(options, i, v)
  }

  /** The line asks for `e`: a valid name, a type that has a code once the four names the library does
      not know are replaced, options each with a '=' and any serial a number, and no white space at the
      end; for IXFR (251) with the serial given. */
  ghost predicate Says(dns: Dns, line: string, e: Entry) {
    var fields := Fields(line);
    && |fields| >= 2 && !White(line[|line| - 1])
    && (forall o | o in fields[2..] :: '=' in o && ("serial=" <= o ==> ParseU32(o[7..]).Some?))
    && e.name == fields[0] && dns.validName(fields[0])
    && dns.typeCode(match fields[1]
                    case "A6" => "TYPE38"
                    case "ANY" => "TYPE255"
                    case "AXFR" => "TYPE252"
                    case "IXFR" => "TYPE251"
                    case other => other) == Some(e.qtype)
    && if e.qtype == 251 then e.serial.Some? && GiveSerial(fields[2..], e.serial.value) else e.serial == None
  }

  lemma LastAtRest(options: seq<string>, i: nat, v: nat)
    requires options != [] && !("serial=" <= options[|options| - 1])
    ensures LastAt(options, i, v) <==> LastAt(options[..|options| - 1], i, v)
  {
  }

  lemma {:induction false} LastSerialGiven(options: seq<string>, v: nat)
    requires forall o | o in options :: GoodOption(o)
    ensures GiveSerial(options, v) <==> v == LastSerial(options, 0)
  {
    if options != [] {
      var n := |options| - 1;
      assert GoodOption(options[n]);
      if IsSerialOption(options[n]) {
        assert LastAt(options, n, LastSerial(options, 0));
        assert forall i: nat, w: nat | LastAt(options, i, w) :: i == n;
      } else {
        LastSerialGiven(options[..n], v);
        forall i: nat ensures LastAt(options, i, v) <==> LastAt(options[..n], i, v) {
          LastAtRest(options, i, v);
        }
      }
    }
  }

  lemma MeaningSays(dns: Dns, line: string, e: Entry)
    ensures Meaning(dns, line) == Some(e) <==> Says(dns, line, e)
  {
    var fields := Fields(line);
    if |fields| >= 2 && forall o | o in fields[2..] :: GoodOption(o) {
      LastSerialGiven(fields[2..], if e.serial.Some? then e.serial.value else 0);
    }
  }

  /** A line is accepted exactly as what it says, and ignored if it says nothing. */
  lemma AcceptedIff(dns: Dns, line: string, e: Entry)
    ensures ParseLine(dns, line) == Some(e) <==> Says(dns, line, e)
  {
    ParseLineMeaning(dns, line);
    MeaningSays(dns, line, e);
  }

  predicate AllWhite(gap: string) {
    forall i | 0 <= i < |gap| :: White(gap[i])
  }

  predicate NoWhite(word: string) {
    word != "" && forall i | 0 <= i < |word| :: !White(word[i])
  }

  /** Words with gaps around them. */
  function Weave(words: seq<string>, gaps: seq<string>): string
    requires |gaps| == |words| + 1
  {
    if words == [] then gaps[0] else gaps[0] + words[0] + Weave(words[1..], gaps[1..])
  }

  ghost predicate Woven(words: seq<string>, gaps: seq<string>) {
    && |gaps| == |words| + 1
    && (forall i | 0 <= i < |words| :: NoWhite(words[i]))
    && (forall i | 0 <= i < |gaps| :: AllWhite(gaps[i]))
    && (forall i | 0 < i < |words| :: gaps[i] != "")
  }

  lemma WhiteIsSpace(c: char)
    ensures IsSpace(c) <==> White(c)
  {
  }

  /** A gap is skipped up to a word or the end. */
  lemma GapSkipped(s: string, p: nat, q: nat)
    requires p <= q <= |s| && AllWhite(s[p..q]) && (q < |s| ==> !White(s[q]))
    ensures SkipSpaces(s, p) == q
  {
    assert forall i | p <= i < q :: White(s[p..q][i - p]) && IsSpace(s[i]);
    if q < |s| {
      WhiteIsSpace(s[q]);
    }
  }

  lemma WordTaken(s: string, p: nat, q: nat)
    requires p <= q <= |s| && NoWhite(s[p..q]) && (q < |s| ==> White(s[q]))
    ensures WordEnd(s, p) == q
  {
    forall i | p <= i < q ensures !IsSpace(s[i]) {
      assert s[p..q][i - p] == s[i];
      WhiteIsSpace(s[i]);
    }
    if q < |s| {
      WhiteIsSpace(s[q]);
    }
  }

  /** What follows a word is nothing, or starts with white space. */
  lemma WeaveStarts(words: seq<string>, gaps: seq<string>)
    requires Woven(words, gaps)
    ensures var w := Weave(words, gaps);
            && (gaps[0] != "" ==> w != "" && White(w[0]))
            && (words == [] && gaps[0] == "" ==> w == "")
  {
    if gaps[0] != "" {
      assert Weave(words, gaps)[0] == gaps[0][0];
    }
  }

  lemma OneWoven(s: string, p: nat, words: seq<string>, gaps: seq<string>) returns (e: nat)
    requires words != [] && Woven(words, gaps) && p <= |s| && s[p..] == Weave(words, gaps)
    ensures p < e <= |s| && s[e..] == Weave(words[1..], gaps[1..]) && Woven(words[1..], gaps[1..])
    ensures FieldsFrom(s, p) == [words[0]] + FieldsFrom(s, e)
  {
    var q := p + |gaps[0]|;
    e := q + |words[0]|;
    var tail := Weave(words[1..], gaps[1..]);
    assert s[p..] == gaps[0] + (words[0] + tail);
    assert s[p..q] == s[p..][..|gaps[0]|] == gaps[0];
    assert s[q..] == s[p..][|gaps[0]|..] == words[0] + tail;
    assert s[q..e] == s[q..][..|words[0]|] == words[0];
    assert s[e..] == s[q..][|words[0]|..] == tail;
    assert s[q] == words[0][0];
    GapSkipped(s, p, q);
    assert forall i | 0 < i < |words[1..]| :: gaps[1..][i] == gaps[i + 1];
    WeaveStarts(words[1..], gaps[1..]);
    if e < |s| {
      assert s[e] == tail[0];
    }
    WordTaken(s, q, e);
  }

  lemma {:induction false} FieldsOfWeave(s: string, p: nat, words: seq<string>, gaps: seq<string>)
    requires Woven(words, gaps) && p <= |s| && s[p..] == Weave(words, gaps)
    ensures FieldsFrom(s, p) == words
    decreases |words|
  {
    if words == [] {
      GapSkipped(s, p, |s|);
    } else {
      var e := OneWoven(s, p, words, gaps);
      FieldsOfWeave(s, e, words[1..], gaps[1..]);
    }
  }

  /** The fields of a line are the words between its white space. */
  lemma FieldsAreWords(words: seq<string>, gaps: seq<string>)
    requires Woven(words, gaps)
    ensures Fields(Weave(words, gaps)) == words
  {
    var s := Weave(words, gaps);
    assert s[0..] == s;
    FieldsOfWeave(s, 0, words, gaps);
  }
}
