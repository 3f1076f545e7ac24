/**
 The input stream: a character sequence with a position and the eof and fail
 flags, read with `getline`, and the same content as a list of lines.
 */
module LineFeed {
  datatype Stream = Stream(content: string, pos: nat, eof: bool, fail: bool)

  function Open(content: string): Stream {
    Stream(content, 0, false, false)
  }

  /** The first newline at or after `p`, or the end. */
  function NewlineAt(s: string, p: nat): (q: nat)
    requires p <= |s|
    ensures p <= q <= |s|
    ensures q < |s| ==> s[q] == '\n'
    ensures forall i | p <= i < q :: s[i] != '\n'
    decreases |s| - p
  {
    if p < |s| && s[p] != '\n' then NewlineAt(s, p + 1) else p
  }

  /** `getline`: stops after a newline, or at the end with eof, failing when it took nothing. */
  function GetLine(st: Stream): (string, Stream)
    requires st.pos <= |st.content|
  {
    if st.eof || st.fail then ("", st.(fail := true))
    else
      var q := NewlineAt(st.content, st.pos);
      var line := st.content[st.pos..q];
      if q == |st.content| then (line, Stream(st.content, q, true, line == ""))
      else (line, st.(pos := q + 1))
  }

  /** `clear()` and `seekg(0)`. */
  function Rewind(st: Stream): Stream {
    Open(st.content)
  }

  /** The pieces between newlines from `p` on; the last one is empty when the text ends in a newline. */
  function LinesFrom(s: string, p: nat): (ls: seq<string>)
    requires p <= |s|
    ensures ls != []
    decreases |s| - p
  {
    var q := NewlineAt(s, p);
    if q == |s| then [s[p..q]] else [s[p..q]] + LinesFrom(s, q + 1)
  }

  function Lines(content: string): (ls: seq<string>)
    ensures ls != []
  {
    LinesFrom(content, 0)
  }

  /** `rest` is what `all` has from `j` on. */
  ghost predicate IsRest(rest: seq<string>, all: seq<string>, j: nat) {
    |rest| + j == |all| && forall i | 0 <= i < |rest| :: rest[i] == all[j + i]
  }

  /** The stream is about to read line `j`, or has met the end after the last one. */
  ghost predicate At(st: Stream, j: nat) {
    && st.pos <= |st.content|
    && j <= |Lines(st.content)|
    && if j < |Lines(st.content)| then
         !st.eof && !st.fail && IsRest(LinesFrom(st.content, st.pos), Lines(st.content), j)
       else st.eof
  }

  /** What reading at `j` yields and where it leads. */
  function LineAt(lines: seq<string>, j: nat): string {
    if j < |lines| then lines[j] else ""
  }

  /** `getline` walks the list of lines, meeting the end exactly with the last one. */
  lemma GetLineIsNextLine(st: Stream, j: nat)
    requires At(st, j)
    ensures var lines := Lines(st.content);
            var (line, st') := GetLine(st);
            && st'.content == st.content
            && line == LineAt(lines, j)
            && At(st', if j < |lines| then j + 1 else j)
            && (st'.eof <==> j + 1 >= |lines|)
            && (!st'.eof ==> !st'.fail)
  {
    var s, lines := st.content, Lines(st.content);
    if j < |lines| {
      var q, rest := NewlineAt(s, st.pos), LinesFrom(s, st.pos);
      assert rest[0] == s[st.pos..q] == lines[j];
      if q < |s| {
        assert rest[1..] == LinesFrom(s, q + 1);
        assert forall i | 0 <= i < |rest| - 1 :: rest[1..][i] == lines[j + 1 + i];
      }
    }
  }

  lemma RewindIsFirst(st: Stream)
    ensures At(Rewind(st), 0)
  {
  }

  // ---- Writing lines ----

  ghost predicate NewlineFree(line: string) {
    '\n' !in line
  }

  /** Lines joined by newlines, none after the last. */
  function Join(lines: seq<string>): string
    requires lines != []
  {
    if |lines| == 1 then lines[0] else lines[0] + "\n" + Join(lines[1..])
  }

  /** The next newline after a newline-free line. */
  lemma LineEnds(s: string, p: nat, l: string)
    requires p + |l| <= |s| && s[p..p + |l|] == l && NewlineFree(l)
    requires p + |l| < |s| ==> s[p + |l|] == '\n'
    ensures NewlineAt(s, p) == p + |l|
  {
    assert forall i | p <= i < p + |l| :: s[i] == l[i - p];
  }

  lemma FirstOfJoin(lines: seq<string>, s: string, p: nat)
    requires lines != [] && p <= |s| && s[p..] == Join(lines)
    ensures var q := p + |lines[0]|;
            && q <= |s| && s[p..q] == lines[0]
            && (q == |s| <==> |lines| == 1)
            && (|lines| > 1 ==> s[q] == '\n' && s[q + 1..] == Join(lines[1..]))
  {
    var l := lines[0];
    assert s[p..p + |l|] == s[p..][..|l|] == l;
    if |lines| > 1 {
      assert s[p..] == (l + "\n") + Join(lines[1..]);
      assert s[p + |l|] == s[p..][|l|];
      assert s[p + |l| + 1..] == s[p..][|l| + 1..];
    }
  }

  lemma {:induction false} SplitJoinFrom(s: string, p: nat, lines: seq<string>)
    requires lines != [] && p <= |s| && s[p..] == Join(lines)
    requires forall i | 0 <= i < |lines| :: NewlineFree(lines[i])
    ensures LinesFrom(s, p) == lines
    decreases |lines|
  {
    FirstOfJoin(lines, s, p);
    LineEnds(s, p, lines[0]);
    if |lines| > 1 {
      SplitJoinFrom(s, p + |lines[0]| + 1, lines[1..]);
    }
  }

  lemma SplitJoin(lines: seq<string>)
    requires lines != [] && forall l | l in lines :: NewlineFree(l)
    ensures Lines(Join(lines)) == lines
  {
    assert Join(lines)[0..] == Join(lines);
    SplitJoinFrom(Join(lines), 0, lines);
  }
}
