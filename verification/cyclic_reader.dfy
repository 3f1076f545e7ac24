/**
 Streaming: reads that rewind at the end of the input. When they end at all,
 and what the successive requests are.
 */
module CyclicReader {
  import opened Wrappers
  import opened DataLine
  import opened LineReader

  /** Where `k` rewinding reads from line `j` lead. */
  function Walk(ks: seq<Kind>, j: nat, k: nat): nat
    decreases k
  {
    if k == 0 then j else Walk(ks, After(ks, true, j), k - 1)
  }

  /** `k` cyclic reads from `j` are all blank or comment lines. */
  predicate BlankRun(ks: seq<Kind>, j: nat, k: nat)
    decreases k
  {
    k == 0 || (KindAt(ks, j).IsBlank() && BlankRun(ks, After(ks, true, j), k - 1))
  }

  ghost predicate LongRun(ks: seq<Kind>, i: nat, n: nat) {
    i < |ks| && n >= MAX_EMPTY_LOOP && BlankRun(ks, i, n)
  }

  /** Some 1000 reads in a row, or more, round the end of the input if need be, are blank or comments. */
  ghost predicate HasCyclicBlankRun(ks: seq<Kind>) {
    exists i: nat, n: nat :: LongRun(ks, i, n)
  }

  lemma {:induction false} WalkForward(ks: seq<Kind>, j: nat, k: nat)
    requires j + k < |ks|
    ensures Walk(ks, j, k) == j + k
    decreases k
  {
    if k > 0 {
      WalkForward(ks, j + 1, k - 1);
    }
  }

  lemma {:induction false} WalkConcat(ks: seq<Kind>, j: nat, a: nat, b: nat)
    ensures Walk(ks, j, a + b) == Walk(ks, Walk(ks, j, a), b)
    decreases a
  {
    if a > 0 {
      WalkConcat(ks, After(ks, true, j), a - 1, b);
    }
  }

  lemma {:induction false} BlankRunExtend(ks: seq<Kind>, p: nat, k: nat)
    requires BlankRun(ks, p, k)
    ensures BlankRun(ks, p, k + 1) <==> KindAt(ks, Walk(ks, p, k)).IsBlank()
    decreases k
  {
    if k > 0 {
      BlankRunExtend(ks, After(ks, true, p), k - 1);
    }
  }

  /** Line `g` is reached from `j` within one round. */
  lemma DistanceTo(ks: seq<Kind>, j: nat, g: nat) returns (d: nat)
    requires g < |ks| && j <= |ks|
    ensures Walk(ks, j, d) == g
    ensures d < |ks| + (if j == |ks| then 1 else 0)
  {
    if j <= g {
      WalkForward(ks, j, g - j);
      d := g - j;
    } else {
      if j < |ks| {
        WalkForward(ks, j, |ks| - 1 - j);
        WalkConcat(ks, j, |ks| - 1 - j, 1);
        d := |ks| - j;
      } else {
        d := 1;
      }
      assert Walk(ks, j, d) == 0 by {
        assert Walk(ks, if j < |ks| then |ks| - 1 else j, 1) == 0;
      }
      WalkForward(ks, 0, g);
      WalkConcat(ks, j, d, g);
      d := d + g;
    }
  }

  /** An unfinished read is wherever so many reads lead. */
  lemma {:induction false} ReadsFollowWalk(ks: seq<Kind>, j: nat, blanks: nat, n: nat)
    ensures var r := Reads(ks, true, Reading(j, blanks), n);
            r.Done? || r.at == Walk(ks, j, n)
    decreases n
  {
    if n > 0 {
      var r := Read(ks, true, Reading(j, blanks));
      if r.Done? {
        ReadsDone(ks, true, r.outcome, n - 1);
      } else {
        ReadsFollowWalk(ks, r.at, r.blanks, n - 1);
      }
    }
  }

  lemma {:induction false} BlankRunThrows(ks: seq<Kind>, j: nat, blanks: nat, k: nat)
    requires BlankRun(ks, j, k) && blanks < MAX_EMPTY_LOOP <= blanks + k
    ensures Reads(ks, true, Reading(j, blanks), k).Done?
    ensures Reads(ks, true, Reading(j, blanks), k).outcome.GuardThrew?
    decreases k
  {
    var r := Read(ks, true, Reading(j, blanks));
    if r.Done? {
      ReadsDone(ks, true, r.outcome, k - 1);
    } else {
      BlankRunThrows(ks, r.at, r.blanks, k - 1);
    }
  }

  lemma {:induction false} UnfinishedBlanks(ks: seq<Kind>, j: nat, blanks: nat, n: nat)
    requires blanks < MAX_EMPTY_LOOP
    ensures var r := Reads(ks, true, Reading(j, blanks), n);
            r.Done? || r.blanks < MAX_EMPTY_LOOP
    decreases n
  {
    if n > 0 {
      var r := Read(ks, true, Reading(j, blanks));
      if r.Done? {
        ReadsDone(ks, true, r.outcome, n - 1);
      } else {
        UnfinishedBlanks(ks, r.at, r.blanks, n - 1);
      }
    }
  }

  /** With a valid line in the input, a rewinding read returns or throws within one round. */
  lemma OnePass(ks: seq<Kind>, j: nat)
    requires j <= |ks| && HasGood(ks)
    ensures DoneBy(ks, true, j, |ks| + (if j == |ks| then 1 else 0))
  {
    var g: nat :| GoodAt(ks, g);
    var d := DistanceTo(ks, j, g);
    var n := |ks| + (if j == |ks| then 1 else 0);
    ReadsFollowWalk(ks, j, 0, d);
    var r := Reads(ks, true, Reading(j, 0), d);
    ReadsConcat(ks, true, Reading(j, 0), d, 1);
    if !r.Done? {
      assert Reads(ks, true, r, 1) == Read(ks, true, r) by {
        assert Reads(ks, true, Read(ks, true, r), 0) == Read(ks, true, r);
      }
      ReadsLater(ks, true, Reading(j, 0), d + 1, n);
    } else {
      ReadsLater(ks, true, Reading(j, 0), d, n);
    }
  }

  /** Why a rewinding read ended: at a valid line, or at the end of a run of blank reads. */
  lemma {:induction false} WhyDone(ks: seq<Kind>, p: nat, j: nat, blanks: nat, n: nat)
    requires j <= |ks| && p < |ks| && ks != []
    requires blanks < MAX_EMPTY_LOOP
    requires BlankRun(ks, p, blanks) && Walk(ks, p, blanks) == j
    requires Reads(ks, true, Reading(j, blanks), n).Done?
    ensures HasGood(ks) || HasCyclicBlankRun(ks)
    ensures Reads(ks, true, Reading(j, blanks), n).outcome.GuardThrew? ==> HasCyclicBlankRun(ks)
    ensures Reads(ks, true, Reading(j, blanks), n).outcome != NoMore
    decreases n
  {
    var r := Read(ks, true, Reading(j, blanks));
    var kind := KindAt(ks, j);
    if r.Done? {
      ReadsDone(ks, true, r.outcome, n - 1);
      if kind.Good? {
        assert GoodAt(ks, j);
      } else {
        BlankRunExtend(ks, p, blanks);
        assert LongRun(ks, p, blanks + 1);
      }
    } else if kind.IsBlank() {
      BlankRunExtend(ks, p, blanks);
      WalkConcat(ks, p, blanks, 1);
      assert Walk(ks, j, 1) == r.at by { assert Walk(ks, r.at, 0) == r.at; }
      WhyDone(ks, p, r.at, r.blanks, n - 1);
    } else {
      WhyDone(ks, r.at, r.at, 0, n - 1);
    }
  }

  /** Wherever the stream is, a valid line or a long blank run somewhere makes a rewinding read end. */
  lemma HaltsFrom(ks: seq<Kind>, j: nat)
    requires j <= |ks| && ks != []
    requires HasGood(ks) || HasCyclicBlankRun(ks)
    ensures Halts(ks, true, j)
  {
    if HasGood(ks) {
      OnePass(ks, j);
    } else {
      var i: nat, m: nat :| LongRun(ks, i, m);
      var d := DistanceTo(ks, j, i);
      ReadsFollowWalk(ks, j, 0, d);
      UnfinishedBlanks(ks, j, 0, d);
      var r := Reads(ks, true, Reading(j, 0), d);
      if r.Done? {
        assert DoneBy(ks, true, j, d);
      } else {
        BlankRunThrows(ks, i, r.blanks, m);
        ReadsConcat(ks, true, Reading(j, 0), d, m);
        assert DoneBy(ks, true, j, d + m);
      }
    }
  }

  /**
   A streaming read returns or throws if and only if the input has a valid line or a cyclic run
   of 1000 blank reads. On any other input, that is one with malformed lines and no valid one,
   it never returns.
   */
  lemma StreamingHaltsIff(ks: seq<Kind>, j: nat)
    requires j < |ks|
    ensures Halts(ks, true, j) <==> HasGood(ks) || HasCyclicBlankRun(ks)
  {
    if HasGood(ks) || HasCyclicBlankRun(ks) {
      HaltsFrom(ks, j);
    }
    if Halts(ks, true, j) {
      var n: nat :| DoneBy(ks, true, j, n);
      WhyDone(ks, j, j, 0, n);
    }
  }

  lemma {:induction false} OutcomeInRange(ks: seq<Kind>, rewind: bool, r: Reader, n: nat)
    requires ks != [] && r.Reading? && r.at <= |ks|
    requires Reads(ks, rewind, r, n).Done?
    ensures var o := Reads(ks, rewind, r, n).outcome;
            && (o.Got? || o.GuardThrew? ==> o.at <= |ks|)
            && (rewind ==> o != NoMore)
    decreases n
  {
    var r' := Read(ks, rewind, r);
    if r'.Done? {
      ReadsDone(ks, rewind, r'.outcome, n - 1);
    } else {
      OutcomeInRange(ks, rewind, r', n - 1);
    }
  }

  lemma ResultInRange(ks: seq<Kind>, j: nat)
    requires ks != [] && j <= |ks| && Halts(ks, true, j)
    ensures var o := Result(ks, true, j); o != NoMore && o.at <= |ks|
  {
    var n: nat :| DoneBy(ks, true, j, n);
    ResultIs(ks, true, j, n);
    OutcomeInRange(ks, true, Reading(j, 0), n);
  }

  lemma {:induction false} AllBlankRun(ks: seq<Kind>, j: nat, k: nat)
    requires forall kind | kind in ks :: kind.IsBlank()
    ensures BlankRun(ks, j, k)
    decreases k
  {
    if k > 0 {
      AllBlankRun(ks, After(ks, true, j), k - 1);
    }
  }

  lemma {:induction false} BlankReads(ks: seq<Kind>, j: nat, blanks: nat, n: nat)
    requires BlankRun(ks, j, n) && blanks + n < MAX_EMPTY_LOOP
    ensures !Reads(ks, true, Reading(j, blanks), n).Done?
    decreases n
  {
    if n > 0 {
      BlankReads(ks, After(ks, true, j), blanks + 1, n - 1);
    }
  }

  /** Input of blank and comment lines only makes a streaming read throw after exactly 1000 reads. */
  lemma BlankInputThrows(ks: seq<Kind>, j: nat)
    requires forall kind | kind in ks :: kind.IsBlank()
    ensures forall n: nat :: DoneBy(ks, true, j, n) <==> n >= 1000
    ensures Halts(ks, true, j) && Result(ks, true, j).GuardThrew?
  {
    AllBlankRun(ks, j, MAX_EMPTY_LOOP);
    BlankRunThrows(ks, j, 0, MAX_EMPTY_LOOP);
    ResultIs(ks, true, j, MAX_EMPTY_LOOP);
    forall n: nat ensures DoneBy(ks, true, j, n) <==> n >= MAX_EMPTY_LOOP {
      if n < MAX_EMPTY_LOOP {
        AllBlankRun(ks, j, n);
        BlankReads(ks, j, 0, n);
      } else {
        ReadsLater(ks, true, Reading(j, 0), MAX_EMPTY_LOOP, n);
      }
    }
  }

  // ---- The sequence of streamed requests ----

  /** The next `k` requests streamed from line `j`; None when one of the reads does not return any. */
  ghost function Stream(ks: seq<Kind>, j: nat, k: nat): Option<seq<Entry>>
    decreases k
  {
    if k == 0 then Some([])
    else if !Halts(ks, true, j) then None
    else match Result(ks, true, j)
      case Got(e, j') =>
        (match Stream(ks, j', k - 1)
         case None => None
         case Some(rest) => Some([e] + rest))
      case _ => None
  }

  /** From `j` to the end of the text: up to the next valid line, or round to the start. */
  lemma {:induction false} ReadRest(ks: seq<Kind>, p: nat, j: nat, blanks: nat)
    returns (n: nat)
    requires j < |ks| && p < |ks| && !HasCyclicBlankRun(ks)
    requires blanks < MAX_EMPTY_LOOP
    requires BlankRun(ks, p, blanks) && Walk(ks, p, blanks) == j
    ensures var r := Reads(ks, true, Reading(j, blanks), n);
            var rest := Entries(ks[j..]);
            if rest != [] then
              r.Done? && r.outcome.Got? && r.outcome.entry == rest[0] && r.outcome.at < |ks|
              && (rest[1..] == Entries(ks[r.outcome.at..]) || (rest[1..] == [] && r.outcome.at == 0))
            else
              r.Reading? && r.at == 0 && r.blanks < MAX_EMPTY_LOOP
              && exists p': nat :: p' < |ks| && BlankRun(ks, p', r.blanks) && Walk(ks, p', r.blanks) == 0
    decreases |ks| - j
  {
    var r := Read(ks, true, Reading(j, blanks));
    var kind := ks[j];
    assert ks[j..][0] == ks[j] && ks[j..][1..] == ks[j + 1..];
    assert Reads(ks, true, r, 0) == r;
    BlankRunExtend(ks, p, blanks);
    WalkConcat(ks, p, blanks, 1);
    assert Walk(ks, j, 1) == After(ks, true, j) by { assert Walk(ks, After(ks, true, j), 0) == After(ks, true, j); }
    assert LongRun(ks, p, blanks + 1) <==> kind.IsBlank() && blanks + 1 >= MAX_EMPTY_LOOP;
    if kind.Good? {
      n := 1;
    } else {
      var p' := if kind.IsBlank() then p else After(ks, true, j);
      assert BlankRun(ks, p', r.blanks) && Walk(ks, p', r.blanks) == r.at;
      if j + 1 == |ks| {
        n := 1;
      } else {
        n := ReadRest(ks, p', r.at, r.blanks);
        n := n + 1;
      }
    }
  }

  /** A streamed request is the head of `rest`; what follows is streamed from where it left off. */
  ghost predicate Streams(ks: seq<Kind>, o: Outcome, rest: seq<Entry>) {
    && rest != [] && o.Got? && o.entry == rest[0] && o.at < |ks|
    && (rest[1..] == Entries(ks[o.at..]) || (rest[1..] == [] && o.at == 0))
  }

  /** A valid line is left before the end. */
  lemma StreamedAhead(ks: seq<Kind>, j: nat)
    requires j < |ks| && Entries(ks[j..]) != [] && !HasCyclicBlankRun(ks)
    ensures Halts(ks, true, j) && Streams(ks, Result(ks, true, j), Entries(ks[j..]))
  {
    var n := ReadRest(ks, j, j, 0);
    ResultIs(ks, true, j, n);
  }

  lemma FromStart(ks: seq<Kind>, p: nat, blanks: nat) returns (m: nat)
    requires Entries(ks) != [] && !HasCyclicBlankRun(ks) && blanks < MAX_EMPTY_LOOP
    requires p < |ks| && BlankRun(ks, p, blanks) && Walk(ks, p, blanks) == 0
    ensures var r := Reads(ks, true, Reading(0, blanks), m);
            r.Done? && Streams(ks, r.outcome, Entries(ks))
  {
    assert ks[0..] == ks;
    m := ReadRest(ks, p, 0, blanks);
  }

  lemma ToEnd(ks: seq<Kind>, j: nat) returns (n: nat, p: nat)
    requires j < |ks| && Entries(ks[j..]) == [] && !HasCyclicBlankRun(ks)
    ensures var r := Reads(ks, true, Reading(j, 0), n);
            && r.Reading? && r.at == 0 && r.blanks < MAX_EMPTY_LOOP
            && p < |ks| && BlankRun(ks, p, r.blanks) && Walk(ks, p, r.blanks) == 0
  {
    n := ReadRest(ks, j, j, 0);
    var r := Reads(ks, true, Reading(j, 0), n);
    p :| p < |ks| && BlankRun(ks, p, r.blanks) && Walk(ks, p, r.blanks) == 0;
  }

  lemma ReadsJoin(ks: seq<Kind>, j: nat, n: nat, r: Reader, m: nat)
    requires r == Reads(ks, true, Reading(j, 0), n) && Reads(ks, true, r, m).Done?
    ensures Halts(ks, true, j) && Result(ks, true, j) == Reads(ks, true, r, m).outcome
  {
    ReadsConcat(ks, true, Reading(j, 0), n, m);
    ResultIs(ks, true, j, n + m);
  }

  /** None is left, and reading goes on from the start. */
  lemma StreamedRound(ks: seq<Kind>, j: nat)
    requires j < |ks| && Entries(ks[j..]) == [] && Entries(ks) != [] && !HasCyclicBlankRun(ks)
    ensures Halts(ks, true, j) && Streams(ks, Result(ks, true, j), Entries(ks))
  {
    var n, p := ToEnd(ks, j);
    var r := Reads(ks, true, Reading(j, 0), n);
    var m := FromStart(ks, p, r.blanks);
    assert r == Reading(0, r.blanks);
    ReadsJoin(ks, j, n, r, m);
  }

  /** One streamed request: the first valid line from `j` on, or else the first of the text. */
  lemma NextStreamed(ks: seq<Kind>, j: nat)
    requires j < |ks| && Entries(ks) != [] && !HasCyclicBlankRun(ks)
    ensures Halts(ks, true, j)
    ensures Streams(ks, Result(ks, true, j), if Entries(ks[j..]) != [] then Entries(ks[j..]) else Entries(ks))
  {
    if Entries(ks[j..]) != [] {
      StreamedAhead(ks, j);
    } else {
      StreamedRound(ks, j);
    }
  }

  lemma ModIs(x: nat, q: nat, r: nat, n: nat)
    requires n > 0 && x == n * q + r && r < n
    ensures x % n == r
  {
    var d := x / n - q;
    assert n * d == r - x % n;
    assert d >= 1 ==> n * d >= n;
    assert d <= -1 ==> n * d <= -1 * n;
  }

  lemma ModNext(t: nat, n: nat)
    requires n > 0
    ensures (t + 1) % n == if t % n + 1 == n then 0 else t % n + 1
  {
    var q, r := t / n, t % n;
    if r + 1 == n {
      assert t + 1 == n * (q + 1);
      ModIs(t + 1, q + 1, 0, n);
    } else {
      ModIs(t + 1, q, r + 1, n);
    }
  }

  lemma {:induction false} ModShift(a: nat, b: nat, t: nat, n: nat)
    requires n > 0 && a % n == b % n
    ensures (a + t) % n == (b + t) % n
    decreases t
  {
    if t > 0 {
      ModShift(a, b, t - 1, n);
      ModNext(a + (t - 1), n);
      ModNext(b + (t - 1), n);
    }
  }

  /** `k` elements from index `c` on, going round the list. */
  function Cycle<T>(es: seq<T>, c: nat, k: nat): (r: seq<T>)
    requires es != []
    ensures |r| == k && forall t: nat | t < k :: r[t] == es[(c + t) % |es|]
  {
    seq(k, t requires 0 <= t < k => es[(c + t) % |es|])
  }

  lemma CycleCons<T>(es: seq<T>, c: nat, c': nat, k: nat)
    requires es != [] && c' % |es| == (c + 1) % |es|
    ensures Cycle(es, c, k + 1) == [es[c % |es|]] + Cycle(es, c', k)
  {
    var l, r := Cycle(es, c, k + 1), [es[c % |es|]] + Cycle(es, c', k);
    forall t: nat | t < k + 1 ensures l[t] == r[t] {
      if t > 0 {
        ModShift(c', c + 1, t - 1, |es|);
      }
    }
    assert l == r;
  }

  /** `c` requests of the text, counted from its start, lie before line `j`. */
  ghost predicate Passed(ks: seq<Kind>, j: nat, c: nat) {
    j < |ks| && c <= |Entries(ks)| && Entries(ks[j..]) == Entries(ks)[c..]
  }

  lemma WrapCount(c: nat, n: nat)
    requires n > 0 && c <= n
    ensures var here := if c < n then c else 0;
            here == c % n && (here + 1) % n == (c + 1) % n && (here + 1 == n ==> (c + 1) % n == 0)
  {
    ModIs(c, if c < n then 0 else 1, if c < n then c else 0, n);
    ModNext(c, n);
    ModNext(c % n, n);
    ModIs(c % n, 0, c % n, n);
  }

  lemma NextCount(ks: seq<Kind>, j: nat, c: nat) returns (c': nat)
    requires Passed(ks, j, c) && Entries(ks) != [] && !HasCyclicBlankRun(ks)
    ensures Halts(ks, true, j) && Result(ks, true, j).Got?
    ensures Result(ks, true, j).entry == Entries(ks)[c % |Entries(ks)|]
    ensures Passed(ks, Result(ks, true, j).at, c')
    ensures c' % |Entries(ks)| == (c + 1) % |Entries(ks)|
  {
    var es := Entries(ks);
    NextStreamed(ks, j);
    WrapCount(c, |es|);
    var here := if c < |es| then c else 0;
    var rest := if Entries(ks[j..]) != [] then Entries(ks[j..]) else es;
    assert es[0..] == es;
    assert rest == es[here..] && rest[1..] == es[here + 1..];
    if rest[1..] == Entries(ks[Result(ks, true, j).at..]) {
      c' := here + 1;
    } else {
      assert ks[0..] == ks;
      c' := 0;
    }
  }

  /** From a point where `c` requests of the text have gone by, the stream goes round the list. */
  lemma {:induction false} StreamFrom(ks: seq<Kind>, j: nat, c: nat, k: nat)
    requires Passed(ks, j, c) && Entries(ks) != [] && !HasCyclicBlankRun(ks)
    ensures Stream(ks, j, k) == Some(Cycle(Entries(ks), c, k))
    decreases k
  {
    if k > 0 {
      var c' := NextCount(ks, j, c);
      StreamFrom(ks, Result(ks, true, j).at, c', k - 1);
      CycleCons(Entries(ks), c, c', k - 1);
    } else {
      assert Cycle(Entries(ks), c, 0) == [];
    }
  }

  /** Request `i` of a stream read from the start is valid line `i` modulo their number. */
  lemma StreamIsCyclic(ks: seq<Kind>, k: nat)
    requires ks != [] && Entries(ks) != [] && !HasCyclicBlankRun(ks)
    ensures Stream(ks, 0, k) == Some(Cycle(Entries(ks), 0, k))
  {
    assert ks[0..] == ks;
    StreamFrom(ks, 0, 0, k);
  }

  /** A request under way that still has to pass a long blank run fails, or is followed by one that does. */
  lemma {:induction false} RunAheadFails(ks: seq<Kind>, start: nat, steps: nat, r: Reader, d: nat, n: nat, k: nat)
    requires r.Reading? && r.blanks < MAX_EMPTY_LOOP <= n
    requires Reads(ks, true, Reading(start, 0), steps) == r
    requires BlankRun(ks, Walk(ks, r.at, d), n)
    requires k >= d + 1
    ensures Stream(ks, start, k) == None
    decreases d
  {
    if d == 0 {
      BlankRunThrows(ks, r.at, r.blanks, n);
      ReadsConcat(ks, true, Reading(start, 0), steps, n);
      ResultIs(ks, true, start, steps + n);
    } else {
      var r' := Read(ks, true, r);
      ReadsConcat(ks, true, Reading(start, 0), steps, 1);
      assert Reads(ks, true, r, 1) == r' by { assert Reads(ks, true, r', 0) == r'; }
      if r'.Reading? {
        RunAheadFails(ks, start, steps + 1, r', d - 1, n, k);
      } else {
        ResultIs(ks, true, start, steps + 1);
        if r'.outcome.Got? {
          RunAheadFails(ks, r'.outcome.at, 0, Reading(r'.outcome.at, 0), d - 1, n, k - 1);
        }
      }
    }
  }

  /**
   Streaming keeps yielding requests for ever if and only if the input has a valid line and no
   1000 blank or comment reads follow one another, the end of the input included.
   */
  lemma StreamingWorksIff(ks: seq<Kind>)
    requires ks != []
    ensures (forall k: nat :: Stream(ks, 0, k).Some?) <==> Entries(ks) != [] && !HasCyclicBlankRun(ks)
  {
    if Entries(ks) != [] && !HasCyclicBlankRun(ks) {
      forall k: nat ensures Stream(ks, 0, k).Some? {
        StreamIsCyclic(ks, k);
      }
    } else if HasCyclicBlankRun(ks) {
      var i: nat, n: nat :| LongRun(ks, i, n);
      WalkForward(ks, 0, i);
      RunAheadFails(ks, 0, 0, Reading(0, 0), i, n, i + 1);
      assert Stream(ks, 0, i + 1) == None;
    } else {
      EntriesNonEmptyIff(ks);
      StreamingHaltsIff(ks, 0);
      assert Stream(ks, 0, 1) == None;
    }
  }

  /** Blank lines in a row are blank reads in a row. */
  lemma {:induction false} LinearRunIsCyclic(ks: seq<Kind>, i: nat, n: nat)
    requires BlankRunAt(ks, i, n)
    ensures BlankRun(ks, i, n)
    decreases n
  {
    if n > 0 {
      if i + 1 < |ks| {
        LinearRunIsCyclic(ks, i + 1, n - 1);
      }
    }
  }

  /** Input that streams without end preloads without an exception. */
  lemma StreamableLoads(ks: seq<Kind>)
    requires ks != [] && !HasCyclicBlankRun(ks)
    ensures Scan(ks, 0) == Loaded(Entries(ks), false)
  {
    LoadMeaning(ks);
    if i: nat :| BlankRunAt(Body(ks), i, MAX_EMPTY_LOOP) {
      assert forall k | 0 <= k < |Body(ks)| :: Body(ks)[k] == ks[k];
      assert BlankRunAt(ks, i, MAX_EMPTY_LOOP);
      LinearRunIsCyclic(ks, i, MAX_EMPTY_LOOP);
      assert LongRun(ks, i, MAX_EMPTY_LOOP);
    }
  }

  // ---- Long runs of blank lines, by line numbers ----

  /** Line `x`, going on at the start after the last, is blank or a comment. */
  ghost predicate BlankLine(ks: seq<Kind>, x: nat)
    requires ks != []
  {
    ks[x % |ks|].IsBlank()
  }

  ghost predicate RoundRunAt(ks: seq<Kind>, i: nat, n: nat)
    requires ks != []
  {
    i < |ks| && forall x: nat | i <= x < i + n :: BlankLine(ks, x)
  }

  lemma {:induction false} WalkRound(ks: seq<Kind>, i: nat, t: nat)
    requires i < |ks|
    ensures Walk(ks, i, t) == (i + t) % |ks|
    decreases t
  {
    if t == 0 {
      ModIs(i, 0, i, |ks|);
    } else {
      WalkRound(ks, i, t - 1);
      WalkConcat(ks, i, t - 1, 1);
      ModNext(i + (t - 1), |ks|);
      assert Walk(ks, Walk(ks, i, t - 1), 1) == After(ks, true, Walk(ks, i, t - 1)) by {
        assert Walk(ks, After(ks, true, Walk(ks, i, t - 1)), 0) == After(ks, true, Walk(ks, i, t - 1));
      }
    }
  }

  lemma {:induction false} BlankRunRound(ks: seq<Kind>, i: nat, n: nat)
    requires i < |ks|
    ensures BlankRun(ks, i, n) <==> RoundRunAt(ks, i, n)
    decreases n
  {
    if n > 0 {
      BlankRunRound(ks, i, n - 1);
      WalkRound(ks, i, n - 1);
      assert BlankLine(ks, i + (n - 1)) <==> KindAt(ks, Walk(ks, i, n - 1)).IsBlank();
      if BlankRun(ks, i, n - 1) {
        BlankRunExtend(ks, i, n - 1);
        assert RoundRunAt(ks, i, n) <==> BlankLine(ks, i + (n - 1));
      } else {
        BlankRunShorter(ks, i, n - 1);
        assert !RoundRunAt(ks, i, n - 1);
      }
    }
  }

  lemma {:induction false} BlankRunShorter(ks: seq<Kind>, j: nat, n: nat)
    requires !BlankRun(ks, j, n)
    ensures !BlankRun(ks, j, n + 1)
    decreases n
  {
    if KindAt(ks, j).IsBlank() {
      BlankRunShorter(ks, After(ks, true, j), n - 1);
    }
  }

  /** The guard's condition in terms of line numbers. */
  lemma CyclicRunMeaning(ks: seq<Kind>)
    requires ks != []
    ensures HasCyclicBlankRun(ks) <==> exists i: nat :: RoundRunAt(ks, i, 1000)
  {
    if i: nat, n: nat :| LongRun(ks, i, n) {
      BlankRunRound(ks, i, n);
      assert RoundRunAt(ks, i, 1000);
    }
    if i: nat :| RoundRunAt(ks, i, 1000) {
      BlankRunRound(ks, i, MAX_EMPTY_LOOP);
      assert LongRun(ks, i, MAX_EMPTY_LOOP);
    }
  }
}
