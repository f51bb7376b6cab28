/** The day-segment parser of the itinerary view: the generated text is split
    in front of every day header `##\s*Day\s*\d+` (case-insensitive), blank
    pieces are dropped, and each remaining piece becomes a titled segment; with
    fewer than two pieces the whole text is one "Full Itinerary" segment. */
module DayParser {
  import opened Text
  import opened Seqs

  predicate IsDigit(c: char)
  {
    '0' <= c <= '9'
  }

  /** Greedy `\s*` from `i`: the first index at or after `i` that is not whitespace. */
  function SkipWs(s: string, i: nat): (j: nat)
    requires i <= |s|
    ensures i <= j <= |s|
    ensures j == |s| || !IsWs(s[j])
    decreases |s| - i
  {
    if i < |s| && IsWs(s[i]) then SkipWs(s, i + 1) else i
  }

  /** What the skip passes over is whitespace. */
  lemma {:induction false} SkipWsRun(s: string, i: nat)
    requires i <= |s|
    ensures WsRun(s, i, SkipWs(s, i))
    decreases |s| - i
  {
    if i < |s| && IsWs(s[i]) {
      SkipWsRun(s, i + 1);
    }
  }

  /** The word "day" in any ASCII case at `j` (the `i` flag folds only ASCII
      letters for these three). */
  predicate DayAt(s: string, j: nat)
  {
    j + 3 <= |s| && (s[j] == 'd' || s[j] == 'D') && (s[j + 1] == 'a' || s[j + 1] == 'A')
    && (s[j + 2] == 'y' || s[j + 2] == 'Y')
  }

  /** The header pattern matches at `i`; the matcher skips each `\s*` greedily. */
  predicate HeaderAt(s: string, i: nat)
  {
    i + 2 <= |s| && s[i] == '#' && s[i + 1] == '#' &&
    var j := SkipWs(s, i + 2);
    DayAt(s, j) && var k := SkipWs(s, j + 3); k < |s| && IsDigit(s[k])
  }

  ghost predicate WsRun(s: string, a: nat, b: nat)
  {
    a <= b <= |s| && forall k :: a <= k < b ==> IsWs(s[k])
  }

  /** The regular expression's own reading of `##\s*Day\s*\d+` at `i`: some
      whitespace run, the word, some whitespace run, a digit. */
  ghost predicate PatternAt(s: string, i: nat)
  {
    i + 2 <= |s| && s[i] == '#' && s[i + 1] == '#' &&
    exists j: nat, k: nat :: WsRun(s, i + 2, j) && DayAt(s, j) && WsRun(s, j + 3, k) && k < |s| && IsDigit(s[k])
  }

  /** A whitespace run that ends before a non-whitespace character is the one
      the greedy skip finds. */
  lemma {:induction false} SkipWsFindsRunEnd(s: string, a: nat, b: nat)
    requires WsRun(s, a, b) && b < |s| && !IsWs(s[b])
    ensures SkipWs(s, a) == b
    decreases b - a
  {
    if a < b {
      SkipWsFindsRunEnd(s, a + 1, b);
    }
  }

  /** Neither an ASCII letter nor a digit is whitespace, so
      each `\s*` of the pattern has only one way to end. */
  lemma {:induction false} NotWs(c: char)
    requires 'a' <= c <= 'z' || 'A' <= c <= 'Z' || IsDigit(c)
    ensures !IsWs(c)
  {
  }

  lemma {:induction false} HeaderAtGivesPattern(s: string, i: nat)
    requires HeaderAt(s, i)
    ensures PatternAt(s, i)
  {
    var j := SkipWs(s, i + 2);
    var k := SkipWs(s, j + 3);
    SkipWsRun(s, i + 2);
    SkipWsRun(s, j + 3);
    assert WsRun(s, i + 2, j) && DayAt(s, j);
    assert WsRun(s, j + 3, k) && k < |s| && IsDigit(s[k]);
  }

  lemma {:induction false} PatternGivesHeaderAt(s: string, i: nat)
    requires PatternAt(s, i)
    ensures HeaderAt(s, i)
  {
    var j: nat, k: nat :| WsRun(s, i + 2, j) && DayAt(s, j) && WsRun(s, j + 3, k) && k < |s| && IsDigit(s[k]);
    WitnessGivesHeaderAt(s, i, j, k);
  }

  /** Given where the pattern's two runs end, the greedy skips end there too. */
  lemma {:induction false} WitnessGivesHeaderAt(s: string, i: nat, j: nat, k: nat)
    requires i + 2 <= |s| && s[i] == '#' && s[i + 1] == '#'
    requires WsRun(s, i + 2, j) && DayAt(s, j) && WsRun(s, j + 3, k) && k < |s| && IsDigit(s[k])
    ensures HeaderAt(s, i)
  {
    NotWs(s[j]);
    SkipWsFindsRunEnd(s, i + 2, j);
    NotWs(s[k]);
    SkipWsFindsRunEnd(s, j + 3, k);
    HeaderAtIntro(s, i, j, k);
  }

  /** The matcher's two skips, named. */
  lemma {:induction false} HeaderAtIntro(s: string, i: nat, j: nat, k: nat)
    requires i + 2 <= |s| && s[i] == '#' && s[i + 1] == '#'
    requires SkipWs(s, i + 2) == j && DayAt(s, j)
    requires SkipWs(s, j + 3) == k && k < |s| && IsDigit(s[k])
    ensures HeaderAt(s, i)
  {
  }

  /** The greedy matcher agrees with the backtracking semantics of the pattern. */
  lemma {:induction false} HeaderAtIffPattern(s: string, i: nat)
    ensures HeaderAt(s, i) <==> PatternAt(s, i)
  {
    if HeaderAt(s, i) {
      HeaderAtGivesPattern(s, i);
    }
    if PatternAt(s, i) {
      PatternGivesHeaderAt(s, i);
    }
  }

  lemma {:induction false} SkipWsShift(s: string, d: nat, i: nat)
    requires d <= i <= |s|
    ensures SkipWs(s, i) == SkipWs(s[d..], i - d) + d
    decreases |s| - i
  {
    if i < |s| && IsWs(s[i]) {
      SkipWsShift(s, d, i + 1);
    }
  }

  /** The pattern only looks forward, so dropping a prefix does not change
      where it matches. */
  lemma {:induction false} HeaderAtShift(s: string, d: nat, i: nat)
    requires d <= i <= |s|
    ensures HeaderAt(s, i) == HeaderAt(s[d..], i - d)
  {
    if HeaderAt(s, i) {
      HeaderAtShiftForward(s, d, i);
    }
    if HeaderAt(s[d..], i - d) {
      HeaderAtShiftBack(s, d, i);
    }
  }

  lemma {:induction false} HeaderAtShiftForward(s: string, d: nat, i: nat)
    requires d <= i <= |s| && HeaderAt(s, i)
    ensures HeaderAt(s[d..], i - d)
  {
    var j := SkipWs(s, i + 2);
    ShiftWitness(s, d, i, j, SkipWs(s, j + 3));
  }

  lemma {:induction false} ShiftWitness(s: string, d: nat, i: nat, j: nat, k: nat)
    requires d <= i && i + 2 <= |s| && s[i] == '#' && s[i + 1] == '#'
    requires SkipWs(s, i + 2) == j && DayAt(s, j)
    requires SkipWs(s, j + 3) == k && k < |s| && IsDigit(s[k])
    ensures HeaderAt(s[d..], i - d)
  {
    var t := s[d..];
    SkipShifted(s, d, i + 2, j);
    SkipShifted(s, d, j + 3, k);
    DayAtShift(s, d, j);
    CharsShift(s, d, i, k);
    HeaderAtIntro(t, i - d, j - d, k - d);
  }

  lemma {:induction false} SkipShifted(s: string, d: nat, a: nat, b: nat)
    requires d <= a <= |s| && SkipWs(s, a) == b
    ensures SkipWs(s[d..], a - d) == b - d
  {
    SkipWsShift(s, d, a);
  }

  lemma {:induction false} SkipUnshifted(s: string, d: nat, a: nat, b: nat)
    requires d <= a <= |s| && SkipWs(s[d..], a - d) == b
    ensures SkipWs(s, a) == b + d
  {
    SkipWsShift(s, d, a);
  }

  lemma {:induction false} CharsShift(s: string, d: nat, i: nat, k: nat)
    requires d <= i && i + 2 <= |s| && d <= k < |s|
    ensures s[d..][i - d] == s[i] && s[d..][i - d + 1] == s[i + 1] && s[d..][k - d] == s[k]
  {
  }

  lemma {:induction false} HeaderAtShiftBack(s: string, d: nat, i: nat)
    requires d <= i <= |s| && HeaderAt(s[d..], i - d)
    ensures HeaderAt(s, i)
  {
    var t := s[d..];
    var j := SkipWs(t, i - d + 2);
    UnshiftWitness(s, d, i, j, SkipWs(t, j + 3));
  }

  lemma {:induction false} UnshiftWitness(s: string, d: nat, i: nat, j: nat, k: nat)
    requires d <= i <= |s|
    requires i - d + 2 <= |s[d..]| && s[d..][i - d] == '#' && s[d..][i - d + 1] == '#'
    requires SkipWs(s[d..], i - d + 2) == j && DayAt(s[d..], j)
    requires SkipWs(s[d..], j + 3) == k && k < |s[d..]| && IsDigit(s[d..][k])
    ensures HeaderAt(s, i)
  {
    SkipUnshifted(s, d, i + 2, j);
    SkipUnshifted(s, d, j + d + 3, k);
    DayAtShift(s, d, j + d);
    CharsShift(s, d, i, k + d);
    HeaderAtIntro(s, i, j + d, k + d);
  }

  lemma {:induction false} DayAtShift(s: string, d: nat, j: nat)
    requires d <= j <= |s|
    ensures DayAt(s, j) == DayAt(s[d..], j - d)
  {
    if j + 3 <= |s| {
      assert s[d..][j - d] == s[j] && s[d..][j - d + 1] == s[j + 1] && s[d..][j - d + 2] == s[j + 2];
    }
  }

  /** The first header position at or after `from`, or `|s|` when there is none. */
  function NextHeader(s: string, from: nat): (q: nat)
    ensures q <= |s|
    ensures from <= |s| ==> from <= q
    ensures q < |s| ==> HeaderAt(s, q)
    ensures forall k :: from <= k < q ==> !HeaderAt(s, k)
    decreases |s| - from
  {
    if from >= |s| then |s|
    else if HeaderAt(s, from) then from
    else NextHeader(s, from + 1)
  }

  /** `s.split(/(?=##\s*Day\s*\d+)/i)`. The lookahead matches the empty
      string, and `split` never cuts where the previous piece began, so the
      text is cut in front of every header except one at index 0. */
  function SplitAtHeaders(s: string): (parts: seq<string>)
    ensures |parts| >= 1
    ensures forall i :: 0 <= i < |parts| ==> parts[i] != [] || s == []
    decreases |s|
  {
    var q := NextHeader(s, 1);
    if q >= |s| then [s] else [s[..q]] + SplitAtHeaders(s[q..])
  }

  /** Reference definition: every index at or after `from` where the header
      pattern matches, in increasing order. */
  function HeaderPositionsFrom(s: string, from: nat): seq<nat>
    decreases |s| - from
  {
    if from >= |s| then []
    else (if HeaderAt(s, from) then [from] else []) + HeaderPositionsFrom(s, from + 1)
  }

  function Shift(xs: seq<nat>, d: nat): (r: seq<nat>)
    ensures |r| == |xs| && forall i :: 0 <= i < |xs| ==> r[i] == xs[i] + d
  {
    seq(|xs|, i requires 0 <= i < |xs| => xs[i] + d)
  }

  /** Where each piece after the first begins, measured in the joined text. */
  function CutOffsets(parts: seq<string>): seq<nat>
  {
    if |parts| <= 1 then [] else [|parts[0]|] + Shift(CutOffsets(parts[1..]), |parts[0]|)
  }

  lemma {:induction false} CutOffsetsLength(parts: seq<string>)
    requires |parts| >= 1
    ensures |CutOffsets(parts)| == |parts| - 1
  {
    if |parts| > 1 {
      CutOffsetsLength(parts[1..]);
    }
  }

  /** The split loses nothing: its pieces concatenate back to the text. */
  lemma {:induction false} SplitConcat(s: string)
    ensures Concat(SplitAtHeaders(s)) == s
    decreases |s|
  {
    var q := NextHeader(s, 1);
    if q < |s| {
      SplitConcat(s[q..]);
      assert s == s[..q] + s[q..];
    }
  }

  lemma {:induction false} HeaderPositionsSkip(s: string, a: nat, b: nat)
    requires a <= b
    requires forall k :: a <= k < b ==> !HeaderAt(s, k)
    ensures HeaderPositionsFrom(s, a) == HeaderPositionsFrom(s, b)
    decreases b - a
  {
    if a < b && a < |s| {
      HeaderPositionsSkip(s, a + 1, b);
    }
  }

  lemma {:induction false} ShiftConcat(a: seq<nat>, b: seq<nat>, d: nat)
    ensures Shift(a + b, d) == Shift(a, d) + Shift(b, d)
  {
  }

  /** One step of the reference definition. */
  lemma {:induction false} HeaderPositionsStep(s: string, f: nat)
    requires f < |s|
    ensures HeaderPositionsFrom(s, f) == (if HeaderAt(s, f) then [f] else []) + HeaderPositionsFrom(s, f + 1)
  {
  }

  /** The first position shifts with the rest. */
  lemma {:induction false} ShiftStep(h: bool, f: nat, q: nat, rest: seq<nat>, rest': seq<nat>)
    requires Shift(rest, q) == rest'
    ensures Shift((if h then [f] else []) + rest, q) == (if h then [f + q] else []) + rest'
  {
    ShiftConcat(if h then [f] else [], rest, q);
  }

  /** Header positions in a suffix are those of the whole text, moved back. */
  lemma {:induction false} HeaderPositionsShift(s: string, q: nat, f: nat)
    requires q <= |s|
    ensures Shift(HeaderPositionsFrom(s[q..], f), q) == HeaderPositionsFrom(s, f + q)
    decreases |s| - q - f
  {
    var t := s[q..];
    if f < |t| {
      StepAgree(s, q, f);
      HeaderPositionsShift(s, q, f + 1);
      ShiftStep(HeaderAt(t, f), f, q, HeaderPositionsFrom(t, f + 1), HeaderPositionsFrom(s, f + 1 + q));
    }
  }

  /** The two definitions take their step on the same test. */
  lemma {:induction false} StepAgree(s: string, q: nat, f: nat)
    requires q <= |s| && f < |s| - q
    ensures HeaderPositionsFrom(s[q..], f) == (if HeaderAt(s[q..], f) then [f] else []) + HeaderPositionsFrom(s[q..], f + 1)
    ensures HeaderPositionsFrom(s, f + q) == (if HeaderAt(s[q..], f) then [f + q] else []) + HeaderPositionsFrom(s, f + 1 + q)
  {
    HeaderAtShift(s, q, f + q);
    HeaderPositionsStep(s[q..], f);
    HeaderPositionsStep(s, f + q);
    SameTest(HeaderPositionsFrom(s, f + q), HeaderAt(s, f + q), HeaderAt(s[q..], f), f + q, HeaderPositionsFrom(s, f + 1 + q));
  }

  lemma {:induction false} SameTest(x: seq<nat>, h: bool, h': bool, p: nat, rest: seq<nat>)
    requires h == h' && x == (if h then [p] else []) + rest
    ensures x == (if h' then [p] else []) + rest
  {
  }

  /** The split cuts the text exactly at the header positions after index 0,
      and nowhere else; with `SplitConcat` this determines every piece. */
  lemma {:induction false} SplitCutsAtHeaders(s: string)
    ensures CutOffsets(SplitAtHeaders(s)) == HeaderPositionsFrom(s, 1)
    decreases |s|
  {
    var q := NextHeader(s, 1);
    if q >= |s| {
      if |s| >= 1 {
        HeaderPositionsSkip(s, 1, |s|);
      }
    } else {
      var parts := SplitAtHeaders(s);
      var rest := SplitAtHeaders(s[q..]);
      assert parts == [s[..q]] + rest;
      assert parts[1..] == rest;
      SplitCutsAtHeaders(s[q..]);
      HeaderPositionsShift(s, q, 1);
      HeaderPositionsSkip(s, 1, q);
      assert HeaderPositionsFrom(s, q) == [q] + HeaderPositionsFrom(s, q + 1);
    }
  }

  /** When the text starts with a header, every piece of the split starts
      with a header of its own. */
  lemma {:induction false} PiecesStartWithHeader(s: string)
    requires HeaderAt(s, 0)
    ensures forall i :: 0 <= i < |SplitAtHeaders(s)| ==> HeaderAt(SplitAtHeaders(s)[i], 0)
    decreases |s|
  {
    var q := NextHeader(s, 1);
    if q < |s| {
      var j := SkipWs(s, 2);
      NextHeaderPastDigit(s, j, SkipWs(s, j + 3));
      PrefixKeepsHeader(s, q);
      SuffixAtHeader(s, q);
      PiecesStartWithHeader(s[q..]);
      assert SplitAtHeaders(s) == [s[..q]] + SplitAtHeaders(s[q..]);
      ConsHeaded(s[..q], SplitAtHeaders(s[q..]));
    } else {
      assert SplitAtHeaders(s) == [s];
    }
  }

  /** Between the header's second `#` and its digit there is no `#`. */
  lemma {:induction false} NoHashInHeader(s: string, j: nat, k: nat, y: nat)
    requires 2 <= |s| && SkipWs(s, 2) == j && DayAt(s, j)
    requires SkipWs(s, j + 3) == k && k < |s| && IsDigit(s[k])
    requires 2 <= y <= k
    ensures s[y] != '#'
  {
    SkipWsRun(s, 2);
    SkipWsRun(s, j + 3);
    if y < j {
      assert IsWs(s[y]);
    } else if j + 3 <= y < k {
      assert IsWs(s[y]);
    }
  }

  /** The next header after the one at index 0 starts past that header's
      digit: the two headers do not overlap. */
  lemma {:induction false} NextHeaderPastDigit(s: string, j: nat, k: nat)
    requires HeaderAt(s, 0) && SkipWs(s, 2) == j && SkipWs(s, j + 3) == k
    ensures k < NextHeader(s, 1)
  {
    forall x | 1 <= x <= k ensures !HeaderAt(s, x) {
      if x == 1 {
        NoHashInHeader(s, j, k, 2);
      } else {
        NoHashInHeader(s, j, k, x);
      }
    }
  }

  /** A whitespace run that stops inside a prefix stops at the same place in
      the prefix. */
  lemma {:induction false} SkipWsPrefix(s: string, q: nat, i: nat, b: nat)
    requires i <= |s| && SkipWs(s, i) == b && b < q <= |s|
    ensures SkipWs(s[..q], i) == b
  {
    SkipWsRun(s, i);
    assert WsRun(s[..q], i, b) by {
      forall m | i <= m < b ensures IsWs(s[..q][m]) {
        assert s[..q][m] == s[m];
      }
    }
    assert s[..q][b] == s[b];
    SkipWsFindsRunEnd(s[..q], i, b);
  }

  /** A header is read from its own characters only: a prefix that keeps its
      digit keeps the header. */
  lemma {:induction false} PrefixKeepsHeader(s: string, q: nat)
    requires HeaderAt(s, 0) && SkipWs(s, SkipWs(s, 2) + 3) < q <= |s|
    ensures HeaderAt(s[..q], 0)
  {
    var j := SkipWs(s, 2);
    var k := SkipWs(s, j + 3);
    var t := s[..q];
    SkipWsPrefix(s, q, 2, j);
    SkipWsPrefix(s, q, j + 3, k);
    assert t[0] == s[0] && t[1] == s[1];
    assert t[j] == s[j] && t[j + 1] == s[j + 1] && t[j + 2] == s[j + 2];
    assert t[k] == s[k];
    HeaderAtIntro(t, 0, j, k);
  }

  lemma {:induction false} SuffixAtHeader(s: string, q: nat)
    requires q < |s| && HeaderAt(s, q)
    ensures HeaderAt(s[q..], 0)
  {
    HeaderAtShift(s, q, q);
  }

  lemma {:induction false} ConsHeaded(p: string, rest: seq<string>)
    requires HeaderAt(p, 0)
    requires forall i :: 0 <= i < |rest| ==> HeaderAt(rest[i], 0)
    ensures forall i :: 0 <= i < |[p] + rest| ==> HeaderAt(([p] + rest)[i], 0)
  {
    forall i | 1 <= i < |[p] + rest|
      ensures HeaderAt(([p] + rest)[i], 0)
    {
      assert ([p] + rest)[i] == rest[i - 1];
    }
  }

  const FullItineraryTitle: string := "Full Itinerary"

  datatype DaySegment = DaySegment(title: string, content: string)

  /** `p.trim().length > 0` */
  predicate IsNonBlank(p: string)
  {
    |Trim(p)| > 0
  }

  // `line.replace(/^##\s*/, '')`
  function StripHeaderMarkup(line: string): string
  {
    if StartsWith(line, "##") then line[SkipWs(line, 2)..] else line
  }

  /** One piece of the split as a segment: the first line without its `##`
      markup, trimmed, is the title; the other lines, joined back and trimmed,
      are the content. */
  function ToSegment(part: string): DaySegment
  {
    var lines := SplitOn(part, '\n');
    DaySegment(Trim(StripHeaderMarkup(lines[0])), Trim(Join(lines[1..], "\n")))
  }

  /** The pieces of the text that are kept, in order. */
  function DayPieces(text: string): seq<string>
  {
    Filter(SplitAtHeaders(text), IsNonBlank)
  }

  /** The `days` list of the itinerary view. It is never empty, so the view's
      `days[activeDay]` with `activeDay == 0` is always in range. */
  function ParseDays(text: string): (days: seq<DaySegment>)
    ensures |days| >= 1
  {
    var parts := DayPieces(text);
    if |parts| < 2 then [DaySegment(FullItineraryTitle, text)]
    else Segments(parts)
  }

  /** `parts.map(part => ...)` */
  function Segments(parts: seq<string>): (days: seq<DaySegment>)
    ensures |days| == |parts|
    ensures forall i :: 0 <= i < |parts| ==> days[i] == ToSegment(parts[i])
  {
    seq(|parts|, i requires 0 <= i < |parts| => ToSegment(parts[i]))
  }

  /** The fallback happens exactly when fewer than two non-blank pieces remain,
      and then the one segment holds the untrimmed text. */
  lemma {:induction false} ParseDaysFallback(text: string)
    ensures |DayPieces(text)| < 2 <==> ParseDays(text) == [DaySegment(FullItineraryTitle, text)]
  {
  }

  /** Otherwise there is one segment per non-blank piece, in order. */
  lemma {:induction false} ParseDaysPerPiece(text: string)
    requires |DayPieces(text)| >= 2
    ensures |ParseDays(text)| == |DayPieces(text)|
    ensures forall i :: 0 <= i < |DayPieces(text)| ==> ParseDays(text)[i] == ToSegment(DayPieces(text)[i])
  {
  }

  /** The text before the first newline (the whole text when there is none). */
  function FirstLine(s: string): (r: string)
    ensures '\n' !in r && StartsWith(s, r)
  {
    if '\n' in s then s[..IndexOf(s, '\n')] else s
  }

  /** The text after the first newline (empty when there is none). */
  function AfterFirstLine(s: string): string
  {
    if '\n' in s then s[IndexOf(s, '\n') + 1..] else ""
  }

  /** The lines of a piece: the first line, and the rest joined back. */
  lemma {:induction false} LinesOfPiece(part: string)
    ensures SplitOn(part, '\n')[0] == FirstLine(part)
    ensures Join(SplitOn(part, '\n')[1..], "\n") == AfterFirstLine(part)
  {
    var lines := SplitOn(part, '\n');
    if '\n' in part {
      var k := IndexOf(part, '\n');
      assert lines == [part[..k]] + SplitOn(part[k + 1..], '\n');
      assert lines[1..] == SplitOn(part[k + 1..], '\n');
      JoinSplit(part[k + 1..], '\n');
    } else {
      assert lines[1..] == [];
    }
  }

  /** A slice of a string has no character the string lacks. */
  lemma {:induction false} SliceLacks(s: string, a: nat, b: nat, c: char)
    requires a <= b <= |s| && c !in s
    ensures c !in s[a..b]
  {
    forall x | 0 <= x < b - a ensures s[a..b][x] != c {
      assert s[a..b][x] == s[a + x];
    }
  }

  /** Trimming adds no character. */
  lemma {:induction false} TrimLacks(s: string, c: char)
    requires c !in s
    ensures c !in Trim(s)
  {
    TrimIsSlice(s);
    var a := |s| - |TrimStart(s)|;
    SliceLacks(s, a, a + |Trim(s)|, c);
  }

  /** Removing the header markup adds no character. */
  lemma {:induction false} StripLacks(line: string, c: char)
    requires c !in line
    ensures c !in StripHeaderMarkup(line)
  {
    if StartsWith(line, "##") {
      var j := SkipWs(line, 2);
      SliceLacks(line, j, |line|, c);
      assert line[j..|line|] == line[j..];
    }
  }

  /** Removing the markup and trimming keep a line free of newlines. */
  lemma {:induction false} TitleHasNoNewline(line: string)
    requires '\n' !in line
    ensures '\n' !in Trim(StripHeaderMarkup(line))
  {
    StripLacks(line, '\n');
    TrimLacks(StripHeaderMarkup(line), '\n');
  }

  /** The title comes from the first line only, and the content is the rest
      of the piece after the first newline, both trimmed. */
  lemma {:induction false} SegmentOfPiece(part: string)
    ensures ToSegment(part).title == Trim(StripHeaderMarkup(FirstLine(part)))
    ensures ToSegment(part).content == Trim(AfterFirstLine(part))
    ensures '\n' !in ToSegment(part).title
  {
    LinesOfPiece(part);
    TitleHasNoNewline(FirstLine(part));
  }

  /** `trimEnd` keeps every character up to the last non-whitespace one. */
  lemma {:induction false} TrimEndKeeps(s: string, x: nat)
    requires x < |s| && !IsWs(s[x])
    ensures |TrimEnd(s)| > x
  {
    TrimEndDropsWs(s);
  }

  /** A line that starts with the header markup followed by the word "day"
      gives a title that starts with that word. */
  lemma {:induction false} TitleStartsWithDay(line: string)
    requires StartsWith(line, "##")
    requires DayAt(line, SkipWs(line, 2))
    ensures DayAt(Trim(StripHeaderMarkup(line)), 0)
  {
    var j := SkipWs(line, 2);
    assert StripHeaderMarkup(line) == line[j..];
    DayAtShift(line, j, j);
    TrimKeepsDay(line[j..]);
  }

  /** Trimming keeps a leading "day". */
  lemma {:induction false} TrimKeepsDay(x: string)
    requires DayAt(x, 0)
    ensures DayAt(Trim(x), 0)
  {
    NotWs(x[0]);
    NotWs(x[2]);
    assert TrimStart(x) == x;
    TrimEndKeeps(x, 2);
    var r := TrimEnd(x);
    assert Trim(x) == r;
    assert r[0] == x[0] && r[1] == x[1] && r[2] == x[2];
  }

  /** The first line of a piece starts with the same header when no newline
      comes before the word "day". */
  lemma {:induction false} FirstLineKeepsHeader(part: string)
    requires HeaderAt(part, 0)
    requires '\n' !in part[..SkipWs(part, 2) + 3]
    ensures StartsWith(FirstLine(part), "##")
    ensures SkipWs(FirstLine(part), 2) == SkipWs(part, 2)
    ensures DayAt(FirstLine(part), SkipWs(part, 2))
  {
    var j := SkipWs(part, 2);
    var line := FirstLine(part);
    assert |line| >= j + 3;
    assert line[..j + 3] == part[..j + 3];
    assert line[0] == part[0] && line[1] == part[1];
    assert line[j] == part[j] && line[j + 1] == part[j + 1] && line[j + 2] == part[j + 2];
    SkipWsRun(part, 2);
    assert WsRun(line, 2, j) by {
      forall x | 2 <= x < j ensures IsWs(line[x]) {
        assert line[x] == part[x];
      }
    }
    NotWs(line[j]);
    SkipWsFindsRunEnd(line, 2, j);
  }

  /** The piece starts with a header, and no newline comes between its
      `##` and the word "day", so the header's word is on the first line. */
  predicate HeaderOnFirstLine(part: string)
  {
    HeaderAt(part, 0) && '\n' !in part[..SkipWs(part, 2) + 3]
  }

  /** A piece whose first line holds the header yields a title that starts
      with the word "Day" (so it is never empty). */
  lemma {:induction false} HeaderTitle(part: string)
    requires HeaderOnFirstLine(part)
    ensures DayAt(ToSegment(part).title, 0)
  {
    SegmentOfPiece(part);
    FirstLineKeepsHeader(part);
    TitleStartsWithDay(FirstLine(part));
  }

  /** The text from its first header on. */
  function FromFirstHeader(text: string): string
  {
    text[NextHeader(text, 0)..]
  }

  /** A well-formed itinerary text: at most whitespace comes before its first
      day header, and it holds N >= 2 headers in all. The kept pieces are then
      the split of the text from its first header; there are exactly N
      segments, the i-th made from the i-th kept piece; every kept piece
      starts with a header; and a piece whose header has its `##` and "day"
      on one line gets a non-empty title that starts with "day". */
  lemma {:induction false} WellFormedDays(text: string)
    requires NextHeader(text, 0) < |text| && AllWs(text[..NextHeader(text, 0)])
    requires |HeaderPositionsFrom(text, 0)| >= 2
    ensures DayPieces(text) == SplitAtHeaders(FromFirstHeader(text))
    ensures |ParseDays(text)| == |HeaderPositionsFrom(text, 0)|
    ensures |DayPieces(text)| == |ParseDays(text)|
    ensures forall i :: 0 <= i < |ParseDays(text)| ==> ParseDays(text)[i] == ToSegment(DayPieces(text)[i])
    ensures forall i :: 0 <= i < |DayPieces(text)| ==> HeaderAt(DayPieces(text)[i], 0)
    ensures forall i :: 0 <= i < |ParseDays(text)| && HeaderOnFirstLine(DayPieces(text)[i]) ==>
      ParseDays(text)[i].title != [] && DayAt(ParseDays(text)[i].title, 0)
  {
    var body := FromFirstHeader(text);
    LeadDropped(text);
    HeadedDays(body);
    SameDays(text, body);
  }

  /** Dropping a whitespace lead in front of the first header changes neither
      the kept pieces nor the header count. */
  lemma {:induction false} LeadDropped(text: string)
    requires NextHeader(text, 0) < |text| && AllWs(text[..NextHeader(text, 0)])
    ensures HeaderAt(FromFirstHeader(text), 0)
    ensures DayPieces(text) == DayPieces(FromFirstHeader(text))
    ensures |HeaderPositionsFrom(text, 0)| == |HeaderPositionsFrom(FromFirstHeader(text), 0)|
  {
    var q0 := NextHeader(text, 0);
    SuffixAtHeader(text, q0);
    LeadPositions(text, q0);
    if q0 == 0 {
      assert text[q0..] == text;
    } else {
      LeadSplit(text, q0);
      BlankLeadFiltered(text[..q0], SplitAtHeaders(text[q0..]));
    }
  }

  /** Headers come only from the first header on. */
  lemma {:induction false} LeadPositions(text: string, q0: nat)
    requires q0 == NextHeader(text, 0)
    ensures |HeaderPositionsFrom(text, 0)| == |HeaderPositionsFrom(text[q0..], 0)|
  {
    HeaderPositionsShift(text, q0, 0);
    HeaderPositionsSkip(text, 0, q0);
  }

  /** A text with a lead before its first header splits into the lead and the
      split of the rest. */
  lemma {:induction false} LeadSplit(text: string, q0: nat)
    requires 0 < q0 == NextHeader(text, 0) < |text|
    ensures SplitAtHeaders(text) == [text[..q0]] + SplitAtHeaders(text[q0..])
  {
    assert NextHeader(text, 1) == q0;
  }

  /** A blank lead piece is filtered out. */
  lemma {:induction false} BlankLeadFiltered(lead: string, rest: seq<string>)
    requires AllWs(lead)
    ensures Filter([lead] + rest, IsNonBlank) == Filter(rest, IsNonBlank)
  {
    FilterConcat([lead], rest, IsNonBlank);
    TrimBlank(lead);
    assert [lead][1..] == [];
  }

  /** The days depend only on the kept pieces, once there are two of them. */
  lemma {:induction false} SameDays(a: string, b: string)
    requires DayPieces(a) == DayPieces(b) && |DayPieces(a)| >= 2
    ensures ParseDays(a) == ParseDays(b)
  {
  }

  /** A text that starts with a header and holds N >= 2 headers keeps all N
      pieces of its split, and makes one segment of each. */
  lemma {:induction false} HeadedDays(text: string)
    requires HeaderAt(text, 0)
    requires |HeaderPositionsFrom(text, 0)| >= 2
    ensures DayPieces(text) == SplitAtHeaders(text)
    ensures |ParseDays(text)| == |HeaderPositionsFrom(text, 0)|
    ensures |SplitAtHeaders(text)| == |ParseDays(text)|
    ensures forall i :: 0 <= i < |ParseDays(text)| ==> ParseDays(text)[i] == ToSegment(SplitAtHeaders(text)[i])
    ensures forall i :: 0 <= i < |SplitAtHeaders(text)| ==> HeaderAt(SplitAtHeaders(text)[i], 0)
    ensures forall i :: 0 <= i < |ParseDays(text)| && HeaderOnFirstLine(SplitAtHeaders(text)[i]) ==>
      ParseDays(text)[i].title != [] && DayAt(ParseDays(text)[i].title, 0)
  {
    var parts := SplitAtHeaders(text);
    HeaderStartsWithHash(text, 0);
    HeaderPositionsStep(text, 0);
    SplitCutsAtHeaders(text);
    CutOffsetsLength(parts);
    PiecesStartWithHeader(text);
    KeepAll(parts);
    KeptPieceDays(text);
    TitlesOfPieces(ParseDays(text), parts);
  }

  /** Segments made from pieces whose first line holds the header all have
      titles that start with the word "Day". */
  lemma {:induction false} TitlesOfPieces(days: seq<DaySegment>, parts: seq<string>)
    requires |days| == |parts|
    requires forall i :: 0 <= i < |days| ==> days[i] == ToSegment(parts[i])
    ensures forall i :: 0 <= i < |days| && HeaderOnFirstLine(parts[i]) ==> days[i].title != [] && DayAt(days[i].title, 0)
  {
    forall i | 0 <= i < |days| && HeaderOnFirstLine(parts[i])
      ensures days[i].title != [] && DayAt(days[i].title, 0)
    {
      HeaderTitle(parts[i]);
    }
  }

  /** Pieces that start with a header all survive the filter. */
  lemma {:induction false} KeepAll(parts: seq<string>)
    requires forall i :: 0 <= i < |parts| ==> HeaderAt(parts[i], 0)
    ensures Filter(parts, IsNonBlank) == parts
  {
    forall i | 0 <= i < |parts| ensures IsNonBlank(parts[i]) {
      HeaderStartsWithHash(parts[i], 0);
      StartsNonBlank(parts[i]);
    }
    FilterKeepsAll(parts, IsNonBlank);
  }

  lemma {:induction false} KeptPieceDays(text: string)
    requires DayPieces(text) == SplitAtHeaders(text)
    requires |SplitAtHeaders(text)| >= 2
    ensures |ParseDays(text)| == |SplitAtHeaders(text)|
    ensures forall i :: 0 <= i < |ParseDays(text)| ==> ParseDays(text)[i] == ToSegment(SplitAtHeaders(text)[i])
  {
    ParseDaysPerPiece(text);
  }

  /** Without a header after index 0 there is one piece, so the text falls
      back to a single "Full Itinerary" segment. */
  lemma {:induction false} NoLaterHeaderFallsBack(text: string)
    requires HeaderPositionsFrom(text, 1) == []
    ensures ParseDays(text) == [DaySegment(FullItineraryTitle, text)]
  {
    SplitCutsAtHeaders(text);
    CutOffsetsLength(SplitAtHeaders(text));
  }

  /** One header after index 0 cuts the text in two. */
  lemma {:induction false} SplitInTwo(text: string, q: nat)
    requires HeaderPositionsFrom(text, 1) == [q]
    ensures q < |text| && HeaderAt(text, q)
    ensures SplitAtHeaders(text) == [text[..q], text[q..]]
  {
    HeaderPositionsAreHeaders(text, 1, q);
    var parts := SplitAtHeaders(text);
    SplitCutsAtHeaders(text);
    CutOffsetsLength(parts);
    assert CutOffsets(parts) == [|parts[0]|];
    SplitConcat(text);
    assert Concat(parts) == parts[0] + parts[1] by {
      assert parts[1..][1..] == [];
    }
  }

  /** One header after a non-blank introduction is enough for two segments:
      the introduction and the day. */
  lemma {:induction false} IntroAndOneDay(text: string, q: nat)
    requires q <= |text|
    requires HeaderPositionsFrom(text, 1) == [q]
    requires IsNonBlank(text[..q])
    ensures |ParseDays(text)| == 2
    ensures ParseDays(text)[0] == ToSegment(text[..q]) && ParseDays(text)[1] == ToSegment(text[q..])
  {
    SplitInTwo(text, q);
    HeaderStartsWithHash(text, q);
    var a, b := text[..q], text[q..];
    StartsNonBlank(b);
    KeepTwo(a, b);
    TwoPieceDays(text, a, b);
  }

  /** Two non-blank pieces both survive the filter. */
  lemma {:induction false} KeepTwo(a: string, b: string)
    requires IsNonBlank(a) && IsNonBlank(b)
    ensures Filter([a, b], IsNonBlank) == [a, b]
  {
    assert [a, b][1..] == [b] && [b][1..] == [];
    assert Filter([b], IsNonBlank) == [b];
  }

  lemma {:induction false} TwoPieceDays(text: string, a: string, b: string)
    requires DayPieces(text) == [a, b]
    ensures |ParseDays(text)| == 2
    ensures ParseDays(text)[0] == ToSegment(a) && ParseDays(text)[1] == ToSegment(b)
  {
    ParseDaysPerPiece(text);
  }

  lemma {:induction false} HeaderStartsWithHash(s: string, q: nat)
    requires HeaderAt(s, q)
    ensures q < |s| && s[q] == '#' && s[q..][0] == '#'
  {
  }

  /** A piece that starts with a header character is not blank. */
  lemma {:induction false} StartsNonBlank(p: string)
    requires |p| > 0 && p[0] == '#'
    ensures IsNonBlank(p)
  {
    assert !IsWs(p[0]);
    TrimBlank(p);
  }

  /** Every listed position is a header. */
  lemma {:induction false} HeaderPositionsAreHeaders(s: string, from: nat, q: nat)
    requires q in HeaderPositionsFrom(s, from)
    ensures from <= q < |s| && HeaderAt(s, q)
    decreases |s| - from
  {
    if from < |s| && !(HeaderAt(s, from) && q == from) {
      HeaderPositionsAreHeaders(s, from + 1, q);
    }
  }

  lemma {:induction false} FirstLineOf(a: string, b: string)
    requires '\n' !in a
    ensures FirstLine(a + "\n" + b) == a
  {
    var s := a + "\n" + b;
    assert s[|a|] == '\n';
    assert IndexOf(s, '\n') == |a|;
    assert s[..|a|] == a;
  }

  lemma {:induction false} PromptHeaderAt(n: string, tail: string)
    requires |n| >= 1 && IsDigit(n[0])
    ensures HeaderAt("## Day " + n + tail, 0)
  {
    var s := "## Day " + n + tail;
    assert s[2] == ' ' && s[3] == 'D' && s[4] == 'a' && s[5] == 'y' && s[6] == ' ' && s[7] == n[0];
    assert SkipWs(s, 2) == 3 by { assert SkipWs(s, 3) == 3; }
    assert SkipWs(s, 6) == 7 by { NotWs(s[7]); assert SkipWs(s, 7) == 7; }
  }

  /** A header whose `##` ends its line, as in "##\nDay 1": `\s*` takes the
      newline, so the text is still cut there, but the first line of the
      piece is just "##" and the day's title is empty. */
  lemma {:induction false} BrokenHeaderEmptyTitle(n: string, rest: string)
    requires |n| >= 1 && IsDigit(n[0])
    ensures HeaderAt("##\nDay " + n + rest, 0)
    ensures !HeaderOnFirstLine("##\nDay " + n + rest)
    ensures ToSegment("##\nDay " + n + rest).title == []
  {
    BrokenHeaderAt(n, rest);
    BrokenHeaderTitle(n, rest);
  }

  lemma {:induction false} BrokenHeaderAt(n: string, rest: string)
    requires |n| >= 1 && IsDigit(n[0])
    ensures HeaderAt("##\nDay " + n + rest, 0)
    ensures !HeaderOnFirstLine("##\nDay " + n + rest)
  {
    var s := "##\nDay " + n + rest;
    assert s[2] == '\n' && s[3] == 'D' && s[4] == 'a' && s[5] == 'y' && s[6] == ' ' && s[7] == n[0];
    assert SkipWs(s, 2) == 3 by { assert SkipWs(s, 3) == 3; }
    assert SkipWs(s, 6) == 7 by { NotWs(s[7]); assert SkipWs(s, 7) == 7; }
    assert s[..6][2] == '\n';
  }

  lemma {:induction false} BrokenHeaderTitle(n: string, rest: string)
    ensures ToSegment("##\nDay " + n + rest).title == []
  {
    var b := "Day " + n + rest;
    var p := "##" + "\n" + b;
    assert "##\nDay " + n + rest == p;
    FirstLineOf("##", b);
    SegmentOfPiece(p);
    BareMarkupTitle();
  }

  /** A line that is only the markup gives the empty title. */
  lemma {:induction false} BareMarkupTitle()
    ensures Trim(StripHeaderMarkup("##")) == []
  {
    assert StartsWith("##", "##");
    assert SkipWs("##", 2) == 2;
    assert StripHeaderMarkup("##") == [];
    assert TrimStart([]) == [];
  }

  lemma {:induction false} StripPromptHeader(n: string, rest: string)
    requires |n| >= 1 && IsDigit(n[0])
    ensures StripHeaderMarkup("## Day " + n + rest) == "Day " + n + rest
  {
    var line := "## Day " + n + rest;
    assert StartsWith(line, "##");
    assert line[2] == ' ' && line[3] == 'D';
    assert SkipWs(line, 2) == 3 by { assert SkipWs(line, 3) == 3; }
    assert line[3..] == "Day " + n + rest;
  }

  lemma {:induction false} NoNewlineInPromptHeader(n: string, rest: string)
    requires forall i :: 0 <= i < |n| ==> IsDigit(n[i])
    requires '\n' !in rest
    ensures '\n' !in "## Day " + n + rest
  {
    var line := "## Day " + n + rest;
    forall x | 0 <= x < |line| ensures line[x] != '\n' {
      if x >= 7 + |n| {
        assert line[x] == rest[x - 7 - |n|];
      } else if x >= 7 {
        assert line[x] == n[x - 7];
      }
    }
  }

  /** A header written in the format the prompt asks for, "## Day <n>...",
      is matched by the parser's pattern and gives the title "Day <n>...". */
  lemma {:induction false} PromptHeaderMatches(n: string, rest: string, body: string)
    requires |n| >= 1 && forall i :: 0 <= i < |n| ==> IsDigit(n[i])
    requires '\n' !in rest
    ensures HeaderAt("## Day " + n + rest + "\n" + body, 0)
    ensures ToSegment("## Day " + n + rest + "\n" + body).title == Trim("Day " + n + rest)
  {
    var line := "## Day " + n + rest;
    var s := line + "\n" + body;
    assert s == "## Day " + n + (rest + "\n" + body);
    PromptHeaderAt(n, rest + "\n" + body);
    NoNewlineInPromptHeader(n, rest);
    SegmentOfPiece(s);
    FirstLineOf(line, body);
    StripPromptHeader(n, rest);
  }
}
