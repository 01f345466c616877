/** Bounded line wrapping for form cells (docx/fill.go). Text is a sequence of
    code points. */
module WrapText {
  import opened Common

  // -- The program ----------------------------------------------------------

  datatype LineLimit = LineLimit(maxLines: int, maxCharsPerLine: int, lineCharLimits: seq<int>)

  /** The line widths a limit stands for; none if it is unusable. */
  function Widths(limit: LineLimit): seq<int> {
    if limit.lineCharLimits != [] then limit.lineCharLimits
    else if limit.maxLines <= 0 || limit.maxCharsPerLine <= 0 then []
    else seq(limit.maxLines, _ => limit.maxCharsPerLine)
  }

  method LimitWidths(limit: LineLimit) returns (widths: seq<int>)
    ensures widths == Widths(limit)
    ensures limit.lineCharLimits != [] ==> widths == limit.lineCharLimits
    ensures limit.lineCharLimits == [] && (limit.maxLines <= 0 || limit.maxCharsPerLine <= 0) ==> widths == []
    ensures limit.lineCharLimits == [] && limit.maxLines > 0 && limit.maxCharsPerLine > 0 ==>
              |widths| == limit.maxLines && forall k :: 0 <= k < |widths| ==> widths[k] == limit.maxCharsPerLine
  {
    if |limit.lineCharLimits| > 0 { return limit.lineCharLimits; }
    if limit.maxLines <= 0 || limit.maxCharsPerLine <= 0 { return []; }
    widths := [];
    for i := 0 to limit.maxLines
      invariant |widths| == i && forall k :: 0 <= k < i ==> widths[k] == limit.maxCharsPerLine
    {
      widths := widths + [limit.maxCharsPerLine];
    }
  }

  function Normalized(text: string): string {
    ReplaceAll(ReplaceAll(text, "\r\n", "\n"), "\r", "\n")
  }

  /** strings.Split at newlines. */
  function Split(s: string): (lines: seq<string>)
    ensures lines != []
  {
    if s == "" then [""]
    else
      var rest := Split(s[1..]);
      if s[0] == '\n' then [""] + rest else [[s[0]] + rest[0]] + rest[1..]
  }

  method WrapTextToLines(text: string, limit: LineLimit) returns (out: seq<string>)
    ensures out == if Widths(limit) == [] then [text] else Wrapped(SourceLines(text), Widths(limit), 0)
  {
    var widths := LimitWidths(limit);
    if |widths| == 0 {
      return if text == "" then [""] else [text];
    }
    var lines := Split(Normalized(text));
    SplitMeansSourceLines(text);
    out := [];
    var i := 0;
    assert lines[0..] == lines;
    while i < |lines|
      invariant 0 <= i <= |lines| && |out| <= |widths|
      invariant Reaches(out, lines[i..], widths, Wrapped(lines, widths, 0))
    {
      if |out| >= |widths| { break; }
      var rawLine := lines[i];
      i := i + 1;
      TailOf(lines, i - 1);
      WrappedStep(out, lines[i - 1..], widths, Wrapped(lines, widths, 0));
      if rawLine == "" {
        out := out + [""];
        continue;
      }
      ghost var target := out + Pieces(rawLine, widths, |out|);
      var remaining := rawLine;
      while |remaining| > 0 && |out| < |widths|
        invariant |out| <= |widths| && target == out + Pieces(remaining, widths, |out|)
      {
        var width := widths[|out|];
        if width < 1 {
          out := out + [remaining];
          remaining := "";
          break;
        }
        if width > |remaining| { width := |remaining|; }
        NextPiece(target, out, remaining, width, widths);
        out := out + [remaining[..width]];
        remaining := remaining[width..];
      }
      assert out == target;
    }
    ReachedEnd(out, lines[i..], widths, Wrapped(lines, widths, 0));
    WrappedNotEmpty(lines, widths);
    if |out| == 0 { return [""]; }
  }

  // -- What it computes -----------------------------------------------------

  /** The output lines of one source line, when k lines are already used. */
  function Pieces(line: string, widths: seq<int>, k: nat): (pieces: seq<string>)
    requires k <= |widths|
    ensures |pieces| <= |widths| - k
    decreases |line|
  {
    if line == "" || k == |widths| then []
    else if widths[k] < 1 || widths[k] >= |line| then [line]
    else [line[..widths[k]]] + Pieces(line[widths[k]..], widths, k + 1)
  }

  /** An empty source line takes an output line too. */
  function LinePieces(line: string, widths: seq<int>, k: nat): (pieces: seq<string>)
    requires k < |widths|
    ensures 0 < |pieces| <= |widths| - k
  {
    if line == "" then [""] else Pieces(line, widths, k)
  }

  function Wrapped(lines: seq<string>, widths: seq<int>, k: nat): (out: seq<string>)
    requires k <= |widths|
    ensures |out| <= |widths| - k
    decreases |lines|
  {
    if lines == [] || k == |widths| then []
    else
      var first := LinePieces(lines[0], widths, k);
      first + Wrapped(lines[1..], widths, k + |first|)
  }

  /** What is left to do completes `out` to `all`. */
  ghost predicate Reaches(out: seq<string>, rest: seq<string>, widths: seq<int>, all: seq<string>) {
    |out| <= |widths| && all == out + Wrapped(rest, widths, |out|)
  }

  lemma WrappedStep(out: seq<string>, rest: seq<string>, widths: seq<int>, all: seq<string>)
    requires rest != [] && |out| < |widths| && Reaches(out, rest, widths, all)
    ensures Reaches(out + LinePieces(rest[0], widths, |out|), rest[1..], widths, all)
  {
    var first := LinePieces(rest[0], widths, |out|);
    var others := Wrapped(rest[1..], widths, |out| + |first|);
    assert Wrapped(rest, widths, |out|) == first + others;
    Associative(out, first, others);
    assert |out + first| == |out| + |first|;
  }

  lemma TailOf(lines: seq<string>, i: nat)
    requires i < |lines|
    ensures lines[i..][0] == lines[i] && lines[i..][1..] == lines[i + 1..]
  {
  }

  lemma ReachedEnd(out: seq<string>, rest: seq<string>, widths: seq<int>, all: seq<string>)
    requires Reaches(out, rest, widths, all) && (rest == [] || |out| == |widths|)
    ensures out == all
  {
  }

  lemma PiecesStep(line: string, widths: seq<int>, k: nat)
    requires k < |widths| && line != "" && widths[k] >= 1
    ensures var w := if widths[k] > |line| then |line| else widths[k];
            Pieces(line, widths, k) == [line[..w]] + Pieces(line[w..], widths, k + 1)
  {
    if widths[k] >= |line| { assert line[..|line|] == line; }
  }

  lemma NextPiece(all: seq<string>, out: seq<string>, remaining: string, w: nat, widths: seq<int>)
    requires |out| < |widths| && remaining != "" && widths[|out|] >= 1
    requires w == if widths[|out|] > |remaining| then |remaining| else widths[|out|]
    requires all == out + Pieces(remaining, widths, |out|)
    ensures all == (out + [remaining[..w]]) + Pieces(remaining[w..], widths, |out| + 1)
  {
    PiecesStep(remaining, widths, |out|);
    Associative(out, [remaining[..w]], Pieces(remaining[w..], widths, |out| + 1));
  }

  lemma WrappedNotEmpty(lines: seq<string>, widths: seq<int>)
    requires lines != [] && widths != []
    ensures Wrapped(lines, widths, 0) != []
  {
  }

  // -- Line ends ------------------------------------------------------------

  /** Length of the line end a text starts with: CRLF, LF or CR. */
  function LineEnd(s: string): nat {
    if |s| >= 2 && s[0] == '\r' && s[1] == '\n' then 2
    else if |s| >= 1 && (s[0] == '\r' || s[0] == '\n') then 1
    else 0
  }

  /** The source lines of a text: it is cut at every line end. */
  function SourceLines(s: string): (lines: seq<string>)
    ensures lines != []
    decreases |s|
  {
    if s == "" then [""]
    else if LineEnd(s) > 0 then [""] + SourceLines(s[LineEnd(s)..])
    else
      var rest := SourceLines(s[1..]);
      [[s[0]] + rest[0]] + rest[1..]
  }

  function Bare(s: string): string {
    if s == "" then "" else (if s[0] == '\r' || s[0] == '\n' then "" else [s[0]]) + Bare(s[1..])
  }

  lemma NormalizedStep(s: string)
    requires s != ""
    ensures Normalized(s) == if LineEnd(s) > 0 then "\n" + Normalized(s[LineEnd(s)..]) else [s[0]] + Normalized(s[1..])
  {
    var n := if LineEnd(s) == 2 then 2 else 1;
    var head := if LineEnd(s) == 2 then "\n" else [s[0]];
    var once := ReplaceAll(s[n..], "\r\n", "\n");
    assert ReplaceAll(s, "\r\n", "\n") == head + once by {
      if |s| == 1 {
        assert s == [s[0]] + s[1..];
      } else if s[0] == '\r' && s[1] == '\n' {
        assert s[..2] == "\r\n";
      } else {
        assert s[..2][0] == s[0] && s[..2][1] == s[1] && "\r\n"[0] == '\r' && "\r\n"[1] == '\n';
      }
    }
    assert (head + once)[1..] == once && (head + once)[..1] == head;
  }

  /** Normalising and splitting cuts at every line end, CRLF counting once. */
  lemma {:induction false} SplitMeansSourceLines(s: string)
    ensures Split(Normalized(s)) == SourceLines(s)
    decreases |s|
  {
    if s != "" {
      NormalizedStep(s);
      var n := if LineEnd(s) > 0 then LineEnd(s) else 1;
      SplitMeansSourceLines(s[n..]);
      assert ("\n" + Normalized(s[n..]))[1..] == Normalized(s[n..]);
      assert ([s[0]] + Normalized(s[n..]))[1..] == Normalized(s[n..]);
    }
  }

  lemma {:induction false} SourceLinesHoldTheText(s: string)
    ensures Flatten(SourceLines(s)) == Bare(s)
    decreases |s|
  {
    if s == "" {
      assert Flatten([""]) == "";
    } else if LineEnd(s) > 0 {
      SourceLinesHoldTheText(s[LineEnd(s)..]);
      if LineEnd(s) == 2 { assert s[1..][1..] == s[2..]; }
      assert ([""] + SourceLines(s[LineEnd(s)..]))[1..] == SourceLines(s[LineEnd(s)..]);
    } else {
      SourceLinesHoldTheText(s[1..]);
      var rest := SourceLines(s[1..]);
      assert SourceLines(s)[1..] == rest[1..];
      assert [s[0]] + rest[0] + Flatten(rest[1..]) == [s[0]] + (rest[0] + Flatten(rest[1..]));
    }
  }

  // -- Properties -----------------------------------------------------------

  ghost predicate Positive(widths: seq<int>) {
    forall i :: 0 <= i < |widths| ==> widths[i] >= 1
  }

  /** Output lines that lay out one source line from output line k on: each but the
      last is full, and the source line is cut only in a full line where the output
      ends. */
  ghost predicate Fills(pieces: seq<string>, line: string, widths: seq<int>, k: nat) {
    && 0 < |pieces| <= |widths| - k
    && Flatten(pieces) <= line
    && (forall i :: 0 <= i < |pieces| ==> |pieces[i]| <= widths[k + i])
    && (forall i :: 0 <= i < |pieces| - 1 ==> |pieces[i]| == widths[k + i])
    && (Flatten(pieces) == line || (k + |pieces| == |widths| && |pieces[|pieces| - 1]| == widths[|widths| - 1]))
    && ("" in pieces ==> line == "" && pieces == [""])
  }

  lemma {:induction false} PiecesFill(line: string, widths: seq<int>, k: nat)
    requires k < |widths| && Positive(widths) && line != ""
    ensures Fills(Pieces(line, widths, k), line, widths, k)
    decreases |line|
  {
    if widths[k] >= |line| {
      FlattenOne(line);
    } else {
      var w := widths[k];
      if k + 1 < |widths| {
        PiecesFill(line[w..], widths, k + 1);
        FillFirst(line, Pieces(line[w..], widths, k + 1), widths, k);
      } else {
        FlattenOne(line[..w]);
      }
    }
  }

  lemma FlattenOne(s: string)
    ensures Flatten([s]) == s
  {
    assert Flatten([s]) == s + Flatten([]) == s;
  }

  lemma FillFirst(line: string, tail: seq<string>, widths: seq<int>, k: nat)
    requires k < |widths| && 1 <= widths[k] < |line| && Fills(tail, line[widths[k]..], widths, k + 1)
    ensures Fills([line[..widths[k]]] + tail, line, widths, k)
  {
    var w := widths[k];
    var pieces := [line[..w]] + tail;
    assert pieces[1..] == tail;
    assert line == line[..w] + line[w..];
    forall i | 0 <= i < |pieces| ensures |pieces[i]| <= widths[k + i] && (i < |pieces| - 1 ==> |pieces[i]| == widths[k + i]) {
      if i > 0 { assert pieces[i] == tail[i - 1] && widths[k + i] == widths[k + 1 + (i - 1)]; }
    }
  }

  lemma LinePiecesFill(line: string, widths: seq<int>, k: nat)
    requires k < |widths| && Positive(widths)
    ensures Fills(LinePieces(line, widths, k), line, widths, k)
  {
    if line != "" { PiecesFill(line, widths, k); } else { FlattenOne(""); }
  }

  /** A layout of source lines from output line k on: each source line in turn fills
      some output lines, until the lines end or the output is used up. */
  ghost predicate LaysOut(out: seq<string>, lines: seq<string>, widths: seq<int>, k: nat)
    requires k <= |widths|
    decreases |lines|
  {
    if lines == [] || k == |widths| then out == []
    else exists n :: 0 < n <= |out| && Fills(out[..n], lines[0], widths, k) && LaysOut(out[n..], lines[1..], widths, k + n)
  }

  lemma {:induction false} OutputIsLaidOut(lines: seq<string>, widths: seq<int>, k: nat)
    requires k <= |widths| && Positive(widths)
    ensures LaysOut(Wrapped(lines, widths, k), lines, widths, k)
    decreases |lines|
  {
    if lines != [] && k < |widths| {
      var first := LinePieces(lines[0], widths, k);
      var n := |first|;
      var rest := Wrapped(lines[1..], widths, k + n);
      OutputIsLaidOut(lines[1..], widths, k + n);
      LinePiecesFill(lines[0], widths, k);
      LaysOutFirst(first, rest, lines, widths, k);
    }
  }

  lemma LaysOutFirst(first: seq<string>, rest: seq<string>, lines: seq<string>, widths: seq<int>, k: nat)
    requires k < |widths| && lines != [] && Fills(first, lines[0], widths, k) && LaysOut(rest, lines[1..], widths, k + |first|)
    ensures LaysOut(first + rest, lines, widths, k)
  {
    var out, n := first + rest, |first|;
    assert out[..n] == first && out[n..] == rest;
    assert 0 < n <= |out| && Fills(out[..n], lines[0], widths, k) && LaysOut(out[n..], lines[1..], widths, k + n);
  }

  /** Whatever the widths, nothing is lost or reordered before the end, and with an
      output line to spare nothing is lost at all: `lost` is what is cut off. */
  lemma {:induction false} NothingLostInside(lines: seq<string>, widths: seq<int>, k: nat) returns (lost: string)
    requires k <= |widths|
    ensures Flatten(Wrapped(lines, widths, k)) + lost == Flatten(lines)
    ensures k + |Wrapped(lines, widths, k)| < |widths| ==> lost == ""
    decreases |lines|
  {
    if lines == [] || k == |widths| {
      lost := Flatten(lines);
    } else {
      var first := LinePieces(lines[0], widths, k);
      var rest := Wrapped(lines[1..], widths, k + |first|);
      var cut := LinePiecesCover(lines[0], widths, k);
      var later := NothingLostInside(lines[1..], widths, k + |first|);
      lost := cut + later;
      LostInTwoParts(first, cut, lines[0], rest, later, Flatten(lines[1..]));
    }
  }

  lemma LostInTwoParts(first: seq<string>, cut: string, line: string, rest: seq<string>, later: string, others: string)
    requires Flatten(first) + cut == line && Flatten(rest) + later == others && (rest == [] || cut == "")
    ensures Flatten(first + rest) + (cut + later) == line + others
  {
    FlattenConcat(first, rest);
    CutOnlyLast(Flatten(first), cut, Flatten(rest), later);
  }

  lemma LinePiecesCover(line: string, widths: seq<int>, k: nat) returns (cut: string)
    requires k < |widths|
    ensures Flatten(LinePieces(line, widths, k)) + cut == line
    ensures k + |LinePieces(line, widths, k)| < |widths| ==> cut == ""
  {
    if line != "" {
      cut := PiecesCover(line, widths, k);
    } else {
      FlattenOne("");
      cut := "";
    }
  }

  /** A cut is only followed by an empty rest. */
  lemma CutOnlyLast(first: string, cut: string, rest: string, later: string)
    requires cut == "" || rest == ""
    ensures (first + rest) + (cut + later) == (first + cut) + (rest + later)
  {
    if cut == "" {
      assert cut + later == later && first + cut == first;
    } else {
      assert rest + later == later && first + rest == first;
    }
  }

  lemma {:induction false} FlattenConcat(a: seq<string>, b: seq<string>)
    ensures Flatten(a + b) == Flatten(a) + Flatten(b)
  {
    if a == [] {
      assert a + b == b;
    } else {
      assert (a + b)[1..] == a[1..] + b;
      FlattenConcat(a[1..], b);
    }
  }

  lemma {:induction false} PiecesCover(line: string, widths: seq<int>, k: nat) returns (cut: string)
    requires k <= |widths|
    ensures Flatten(Pieces(line, widths, k)) + cut == line
    ensures k + |Pieces(line, widths, k)| < |widths| ==> cut == ""
    decreases |line|
  {
    if line == "" || k == |widths| {
      cut := line;
    } else if widths[k] < 1 || widths[k] >= |line| {
      FlattenOne(line);
      cut := "";
    } else {
      var w := widths[k];
      cut := PiecesCover(line[w..], widths, k + 1);
      var tail := Pieces(line[w..], widths, k + 1);
      assert Pieces(line, widths, k)[1..] == tail;
      Associative(line[..w], Flatten(tail), cut);
      assert line[..w] + line[w..] == line;
    }
  }

  /** The output for a usable limit: at most one line per width, together a prefix of
      the text without its line ends, and all of it if a width is left over. */
  lemma WrapIsBoundedAndFaithful(text: string, limit: LineLimit)
    requires Widths(limit) != []
    ensures var widths := Widths(limit);
            var out := Wrapped(SourceLines(text), widths, 0);
            && 0 < |out| <= |widths|
            && Flatten(out) <= Bare(text)
            && (|out| < |widths| ==> Flatten(out) == Bare(text))
  {
    var lost := NothingLostInside(SourceLines(text), Widths(limit), 0);
    SourceLinesHoldTheText(text);
    WrappedNotEmpty(SourceLines(text), Widths(limit));
  }

  lemma {:induction false} PiecesFit(line: string, widths: seq<int>, k: nat)
    requires k <= |widths| && Positive(widths)
    ensures forall i :: 0 <= i < |Pieces(line, widths, k)| ==> |Pieces(line, widths, k)[i]| <= widths[k + i]
    decreases |line|
  {
    if line != "" && k < |widths| && widths[k] < |line| {
      PiecesFit(line[widths[k]..], widths, k + 1);
      var tail := Pieces(line[widths[k]..], widths, k + 1);
      forall i | 0 <= i < 1 + |tail| ensures |([line[..widths[k]]] + tail)[i]| <= widths[k + i] {
        if i > 0 { assert ([line[..widths[k]]] + tail)[i] == tail[i - 1] && widths[k + i] == widths[k + 1 + (i - 1)]; }
      }
    }
  }

  lemma {:induction false} WrappedFits(lines: seq<string>, widths: seq<int>, k: nat)
    requires k <= |widths| && Positive(widths)
    ensures forall i :: 0 <= i < |Wrapped(lines, widths, k)| ==> |Wrapped(lines, widths, k)[i]| <= widths[k + i]
    decreases |lines|
  {
    if lines != [] && k < |widths| {
      var first := LinePieces(lines[0], widths, k);
      var rest := Wrapped(lines[1..], widths, k + |first|);
      PiecesFit(lines[0], widths, k);
      WrappedFits(lines[1..], widths, k + |first|);
      forall i | 0 <= i < |first + rest| ensures |(first + rest)[i]| <= widths[k + i] {
        if i >= |first| { assert (first + rest)[i] == rest[i - |first|] && widths[k + i] == widths[k + |first| + (i - |first|)]; }
      }
    }
  }

  /** A limit of so many lines of so many characters is kept. */
  lemma UniformLimitIsKept(text: string, limit: LineLimit)
    requires limit.lineCharLimits == [] && limit.maxLines > 0 && limit.maxCharsPerLine > 0
    ensures var out := Wrapped(SourceLines(text), Widths(limit), 0);
            |out| <= limit.maxLines && forall i :: 0 <= i < |out| ==> |out[i]| <= limit.maxCharsPerLine
  {
    WrappedFits(SourceLines(text), Widths(limit), 0);
  }

  /** With usable widths the output is the greedy layout: line i is within width i,
      no line runs over a line end of the source, a line is shorter than its width
      only at the end of a source line, and empty source lines stay. */
  lemma WrapIsGreedy(text: string, limit: LineLimit)
    requires Positive(Widths(limit))
    ensures LaysOut(Wrapped(SourceLines(text), Widths(limit), 0), SourceLines(text), Widths(limit), 0)
  {
    OutputIsLaidOut(SourceLines(text), Widths(limit), 0);
  }
}
