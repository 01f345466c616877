/** What the client of miniapp/utils/sse.ts has delivered when the connection breaks off
    at some byte, before and after the flush that follows completion. */
module SseCutOff {
  import opened Common
  import opened Utf8
  import opened Sse

  /** The chunks received before the connection was lost, and the bytes lost with it. */
  ghost predicate CutOff(events: seq<Sent>, chunks: seq<seq<Byte>>, lost: seq<Byte>) {
    Flatten(chunks) + lost == Stream(events)
  }

  /** What has been delivered when the connection is lost is a prefix of the events. */
  lemma CutOffDeliversAPrefix<V>(events: seq<Sent>, chunks: seq<seq<Byte>>, lost: seq<Byte>, parse: Text -> Option<V>)
    requires Sendable(events, parse) && CutOff(events, chunks, lost)
    ensures FeedAll(Fresh<V>(), chunks, parse).delivered <= Expected(events, parse)
  {
    var sofar := Flatten(chunks);
    CutOffIsWhole(events, chunks, lost, parse);
    FeedExtendsWhole(sofar, lost, parse);
    StreamDecodes(events);
    StreamDelivers(events, parse);
  }

  lemma CutOffIsWhole<V>(events: seq<Sent>, chunks: seq<seq<Byte>>, lost: seq<Byte>, parse: Text -> Option<V>)
    requires Sendable(events, parse) && CutOff(events, chunks, lost)
    ensures CrFree(Flatten(chunks) + lost)
    ensures FeedAll(Fresh<V>(), chunks, parse) == Whole(Flatten(chunks), parse)
  {
    StreamIsCrFree(events, parse);
    PrefixIsCrFree(Flatten(chunks), lost);
    ClientIsChunkInvariant(chunks, parse);
  }

  /** The text decoded from a part of encoded bytes is that of some whole characters. */
  lemma {:induction false} PartOfEncoded(text: seq<Scalar>, part: seq<Byte>, lost: seq<Byte>) returns (k: nat)
    requires part + lost == EncodeAll(text)
    ensures k <= |text| && Output(Parse(part).complete) == Utf16All(text[..k])
  {
    k := 0;
    if text != [] && part != [] {
      var c := Encode(text[0]);
      EncodeLength(text[0]);
      assert part[0] == (part + lost)[0] == c[0];
      if |c| <= |part| {
        FrontsAgree(part, lost, c, EncodeAll(text[1..]));
        k := PartOfEncoded(text[1..], part[|c|..], lost);
        DecodeOneCharacter(text[0], part);
        assert text[..k + 1][1..] == text[1..][..k];
        k := k + 1;
      }
    }
  }

  lemma DecodeOneCharacter(c: Scalar, part: seq<Byte>)
    requires Encode(c) <= part
    ensures Output(Parse(part).complete) == Utf16(c) + Output(Parse(part[|Encode(c)|..]).complete)
  {
    EncodeLength(c);
    DecodeUndoesEncode(c);
    UnitsAreUtf16(c);
    DecodeStep(part, 0);
    assert part[0..] == part && part[0..|Encode(c)|] == Encode(c);
  }

  /** No beginning of this event's JSON text parses as something else. */
  ghost predicate EndsUnmistakably<V>(json: seq<Scalar>, parse: Text -> Option<V>) {
    forall m :: 0 <= m < |json| ==>
      parse(Utf16All(json[..m])).None? || parse(Utf16All(json[..m])) == parse(Utf16All(json))
  }

  /** The scalars of a frame up to a part of its data. */
  function OpenFrame(name: seq<Scalar>, json: seq<Scalar>): seq<Scalar> {
    OPENING + (name + (MIDDLE + json))
  }

  lemma OpenFrameDecodes(name: seq<Scalar>, json: seq<Scalar>)
    ensures Utf16All(OpenFrame(name, json)) == FrameText(Utf16All(name), Utf16All(json))
  {
    FixedPartsDecode();
    Utf16OfFive(OPENING, name, MIDDLE, json, []);
    assert json + [] == json && Utf16All(json) + Utf16All([]) == Utf16All(json);
  }

  /** A beginning of printable JSON text is still on one line. */
  lemma BeginningIsClean(json: seq<Scalar>, m: nat)
    requires m <= |json| && json != [] && LF !in json && !IsSpace(json[0])
    ensures var j := Utf16All(json[..m]); NoUnit(j, LF) && (j == [] || !IsSpace(j[0]))
  {
    Utf16Keeps(json[..m], LF);
    if m > 0 { Utf16Ends(json[..m]); }
  }

  lemma OpenFrameDelivers<V>(e: Sent, m: nat, parse: Text -> Option<V>)
    requires Printable(e.name, e.json) && m <= |e.json|
    ensures var v := parse(Utf16All(e.json[..m]));
            FrameEvent(Utf16All(OpenFrame(e.name, e.json[..m])), parse)
            == if v.None? then [] else [Event(Utf16All(e.name), v.value)]
  {
    OpenFrameDecodes(e.name, e.json[..m]);
    PrintedPartsAreClean(e.name, e.json);
    BeginningIsClean(e.json, m);
    FrameMeans(Utf16All(e.name), Utf16All(e.json[..m]), parse);
  }

  /** Cut before the data line: a frame without data. */
  lemma CutInName<V>(e: Sent, k: nat, parse: Text -> Option<V>)
    requires Printable(e.name, e.json) && k <= 7 + |e.name|
    ensures FrameEvent(Utf16All((OPENING + e.name)[..k]), parse) == []
  {
    var p: seq<Scalar> := (OPENING + e.name)[..k];
    assert LF !in OPENING + e.name;
    Utf16Keeps(p, LF);
    var x: Text := Utf16All(p);
    SplitSingle(x);
    assert [x][..0] == [];
    if k > 0 {
      assert p[0] == 101 && Utf16(p[0]) == [101];
      assert x[0] == 101;
      StartsWithFirst(x, DATA);
    }
    assert !StartsWith(x, DATA);
    assert DataOf([x]) == [];
  }

  /** A second line that is part of "data: ": no data line, or an empty one. */
  lemma PartialLine(first: Text, line: Text)
    requires NoUnit(first, LF) && NoUnit(line, LF)
    requires !StartsWith(line, EVENT) && (StartsWith(line, DATA) ==> line[5..] == [])
    ensures var lines := SplitLines(first + [LF] + line);
            && NameOf(lines) == NameOf([first])
            && (DataOf(lines) == DataOf([first]) || DataOf(lines) == DataOf([first]) + [[]])
  {
    SplitAtFirst(first, line);
    SplitSingle(line);
    var lines: seq<Text> := [first, line];
    assert [first] + [line] == lines && lines[..1] == [first];
  }

  lemma PartOfData(k: nat)
    requires k <= 5
    ensures var line: Text := (DATA + [SPACE])[..k];
            NoUnit(line, LF) && !StartsWith(line, EVENT) && (StartsWith(line, DATA) ==> line[5..] == [])
  {
    var line: Text := (DATA + [SPACE])[..k];
    if k > 0 {
      assert line[0] == 100;
      StartsWithFirst(line, EVENT);
    }
  }

  lemma LinesDecode(name: seq<Scalar>, line: seq<Scalar>)
    requires forall i :: 0 <= i < |line| ==> line[i] < 0x80
    ensures Utf16All(OPENING + name + [LF] + line) == OPENING + Utf16All(name) + [LF] + line
  {
    Ascii(OPENING);
    Ascii([LF]);
    Ascii(line);
    Utf16AllConcat(OPENING + name + [LF], line);
    Utf16AllConcat(OPENING + name, [LF]);
    Utf16AllConcat(OPENING, name);
  }

  lemma CutInMiddle<V>(e: Sent, k: nat, parse: Text -> Option<V>)
    requires Printable(e.name, e.json) && k <= 5
    ensures var f := FrameEvent(Utf16All(OPENING + e.name + [LF] + (DATA + [SPACE])[..k]), parse);
            f == [] || (parse([]).Some? && f == [Event(Utf16All(e.name), parse([]).value)])
  {
    var line: seq<Scalar> := (DATA + [SPACE])[..k];
    PrintedPartsAreClean(e.name, e.json);
    LinesDecode(e.name, line);
    PartOfData(k);
    OpeningMeans(Utf16All(e.name));
    PartialLine(OPENING + Utf16All(e.name), line);
  }

  /** A line feed at the end adds an empty line, which says nothing. */
  lemma {:induction false} SplitTrailing(s: Text)
    ensures SplitLines(s + [LF]) == SplitLines(s) + [[]]
  {
    if s == [] {
      assert ([] + [LF])[1..] == [];
    } else {
      assert (s + [LF])[1..] == s[1..] + [LF];
      SplitTrailing(s[1..]);
    }
  }

  lemma EmptyLine(lines: seq<Text>)
    ensures NameOf(lines + [[]]) == NameOf(lines) && DataOf(lines + [[]]) == DataOf(lines)
  {
    var more := lines + [[]];
    assert more[..|lines|] == lines && more[|lines|] == [];
  }

  lemma TrailingDelivers<V>(frame: Text, parse: Text -> Option<V>)
    ensures FrameEvent(frame + [LF], parse) == FrameEvent(frame, parse)
  {
    SplitTrailing(frame);
    EmptyLine(SplitLines(frame));
  }

  lemma CutInClosing<V>(e: Sent, parse: Text -> Option<V>)
    requires Printable(e.name, e.json) && parse(Utf16All(e.json)).Some?
    ensures FrameEvent(Utf16All(OpenFrame(e.name, e.json) + [LF]), parse)
            == [Event(Utf16All(e.name), parse(Utf16All(e.json)).value)]
  {
    Utf16AllConcat(OpenFrame(e.name, e.json), [LF]);
    Ascii([LF]);
    OpenFrameDecodes(e.name, e.json);
    PrintedPartsAreClean(e.name, e.json);
    TrailingDelivers(FrameText(Utf16All(e.name), Utf16All(e.json)), parse);
    FrameDelivers(Utf16All(e.name), Utf16All(e.json), parse);
  }

  /** The four places where a frame can be cut. */
  lemma PartsOfFrame(e: Sent, k: nat)
    requires k < |Frame(e.name, e.json)|
    ensures var p, n := Frame(e.name, e.json)[..k], |e.name|;
            && |Frame(e.name, e.json)| == 16 + n + |e.json|
            && (k <= 7 + n ==> p == (OPENING + e.name)[..k])
            && (8 + n <= k <= 13 + n ==> p == OPENING + e.name + [LF] + (DATA + [SPACE])[..k - 8 - n])
            && (14 + n <= k <= 14 + n + |e.json| ==> p == OpenFrame(e.name, e.json[..k - 14 - n]))
            && (k == 15 + n + |e.json| ==> p == OpenFrame(e.name, e.json) + [LF])
  {
  }

  /** Cut anywhere inside a frame: nothing or its own event, unless the JSON text
      can be mistaken. */
  lemma CutInsideFrame<V>(e: Sent, k: nat, parse: Text -> Option<V>)
    requires Printable(e.name, e.json) && parse(Utf16All(e.json)).Some? && EndsUnmistakably(e.json, parse)
    requires k < |Frame(e.name, e.json)|
    ensures FrameEvent(Utf16All(Frame(e.name, e.json)[..k]), parse)
            <= [Event(Utf16All(e.name), parse(Utf16All(e.json)).value)]
  {
    var n := |e.name|;
    PartsOfFrame(e, k);
    if k <= 7 + n {
      CutInName(e, k, parse);
    } else if k <= 13 + n {
      CutInMiddle(e, k - 8 - n, parse);
      assert e.json[..0] == [];
    } else if k <= 14 + n + |e.json| {
      OpenFrameDelivers(e, k - 14 - n, parse);
      assert e.json[..|e.json|] == e.json;
    } else {
      CutInClosing(e, parse);
    }
  }

  ghost predicate NoFalseEnd<V>(events: seq<Sent>, parse: Text -> Option<V>) {
    forall e <- events :: EndsUnmistakably(e.json, parse)
  }

  /** What a text delivers in the end, its rest taken as a last frame. */
  function Final<V>(text: Text, parse: Text -> Option<V>): seq<Event<V>> {
    var cut := CutFrames(text);
    EventsOf(cut.frames, parse) + if Trim(cut.rest) == [] then [] else FrameEvent(cut.rest, parse)
  }

  lemma FinalAfterFrame<V>(e: Sent, more: Text, parse: Text -> Option<V>)
    requires Printable(e.name, e.json) && parse(Utf16All(e.json)).Some?
    ensures Final(Utf16All(Frame(e.name, e.json)) + more, parse)
            == [Event(Utf16All(e.name), parse(Utf16All(e.json)).value)] + Final(more, parse)
  {
    var name, json := Utf16All(e.name), Utf16All(e.json);
    FrameDecodes(e.name, e.json);
    PrintedPartsAreClean(e.name, e.json);
    FrameIsCutOff(name, json, more);
    CutOneFrame(FrameText(name, json), more);
    FrameDelivers(name, json, parse);
    assert ([FrameText(name, json)] + CutFrames(more).frames)[1..] == CutFrames(more).frames;
  }

  /** A part of a frame holds no blank line. */
  lemma PartIsUncut(e: Sent, k: nat)
    requires Printable(e.name, e.json) && k < |Frame(e.name, e.json)|
    ensures CutFrames(Utf16All(Frame(e.name, e.json)[..k])) == Framed([], Utf16All(Frame(e.name, e.json)[..k]))
  {
    var frame := Frame(e.name, e.json);
    var x, y, f := Utf16All(frame[..k]), Utf16All(frame[k..]), FrameText(Utf16All(e.name), Utf16All(e.json));
    assert frame[..k] + frame[k..] == frame;
    Utf16AllConcat(frame[..k], frame[k..]);
    FrameDecodes(e.name, e.json);
    PrintedPartsAreClean(e.name, e.json);
    FrameIsCutOff(Utf16All(e.name), Utf16All(e.json), []);
    assert f + CLOSING + [] == x + y;
    assert |y| > 0 by { Utf16Ends(frame[k..]); }
    forall j | 0 <= j < |x| ensures !BlankAt(x, j) {
      if BlankAt(x, j) { assert BlankAt(x + y, j); }
    }
  }

  /** The first k elements, or all. */
  function UpTo<T>(s: seq<T>, k: nat): seq<T> {
    if k <= |s| then s[..k] else s
  }

  lemma UpToPast<T>(a: seq<T>, b: seq<T>, k: nat)
    ensures k < |a| ==> UpTo(a + b, k) == UpTo(a, k)
    ensures k >= |a| ==> UpTo(a + b, k) == a + UpTo(b, k - |a|)
  {
  }

  lemma FinalInFrame<V>(e: Sent, k: nat, parse: Text -> Option<V>)
    requires Printable(e.name, e.json) && parse(Utf16All(e.json)).Some? && EndsUnmistakably(e.json, parse)
    requires k < |Frame(e.name, e.json)|
    ensures Final(Utf16All(Frame(e.name, e.json)[..k]), parse)
            <= [Event(Utf16All(e.name), parse(Utf16All(e.json)).value)]
  {
    PartIsUncut(e, k);
    CutInsideFrame(e, k, parse);
  }

  /** The first k characters of the stream deliver a prefix of the events. */
  ghost predicate Safe<V>(events: seq<Sent>, k: nat, parse: Text -> Option<V>)
    requires Sendable(events, parse)
  {
    Final(Utf16All(UpTo(StreamChars(events), k)), parse) <= Expected(events, parse)
  }

  lemma PrefixCons<T>(x: T, a: seq<T>, b: seq<T>)
    ensures [x] + a <= [x] + b <==> a <= b
  {
    assert ([x] + a)[1..] == a && ([x] + b)[1..] == b;
    if [x] + a <= [x] + b {
      assert a == ([x] + b)[..1 + |a|][1..] == b[..|a|];
    }
  }

  lemma FinalPastFrame<V>(e: Sent, later: seq<Scalar>, k: nat, parse: Text -> Option<V>)
    requires Printable(e.name, e.json) && parse(Utf16All(e.json)).Some? && k >= |Frame(e.name, e.json)|
    ensures Final(Utf16All(UpTo(Frame(e.name, e.json) + later, k)), parse)
            == [Event(Utf16All(e.name), parse(Utf16All(e.json)).value)]
               + Final(Utf16All(UpTo(later, k - |Frame(e.name, e.json)|)), parse)
  {
    var part := UpTo(later, k - |Frame(e.name, e.json)|);
    UpToPast(Frame(e.name, e.json), later, k);
    Utf16AllConcat(Frame(e.name, e.json), part);
    FinalAfterFrame(e, Utf16All(part), parse);
  }

  /** A part that ends behind the first frame is as safe as what follows the frame. */
  lemma SafePastFrame<V>(events: seq<Sent>, k: nat, parse: Text -> Option<V>)
    requires Sendable(events, parse) && events != [] && k >= |Frame(events[0].name, events[0].json)|
    ensures Safe(events, k, parse) <==> Safe(events[1..], k - |Frame(events[0].name, events[0].json)|, parse)
  {
    var e, later := events[0], StreamChars(events[1..]);
    FinalPastFrame(e, later, k, parse);
    PrefixCons(Event(Utf16All(e.name), parse(Utf16All(e.json)).value),
               Final(Utf16All(UpTo(later, k - |Frame(e.name, e.json)|)), parse), Expected(events[1..], parse));
  }

  lemma SafeInFrame<V>(events: seq<Sent>, k: nat, parse: Text -> Option<V>)
    requires Sendable(events, parse) && events != [] && EndsUnmistakably(events[0].json, parse)
    requires k < |Frame(events[0].name, events[0].json)|
    ensures Safe(events, k, parse)
  {
    UpToPast(Frame(events[0].name, events[0].json), StreamChars(events[1..]), k);
    FinalInFrame(events[0], k, parse);
  }

  lemma {:induction false} PartIsSafe<V>(events: seq<Sent>, k: nat, parse: Text -> Option<V>)
    requires Sendable(events, parse) && NoFalseEnd(events, parse)
    ensures Safe(events, k, parse)
  {
    if events != [] {
      var length := |Frame(events[0].name, events[0].json)|;
      if k < length {
        SafeInFrame(events, k, parse);
      } else {
        PartIsSafe(events[1..], k - length, parse);
        SafePastFrame(events, k, parse);
      }
    }
  }

  lemma FlushedIsFinal<V>(events: seq<Sent>, chunks: seq<seq<Byte>>, lost: seq<Byte>, parse: Text -> Option<V>)
    requires Sendable(events, parse) && CutOff(events, chunks, lost)
    ensures Flushed(FeedAll(Fresh<V>(), chunks, parse), parse).delivered
            == Final(Output(Parse(Flatten(chunks)).complete), parse)
  {
    CutOffIsWhole(events, chunks, lost, parse);
  }

  /** The same after the flush that follows completion, if no beginning of an event's
      JSON text parses as something else. */
  lemma FlushDeliversAPrefix<V>(events: seq<Sent>, chunks: seq<seq<Byte>>, lost: seq<Byte>, parse: Text -> Option<V>)
    requires Sendable(events, parse) && CutOff(events, chunks, lost) && NoFalseEnd(events, parse)
    ensures Flushed(FeedAll(Fresh<V>(), chunks, parse), parse).delivered <= Expected(events, parse)
  {
    FlushedIsFinal(events, chunks, lost, parse);
    StreamIsEncoded(events);
    var k := PartOfEncoded(StreamChars(events), Flatten(chunks), lost);
    PartIsSafe(events, k, parse);
  }

  lemma {:induction false} TrimOfText(s: Text)
    requires s != [] && !IsSpace(s[0])
    ensures Trim(s) != []
  {
    if IsSpace(s[|s| - 1]) {
      TrimOfText(s[..|s| - 1]);
    }
  }

  lemma OpenFrameIsPart(e: Sent, m: nat)
    requires m <= |e.json|
    ensures 14 + |e.name| + m < |Frame(e.name, e.json)|
    ensures Frame(e.name, e.json)[..14 + |e.name| + m] == OpenFrame(e.name, e.json[..m])
  {
    PartsOfFrame(e, 14 + |e.name| + m);
  }

  lemma OpenFrameIsUncut(e: Sent, m: nat)
    requires Printable(e.name, e.json) && m <= |e.json|
    ensures var text := Utf16All(OpenFrame(e.name, e.json[..m])); CutFrames(text) == Framed([], text)
  {
    OpenFrameIsPart(e, m);
    PartIsUncut(e, 14 + |e.name| + m);
  }

  lemma OpenFrameIsNoSpace(name: seq<Scalar>, json: seq<Scalar>)
    ensures Trim(Utf16All(OpenFrame(name, json))) != []
  {
    OpenFrameDecodes(name, json);
    assert FrameText(Utf16All(name), Utf16All(json))[0] == 101;
    TrimOfText(FrameText(Utf16All(name), Utf16All(json)));
  }

  /** A frame cut within its data delivers what that part of the data parses as. */
  lemma FinalOfOpenFrame<V>(e: Sent, m: nat, parse: Text -> Option<V>)
    requires Printable(e.name, e.json) && m <= |e.json|
    ensures var v := parse(Utf16All(e.json[..m]));
            Final(Utf16All(OpenFrame(e.name, e.json[..m])), parse)
            == if v.None? then [] else [Event(Utf16All(e.name), v.value)]
  {
    OpenFrameIsUncut(e, m);
    OpenFrameIsNoSpace(e.name, e.json[..m]);
    OpenFrameDelivers(e, m, parse);
  }

  lemma OpenFrameIsUpTo(events: seq<Sent>, m: nat)
    requires events != [] && m <= |events[0].json|
    ensures UpTo(StreamChars(events), 14 + |events[0].name| + m) == OpenFrame(events[0].name, events[0].json[..m])
  {
    OpenFrameIsPart(events[0], m);
    UpToPast(Frame(events[0].name, events[0].json), StreamChars(events[1..]), 14 + |events[0].name| + m);
  }

  lemma MistakenAt<V>(json: seq<Scalar>, parse: Text -> Option<V>) returns (m: nat)
    requires !EndsUnmistakably(json, parse)
    ensures m < |json| && parse(Utf16All(json[..m])).Some? && parse(Utf16All(json[..m])) != parse(Utf16All(json))
  {
    m :| 0 <= m < |json| && parse(Utf16All(json[..m])).Some? && parse(Utf16All(json[..m])) != parse(Utf16All(json));
  }

  /** A cut right behind a beginning that parses as something else. */
  lemma MistakenFirst<V>(events: seq<Sent>, parse: Text -> Option<V>) returns (k: nat)
    requires Sendable(events, parse) && events != [] && !EndsUnmistakably(events[0].json, parse)
    ensures !Safe(events, k, parse)
  {
    var m := MistakenAt(events[0].json, parse);
    k := 14 + |events[0].name| + m;
    OpenFrameIsUpTo(events, m);
    FinalOfOpenFrame(events[0], m, parse);
  }

  lemma {:induction false} MistakenEnd<V>(events: seq<Sent>, parse: Text -> Option<V>) returns (k: nat)
    requires Sendable(events, parse) && !NoFalseEnd(events, parse)
    ensures !Safe(events, k, parse)
  {
    if EndsUnmistakably(events[0].json, parse) {
      k := MistakenEnd(events[1..], parse);
      k := |Frame(events[0].name, events[0].json)| + k;
      SafePastFrame(events, k, parse);
    } else {
      k := MistakenFirst(events, parse);
    }
  }

  /** Every number of characters is where the connection may be lost. */
  lemma CutBehind(events: seq<Sent>, k: nat) returns (part: seq<Byte>, lost: seq<Byte>)
    ensures CutOff(events, [part], lost)
    ensures Output(Parse(Flatten([part])).complete) == Utf16All(UpTo(StreamChars(events), k))
  {
    var first := UpTo(StreamChars(events), k);
    var rest := StreamChars(events)[|first|..];
    part, lost := EncodeAll(first), EncodeAll(rest);
    FlattenSingle(part);
    SplitAtUpTo(StreamChars(events), k);
    CutOffBetween(events, first, rest);
    DecodeValid(first);
  }

  lemma SplitAtUpTo<T>(s: seq<T>, k: nat)
    ensures UpTo(s, k) + s[|UpTo(s, k)|..] == s
  {
  }

  lemma FlattenSingle<T>(s: seq<T>)
    ensures Flatten([s]) == s
  {
    assert Flatten([s]) == s + Flatten([]);
  }

  lemma CutOffBetween(events: seq<Sent>, first: seq<Scalar>, rest: seq<Scalar>)
    requires first + rest == StreamChars(events)
    ensures EncodeAll(first) + EncodeAll(rest) == Stream(events)
  {
    EncodeAllConcat(first, rest);
    StreamIsEncoded(events);
  }

  lemma MistakenStream<V>(events: seq<Sent>, parse: Text -> Option<V>) returns (chunks: seq<seq<Byte>>, lost: seq<Byte>)
    requires Sendable(events, parse) && !NoFalseEnd(events, parse)
    ensures CutOff(events, chunks, lost)
    ensures !(Flushed(FeedAll(Fresh<V>(), chunks, parse), parse).delivered <= Expected(events, parse))
  {
    var k := MistakenEnd(events, parse);
    var part;
    part, lost := CutBehind(events, k);
    chunks := [part];
    FlushedIsFinal(events, chunks, lost, parse);
  }

  /** The flush is harmless at every cut exactly if no beginning of an event's JSON
      text parses as something else. */
  lemma FlushIsHarmlessIff<V>(events: seq<Sent>, parse: Text -> Option<V>)
    requires Sendable(events, parse)
    ensures (forall chunks, lost :: CutOff(events, chunks, lost) ==>
              Flushed(FeedAll(Fresh<V>(), chunks, parse), parse).delivered <= Expected(events, parse))
            <==> NoFalseEnd(events, parse)
  {
    if NoFalseEnd(events, parse) {
      forall chunks, lost | CutOff(events, chunks, lost)
        ensures Flushed(FeedAll(Fresh<V>(), chunks, parse), parse).delivered <= Expected(events, parse)
      {
        FlushDeliversAPrefix(events, chunks, lost, parse);
      }
    } else {
      var chunks, lost := MistakenStream(events, parse);
    }
  }

  /** The number 12, the data of an event named n, cut behind its first digit. */
  lemma ACutNumberIsMistaken<V>(parse: Text -> Option<V>)
    requires parse([49]).Some? && parse([49, 50]).Some? && parse([49]) != parse([49, 50])
    ensures Sendable([Sent([110], [49, 50])], parse)
    ensures exists chunks, lost :: CutOff([Sent([110], [49, 50])], chunks, lost)
              && !(Flushed(FeedAll(Fresh<V>(), chunks, parse), parse).delivered <= Expected([Sent([110], [49, 50])], parse))
  {
    var e := Sent([110], [49, 50]);
    Ascii([49]);
    Ascii([49, 50]);
    assert e.json[..1] == [49];
    assert !EndsUnmistakably(e.json, parse);
    var chunks, lost := MistakenStream([e], parse);
  }
}
