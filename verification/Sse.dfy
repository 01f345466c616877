/** Server-sent events end to end: the frame printer of ai/handler.go and the
    incremental frame parser of miniapp/utils/sse.ts (section 9.2 of the WHATWG
    HTML Standard). JavaScript strings are sequences of UTF-16 units. */
module Sse {
  import opened Common
  import opened Utf8

  type Text = seq<Unit>

  const LF: int := 10
  const CR: int := 13
  const SPACE: int := 32
  /** "event:" and "data:" */
  const EVENT: seq<int> := [101, 118, 101, 110, 116, 58]
  const DATA: seq<int> := [100, 97, 116, 97, 58]

  /** The fixed parts of a printed frame: "event: ", "\ndata: " and "\n\n". */
  const OPENING: seq<int> := [101, 118, 101, 110, 116, 58, 32]
  const MIDDLE: seq<int> := [10, 100, 97, 116, 97, 58, 32]
  const CLOSING: seq<int> := [10, 10]

  // -- The printer ----------------------------------------------------------

  /** fmt.Fprintf(w, "event: %s\ndata: %s\n\n", name, b) */
  function Frame(name: seq<Scalar>, json: seq<Scalar>): seq<Scalar> {
    OPENING + (name + (MIDDLE + (json + CLOSING)))
  }

  class ResponseWriter {
    var written: seq<Byte>

    constructor ()
      ensures written == []
    {
      written := [];
    }

    /** An event whose data cannot be marshalled is dropped. */
    method Emit(name: seq<Scalar>, marshalled: Option<seq<Scalar>>)
      modifies this
      ensures written == old(written) + if marshalled.Some? then EncodeAll(Frame(name, marshalled.value)) else []
    {
      if marshalled.None? { return; }
      written := written + EncodeAll(Frame(name, marshalled.value));
    }
  }

  // -- String functions of the client ---------------------------------------

  /** White space and line terminators as removed by trim(). */
  predicate IsSpace(u: int) {
    9 <= u <= 13 || u == 32 || u == 0xA0 || u == 0x1680 || 0x2000 <= u <= 0x200A
    || u == 0x2028 || u == 0x2029 || u == 0x202F || u == 0x205F || u == 0x3000 || u == 0xFEFF
  }

  function TrimStart(s: Text): Text {
    if s != [] && IsSpace(s[0]) then TrimStart(s[1..]) else s
  }

  function TrimEnd(s: Text): Text {
    if s != [] && IsSpace(s[|s| - 1]) then TrimEnd(s[..|s| - 1]) else s
  }

  function Trim(s: Text): Text {
    TrimEnd(TrimStart(s))
  }

  predicate AllSpace(s: Text) {
    forall i :: 0 <= i < |s| ==> IsSpace(s[i])
  }

  lemma {:induction false} TrimStartMeans(s: Text) returns (front: Text)
    ensures s == front + TrimStart(s) && AllSpace(front) && (TrimStart(s) != [] ==> !IsSpace(TrimStart(s)[0]))
  {
    front := [];
    if s != [] && IsSpace(s[0]) {
      front := TrimStartMeans(s[1..]);
      front := [s[0]] + front;
    }
  }

  lemma {:induction false} TrimEndMeans(s: Text) returns (back: Text)
    ensures s == TrimEnd(s) + back && AllSpace(back) && (TrimEnd(s) != [] ==> !IsSpace(TrimEnd(s)[|TrimEnd(s)| - 1]))
  {
    back := [];
    if s != [] && IsSpace(s[|s| - 1]) {
      back := TrimEndMeans(s[..|s| - 1]);
      back := back + [s[|s| - 1]];
    }
  }

  /** Trimming takes away the white space at both ends and nothing else. */
  lemma TrimMeans(s: Text) returns (front: Text, back: Text)
    ensures s == front + Trim(s) + back && AllSpace(front) && AllSpace(back)
    ensures Trim(s) != [] ==> !IsSpace(Trim(s)[0]) && !IsSpace(Trim(s)[|Trim(s)| - 1])
  {
    front := TrimStartMeans(s);
    back := TrimEndMeans(TrimStart(s));
    if Trim(s) != [] { assert TrimStart(s)[0] == Trim(s)[0]; }
  }

  /** text.replace(/\r\n/g, '\n') */
  function NormalizeCrlf(s: Text): Text {
    if |s| >= 2 && s[0] == CR && s[1] == LF then [LF] + NormalizeCrlf(s[2..])
    else if s == [] then []
    else [s[0]] + NormalizeCrlf(s[1..])
  }

  /** Whether "\n\n" begins at i. */
  predicate BlankAt(s: Text, i: int) {
    0 <= i && i + 1 < |s| && s[i] == LF && s[i + 1] == LF
  }

  /** buffer.indexOf('\n\n') */
  function FirstBlank(s: Text): (i: int)
    ensures i == -1 || BlankAt(s, i)
    ensures forall j :: BlankAt(s, j) ==> 0 <= i <= j
  {
    if |s| < 2 then -1
    else if BlankAt(s, 0) then 0
    else
      var rest := FirstBlank(s[1..]);
      assert forall j :: BlankAt(s, j) && j > 0 ==> BlankAt(s[1..], j - 1);
      if rest == -1 then -1 else 1 + rest
  }

  /** frame.split('\n') */
  function SplitLines(s: Text): (lines: seq<Text>)
    ensures |lines| >= 1
  {
    if s == [] then [[]]
    else
      var rest := SplitLines(s[1..]);
      if s[0] == LF then [[]] + rest else [[s[0]] + rest[0]] + rest[1..]
  }

  /** dataLines.join('\n') */
  function JoinLines(lines: seq<Text>): Text {
    if lines == [] then [] else if |lines| == 1 then lines[0] else lines[0] + [LF] + JoinLines(lines[1..])
  }

  /** Joining undoes splitting, and the parts hold no line feed. */
  lemma {:induction false} JoinUndoesSplit(s: Text)
    ensures JoinLines(SplitLines(s)) == s
    ensures forall i :: 0 <= i < |SplitLines(s)| ==> LF !in SplitLines(s)[i]
  {
    if s != [] {
      JoinUndoesSplit(s[1..]);
      var rest := SplitLines(s[1..]);
      if s[0] == LF {
        assert ([[]] + rest)[1..] == rest && JoinLines([[]] + rest) == [] + [LF] + JoinLines(rest);
      } else {
        assert ([[s[0]] + rest[0]] + rest[1..])[1..] == rest[1..];
        if |rest| == 1 {
          assert JoinLines(rest) == rest[0];
        } else {
          assert [s[0]] + rest[0] + [LF] + JoinLines(rest[1..]) == [s[0]] + (rest[0] + [LF] + JoinLines(rest[1..]));
        }
      }
    }
  }

  /** A carriage return before a line feed goes away, and no other. */
  lemma {:induction false} CrlfBecomesLf(before: Text, rest: Text)
    requires CR !in before
    ensures NormalizeCrlf(before + [CR, LF] + rest) == before + [LF] + NormalizeCrlf(rest)
    ensures rest != [] && rest[0] != LF ==> NormalizeCrlf(before + [CR] + rest) == before + [CR] + NormalizeCrlf(rest)
  {
    if before == [] {
      assert ([] + [CR, LF] + rest)[2..] == rest && ([] + [CR] + rest)[1..] == rest;
    } else {
      CrlfBecomesLf(before[1..], rest);
      assert (before + [CR, LF] + rest)[1..] == before[1..] + [CR, LF] + rest;
      assert (before + [CR] + rest)[1..] == before[1..] + [CR] + rest;
    }
  }

  // -- One frame ------------------------------------------------------------

  datatype Event<V> = Event(name: Text, data: V)

  predicate StartsWith(line: Text, prefix: seq<int>) {
    |prefix| <= |line| && line[..|prefix|] == prefix
  }

  /** The last event line names the frame. */
  function NameOf(lines: seq<Text>): Text {
    if lines == [] then []
    else
      var line := lines[|lines| - 1];
      if StartsWith(line, EVENT) then Trim(line[6..]) else NameOf(lines[..|lines| - 1])
  }

  /** The data lines, in order. */
  function DataOf(lines: seq<Text>): seq<Text> {
    if lines == [] then []
    else
      var line, before := lines[|lines| - 1], DataOf(lines[..|lines| - 1]);
      if StartsWith(line, EVENT) then before
      else if StartsWith(line, DATA) then before + [TrimStart(line[5..])]
      else before
  }

  /** What a frame delivers: nothing without a name, without data, or when the
      data is not JSON. */
  function FrameEvent<V>(frame: Text, parse: Text -> Option<V>): seq<Event<V>> {
    var lines := SplitLines(frame);
    if NameOf(lines) == [] || DataOf(lines) == [] then []
    else
      var v := parse(JoinLines(DataOf(lines)));
      if v.None? then [] else [Event(NameOf(lines), v.value)]
  }

  lemma FixedTexts()
    ensures EVENT == Codes("event:") && DATA == Codes("data:")
    ensures OPENING == Codes("event: ") && MIDDLE == Codes("\ndata: ") && CLOSING == Codes("\n\n")
  {
  }

  /** A frame is its name and its data between the fixed texts. */
  lemma FrameIs(name: seq<Scalar>, json: seq<Scalar>)
    ensures Frame(name, json) == Codes("event: ") + name + Codes("\ndata: ") + json + Codes("\n\n")
  {
    FixedTexts();
  }

  /** The last event line names a frame, trimmed; the data lines count in order, without
      leading space; other lines do not count. */
  lemma LastLineCounts(lines: seq<Text>, line: Text)
    ensures StartsWith(line, EVENT) ==> NameOf(lines + [line]) == Trim(line[6..]) && DataOf(lines + [line]) == DataOf(lines)
    ensures StartsWith(line, DATA) ==> DataOf(lines + [line]) == DataOf(lines) + [TrimStart(line[5..])]
    ensures !StartsWith(line, EVENT) ==> NameOf(lines + [line]) == NameOf(lines)
    ensures !StartsWith(line, EVENT) && !StartsWith(line, DATA) ==> DataOf(lines + [line]) == DataOf(lines)
  {
    var more := lines + [line];
    assert more[..|lines|] == lines && more[|lines|] == line;
    if StartsWith(line, DATA) { assert line[..5][0] == line[0] == 100; }
    if StartsWith(line, EVENT) { assert line[..6][0] == line[0] == 101; }
  }

  // -- Framing --------------------------------------------------------------

  datatype Framed = Framed(frames: seq<Text>, rest: Text)

  /** Cut at every "\n\n", leftmost first. */
  function CutFrames(s: Text): Framed
    decreases |s|
  {
    var i := FirstBlank(s);
    if i < 0 then Framed([], s)
    else
      var more := CutFrames(s[i + 2..]);
      Framed([s[..i]] + more.frames, more.rest)
  }

  function EventsOf<V>(frames: seq<Text>, parse: Text -> Option<V>): seq<Event<V>> {
    if frames == [] then [] else FrameEvent(frames[0], parse) + EventsOf(frames[1..], parse)
  }

  lemma {:induction false} EventsOfConcat<V>(a: seq<Text>, b: seq<Text>, parse: Text -> Option<V>)
    ensures EventsOf(a + b, parse) == EventsOf(a, parse) + EventsOf(b, parse)
  {
    if a == [] {
      assert a + b == b;
    } else {
      assert (a + b)[1..] == a[1..] + b;
      EventsOfConcat(a[1..], b, parse);
    }
  }

  /** With the events in `before`, cutting `all` delivers what `out` holds and cutting
      `buffer` still adds to it. */
  ghost predicate Cutting<V>(before: seq<Event<V>>, all: Text, out: seq<Event<V>>, buffer: Text, parse: Text -> Option<V>) {
    && CutFrames(all).rest == CutFrames(buffer).rest
    && before + EventsOf(CutFrames(all).frames, parse) == out + EventsOf(CutFrames(buffer).frames, parse)
  }

  lemma CutOne<V>(before: seq<Event<V>>, all: Text, out: seq<Event<V>>, buffer: Text, parse: Text -> Option<V>)
    requires FirstBlank(buffer) >= 0 && Cutting(before, all, out, buffer, parse)
    ensures var i := FirstBlank(buffer);
            Cutting(before, all, out + FrameEvent(buffer[..i], parse), buffer[i + 2..], parse)
  {
    var i := FirstBlank(buffer);
    FirstFrame(buffer, parse);
    Associative(out, FrameEvent(buffer[..i], parse), EventsOf(CutFrames(buffer[i + 2..]).frames, parse));
  }

  lemma FirstFrame<V>(buffer: Text, parse: Text -> Option<V>)
    requires FirstBlank(buffer) >= 0
    ensures var i := FirstBlank(buffer);
            && CutFrames(buffer).rest == CutFrames(buffer[i + 2..]).rest
            && EventsOf(CutFrames(buffer).frames, parse)
               == FrameEvent(buffer[..i], parse) + EventsOf(CutFrames(buffer[i + 2..]).frames, parse)
  {
    var i := FirstBlank(buffer);
    var more := CutFrames(buffer[i + 2..]).frames;
    assert CutFrames(buffer).frames == [buffer[..i]] + more;
    assert ([buffer[..i]] + more)[1..] == more;
  }

  lemma CutNone<V>(before: seq<Event<V>>, all: Text, out: seq<Event<V>>, buffer: Text, parse: Text -> Option<V>)
    requires FirstBlank(buffer) < 0 && Cutting(before, all, out, buffer, parse)
    ensures CutFrames(all).rest == buffer && before + EventsOf(CutFrames(all).frames, parse) == out
  {
    assert out + [] == out;
  }

  /** The client's state: undecoded bytes, uncut text and the events delivered. */
  datatype Client<V> = Client(pending: seq<Byte>, buffer: Text, delivered: seq<Event<V>>)

  /** The state after one more chunk. */
  function Feed<V>(c: Client<V>, chunk: seq<Byte>, parse: Text -> Option<V>): Client<V> {
    var bytes := Parse(c.pending + chunk);
    var cut := CutFrames(c.buffer + NormalizeCrlf(Output(bytes.complete)));
    Client(bytes.pending, cut.rest, c.delivered + EventsOf(cut.frames, parse))
  }

  /** The state once the connection is complete: a last frame may lack its blank line. */
  function Flushed<V>(c: Client<V>, parse: Text -> Option<V>): Client<V> {
    if Trim(c.buffer) == [] then c else Client(c.pending, [], c.delivered + FrameEvent(c.buffer, parse))
  }

  /** The client: bytes and text carried between chunks, and the onEvent calls made. */
  class StreamClient<V> {
    const parse: Text -> Option<V>
    const decoder: Decoder
    var buffer: Text
    var delivered: seq<Event<V>>

    constructor (parse: Text -> Option<V>)
      ensures Snapshot() == Fresh() && fresh(decoder) && this.parse == parse
    {
      this.parse := parse;
      decoder := new Decoder();
      buffer, delivered := [], [];
    }

    ghost function Snapshot(): Client<V>
      reads this, decoder
    {
      Client(decoder.pendingBytes, buffer, delivered)
    }

    method HandleFrame(frame: Text)
      modifies this`delivered
      ensures delivered == old(delivered) + FrameEvent(frame, parse)
      ensures var name, data := NameOf(SplitLines(frame)), DataOf(SplitLines(frame));
              if name == [] || data == [] || parse(JoinLines(data)).None? then delivered == old(delivered)
              else delivered == old(delivered) + [Event(name, parse(JoinLines(data)).value)]
    {
      var name: Text := [];
      var dataLines: seq<Text> := [];
      var lines := SplitLines(frame);
      for i := 0 to |lines|
        invariant name == NameOf(lines[..i]) && dataLines == DataOf(lines[..i])
        invariant delivered == old(delivered)
      {
        assert lines[..i + 1][..i] == lines[..i];
        if StartsWith(lines[i], EVENT) {
          name := Trim(lines[i][6..]);
        } else if StartsWith(lines[i], DATA) {
          dataLines := dataLines + [TrimStart(lines[i][5..])];
        }
      }
      assert lines[..|lines|] == lines;
      if name == [] || dataLines == [] { return; }
      var v := parse(JoinLines(dataLines));
      if v.Some? {
        delivered := delivered + [Event(name, v.value)];
      }
    }

    method ParseChunk(text: Text)
      modifies this
      ensures buffer == CutFrames(old(buffer) + NormalizeCrlf(text)).rest
      ensures delivered == old(delivered) + EventsOf(CutFrames(old(buffer) + NormalizeCrlf(text)).frames, parse)
    {
      buffer := buffer + NormalizeCrlf(text);
      ghost var all, before := buffer, delivered;
      var idx := FirstBlank(buffer);
      while idx >= 0
        invariant idx == FirstBlank(buffer) && Cutting(before, all, delivered, buffer, parse)
        decreases |buffer|
      {
        CutOne(before, all, delivered, buffer, parse);
        var frame := buffer[..idx];
        buffer := buffer[idx + 2..];
        HandleFrame(frame);
        idx := FirstBlank(buffer);
      }
      CutNone(before, all, delivered, buffer, parse);
    }

    /** onChunkReceived */
    method OnChunk(chunk: seq<Byte>)
      modifies this, decoder
      ensures Snapshot() == Feed(old(Snapshot()), chunk, parse)
      ensures decoder.pendingBytes == Parse(old(decoder.pendingBytes) + chunk).pending
    {
      var text := decoder.DecodeAppend(chunk);
      ParseChunk(text);
    }

    /** A last frame may lack its blank line. */
    method FlushResidual()
      modifies this
      ensures Snapshot() == Flushed(old(Snapshot()), parse)
      ensures Trim(old(buffer)) == [] ==> buffer == old(buffer) && delivered == old(delivered)
      ensures Trim(old(buffer)) != [] ==> buffer == [] && delivered == old(delivered) + FrameEvent(old(buffer), parse)
    {
      if Trim(buffer) != [] {
        HandleFrame(buffer);
        buffer := [];
      }
    }
  }

  // -- The client as a fold over chunks -------------------------------------

  function FeedAll<V>(c: Client<V>, chunks: seq<seq<Byte>>, parse: Text -> Option<V>): Client<V>
    decreases |chunks|
  {
    if chunks == [] then c else FeedAll(Feed(c, chunks[0], parse), chunks[1..], parse)
  }

  // -- Chunk invariance of framing ------------------------------------------

  predicate NoUnit(s: Text, u: int) {
    forall i :: 0 <= i < |s| ==> s[i] != u
  }

  lemma {:induction false} NormalizeIsIdentity(s: Text)
    requires NoUnit(s, CR)
    ensures NormalizeCrlf(s) == s
  {
    if s != [] { NormalizeIsIdentity(s[1..]); }
  }

  /** The leftmost blank line of a text stays leftmost when more text arrives. */
  lemma FirstBlankStays(x: Text, y: Text)
    requires FirstBlank(x) >= 0
    ensures FirstBlank(x + y) == FirstBlank(x)
  {
    var i, j := FirstBlank(x), FirstBlank(x + y);
    assert BlankAt(x + y, i);
    assert j < i ==> BlankAt(x, j);
  }

  lemma CutFirst(x: Text, y: Text)
    requires FirstBlank(x) >= 0
    ensures var i := FirstBlank(x);
            var more := CutFrames(x[i + 2..] + y);
            CutFrames(x + y) == Framed([x[..i]] + more.frames, more.rest)
  {
    var i := FirstBlank(x);
    FirstBlankStays(x, y);
    assert (x + y)[..i] == x[..i] && (x + y)[i + 2..] == x[i + 2..] + y;
  }

  lemma {:induction false} FramingIsChunkInvariant(x: Text, y: Text)
    ensures var first := CutFrames(x);
            var second := CutFrames(first.rest + y);
            CutFrames(x + y) == Framed(first.frames + second.frames, second.rest)
    decreases |x|
  {
    var i := FirstBlank(x);
    if i >= 0 {
      CutFirst(x, y);
      FramingIsChunkInvariant(x[i + 2..], y);
      var inner := CutFrames(x[i + 2..]);
      Associative([x[..i]], inner.frames, CutFrames(inner.rest + y).frames);
    }
  }

  /** Bytes that decode to a text without carriage returns: all that Emit writes. */
  predicate CrFree(bytes: seq<Byte>) {
    NoUnit(Output(Parse(bytes).complete), CR)
  }

  /** The state reached by receiving all bytes as one chunk. */
  function Whole<V>(bytes: seq<Byte>, parse: Text -> Option<V>): Client<V> {
    var p := Parse(bytes);
    var cut := CutFrames(Output(p.complete));
    Client(p.pending, cut.rest, EventsOf(cut.frames, parse))
  }

  lemma NoUnitInParts(x: Text, y: Text, u: int)
    requires NoUnit(x + y, u)
    ensures NoUnit(x, u) && NoUnit(y, u)
  {
    forall i | 0 <= i < |x| ensures x[i] != u { assert (x + y)[i] == x[i]; }
    forall i | 0 <= i < |y| ensures y[i] != u { assert (x + y)[|x| + i] == y[i]; }
  }

  /** Deliveries and rest of a text received in two parts. */
  lemma TextInTwoParts<V>(x: Text, y: Text, parse: Text -> Option<V>)
    ensures var first := CutFrames(x);
            var second := CutFrames(first.rest + y);
            && CutFrames(x + y).rest == second.rest
            && EventsOf(CutFrames(x + y).frames, parse) == EventsOf(first.frames, parse) + EventsOf(second.frames, parse)
  {
    FramingIsChunkInvariant(x, y);
    EventsOfConcat(CutFrames(x).frames, CutFrames(CutFrames(x).rest + y).frames, parse);
  }

  lemma FeedExtendsWhole<V>(sofar: seq<Byte>, chunk: seq<Byte>, parse: Text -> Option<V>)
    requires CrFree(sofar + chunk)
    ensures Feed(Whole(sofar, parse), chunk, parse) == Whole(sofar + chunk, parse)
  {
    DecodingIsChunkInvariant(sofar, chunk);
    var x, y := Output(Parse(sofar).complete), Output(Parse(Parse(sofar).pending + chunk).complete);
    NoUnitInParts(x, y, CR);
    NormalizeIsIdentity(y);
    TextInTwoParts(x, y, parse);
  }

  lemma PrefixIsCrFree(a: seq<Byte>, b: seq<Byte>)
    requires CrFree(a + b)
    ensures CrFree(a)
  {
    DecodingIsChunkInvariant(a, b);
    NoUnitInParts(Output(Parse(a).complete), Output(Parse(Parse(a).pending + b).complete), CR);
  }

  lemma {:induction false} FeedAllExtendsWhole<V>(sofar: seq<Byte>, chunks: seq<seq<Byte>>, parse: Text -> Option<V>)
    requires CrFree(sofar + Flatten(chunks))
    ensures FeedAll(Whole(sofar, parse), chunks, parse) == Whole(sofar + Flatten(chunks), parse)
    decreases |chunks|
  {
    if chunks == [] {
      assert sofar + Flatten(chunks) == sofar;
    } else {
      assert sofar + Flatten(chunks) == sofar + chunks[0] + Flatten(chunks[1..]);
      PrefixIsCrFree(sofar + chunks[0], Flatten(chunks[1..]));
      FeedExtendsWhole(sofar, chunks[0], parse);
      FeedAllExtendsWhole(sofar + chunks[0], chunks[1..], parse);
    }
  }

  function Fresh<V>(): Client<V> {
    Client([], [], [])
  }

  /** However the bytes are cut, inside a character or between two newlines, the
      client ends in the same state with the same deliveries. */
  lemma ClientIsChunkInvariant<V>(chunks: seq<seq<Byte>>, parse: Text -> Option<V>)
    requires CrFree(Flatten(chunks))
    ensures FeedAll(Fresh<V>(), chunks, parse) == Whole(Flatten(chunks), parse)
  {
    assert [] + Flatten(chunks) == Flatten(chunks);
    assert Whole([], parse) == Fresh<V>();
    FeedAllExtendsWhole([], chunks, parse);
  }

  // -- Printing and parsing one event ---------------------------------------

  /** What the server emits: a name without line breaks or surrounding space, and
      JSON text, which json.Marshal writes without raw line breaks. */
  predicate Printable(name: seq<Scalar>, json: seq<Scalar>) {
    && name != [] && LF !in name && CR !in name && !IsSpace(name[0]) && !IsSpace(name[|name| - 1])
    && json != [] && LF !in json && CR !in json && !IsSpace(json[0])
  }

  lemma {:induction false} Utf16Keeps(text: seq<Scalar>, u: int)
    requires u !in text && u < 0xD800
    ensures NoUnit(Utf16All(text), u)
  {
    if text != [] {
      Utf16Keeps(text[1..], u);
      var first, rest := Utf16(text[0]), Utf16All(text[1..]);
      assert NoUnit(first, u);
      forall i | 0 <= i < |first + rest| ensures (first + rest)[i] != u {
        if i >= |first| { assert (first + rest)[i] == rest[i - |first|]; }
      }
    }
  }

  /** The first and last unit of a text are spaces only if its first and last
      characters are. */
  lemma {:induction false} Utf16Ends(text: seq<Scalar>)
    requires text != []
    ensures var us := Utf16All(text);
            us != [] && (IsSpace(us[0]) ==> IsSpace(text[0])) && (IsSpace(us[|us| - 1]) ==> IsSpace(text[|text| - 1]))
  {
    var first, rest := Utf16(text[0]), Utf16All(text[1..]);
    if |text| == 1 {
      assert rest == [];
    } else {
      Utf16Ends(text[1..]);
      assert (first + rest)[|first| + |rest| - 1] == rest[|rest| - 1];
    }
  }

  lemma {:induction false} Ascii(text: seq<Scalar>)
    requires forall i :: 0 <= i < |text| ==> text[i] < 0x80
    ensures Utf16All(text) == text
  {
    if text != [] { Ascii(text[1..]); }
  }

  /** The frame without its closing blank line, as the client sees it. */
  function FrameText(name: Text, json: Text): Text {
    OPENING + (name + (MIDDLE + json))
  }

  lemma FrameDecodes(name: seq<Scalar>, json: seq<Scalar>)
    ensures Utf16All(Frame(name, json)) == FrameText(Utf16All(name), Utf16All(json)) + CLOSING
  {
    FixedPartsDecode();
    Utf16OfFive(OPENING, name, MIDDLE, json, CLOSING);
    FrameReassociates(Utf16All(name), Utf16All(json));
  }

  predicate AllAscii(text: seq<int>) {
    forall i :: 0 <= i < |text| ==> 0 <= text[i] < 0x80
  }

  lemma FixedPartsDecode()
    ensures Utf16All(OPENING) == OPENING && Utf16All(MIDDLE) == MIDDLE && Utf16All(CLOSING) == CLOSING
  {
    FixedParts();
    AsciiText(OPENING);
    AsciiText(MIDDLE);
    AsciiText(CLOSING);
  }

  lemma FixedParts()
    ensures AllAscii(OPENING) && AllAscii(MIDDLE) && AllAscii(CLOSING)
  {
  }

  lemma AsciiText(text: seq<Scalar>)
    requires AllAscii(text)
    ensures Utf16All(text) == text
  {
    Ascii(text);
  }

  lemma Utf16OfFive(a: seq<Scalar>, b: seq<Scalar>, c: seq<Scalar>, d: seq<Scalar>, e: seq<Scalar>)
    ensures Utf16All(a + (b + (c + (d + e)))) == Utf16All(a) + (Utf16All(b) + (Utf16All(c) + (Utf16All(d) + Utf16All(e))))
  {
    Utf16AllConcat(a, b + (c + (d + e)));
    Utf16AllConcat(b, c + (d + e));
    Utf16AllConcat(c, d + e);
    Utf16AllConcat(d, e);
  }

  lemma FrameReassociates(name: Text, json: Text)
    ensures OPENING + (name + (MIDDLE + (json + CLOSING))) == FrameText(name, json) + CLOSING
  {
  }

  lemma {:induction false} SplitSingle(s: Text)
    requires NoUnit(s, LF)
    ensures SplitLines(s) == [s]
  {
    if s != [] {
      SplitSingle(s[1..]);
      assert [s[0]] + s[1..] == s;
    }
  }

  lemma {:induction false} SplitAtFirst(a: Text, b: Text)
    requires NoUnit(a, LF)
    ensures SplitLines(a + [LF] + b) == [a] + SplitLines(b)
  {
    var s := a + [LF] + b;
    if a == [] {
      assert s[1..] == b;
    } else {
      assert s[1..] == a[1..] + [LF] + b;
      SplitAtFirst(a[1..], b);
      assert [a[0]] + a[1..] == a;
      assert ([a[1..]] + SplitLines(b))[1..] == SplitLines(b);
    }
  }

  lemma TrimKeeps(s: Text)
    requires s == [] || !IsSpace(s[0])
    ensures TrimStart([SPACE] + s) == s
    ensures s != [] && !IsSpace(s[|s| - 1]) ==> Trim([SPACE] + s) == s
  {
    assert ([SPACE] + s)[1..] == s;
  }

  lemma FrameLines(name: Text, json: Text)
    requires NoUnit(name, LF) && NoUnit(json, LF)
    ensures SplitLines(FrameText(name, json)) == [OPENING + name, DATA + [SPACE] + json]
  {
    var l1: Text, l2: Text := OPENING + name, DATA + [SPACE] + json;
    assert FrameText(name, json) == l1 + [LF] + l2;
    SplitAtFirst(l1, l2);
    SplitSingle(l2);
  }

  lemma StartsWithFirst(line: Text, prefix: seq<int>)
    requires prefix != []
    ensures StartsWith(line, prefix) ==> line[0] == prefix[0]
  {
    if StartsWith(line, prefix) { assert line[..|prefix|][0] == line[0]; }
  }

  lemma LinesMean(name: Text, json: Text)
    requires name != [] && !IsSpace(name[0]) && !IsSpace(name[|name| - 1]) && (json == [] || !IsSpace(json[0]))
    ensures NameOf([OPENING + name, DATA + [SPACE] + json]) == name
    ensures DataOf([OPENING + name, DATA + [SPACE] + json]) == [json]
  {
    var l1: Text, l2: Text := OPENING + name, DATA + [SPACE] + json;
    var lines := [l1, l2];
    assert lines[..1] == [l1] && [l1][..0] == [];
    assert l2[..5] == DATA && l2[5..] == [SPACE] + json && l2[0] == 100;
    TrimKeeps(json);
    StartsWithFirst(l2, EVENT);
    OpeningMeans(name);
  }

  lemma OpeningMeans(name: Text)
    requires name != [] && !IsSpace(name[0]) && !IsSpace(name[|name| - 1])
    ensures NameOf([OPENING + name]) == name && DataOf([OPENING + name]) == []
  {
    var line: Text := OPENING + name;
    assert [line][..0] == [];
    assert line[..6] == EVENT && line[6..] == [SPACE] + name;
    TrimKeeps(name);
  }

  /** A frame with this text as its data, complete or not, delivers it if it parses. */
  lemma FrameMeans<V>(name: Text, json: Text, parse: Text -> Option<V>)
    requires name != [] && NoUnit(name, LF) && !IsSpace(name[0]) && !IsSpace(name[|name| - 1])
    requires NoUnit(json, LF) && (json == [] || !IsSpace(json[0]))
    ensures FrameEvent(FrameText(name, json), parse) == if parse(json).None? then [] else [Event(name, parse(json).value)]
  {
    FrameLines(name, json);
    LinesMean(name, json);
  }

  /** A printed frame delivers exactly its own event. */
  lemma FrameDelivers<V>(name: Text, json: Text, parse: Text -> Option<V>)
    requires name != [] && NoUnit(name, LF) && !IsSpace(name[0]) && !IsSpace(name[|name| - 1])
    requires json != [] && NoUnit(json, LF) && !IsSpace(json[0])
    requires parse(json).Some?
    ensures FrameEvent(FrameText(name, json), parse) == [Event(name, parse(json).value)]
  {
    FrameMeans(name, json, parse);
  }

  // -- The whole stream -----------------------------------------------------

  datatype Sent = Sent(name: seq<Scalar>, json: seq<Scalar>)

  /** Everything the server has written after emitting these events. */
  function Stream(events: seq<Sent>): seq<Byte> {
    if events == [] then [] else EncodeAll(Frame(events[0].name, events[0].json)) + Stream(events[1..])
  }

  /** What the client should hand to onEvent. */
  function Expected<V>(events: seq<Sent>, parse: Text -> Option<V>): seq<Event<V>>
    requires forall e <- events :: parse(Utf16All(e.json)).Some?
  {
    if events == [] then []
    else [Event(Utf16All(events[0].name), parse(Utf16All(events[0].json)).value)] + Expected(events[1..], parse)
  }

  ghost predicate Sendable<V>(events: seq<Sent>, parse: Text -> Option<V>) {
    forall e <- events :: Printable(e.name, e.json) && parse(Utf16All(e.json)).Some?
  }

  /** The characters of the stream, and the text the client decodes from them. */
  function StreamChars(events: seq<Sent>): seq<Scalar> {
    if events == [] then [] else Frame(events[0].name, events[0].json) + StreamChars(events[1..])
  }

  function StreamText(events: seq<Sent>): Text {
    if events == [] then []
    else FrameText(Utf16All(events[0].name), Utf16All(events[0].json)) + CLOSING + StreamText(events[1..])
  }

  lemma {:induction false} StreamIsEncoded(events: seq<Sent>)
    ensures Stream(events) == EncodeAll(StreamChars(events))
  {
    if events != [] {
      EncodeAllConcat(Frame(events[0].name, events[0].json), StreamChars(events[1..]));
      StreamIsEncoded(events[1..]);
    }
  }

  lemma {:induction false} CharsAreText(events: seq<Sent>)
    ensures Utf16All(StreamChars(events)) == StreamText(events)
  {
    if events != [] {
      Utf16AllConcat(Frame(events[0].name, events[0].json), StreamChars(events[1..]));
      FrameDecodes(events[0].name, events[0].json);
      CharsAreText(events[1..]);
    }
  }

  lemma StreamDecodes(events: seq<Sent>)
    ensures Output(Parse(Stream(events)).complete) == StreamText(events) && Parse(Stream(events)).pending == []
  {
    StreamIsEncoded(events);
    DecodeValid(StreamChars(events));
    CharsAreText(events);
  }

  lemma {:induction false} CharsAreCrFree<V>(events: seq<Sent>, parse: Text -> Option<V>)
    requires Sendable(events, parse)
    ensures CR !in StreamChars(events)
  {
    if events != [] {
      assert Printable(events[0].name, events[0].json);
      assert CR !in Frame(events[0].name, events[0].json);
      CharsAreCrFree(events[1..], parse);
    }
  }

  /** No blank line begins inside a printed frame. */
  lemma FrameIsCutOff(name: Text, json: Text, rest: Text)
    requires NoUnit(name, LF) && NoUnit(json, LF) && json != []
    ensures FirstBlank(FrameText(name, json) + CLOSING + rest) == |FrameText(name, json)|
  {
    var f := FrameText(name, json);
    var s := f + CLOSING + rest;
    assert BlankAt(s, |f|);
    forall j | 0 <= j < |f| ensures !BlankAt(s, j) {
      assert s[j] == f[j];
      if j < 7 + |name| {
        assert s[j] == (OPENING + name)[j];
      } else if j > 7 + |name| {
        assert s[j] == (DATA + [SPACE] + json)[j - 8 - |name|];
      } else {
        assert s[j + 1] == (MIDDLE + json)[1];
      }
    }
  }

  lemma CutOneFrame(f: Text, rest: Text)
    requires FirstBlank(f + CLOSING + rest) == |f|
    ensures CutFrames(f + CLOSING + rest) == Framed([f] + CutFrames(rest).frames, CutFrames(rest).rest)
  {
    var s := f + CLOSING + rest;
    assert s[..|f|] == f && s[|f| + 2..] == rest;
  }

  /** The events of a printed stream, received in one piece. */
  lemma {:induction false} StreamDelivers<V>(events: seq<Sent>, parse: Text -> Option<V>)
    requires Sendable(events, parse)
    ensures CutFrames(StreamText(events)).rest == []
    ensures EventsOf(CutFrames(StreamText(events)).frames, parse) == Expected(events, parse)
  {
    if events != [] {
      var e := events[0];
      assert Printable(e.name, e.json);
      var name, json, rest := Utf16All(e.name), Utf16All(e.json), StreamText(events[1..]);
      PrintedPartsAreClean(e.name, e.json);
      FrameIsCutOff(name, json, rest);
      CutOneFrame(FrameText(name, json), rest);
      FrameDelivers(name, json, parse);
      StreamDelivers(events[1..], parse);
      assert ([FrameText(name, json)] + CutFrames(rest).frames)[1..] == CutFrames(rest).frames;
    }
  }

  lemma PrintedPartsAreClean(name: seq<Scalar>, json: seq<Scalar>)
    requires Printable(name, json)
    ensures var n, j := Utf16All(name), Utf16All(json);
            && n != [] && NoUnit(n, LF) && !IsSpace(n[0]) && !IsSpace(n[|n| - 1])
            && j != [] && NoUnit(j, LF) && !IsSpace(j[0])
  {
    Utf16Keeps(name, LF);
    Utf16Keeps(json, LF);
    Utf16Ends(name);
    Utf16Ends(json);
  }

  lemma StreamIsCrFree<V>(events: seq<Sent>, parse: Text -> Option<V>)
    requires Sendable(events, parse)
    ensures CrFree(Stream(events))
  {
    StreamDecodes(events);
    CharsAreText(events);
    CharsAreCrFree(events, parse);
    Utf16Keeps(StreamChars(events), CR);
  }

  /** For every list of events and every way of cutting the emitted bytes into
      chunks, the client delivers exactly those events in order and ends with an
      empty buffer and no pending bytes. */
  lemma EveryChunkingDelivers<V>(events: seq<Sent>, chunks: seq<seq<Byte>>, parse: Text -> Option<V>)
    requires Sendable(events, parse) && Flatten(chunks) == Stream(events)
    ensures FeedAll(Fresh<V>(), chunks, parse) == Client([], [], Expected(events, parse))
  {
    StreamIsCrFree(events, parse);
    ClientIsChunkInvariant(chunks, parse);
    StreamDecodes(events);
    StreamDelivers(events, parse);
  }
}
