/** The events the server emits (the emit calls of ai/handler.go and ai/agent.go): each
    carries a JSON object, rendered as encoding/json renders it (section 4 of RFC 8259).
    A connection that completes in the middle of one delivers nothing wrong. */
module JsonEvents {
  import opened Common
  import opened Utf8
  import opened Sse
  import opened SseCutOff

  // -- JSON values and their text -------------------------------------------

  const QUOTE: int := 34
  const BACKSLASH: int := 92
  const COMMA: int := 44
  const COLON: int := 58
  const OPEN_BRACE: int := 123
  const CLOSE_BRACE: int := 125
  const OPEN_BRACKET: int := 91
  const CLOSE_BRACKET: int := 93

  /** Digits, sign, point and exponent. */
  predicate IsNumeral(c: int) {
    48 <= c <= 57 || c == 43 || c == 45 || c == 46 || c == 69 || c == 101
  }

  type Numeral = s: seq<Scalar> | s != [] && forall i :: 0 <= i < |s| ==> IsNumeral(s[i]) witness [48]

  datatype Json =
    | Null
    | Bool(value: bool)
    | Number(numeral: Numeral)
    | String(text: seq<Scalar>)
    | Array(elements: seq<Json>)
    | Object(members: seq<Member>)

  datatype Member = Member(key: seq<Scalar>, value: Json)

  function HexDigit(d: int): Scalar
    requires 0 <= d < 16
  {
    if d < 10 then 48 + d else 87 + d
  }

  /** "\u" and four hexadecimal digits. */
  function UnicodeEscape(c: Scalar): seq<Scalar>
    requires c < 0x1_0000
  {
    [BACKSLASH, 117, HexDigit(c / 0x1000), HexDigit(c / 0x100 % 16), HexDigit(c / 16 % 16), HexDigit(c % 16)]
  }

  /** A character inside a string: quotes, control characters, the characters special to
      HTML and the two line separators are escaped. */
  function EscapeChar(c: Scalar): seq<Scalar> {
    if c == QUOTE || c == BACKSLASH then [BACKSLASH, c]
    else if c == 8 then [BACKSLASH, 98]
    else if c == 9 then [BACKSLASH, 116]
    else if c == LF then [BACKSLASH, 110]
    else if c == 12 then [BACKSLASH, 102]
    else if c == CR then [BACKSLASH, 114]
    else if c < 32 || c == 38 || c == 60 || c == 62 || c == 0x2028 || c == 0x2029 then UnicodeEscape(c)
    else [c]
  }

  function EscapeAll(text: seq<Scalar>): seq<Scalar> {
    if text == [] then [] else EscapeChar(text[0]) + EscapeAll(text[1..])
  }

  /** The value of a hexadecimal digit in lower case. */
  function HexValue(c: int): int {
    if 48 <= c <= 57 then c - 48 else c - 87
  }

  /** The characters that the inside of a JSON string stands for (section 7 of RFC 8259);
      surrogate escapes do not occur. */
  function Unescaped(inside: seq<Scalar>): seq<int> {
    if inside == [] then []
    else if inside[0] != BACKSLASH || |inside| < 2 then [inside[0]] + Unescaped(inside[1..])
    else if inside[1] == 117 && |inside| >= 6 then
      [HexValue(inside[2]) * 0x1000 + HexValue(inside[3]) * 0x100 + HexValue(inside[4]) * 16 + HexValue(inside[5])] + Unescaped(inside[6..])
    else
      [if inside[1] == 98 then 8 else if inside[1] == 116 then 9 else if inside[1] == 110 then 10
       else if inside[1] == 102 then 12 else if inside[1] == 114 then 13 else inside[1]] + Unescaped(inside[2..])
  }

  lemma HexDigits(c: Scalar)
    requires c < 0x1_0000
    ensures HexValue(HexDigit(c / 0x1000)) * 0x1000 + HexValue(HexDigit(c / 0x100 % 16)) * 0x100
            + HexValue(HexDigit(c / 16 % 16)) * 16 + HexValue(HexDigit(c % 16)) == c
  {
    HexDigitValue(c / 0x1000);
    HexDigitValue(c / 0x100 % 16);
    HexDigitValue(c / 16 % 16);
    HexDigitValue(c % 16);
    Nibbles(c);
  }

  lemma HexDigitValue(d: int)
    requires 0 <= d < 16
    ensures HexValue(HexDigit(d)) == d
  {
  }

  lemma Nibbles(c: nat)
    ensures c == c / 16 * 16 + c % 16
    ensures c / 16 == c / 0x100 * 16 + c / 16 % 16
    ensures c / 0x100 == c / 0x1000 * 16 + c / 0x100 % 16
  {
  }

  lemma UnescapeFirst(c: Scalar, rest: seq<Scalar>)
    ensures Unescaped(EscapeChar(c) + rest) == [c] + Unescaped(rest)
  {
    var e := EscapeChar(c);
    assert (e + rest)[|e|..] == rest;
    if |e| == 6 {
      HexDigits(c);
      assert (e + rest)[6..] == rest;
    } else if |e| == 2 {
      assert (e + rest)[2..] == rest;
    } else {
      assert (e + rest)[1..] == rest;
    }
  }

  /** What is escaped is read back as it was. */
  lemma {:induction false} EscapingReadsBack(text: seq<Scalar>)
    ensures Unescaped(EscapeAll(text)) == text
  {
    if text != [] {
      UnescapeFirst(text[0], EscapeAll(text[1..]));
      EscapingReadsBack(text[1..]);
    }
  }

  function RenderString(text: seq<Scalar>): seq<Scalar> {
    [QUOTE] + EscapeAll(text) + [QUOTE]
  }

  function Render(j: Json): seq<Scalar>
    decreases j, 1
  {
    match j
    case Null => [110, 117, 108, 108]
    case Bool(value) => if value then [116, 114, 117, 101] else [102, 97, 108, 115, 101]
    case Number(numeral) => numeral
    case String(text) => RenderString(text)
    case Array(elements) => [OPEN_BRACKET] + RenderElements(j, 0) + [CLOSE_BRACKET]
    case Object(members) => [OPEN_BRACE] + RenderMembers(j, 0) + [CLOSE_BRACE]
  }

  /** The elements from k on, separated by commas. */
  function RenderElements(j: Json, k: nat): seq<Scalar>
    requires j.Array? && k <= |j.elements|
    decreases j, 0, |j.elements| - k
  {
    if k == |j.elements| then []
    else Separator(k) + Render(j.elements[k]) + RenderElements(j, k + 1)
  }

  function RenderMembers(j: Json, k: nat): seq<Scalar>
    requires j.Object? && k <= |j.members|
    decreases j, 0, |j.members| - k
  {
    if k == |j.members| then []
    else Separator(k) + RenderMember(j, k) + RenderMembers(j, k + 1)
  }

  function RenderMember(j: Json, k: nat): seq<Scalar>
    requires j.Object? && k < |j.members|
    decreases j, 0, 0
  {
    RenderString(j.members[k].key) + [COLON] + Render(j.members[k].value)
  }

  function Separator(k: nat): seq<Scalar> {
    if k == 0 then [] else [COMMA]
  }

  /** Parts separated by commas. */
  function CommaJoin(parts: seq<seq<Scalar>>): seq<Scalar> {
    if parts == [] then [] else if |parts| == 1 then parts[0] else parts[0] + [44] + CommaJoin(parts[1..])
  }

  function ElementTexts(elements: seq<Json>): seq<seq<Scalar>> {
    seq(|elements|, i requires 0 <= i < |elements| => Render(elements[i]))
  }

  /** A member is its quoted key, a colon and its value. */
  function MemberTexts(members: seq<Member>): seq<seq<Scalar>> {
    seq(|members|, i requires 0 <= i < |members| => [34] + EscapeAll(members[i].key) + [34] + [58] + Render(members[i].value))
  }

  lemma {:induction false} ElementsAreJoined(j: Json, k: nat)
    requires j.Array? && k <= |j.elements|
    ensures RenderElements(j, k)
         == (if 0 < k < |j.elements| then [44] else []) + CommaJoin(ElementTexts(j.elements)[k..])
    decreases |j.elements| - k
  {
    if k < |j.elements| {
      ElementsAreJoined(j, k + 1);
      JoinStep(ElementTexts(j.elements), k);
      Associative(Separator(k), Render(j.elements[k]), RenderElements(j, k + 1));
    }
  }

  lemma {:induction false} MembersAreJoined(j: Json, k: nat)
    requires j.Object? && k <= |j.members|
    ensures RenderMembers(j, k)
         == (if 0 < k < |j.members| then [44] else []) + CommaJoin(MemberTexts(j.members)[k..])
    decreases |j.members| - k
  {
    if k < |j.members| {
      MembersAreJoined(j, k + 1);
      JoinStep(MemberTexts(j.members), k);
      Associative(Separator(k), RenderMember(j, k), RenderMembers(j, k + 1));
    }
  }

  lemma JoinStep(parts: seq<seq<Scalar>>, k: nat)
    requires k < |parts|
    ensures CommaJoin(parts[k..])
         == parts[k] + ((if k + 1 < |parts| then [44] else []) + CommaJoin(parts[k + 1..]))
  {
    assert parts[k..][1..] == parts[k + 1..];
  }

  /** Arrays and objects hold all their parts, in order, separated by commas. */
  lemma ArrayInOrder(elements: seq<Json>)
    ensures Render(Array(elements)) == [91] + CommaJoin(ElementTexts(elements)) + [93]
  {
    ElementsAreJoined(Array(elements), 0);
    assert ElementTexts(elements)[0..] == ElementTexts(elements);
    assert [] + CommaJoin(ElementTexts(elements)) == CommaJoin(ElementTexts(elements));
  }

  lemma ObjectInOrder(members: seq<Member>)
    ensures Render(Object(members)) == [123] + CommaJoin(MemberTexts(members)) + [125]
  {
    MembersAreJoined(Object(members), 0);
    assert MemberTexts(members)[0..] == MemberTexts(members);
    assert [] + CommaJoin(MemberTexts(members)) == CommaJoin(MemberTexts(members));
  }

  // -- Scanning for the depth of nesting ------------------------------------

  /** Where a scanner is: outside strings, in one, or behind a backslash in one. */
  datatype Mode = Outside | InString | Escaped

  function Next(m: Mode, u: int): Mode {
    match m
    case Outside => if u == QUOTE then InString else Outside
    case InString => if u == QUOTE then Outside else if u == BACKSLASH then Escaped else InString
    case Escaped => InString
  }

  function ModeAfter(m: Mode, text: seq<int>): Mode {
    if text == [] then m else Next(ModeAfter(m, text[..|text| - 1]), text[|text| - 1])
  }

  /** Braces and brackets count outside strings. */
  function Change(m: Mode, u: int): int {
    if !m.Outside? then 0
    else if u == OPEN_BRACE || u == OPEN_BRACKET then 1
    else if u == CLOSE_BRACE || u == CLOSE_BRACKET then -1
    else 0
  }

  /** Braces and brackets opened and not closed. */
  function Depth(m: Mode, text: seq<int>): int {
    if text == [] then 0
    else
      var init := text[..|text| - 1];
      Depth(m, init) + Change(ModeAfter(m, init), text[|text| - 1])
  }

  lemma {:induction false} ScanConcat(m: Mode, a: seq<int>, b: seq<int>)
    ensures ModeAfter(m, a + b) == ModeAfter(ModeAfter(m, a), b)
    ensures Depth(m, a + b) == Depth(m, a) + Depth(ModeAfter(m, a), b)
  {
    if b == [] {
      assert a + b == a;
    } else {
      ScanConcat(m, a, b[..|b| - 1]);
      assert (a + b)[..|a + b| - 1] == a + b[..|b| - 1];
    }
  }

  predicate OneLine(text: seq<int>) {
    forall i :: 0 <= i < |text| ==> text[i] != LF && text[i] != CR
  }

  /** Text that closes what it opens and closes nothing else. */
  ghost predicate Balanced(text: seq<int>) {
    && OneLine(text) && ModeAfter(Outside, text) == Outside && Depth(Outside, text) == 0
    && forall k :: 0 <= k <= |text| ==> Depth(Outside, text[..k]) >= 0
  }

  /** Balanced text whose first character opens what only its last one closes. */
  ghost predicate Enclosed(text: seq<int>) {
    && Balanced(text) && text != []
    && forall k :: 0 < k < |text| ==> Depth(Outside, text[..k]) >= 1
  }

  lemma PrefixOfConcat<T>(a: seq<T>, b: seq<T>, k: nat)
    requires k <= |a| + |b|
    ensures (a + b)[..k] == if k <= |a| then a[..k] else a + b[..k - |a|]
  {
  }

  lemma BalancedConcat(a: seq<int>, b: seq<int>)
    requires Balanced(a) && Balanced(b)
    ensures Balanced(a + b)
  {
    ScanConcat(Outside, a, b);
    forall k | 0 <= k <= |a + b| ensures Depth(Outside, (a + b)[..k]) >= 0 {
      PrefixOfConcat(a, b, k);
      if k > |a| { ScanConcat(Outside, a, b[..k - |a|]); }
    }
  }

  lemma OneUnit(m: Mode, u: int)
    ensures ModeAfter(m, [u]) == Next(m, u) && Depth(m, [u]) == Change(m, u)
  {
    assert [u][..0] == [];
  }

  lemma Enclose(open: int, inner: seq<int>, close: int)
    requires (open == OPEN_BRACE && close == CLOSE_BRACE) || (open == OPEN_BRACKET && close == CLOSE_BRACKET)
    requires Balanced(inner)
    ensures Enclosed([open] + inner + [close])
  {
    var all := [open] + inner + [close];
    OneUnit(Outside, open);
    OneUnit(Outside, close);
    ScanConcat(Outside, [open], inner);
    ScanConcat(Outside, [open] + inner, [close]);
    forall k | 0 < k < |all| ensures Depth(Outside, all[..k]) >= 1 {
      assert all[..k] == [open] + inner[..k - 1];
      ScanConcat(Outside, [open], inner[..k - 1]);
    }
    assert all[..0] == [] && all[..|all|] == all;
  }

  // -- Plain text and strings -----------------------------------------------

  predicate Neutral(u: int) {
    u != QUOTE && Change(Outside, u) == 0 && u != LF && u != CR
  }

  lemma {:induction false} NeutralScan(text: seq<int>)
    requires forall i :: 0 <= i < |text| ==> Neutral(text[i])
    ensures ModeAfter(Outside, text) == Outside && Depth(Outside, text) == 0
  {
    if text != [] { NeutralScan(text[..|text| - 1]); }
  }

  lemma NeutralIsBalanced(text: seq<int>)
    requires forall i :: 0 <= i < |text| ==> Neutral(text[i])
    ensures Balanced(text)
  {
    NeutralScan(text);
    forall k | 0 <= k <= |text| ensures Depth(Outside, text[..k]) >= 0 {
      NeutralScan(text[..k]);
    }
  }

  /** Text that a scanner inside a string passes without leaving the string. */
  ghost predicate Quiet(text: seq<int>) {
    && OneLine(text) && ModeAfter(InString, text) == InString
    && forall k :: 0 <= k <= |text| ==> !ModeAfter(InString, text[..k]).Outside?
  }

  lemma QuietConcat(a: seq<int>, b: seq<int>)
    requires Quiet(a) && Quiet(b)
    ensures Quiet(a + b)
  {
    ScanConcat(InString, a, b);
    forall k | 0 <= k <= |a + b| ensures !ModeAfter(InString, (a + b)[..k]).Outside? {
      PrefixOfConcat(a, b, k);
      if k > |a| { ScanConcat(InString, a, b[..k - |a|]); }
    }
  }

  /** Inside a string nothing counts. */
  lemma {:induction false} QuietDepth(text: seq<int>)
    requires forall k :: 0 <= k <= |text| ==> !ModeAfter(InString, text[..k]).Outside?
    ensures Depth(InString, text) == 0
  {
    if text != [] {
      var init := text[..|text| - 1];
      forall k | 0 <= k <= |init| ensures !ModeAfter(InString, init[..k]).Outside? {
        assert init[..k] == text[..k];
      }
      QuietDepth(init);
    }
  }

  lemma QuietUnit(u: int)
    requires u != QUOTE && u != BACKSLASH && u != LF && u != CR
    ensures Quiet([u])
  {
    OneUnit(InString, u);
    assert [u][..0] == [] && [u][..1] == [u];
  }

  lemma QuietPair(u: int)
    requires u != LF && u != CR
    ensures Quiet([BACKSLASH, u])
  {
    var pair := [BACKSLASH, u];
    OneUnit(InString, BACKSLASH);
    assert pair[..0] == [] && pair[..1] == [BACKSLASH] && pair[..2] == pair;
  }

  lemma {:induction false} QuietUnits(text: seq<int>)
    requires forall i :: 0 <= i < |text| ==> text[i] != QUOTE && text[i] != BACKSLASH && text[i] != LF && text[i] != CR
    ensures Quiet(text)
  {
    if text == [] {
      assert text[..0] == [];
    } else {
      QuietUnit(text[0]);
      QuietUnits(text[1..]);
      QuietConcat([text[0]], text[1..]);
      assert [text[0]] + text[1..] == text;
    }
  }

  lemma EscapeIsQuiet(c: Scalar)
    ensures Quiet(EscapeChar(c))
  {
    var e := EscapeChar(c);
    if |e| == 1 {
      QuietUnit(c);
    } else if |e| == 2 {
      QuietPair(e[1]);
    } else {
      QuietPair(117);
      QuietUnits(e[2..]);
      QuietConcat([BACKSLASH, 117], e[2..]);
      assert [BACKSLASH, 117] + e[2..] == e;
    }
  }

  lemma {:induction false} EscapedIsQuiet(text: seq<Scalar>)
    ensures Quiet(EscapeAll(text))
  {
    if text == [] {
      QuietUnits([]);
    } else {
      EscapeIsQuiet(text[0]);
      EscapedIsQuiet(text[1..]);
      QuietConcat(EscapeChar(text[0]), EscapeAll(text[1..]));
    }
  }

  lemma QuietPrefix(text: seq<int>, k: nat)
    requires Quiet(text) && k <= |text|
    ensures Depth(InString, text[..k]) == 0
  {
    forall i | 0 <= i <= k ensures !ModeAfter(InString, text[..k][..i]).Outside? {
      assert text[..k][..i] == text[..i];
    }
    QuietDepth(text[..k]);
  }

  lemma StringIsBalanced(text: seq<Scalar>)
    ensures Balanced(RenderString(text))
  {
    var inner: seq<int> := EscapeAll(text);
    EscapedIsQuiet(text);
    QuotedIsBalanced(inner);
  }

  lemma QuotedIsBalanced(inner: seq<int>)
    requires Quiet(inner)
    ensures Balanced([QUOTE] + inner + [QUOTE])
  {
    var all := [QUOTE] + inner + [QUOTE];
    OneUnit(Outside, QUOTE);
    OneUnit(InString, QUOTE);
    ScanConcat(Outside, [QUOTE], inner);
    ScanConcat(Outside, [QUOTE] + inner, [QUOTE]);
    QuietPrefix(inner, |inner|);
    assert inner[..|inner|] == inner;
    forall k | 0 <= k <= |all| ensures Depth(Outside, all[..k]) >= 0 {
      if 0 < k < |all| {
        assert all[..k] == [QUOTE] + inner[..k - 1];
        ScanConcat(Outside, [QUOTE], inner[..k - 1]);
        QuietPrefix(inner, k - 1);
      } else {
        assert all[..k] == if k == 0 then [] else all;
      }
    }
  }

  // -- Rendered values ------------------------------------------------------

  lemma SeparatorIsBalanced(k: nat)
    ensures Balanced(Separator(k))
  {
    NeutralIsBalanced(Separator(k));
  }

  lemma {:induction false} RenderedIsBalanced(j: Json)
    ensures Balanced(Render(j))
    ensures j.Object? ==> Enclosed(Render(j)) && Render(j)[0] == OPEN_BRACE
    decreases j, 1
  {
    match j
    case Array(_) =>
      ElementsAreBalanced(j, 0);
      Enclose(OPEN_BRACKET, RenderElements(j, 0), CLOSE_BRACKET);
    case Object(_) =>
      MembersAreBalanced(j, 0);
      Enclose(OPEN_BRACE, RenderMembers(j, 0), CLOSE_BRACE);
    case String(text) => StringIsBalanced(text);
    case _ => NeutralIsBalanced(Render(j));
  }

  lemma BalancedThree(a: seq<int>, b: seq<int>, c: seq<int>)
    requires Balanced(a) && Balanced(b) && Balanced(c)
    ensures Balanced(a + b + c)
  {
    BalancedConcat(a, b);
    BalancedConcat(a + b, c);
  }

  lemma {:induction false} ElementsAreBalanced(j: Json, k: nat)
    requires j.Array? && k <= |j.elements|
    ensures Balanced(RenderElements(j, k))
    decreases j, 0, |j.elements| - k
  {
    if k == |j.elements| {
      NeutralIsBalanced([]);
    } else {
      SeparatorIsBalanced(k);
      RenderedIsBalanced(j.elements[k]);
      ElementsAreBalanced(j, k + 1);
      BalancedThree(Separator(k), Render(j.elements[k]), RenderElements(j, k + 1));
    }
  }

  lemma {:induction false} MemberIsBalanced(j: Json, k: nat)
    requires j.Object? && k < |j.members|
    ensures Balanced(RenderMember(j, k))
    decreases j, 0, 0
  {
    StringIsBalanced(j.members[k].key);
    NeutralIsBalanced([COLON]);
    RenderedIsBalanced(j.members[k].value);
    BalancedThree(RenderString(j.members[k].key), [COLON], Render(j.members[k].value));
  }

  lemma {:induction false} MembersAreBalanced(j: Json, k: nat)
    requires j.Object? && k <= |j.members|
    ensures Balanced(RenderMembers(j, k))
    decreases j, 0, |j.members| - k
  {
    if k == |j.members| {
      NeutralIsBalanced([]);
    } else {
      SeparatorIsBalanced(k);
      MemberIsBalanced(j, k);
      MembersAreBalanced(j, k + 1);
      BalancedThree(Separator(k), RenderMember(j, k), RenderMembers(j, k + 1));
    }
  }

  // -- What the client sees of it -------------------------------------------

  lemma Utf16Snoc(text: seq<Scalar>)
    requires text != []
    ensures Utf16All(text) == Utf16All(text[..|text| - 1]) + Utf16(text[|text| - 1])
  {
    var n := |text| - 1;
    assert text == text[..n] + [text[n]];
    Utf16AllConcat(text[..n], [text[n]]);
    assert [text[n]][1..] == [];
    assert Utf16All([text[n]]) == Utf16(text[n]) + Utf16All([]) == Utf16(text[n]);
  }

  lemma ScanUtf16One(m: Mode, c: Scalar)
    ensures ModeAfter(m, Utf16(c)) == Next(m, c) && Depth(m, Utf16(c)) == Change(m, c)
  {
    var us := Utf16(c);
    if c < 0x1_0000 {
      OneUnit(m, c);
    } else {
      OneUnit(m, us[0]);
      assert us[..1] == [us[0]];
    }
  }

  /** The UTF-16 form of a text scans like the text. */
  lemma {:induction false} ScanUtf16(m: Mode, text: seq<Scalar>)
    ensures ModeAfter(m, Utf16All(text)) == ModeAfter(m, text) && Depth(m, Utf16All(text)) == Depth(m, text)
  {
    if text != [] {
      var n := |text| - 1;
      Utf16Snoc(text);
      ScanUtf16(m, text[..n]);
      ScanConcat(m, Utf16All(text[..n]), Utf16(text[n]));
      ScanUtf16One(ModeAfter(m, text[..n]), text[n]);
    }
  }

  /** Text that begins an object and leaves something open. */
  predicate OpenObject(text: Text) {
    text != [] && text[0] == OPEN_BRACE && Depth(Outside, text) >= 1
  }

  /** What a JSON parser refuses: no text at all, and an object left open. */
  ghost predicate RefusesOpen<V>(parse: Text -> Option<V>) {
    parse([]).None? && forall text :: OpenObject(text) ==> parse(text).None?
  }

  /** Every non-empty proper beginning of a rendered object leaves it open; the whole
      does not. */
  lemma BeginningsAreOpen(members: seq<Member>, m: nat)
    requires 0 < m <= |Render(Object(members))|
    ensures OpenObject(Utf16All(Render(Object(members))[..m])) <==> m < |Render(Object(members))|
  {
    var text := Render(Object(members));
    RenderedIsBalanced(Object(members));
    ScanUtf16(Outside, text[..m]);
    assert text[..m][0] == OPEN_BRACE && Utf16(OPEN_BRACE) == [OPEN_BRACE];
    if m == |text| { assert text[..m] == text; }
  }

  /** Both demands on a parser can be met: it may refuse exactly these texts. */
  lemma SomeParserWillDo(emitted: seq<Emitted>) returns (parse: Text -> Option<Text>)
    ensures RefusesOpen(parse) && Reads(parse, emitted)
  {
    parse := (text: Text) => if text == [] || OpenObject(text) then None else Some(text);
    forall e | e in emitted ensures parse(Utf16All(Render(Object(e.members)))).Some? {
      var text := Render(Object(e.members));
      ObjectIsPrintable(e.members);
      BeginningsAreOpen(e.members, |text|);
      assert text[..|text|] == text;
      Utf16Ends(text);
    }
  }

  lemma ObjectsEndUnmistakably<V>(members: seq<Member>, parse: Text -> Option<V>)
    requires RefusesOpen(parse)
    ensures EndsUnmistakably(Render(Object(members)), parse)
  {
    var text := Render(Object(members));
    forall m | 0 <= m < |text| ensures parse(Utf16All(text[..m])).None? {
      if m > 0 { BeginningsAreOpen(members, m); } else { assert text[..0] == []; }
    }
  }

  // -- The events -----------------------------------------------------------

  datatype Kind = Done | Thinking | Delta | Tool | Proposal | Failed

  datatype Emitted = Emitted(kind: Kind, members: seq<Member>)

  /** "done", "thinking", "delta", "tool", "proposal" and "error" */
  function KindName(kind: Kind): seq<Scalar> {
    match kind
    case Done => [100, 111, 110, 101]
    case Thinking => [116, 104, 105, 110, 107, 105, 110, 103]
    case Delta => [100, 101, 108, 116, 97]
    case Tool => [116, 111, 111, 108]
    case Proposal => [112, 114, 111, 112, 111, 115, 97, 108]
    case Failed => [101, 114, 114, 111, 114]
  }

  lemma NamesOfKinds()
    ensures KindName(Done) == Codes("done") && KindName(Thinking) == Codes("thinking") && KindName(Delta) == Codes("delta")
    ensures KindName(Tool) == Codes("tool") && KindName(Proposal) == Codes("proposal") && KindName(Failed) == Codes("error")
  {
  }

  function SentFor(e: Emitted): Sent {
    Sent(KindName(e.kind), Render(Object(e.members)))
  }

  function AllSent(emitted: seq<Emitted>): seq<Sent> {
    seq(|emitted|, i requires 0 <= i < |emitted| => SentFor(emitted[i]))
  }

  /** A parser that reads the objects that were sent. */
  ghost predicate Reads<V>(parse: Text -> Option<V>, emitted: seq<Emitted>) {
    forall e <- emitted :: parse(Utf16All(Render(Object(e.members)))).Some?
  }

  lemma KindIsPrintable(kind: Kind)
    ensures var name := KindName(kind);
            name != [] && LF !in name && CR !in name && !IsSpace(name[0]) && !IsSpace(name[|name| - 1])
  {
    match kind case Done => case Thinking => case Delta => case Tool => case Proposal => case Failed =>
  }

  lemma ObjectIsPrintable(members: seq<Member>)
    ensures var json := Render(Object(members));
            json != [] && LF !in json && CR !in json && !IsSpace(json[0])
  {
    var json := Render(Object(members));
    RenderedIsBalanced(Object(members));
    assert OneLine(json);
  }

  lemma EmittedIsPrintable(e: Emitted)
    ensures Printable(SentFor(e).name, SentFor(e).json)
  {
    KindIsPrintable(e.kind);
    ObjectIsPrintable(e.members);
  }

  lemma EmittedAreSendable<V>(emitted: seq<Emitted>, parse: Text -> Option<V>)
    requires Reads(parse, emitted)
    ensures Sendable(AllSent(emitted), parse)
  {
    forall s | s in AllSent(emitted) ensures Printable(s.name, s.json) && parse(Utf16All(s.json)).Some? {
      var i :| 0 <= i < |emitted| && AllSent(emitted)[i] == s;
      assert emitted[i] in emitted;
      EmittedIsPrintable(emitted[i]);
    }
  }

  /** Whatever objects are emitted and however their bytes are cut into chunks, the client
      delivers exactly them. */
  lemma EmittedAreDelivered<V>(emitted: seq<Emitted>, chunks: seq<seq<Byte>>, parse: Text -> Option<V>)
    requires Reads(parse, emitted) && Flatten(chunks) == Stream(AllSent(emitted))
    ensures Sendable(AllSent(emitted), parse)
    ensures FeedAll(Fresh<V>(), chunks, parse) == Client([], [], Expected(AllSent(emitted), parse))
  {
    EmittedAreSendable(emitted, parse);
    EveryChunkingDelivers(AllSent(emitted), chunks, parse);
  }

  /** Whatever objects are emitted and wherever the connection ends, the client has
      delivered a prefix of them, after the flush as before it. */
  lemma CutOffIsHarmless<V>(emitted: seq<Emitted>, chunks: seq<seq<Byte>>, lost: seq<Byte>, parse: Text -> Option<V>)
    requires Reads(parse, emitted) && RefusesOpen(parse) && CutOff(AllSent(emitted), chunks, lost)
    ensures Sendable(AllSent(emitted), parse)
    ensures FeedAll(Fresh<V>(), chunks, parse).delivered <= Expected(AllSent(emitted), parse)
    ensures Flushed(FeedAll(Fresh<V>(), chunks, parse), parse).delivered <= Expected(AllSent(emitted), parse)
  {
    EmittedAreSendable(emitted, parse);
    forall s | s in AllSent(emitted) ensures EndsUnmistakably(s.json, parse) {
      var i :| 0 <= i < |emitted| && AllSent(emitted)[i] == s;
      ObjectsEndUnmistakably(emitted[i].members, parse);
    }
    CutOffDeliversAPrefix(AllSent(emitted), chunks, lost, parse);
    FlushDeliversAPrefix(AllSent(emitted), chunks, lost, parse);
  }
}
