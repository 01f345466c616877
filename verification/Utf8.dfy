/** The incremental UTF-8 decoder of miniapp/utils/sse.ts, with the encodings it
    relates: section 3 of RFC 3629 (UTF-8) and section 2.1 of RFC 2781 (UTF-16).

    Bit masks and shifts of the source are written as remainders, quotients and
    products by powers of two. */
module Utf8 {
  import opened Common

  type Byte = b: int | 0 <= b < 0x100
  type Unit = u: int | 0 <= u < 0x1_0000

  /** A Unicode scalar value: a code point that is not a surrogate. */
  type Scalar = c: int | 0 <= c < 0xD800 || 0xE000 <= c < 0x11_0000 witness 0

  // -- The decoder ----------------------------------------------------------

  /** Sequence length announced by a lead byte: 0xxxxxxx, 110xxxxx, 1110xxxx and
      11110xxx. Stray continuation bytes and bytes above 0xF7 are taken alone. */
  function LeadLength(b: Byte): (n: nat)
    ensures 1 <= n <= 4
  {
    if b < 0x80 then 1
    else if 0xC0 <= b < 0xE0 then 2
    else if 0xE0 <= b < 0xF0 then 3
    else if 0xF0 <= b < 0xF8 then 4
    else 1
  }

  /** The low six bits of a byte. Continuation bytes are masked, never validated. */
  function Low6(b: int): (r: int)
    ensures 0 <= r < 0x40
  {
    b % 0x40
  }

  /** The code point assembled from a complete sequence. */
  function CodeOf(s: seq<Byte>): (c: nat)
    requires s != [] && |s| == LeadLength(s[0])
    ensures c < 0x20_0000
  {
    var b0: int := s[0];
    if |s| == 1 then b0
    else if |s| == 2 then (b0 - 0xC0) * 0x40 + Low6(s[1])
    else if |s| == 3 then (b0 - 0xE0) * 0x1000 + Low6(s[1]) * 0x40 + Low6(s[2])
    else (b0 - 0xF0) * 0x4_0000 + Low6(s[1]) * 0x1000 + Low6(s[2]) * 0x40 + Low6(s[3])
  }

  /** String.fromCharCode of a code point: one unit, or a surrogate pair. */
  function UnitsOf(c: nat): (us: seq<Unit>)
    requires c < 0x20_0000
    ensures |us| == if c > 0xFFFF then 2 else 1
  {
    if c > 0xFFFF then [0xD800 + (c - 0x1_0000) / 0x400, 0xDC00 + (c - 0x1_0000) % 0x400] else [c]
  }

  /** A complete sequence: as many bytes as its lead byte announces. */
  type Sequence = s: seq<Byte> | s != [] && |s| == LeadLength(s[0]) witness [0]

  datatype Parsed = Parsed(complete: seq<Sequence>, pending: seq<Byte>)

  /** All complete sequences of `all`, and the incomplete rest. */
  function Parse(all: seq<Byte>): Parsed {
    if all == [] || LeadLength(all[0]) > |all| then Parsed([], all)
    else
      var rest := Parse(all[LeadLength(all[0])..]);
      Parsed([all[..LeadLength(all[0])]] + rest.complete, rest.pending)
  }

  function Output(sequences: seq<Sequence>): seq<Unit> {
    if sequences == [] then [] else UnitsOf(CodeOf(sequences[0])) + Output(sequences[1..])
  }

  /** The decoder object: the bytes carried from chunk to chunk. */
  class Decoder {
    var pendingBytes: seq<Byte>

    constructor ()
      ensures pendingBytes == []
    {
      pendingBytes := [];
    }

    method DecodeAppend(buf: seq<Byte>) returns (out: seq<Unit>)
      modifies this
      ensures out == Output(Parse(old(pendingBytes) + buf).complete)
      ensures pendingBytes == Parse(old(pendingBytes) + buf).pending
    {
      var all := pendingBytes + buf;
      pendingBytes := [];
      out := [];
      var i := 0;
      ProgressStart(all);
      while i < |all|
        invariant 0 <= i <= |all| && pendingBytes == [] && Progress(all, i, out)
      {
        var len := LeadLength(all[i]);
        if i + len > |all| {
          pendingBytes := all[i..];
          break;
        }
        ProgressStep(all, i, out);
        out := out + UnitsOf(CodeOf(all[i..i + len]));
        i := i + len;
      }
      ProgressEnd(all, i, out);
    }
  }

  /** The first i bytes have produced `out`. */
  ghost predicate Progress(all: seq<Byte>, i: nat, out: seq<Unit>)
    requires i <= |all|
  {
    && Output(Parse(all).complete) == out + Output(Parse(all[i..]).complete)
    && Parse(all).pending == Parse(all[i..]).pending
  }

  lemma ProgressStart(all: seq<Byte>)
    ensures Progress(all, 0, [])
  {
    assert all[0..] == all;
  }

  lemma ProgressStep(all: seq<Byte>, i: nat, out: seq<Unit>)
    requires i < |all| && i + LeadLength(all[i]) <= |all| && Progress(all, i, out)
    ensures Progress(all, i + LeadLength(all[i]), out + UnitsOf(CodeOf(all[i..i + LeadLength(all[i])])))
  {
    var len := LeadLength(all[i]);
    var units := UnitsOf(CodeOf(all[i..i + len]));
    DecodeStep(all, i);
    Associative(out, units, Output(Parse(all[i + len..]).complete));
  }

  lemma ProgressEnd(all: seq<Byte>, i: nat, out: seq<Unit>)
    requires i <= |all| && Progress(all, i, out) && (i < |all| ==> i + LeadLength(all[i]) > |all|)
    ensures out == Output(Parse(all).complete) && all[i..] == Parse(all).pending
  {
  }

  lemma DecodeStep(all: seq<Byte>, i: nat)
    requires i < |all| && i + LeadLength(all[i]) <= |all|
    ensures var len := LeadLength(all[i]);
            && Output(Parse(all[i..]).complete) == UnitsOf(CodeOf(all[i..i + len])) + Output(Parse(all[i + len..]).complete)
            && Parse(all[i..]).pending == Parse(all[i + len..]).pending
  {
    var len := LeadLength(all[i]);
    assert all[i..][..len] == all[i..i + len] && all[i..][len..] == all[i + len..];
    var s: Sequence := all[i..i + len];
    assert ([s] + Parse(all[i + len..]).complete)[1..] == Parse(all[i + len..]).complete;
  }

  lemma {:induction false} OutputConcat(a: seq<Sequence>, b: seq<Sequence>)
    ensures Output(a + b) == Output(a) + Output(b)
  {
    if a == [] {
      assert a + b == b;
    } else {
      assert (a + b)[1..] == a[1..] + b;
      OutputConcat(a[1..], b);
    }
  }

  // -- Chunk invariance -----------------------------------------------------

  lemma {:induction false} ParseIsChunkInvariant(a: seq<Byte>, b: seq<Byte>)
    ensures var first := Parse(a);
            var second := Parse(first.pending + b);
            Parse(a + b) == Parsed(first.complete + second.complete, second.pending)
  {
    if a == [] || LeadLength(a[0]) > |a| {
      assert Parse(a).pending + b == a + b;
    } else {
      var n := LeadLength(a[0]);
      assert (a + b)[..n] == a[..n] && (a + b)[n..] == a[n..] + b;
      ParseIsChunkInvariant(a[n..], b);
    }
  }

  /** Never more than three bytes are carried over. */
  lemma {:induction false} PendingIsShort(all: seq<Byte>)
    ensures |Parse(all).pending| <= 3
  {
    if all != [] && LeadLength(all[0]) <= |all| { PendingIsShort(all[LeadLength(all[0])..]); }
  }

  /** Cutting the bytes anywhere changes neither the output nor the carried bytes,
      for every byte string, valid UTF-8 or not. */
  lemma DecodingIsChunkInvariant(a: seq<Byte>, b: seq<Byte>)
    ensures var first := Parse(a);
            var second := Parse(first.pending + b);
            && Output(Parse(a + b).complete) == Output(first.complete) + Output(second.complete)
            && Parse(a + b).pending == second.pending && |second.pending| <= 3
  {
    ParseIsChunkInvariant(a, b);
    OutputConcat(Parse(a).complete, Parse(Parse(a).pending + b).complete);
    PendingIsShort(Parse(a).pending + b);
  }

  /** A byte that no sequence can start with is put out as it is. */
  lemma StrayByteIsKept(b: Byte, rest: seq<Byte>)
    requires 0x80 <= b < 0xC0 || b >= 0xF8
    ensures Output(Parse([b] + rest).complete) == [b] + Output(Parse(rest).complete) && Parse([b] + rest).pending == Parse(rest).pending
  {
    assert ([b] + rest)[..1] == [b] && ([b] + rest)[1..] == rest;
    var s: Sequence := [b];
    assert ([s] + Parse(rest).complete)[1..] == Parse(rest).complete;
  }

  /** Of the bytes behind the first only the low six bits count; they are not checked to
      be continuation bytes. */
  lemma OnlyLowBitsCount(s: Sequence, t: Sequence)
    requires s[0] == t[0] && |s| == |t| && forall i :: 1 <= i < |s| ==> s[i] as int % 0x40 == t[i] as int % 0x40
    ensures CodeOf(s) == CodeOf(t)
  {
  }

  // -- Valid UTF-8 ----------------------------------------------------------

  function Encode(c: Scalar): seq<Byte> {
    if c < 0x80 then [c]
    else if c < 0x800 then [0xC0 + c / 0x40, 0x80 + c % 0x40]
    else if c < 0x1_0000 then [0xE0 + c / 0x1000, 0x80 + c / 0x40 % 0x40, 0x80 + c % 0x40]
    else [0xF0 + c / 0x4_0000, 0x80 + c / 0x1000 % 0x40, 0x80 + c / 0x40 % 0x40, 0x80 + c % 0x40]
  }

  function EncodeAll(text: seq<Scalar>): seq<Byte> {
    if text == [] then [] else Encode(text[0]) + EncodeAll(text[1..])
  }

  function Utf16(c: Scalar): seq<Unit> {
    if c < 0x1_0000 then [c] else [0xD800 + (c - 0x1_0000) / 0x400, 0xDC00 + (c - 0x1_0000) % 0x400]
  }

  function Utf16All(text: seq<Scalar>): seq<Unit> {
    if text == [] then [] else Utf16(text[0]) + Utf16All(text[1..])
  }

  /** One encoded scalar is one complete sequence that decodes to itself. */
  lemma EncodeLength(c: Scalar)
    ensures Encode(c) != [] && |Encode(c)| == LeadLength(Encode(c)[0])
  {
  }

  lemma ContinuationKeepsDigit(d: int)
    requires 0 <= d < 0x40
    ensures Low6(0x80 + d) == d
  {
  }

  lemma Digits(c: nat)
    ensures c == c / 0x40 * 0x40 + c % 0x40
    ensures c / 0x40 == c / 0x1000 * 0x40 + c / 0x40 % 0x40
    ensures c / 0x1000 == c / 0x4_0000 * 0x40 + c / 0x1000 % 0x40
  {
  }

  lemma DecodeUndoesEncode(c: Scalar)
    ensures Encode(c) != [] && |Encode(c)| == LeadLength(Encode(c)[0])
    ensures CodeOf(Encode(c)) == c
  {
    EncodeLength(c);
    Digits(c);
    ContinuationKeepsDigit(c % 0x40);
    ContinuationKeepsDigit(c / 0x40 % 0x40);
    ContinuationKeepsDigit(c / 0x1000 % 0x40);
  }

  lemma UnitsAreUtf16(c: Scalar)
    ensures UnitsOf(c) == Utf16(c)
  {
  }

  lemma ParseEncoded(c: Scalar, rest: seq<Byte>)
    ensures Encode(c) != [] && |Encode(c)| == LeadLength(Encode(c)[0])
    ensures Parse(Encode(c) + rest) == Parsed([Encode(c)] + Parse(rest).complete, Parse(rest).pending)
  {
    EncodeLength(c);
    var first := Encode(c);
    assert (first + rest)[..|first|] == first && (first + rest)[|first|..] == rest;
  }

  /** On valid UTF-8 the decoder yields the UTF-16 form of the text and keeps nothing. */
  lemma {:induction false} DecodeValid(text: seq<Scalar>)
    ensures Output(Parse(EncodeAll(text)).complete) == Utf16All(text) && Parse(EncodeAll(text)).pending == []
  {
    if text != [] {
      var first, rest := Encode(text[0]), EncodeAll(text[1..]);
      ParseEncoded(text[0], rest);
      DecodeUndoesEncode(text[0]);
      UnitsAreUtf16(text[0]);
      DecodeValid(text[1..]);
      var s: Sequence := first;
      assert ([s] + Parse(rest).complete)[1..] == Parse(rest).complete;
    }
  }

  lemma {:induction false} EncodeAllConcat(a: seq<Scalar>, b: seq<Scalar>)
    ensures EncodeAll(a + b) == EncodeAll(a) + EncodeAll(b)
  {
    if a == [] {
      assert a + b == b;
    } else {
      assert (a + b)[1..] == a[1..] + b;
      EncodeAllConcat(a[1..], b);
    }
  }

  lemma {:induction false} Utf16AllConcat(a: seq<Scalar>, b: seq<Scalar>)
    ensures Utf16All(a + b) == Utf16All(a) + Utf16All(b)
  {
    if a == [] {
      assert a + b == b;
    } else {
      assert (a + b)[1..] == a[1..] + b;
      Utf16AllConcat(a[1..], b);
    }
  }
}
