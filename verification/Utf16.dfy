/** Measuring and cutting texts in UTF-16 code units: `_utf16_length` and `_utf16_slice` of
    app/modules/drafts/policies/ranking.py. The codec is that of sections 2.1 and 2.2 of RFC 2781,
    except that lone surrogates pass through it in both directions ("surrogatepass"). */
module Utf16 {
  import opened Arithmetic

  /** A text is a sequence of code points; surrogates are code points too. */
  type CodePoint = c: nat | c < 0x11_0000
  type Unit = u: nat | u < 0x1_0000
  type Text = seq<CodePoint>

  predicate IsHigh(c: nat) {
    0xD800 <= c < 0xDC00
  }

  predicate IsLow(c: nat) {
    0xDC00 <= c < 0xE000
  }

  /** Section 2.1. */
  function EncodeOne(c: CodePoint): seq<Unit> {
    if c < 0x1_0000 then [c]
    else
      var rest := c - 0x1_0000;
      [0xD800 + rest / 0x400, 0xDC00 + rest % 0x400]
  }

  function HighHalf(c: CodePoint): Unit {
    EncodeOne(c)[0]
  }

  function Encode(text: Text): seq<Unit> {
    if text == [] then [] else EncodeOne(text[0]) + Encode(text[1..])
  }

  predicate StartsWithPair(units: seq<Unit>) {
    |units| > 1 && IsHigh(units[0]) && IsLow(units[1])
  }

  function Combine(high: nat, low: nat): CodePoint
    requires IsHigh(high) && IsLow(low)
  {
    0x1_0000 + (high - 0xD800) * 0x400 + (low - 0xDC00)
  }

  /** Section 2.2. */
  function Decode(units: seq<Unit>): Text {
    if units == [] then []
    else if StartsWithPair(units) then [Combine(units[0], units[1])] + Decode(units[2..])
    else [units[0]] + Decode(units[1..])
  }

  function Length(text: Text): nat {
    |Encode(text)|
  }

  function Slice(text: Text, limit: nat): Text {
    var units := Encode(text);
    Decode(units[..Min(limit, |units|)])
  }

  /** No lone high surrogate is directly followed by a lone low one. */
  ghost predicate NoFalsePair(text: Text) {
    forall i :: 0 <= i < |text| - 1 && IsHigh(text[i]) ==> !IsLow(text[i + 1])
  }

  // ----- The codec -----

  /** Every sequence of units survives decoding. */
  lemma {:induction false} EncodeAfterDecode(units: seq<Unit>)
    ensures Encode(Decode(units)) == units
  {
    if units == [] {
    } else if StartsWithPair(units) {
      EncodeAfterDecode(units[2..]);
      assert Decode(units)[1..] == Decode(units[2..]);
      assert units == units[..2] + units[2..];
    } else {
      EncodeAfterDecode(units[1..]);
      assert Decode(units)[1..] == Decode(units[1..]);
    }
  }

  lemma {:induction false} DecodedHasNoFalsePair(units: seq<Unit>)
    ensures NoFalsePair(Decode(units))
  {
    if units == [] {
    } else if StartsWithPair(units) {
      DecodedHasNoFalsePair(units[2..]);
      FrontKeepsNoFalsePair(Decode(units)[0], Decode(units[2..]));
    } else {
      DecodedHasNoFalsePair(units[1..]);
      FrontKeepsNoFalsePair(units[0], Decode(units[1..]));
    }
  }

  lemma FrontKeepsNoFalsePair(c: CodePoint, rest: Text)
    requires NoFalsePair(rest) && (rest != [] && IsHigh(c) ==> !IsLow(rest[0]))
    ensures NoFalsePair([c] + rest)
  {
    forall i | 0 <= i < |rest| && IsHigh(([c] + rest)[i]) ensures !IsLow(([c] + rest)[i + 1]) {
      if i > 0 { assert rest[i - 1] == ([c] + rest)[i]; }
    }
  }

  lemma OneSurvives(c: CodePoint, more: seq<Unit>)
    requires IsHigh(c) && more != [] ==> !IsLow(more[0])
    ensures Decode(EncodeOne(c) + more) == [c] + Decode(more)
  {
    var units := EncodeOne(c) + more;
    if c < 0x1_0000 {
      assert units[1..] == more;
    } else {
      assert StartsWithPair(units) && Combine(units[0], units[1]) == c;
      assert units[2..] == more;
    }
  }

  lemma EncodeHead(text: Text)
    ensures text == [] <==> Encode(text) == []
    ensures text != [] ==> Encode(text) == EncodeOne(text[0]) + Encode(text[1..])
    ensures text != [] && IsLow(Encode(text)[0]) ==> IsLow(text[0])
  {
  }

  lemma LeftOverSurvives(tail: seq<Unit>)
    requires tail == [] || (|tail| == 1 && IsHigh(tail[0]))
    ensures Decode(Encode([]) + tail) == tail
  {
    assert Encode([]) + tail == tail;
    assert tail != [] ==> tail == [tail[0]];
  }

  /** Decoding undoes encoding for a text without a false pair, also when a high surrogate is left
      over behind it. */
  lemma {:induction false} DecodeAfterEncode(text: Text, tail: seq<Unit>)
    requires NoFalsePair(text) && (tail == [] || (|tail| == 1 && IsHigh(tail[0])))
    ensures Decode(Encode(text) + tail) == text + tail
  {
    hide Decode, Encode, EncodeOne;
    if text == [] {
      LeftOverSurvives(tail);
      assert text + tail == tail;
    } else {
      var rest := text[1..];
      assert forall i :: 0 <= i < |rest| ==> rest[i] == text[i + 1];
      DecodeAfterEncode(rest, tail);
      EncodeHead(text);
      var more := Encode(rest) + tail;
      assert Encode(text) + tail == EncodeOne(text[0]) + more;
      EncodeHead(rest);
      assert more != [] ==> more[0] == if rest != [] then Encode(rest)[0] else tail[0];
      OneSurvives(text[0], more);
      assert text + tail == [text[0]] + (rest + tail);
    }
  }

  /** Decoding undoes encoding exactly for the texts without a false pair. */
  lemma TextSurvivesExactlyWithoutFalsePair(text: Text)
    ensures Decode(Encode(text)) == text <==> NoFalsePair(text)
  {
    DecodedHasNoFalsePair(Encode(text));
    if NoFalsePair(text) {
      DecodeAfterEncode(text, []);
      assert Encode(text) + [] == Encode(text) && text + [] == text;
    }
  }

  // ----- Length and slice -----

  /** The length of a slice is the limit or the length of the text, whichever is less. */
  lemma SliceLength(text: Text, limit: nat)
    ensures Length(Slice(text, limit)) == Min(limit, Length(text))
  {
    EncodeAfterDecode(Encode(text)[..Min(limit, Length(text))]);
  }

  /** Slicing twice is slicing by the smaller limit. */
  lemma SliceTwice(text: Text, limit: nat, again: nat)
    ensures Slice(Slice(text, limit), again) == Slice(text, Min(limit, again))
  {
    var units := Encode(text);
    var cut := units[..Min(limit, |units|)];
    EncodeAfterDecode(cut);
    assert cut[..Min(again, |cut|)] == units[..Min(Min(limit, again), |units|)];
  }

  /** The halves carry ten bits each. */
  predicate AreHalvesOf(high: nat, low: nat, c: nat) {
    IsHigh(high) && IsLow(low) && c == 0x1_0000 + (high - 0xD800) * 0x400 + (low - 0xDC00)
  }

  /** The encoding is that of section 2.1 of RFC 2781: code points below 0x10000 stand for themselves, and
      every other one is a high and a low surrogate that carry its upper and lower ten bits. */
  lemma EncodingLaw(text: Text, n: nat)
    requires n < |text|
    ensures var c, before := text[n], Encode(text[..n]);
      if c < 0x1_0000 then Encode(text[..n + 1]) == before + [c]
      else exists high, low :: Encode(text[..n + 1]) == before + [high, low] && AreHalvesOf(high, low, c)
    ensures Encode([]) == []
  {
    EncodeStep(text, n);
    var c, before := text[n], Encode(text[..n]);
    hide Encode;
    if c >= 0x1_0000 {
      var high, low := EncodeOne(c)[0], EncodeOne(c)[1];
      assert before + EncodeOne(c) == before + [high, low] && AreHalvesOf(high, low, c);
    }
    EncodeHead([]);
  }

  /** A slice leaves the text unchanged exactly if it is short enough and has no false pair. */
  lemma SliceIsIdentityIff(text: Text, limit: nat)
    ensures Slice(text, limit) == text <==> Length(text) <= limit && NoFalsePair(text)
  {
    SliceLength(text, limit);
    TextSurvivesExactlyWithoutFalsePair(text);
    var units := Encode(text);
    if Length(text) <= limit {
      assert units[..Min(limit, |units|)] == units;
    }
  }

  /** Where the limit falls: `n` code points fit, and the next one does not. */
  ghost predicate IsCut(text: Text, limit: nat, n: nat) {
    && n <= |text| && Length(text[..n]) <= limit
    && (n < |text| ==> limit < Length(text[..n + 1]))
  }

  lemma {:induction false} EncodeSplit(text: Text, n: nat)
    requires n <= |text|
    ensures Encode(text) == Encode(text[..n]) + Encode(text[n..])
  {
    hide Encode, EncodeOne;
    EncodeHead(text[..n]);
    if n == 0 {
      assert text[0..] == text;
    } else {
      EncodeHead(text);
      EncodeSplit(text[1..], n - 1);
      assert text[1..][..n - 1] == text[..n][1..] && text[1..][n - 1..] == text[n..];
    }
  }

  lemma {:induction false} EncodeStep(text: Text, n: nat)
    requires n < |text|
    ensures Encode(text[..n + 1]) == Encode(text[..n]) + EncodeOne(text[n])
  {
    hide Encode, EncodeOne;
    EncodeHead(text[..n + 1]);
    EncodeHead(text[..n]);
    EncodeHead(text[..n + 1][1..]);
    if n > 0 {
      EncodeStep(text[1..], n - 1);
      assert text[1..][..n] == text[..n + 1][1..] && text[1..][..n - 1] == text[..n][1..];
    }
  }

  lemma {:induction false} CutExists(text: Text, limit: nat, from: nat) returns (n: nat)
    requires from <= |text| && Length(text[..from]) <= limit
    ensures IsCut(text, limit, n)
    decreases |text| - from
  {
    if from < |text| && Length(text[..from + 1]) <= limit {
      n := CutExists(text, limit, from + 1);
    } else {
      n := from;
    }
  }

  /** A slice of a text without a false pair is the longest prefix that fits, followed by half of the
      next code point exactly if that one has two units and the limit falls between them. */
  lemma SliceIsThePrefixThatFits(text: Text, limit: nat) returns (n: nat)
    requires NoFalsePair(text)
    ensures IsCut(text, limit, n)
    ensures n < |text| && Length(text[..n]) < limit ==> text[n] >= 0x1_0000 && limit == Length(text[..n]) + 1
    ensures Slice(text, limit) ==
      text[..n] + if n < |text| && Length(text[..n]) < limit then [HighHalf(text[n])] else []
  {
    assert text[..0] == [];
    n := CutExists(text, limit, 0);
    hide Encode, Decode;
    var fits := text[..n];
    assert forall i :: 0 <= i < n ==> fits[i] == text[i];
    if n == |text| {
      assert fits == text;
      DecodeAfterEncode(fits, []);
      assert Encode(text)[..Length(text)] == Encode(fits) + [];
    } else {
      EncodeStep(text, n);
      EncodeSplit(text, n + 1);
      var tail := EncodeOne(text[n])[..limit - |Encode(fits)|];
      assert Encode(text)[..limit] == Encode(fits) + tail;
      DecodeAfterEncode(fits, tail);
    }
  }
}
