/** UTF-8 as the output cap uses it: encode, cut at a byte budget, decode ignoring errors
    (section 3 of RFC 3629, with the well-formed ranges of its section 4). */
module Utf8 {

  type Byte = x: int | 0 <= x < 256

  /** A Unicode scalar value: every code point except the surrogates. */
  type Scalar = x: int | 0 <= x <= 0x10FFFF && !(0xD800 <= x <= 0xDFFF)

  function Width(c: Scalar): nat {
    if c < 0x80 then 1 else if c < 0x800 then 2 else if c < 0x1_0000 then 3 else 4
  }

  function EncodeOne(c: Scalar): (bytes: seq<Byte>)
    ensures |bytes| == Width(c)
  {
    if c < 0x80 then [c]
    else if c < 0x800 then [0xC0 + c / 64, 0x80 + c % 64]
    else if c < 0x1_0000 then [0xE0 + c / 4096, 0x80 + c / 64 % 64, 0x80 + c % 64]
    else [0xF0 + c / 262144, 0x80 + c / 4096 % 64, 0x80 + c / 64 % 64, 0x80 + c % 64]
  }

  function Encode(text: seq<Scalar>): seq<Byte> {
    if text == [] then [] else EncodeOne(text[0]) + Encode(text[1..])
  }

  /** Length announced by a lead byte; 0 for a byte that can start nothing. */
  function Announced(lead: Byte): nat {
    if lead < 0x80 then 1
    else if 0xC2 <= lead <= 0xDF then 2
    else if 0xE0 <= lead <= 0xEF then 3
    else if 0xF0 <= lead <= 0xF4 then 4
    else 0
  }

  predicate Continuation(b: Byte) {
    0x80 <= b <= 0xBF
  }

  /** The second byte also rules out overlong forms, surrogates and values past U+10FFFF. */
  predicate SecondFits(lead: Byte, b: Byte) {
    if lead == 0xE0 then 0xA0 <= b <= 0xBF
    else if lead == 0xED then 0x80 <= b <= 0x9F
    else if lead == 0xF0 then 0x90 <= b <= 0xBF
    else if lead == 0xF4 then 0x80 <= b <= 0x8F
    else Continuation(b)
  }

  /** How many bytes at the front belong to one (possibly cut) well-formed sequence. */
  function Readable(b: seq<Byte>): (n: nat)
    requires b != []
    ensures n <= |b| && n <= Announced(b[0])
  {
    var need := Announced(b[0]);
    if need == 0 then 0
    else if need == 1 || |b| < 2 || !SecondFits(b[0], b[1]) then 1
    else if need == 2 || |b| < 3 || !Continuation(b[2]) then 2
    else if need == 3 || |b| < 4 || !Continuation(b[3]) then 3
    else 4
  }

  function Assemble(b: seq<Byte>): Scalar
    requires b != [] && Announced(b[0]) > 0 && Readable(b) == Announced(b[0])
  {
    var b0: int := b[0];
    match Announced(b[0])
    case 1 => b0
    case 2 => var b1: int := b[1]; Join(b0 - 0xC0, b1)
    case 3 => var b1: int, b2: int := b[1], b[2]; Join(Join(b0 - 0xE0, b1), b2)
    case _ => var b1: int, b2: int, b3: int := b[1], b[2], b[3]; Join(Join(Join(b0 - 0xF0, b1), b2), b3)
  }

  /** Append the six payload bits of a continuation byte. */
  function Join(high: int, b: int): int {
    high * 64 + (b - 0x80)
  }

  /** Decode any bytes, skipping each maximal ill-formed stretch. */
  function DecodeIgnore(b: seq<Byte>): seq<Scalar>
    decreases |b|
  {
    if b == [] then []
    else
      var n := Readable(b);
      if n > 0 && n == Announced(b[0]) then [Assemble(b)] + DecodeIgnore(b[n..])
      else DecodeIgnore(b[if n == 0 then 1 else n..])
  }

  /** The leading bits and the last six bits put the value together again. */
  lemma SplitSix(c: nat)
    ensures Join(c / 64, 0x80 + c % 64) == c
    ensures c / 64 / 64 == c / 4096 && c / 4096 / 64 == c / 262144
  {
  }

  /** Reading back one encoded scalar, whatever follows it. */
  lemma OneRoundTrip(c: Scalar, rest: seq<Byte>)
    ensures var b := EncodeOne(c) + rest;
            Readable(b) == Announced(b[0]) == Width(c) && Assemble(b) == c
  {
    var b := EncodeOne(c) + rest;
    SplitSix(c);
    SplitSix(c / 64);
    SplitSix(c / 4096);
    assert forall i | 0 <= i < Width(c) :: b[i] == EncodeOne(c)[i];
    Leads(c);
    hide Join;
    assert Readable(b) == Width(c);
  }

  /** The lead byte announces the width, and every later byte is one the decoder accepts. */
  lemma Leads(c: Scalar)
    ensures var b := EncodeOne(c);
            && Announced(b[0]) == Width(c)
            && (Width(c) >= 2 ==> SecondFits(b[0], b[1]))
            && (Width(c) >= 3 ==> Continuation(b[2]))
            && (Width(c) >= 4 ==> Continuation(b[3]))
  {
  }

  /** A sequence cut before its last byte is recognised as far as it goes, and yields nothing. */
  lemma CutReadsNothing(c: Scalar, n: nat)
    requires n < Width(c)
    ensures DecodeIgnore(EncodeOne(c)[..n]) == []
  {
    var b := EncodeOne(c)[..n];
    if n > 0 {
      Leads(c);
      assert forall i | 0 <= i < n :: b[i] == EncodeOne(c)[i];
      assert Readable(b) == n;
    }
  }

  lemma OneIsRead(c: Scalar, rest: seq<Byte>)
    ensures DecodeIgnore(EncodeOne(c) + rest) == [c] + DecodeIgnore(rest)
  {
    OneRoundTrip(c, rest);
    assert (EncodeOne(c) + rest)[Width(c)..] == rest;
    hide EncodeOne;
  }

  /** Decoding undoes encoding for every text. */
  lemma {:induction false} RoundTrip(text: seq<Scalar>)
    ensures DecodeIgnore(Encode(text)) == text
  {
    if text != [] {
      OneIsRead(text[0], Encode(text[1..]));
      RoundTrip(text[1..]);
    }
  }

  /** Number of leading code points whose encodings fit in `budget` bytes together. */
  function Fitting(text: seq<Scalar>, budget: nat): (k: nat)
    ensures k <= |text|
  {
    if text == [] || Width(text[0]) > budget then 0
    else 1 + Fitting(text[1..], budget - Width(text[0]))
  }

  /** It is the longest such prefix: a prefix fits exactly when it is no longer. */
  lemma {:induction false} FittingIsLongest(text: seq<Scalar>, budget: nat, k: nat)
    requires k <= |text|
    ensures |Encode(text[..k])| <= budget <==> k <= Fitting(text, budget)
  {
    if k == 0 {
    } else {
      assert text[..k][1..] == text[1..][..k - 1];
      if Width(text[0]) <= budget {
        FittingIsLongest(text[1..], budget - Width(text[0]), k - 1);
      }
    }
  }

  /** `bytes[:budget]` with Python's slice, which stops at the end of the bytes. */
  function Head(bytes: seq<Byte>, budget: nat): seq<Byte> {
    if budget < |bytes| then bytes[..budget] else bytes
  }

  /** Encode, cut, decode ignoring errors: exactly the longest prefix of whole code points. */
  lemma {:induction false} CutKeepsLongestPrefix(text: seq<Scalar>, budget: nat)
    ensures DecodeIgnore(Head(Encode(text), budget)) == text[..Fitting(text, budget)]
  {
    hide EncodeOne;
    if text != [] {
      var c, rest := text[0], Encode(text[1..]);
      if Width(c) <= budget {
        CutKeepsLongestPrefix(text[1..], budget - Width(c));
        hide DecodeIgnore;
        var tail := Head(rest, budget - Width(c));
        assert Head(Encode(text), budget) == EncodeOne(c) + tail;
        OneIsRead(c, tail);
        assert text[..Fitting(text, budget)] == [c] + text[1..][..Fitting(text[1..], budget - Width(c))];
      } else {
        assert Head(Encode(text), budget) == EncodeOne(c)[..budget];
        CutReadsNothing(c, budget);
      }
    }
  }

  lemma {:induction false} EncodeConcat(x: seq<Scalar>, y: seq<Scalar>)
    ensures Encode(x + y) == Encode(x) + Encode(y)
  {
    if x == [] {
      assert x + y == y;
    } else {
      assert (x + y)[1..] == x[1..] + y;
      EncodeConcat(x[1..], y);
    }
  }
}
