/** The cap on tool output: strings keep a prefix and a marker, lists keep leading items. */
module OutputCap {
  import opened Utf8

  /** A redacted tool result. `Other` stands for any JSON value that is neither a string nor a
      list, known here by its serialised size only. */
  datatype Value =
    | Text(chars: seq<Scalar>)
    | List(items: seq<Value>)
    | Other(size: nat)

  datatype Capped =
    | Whole(value: Value)
    | Shortened(value: Value)
    | Denied(reason: string)

  const DENY_OUTPUT_TOO_LARGE := "denied:output_too_large"

  /** The eleven ASCII characters `[truncated]`. */
  const MARKER: seq<Scalar> := [0x5B, 0x74, 0x72, 0x75, 0x6E, 0x63, 0x61, 0x74, 0x65, 0x64, 0x5D]

  /** Bytes one character takes inside a JSON string with every non-ASCII character escaped. */
  function JsonWidth(c: Scalar): nat {
    if c == 0x22 || c == 0x5C then 2
    else if c == 0x08 || c == 0x09 || c == 0x0A || c == 0x0C || c == 0x0D then 2
    else if 0x20 <= c <= 0x7E then 1
    else if c < 0x1_0000 then 6
    else 12
  }

  function JsonChars(text: seq<Scalar>): nat {
    if text == [] then 0 else JsonWidth(text[0]) + JsonChars(text[1..])
  }

  /** Size of the compact JSON text of a value. */
  function Size(v: Value): nat {
    match v
    case Text(chars) => 2 + JsonChars(chars)
    case List(items) => 2 + ItemsSize(items) + (if items == [] then 0 else |items| - 1)
    case Other(size) => size
  }

  function ItemsSize(items: seq<Value>): nat {
    if items == [] then 0 else Size(items[0]) + ItemsSize(items[1..])
  }

  function TruncateText(text: seq<Scalar>, maxBytes: int): seq<Scalar> {
    var budget := if maxBytes < |Encode(MARKER)| then 0 else maxBytes - |Encode(MARKER)|;
    DecodeIgnore(Head(Encode(text), budget)) + MARKER
  }

  lemma MarkerBytes()
    ensures |Encode(MARKER)| == 11
  {
    assert Encode(MARKER) == MARKER by {
      EncodeAscii(MARKER);
    }
  }

  lemma {:induction false} EncodeAscii(text: seq<Scalar>)
    requires forall i | 0 <= i < |text| :: text[i] < 0x80
    ensures |Encode(text)| == |text|
    ensures forall i | 0 <= i < |text| :: Encode(text)[i] == text[i]
  {
    if text != [] {
      EncodeAscii(text[1..]);
    }
  }

  /** A capped string is the longest whole-character prefix within the byte limit less the marker,
      followed by the marker; it is at most the limit long, or the marker alone. */
  lemma TruncatedText(text: seq<Scalar>, maxBytes: int)
    ensures var k := Fitting(text, if maxBytes < 11 then 0 else maxBytes - 11);
            && TruncateText(text, maxBytes) == text[..k] + MARKER
            && |Encode(TruncateText(text, maxBytes))| <= (if maxBytes < 11 then 11 else maxBytes)
            && (forall j | 0 <= j <= |text| && |Encode(text[..j] + MARKER)| <= maxBytes :: j <= k)
  {
    MarkerBytes();
    var budget := if maxBytes < 11 then 0 else maxBytes - 11;
    var k := Fitting(text, budget);
    CutKeepsLongestPrefix(text, budget);
    FittingIsLongest(text, budget, k);
    EncodeConcat(text[..k], MARKER);
    forall j | 0 <= j <= |text| && |Encode(text[..j] + MARKER)| <= maxBytes ensures j <= k {
      EncodeConcat(text[..j], MARKER);
      FittingIsLongest(text, budget, j);
    }
  }

  /** The budget the cut has once the marker is paid for. */
  function Budget(maxBytes: int): nat {
    if maxBytes < 11 then 0 else maxBytes - 11
  }

  lemma NextDoesNotFit(text: seq<Scalar>, budget: nat)
    requires Fitting(text, budget) < |text|
    ensures var k := Fitting(text, budget); |Encode(text[..k])| + Width(text[k]) > budget
  {
    var k := Fitting(text, budget);
    FittingIsLongest(text, budget, k + 1);
    assert text[..k + 1] == text[..k] + [text[k]];
    EncodeConcat(text[..k], [text[k]]);
    EncodesAlone(text[k]);
  }

  lemma EncodesAlone(c: Scalar)
    ensures |Encode([c])| == Width(c)
  {
    assert [c][1..] == [];
    assert Encode([]) == [];
  }

  predicate Narrow(text: seq<Scalar>) {
    forall i | 0 <= i < |text| :: text[i] < 0x800
  }

  lemma {:induction false} NarrowIsNoShorterInJson(text: seq<Scalar>)
    requires Narrow(text)
    ensures JsonChars(text) >= |Encode(text)|
  {
    if text != [] {
      NarrowIsNoShorterInJson(text[1..]);
    }
  }

  // ----- the JSON text itself -------------------------------------------------------------

  function HexDigit(d: nat): char
    requires d < 16
  {
    if d < 10 then '0' + d as char else 'a' + (d - 10) as char
  }

  function Unicode(n: nat): string
    requires n < 0x1_0000
  {
    "\\u" + [HexDigit(n / 4096), HexDigit(n / 256 % 16), HexDigit(n / 16 % 16), HexDigit(n % 16)]
  }

  /** A character as JSON writes it in ASCII: itself, a short escape, or its UTF-16 units in hexadecimal. */
  function Escaped(c: Scalar): string {
    if c == 0x22 then "\\\""
    else if c == 0x5C then "\\\\"
    else if c == 0x08 then "\\b"
    else if c == 0x09 then "\\t"
    else if c == 0x0A then "\\n"
    else if c == 0x0C then "\\f"
    else if c == 0x0D then "\\r"
    else if 0x20 <= c <= 0x7E then [c as char]
    else if c < 0x1_0000 then Unicode(c)
    else
      var n: nat := c - 0x1_0000;
      Unicode(0xD800 + n / 0x400) + Unicode(0xDC00 + n % 0x400)
  }

  function EscapedText(text: seq<Scalar>): string {
    if text == [] then [] else Escaped(text[0]) + EscapedText(text[1..])
  }

  /** A value as compact JSON; one that is neither text nor list is only known by its size. */
  function Rendered(v: Value): string {
    match v
    case Text(chars) => "\"" + EscapedText(chars) + "\""
    case List(items) => "[" + RenderedItems(items) + "]"
    case Other(size) => seq(size, _ => '0')
  }

  function RenderedItems(items: seq<Value>): string {
    if items == [] then []
    else Rendered(items[0]) + (if |items| == 1 then "" else "," + RenderedItems(items[1..]))
  }

  lemma {:induction false} EscapedLength(text: seq<Scalar>)
    ensures |EscapedText(text)| == JsonChars(text)
  {
    if text != [] {
      EscapedLength(text[1..]);
      assert |Escaped(text[0])| == JsonWidth(text[0]);
    }
  }

  /** The size of a value is the length of its JSON text. */
  lemma {:induction false} SizeIsLength(v: Value)
    ensures |Rendered(v)| == Size(v)
  {
    match v
    case Text(chars) => EscapedLength(chars);
    case List(items) => ItemsLength(items);
    case Other(_) =>
  }

  lemma {:induction false} ItemsLength(items: seq<Value>)
    ensures |RenderedItems(items)| == ItemsSize(items) + (if items == [] then 0 else |items| - 1)
  {
    if items != [] {
      SizeIsLength(items[0]);
      ItemsLength(items[1..]);
    }
  }

  /** JSON size of a cut text: quotes, kept characters, marker. */
  lemma CutSize(text: seq<Scalar>, maxBytes: int)
    ensures Size(Text(TruncateText(text, maxBytes))) == JsonChars(text[..Fitting(text, Budget(maxBytes))]) + 13
  {
    TruncatedText(text, maxBytes);
    hide TruncateText;
    JsonConcat(text[..Fitting(text, Budget(maxBytes))], MARKER);
    MarkerJson();
  }

  lemma MarkerJson()
    ensures JsonChars(MARKER) == 11
  {
    JsonPlain(MARKER);
  }

  lemma {:induction false} JsonPlain(text: seq<Scalar>)
    requires forall i | 0 <= i < |text| :: 0x20 <= text[i] <= 0x7E && text[i] != 0x22 && text[i] != 0x5C
    ensures JsonChars(text) == |text|
  {
    if text != [] {
      JsonPlain(text[1..]);
    }
  }

  /** The byte limit is a limit on the JSON size of what a cap returns for untouched values and for lists,
      and for a cut string exactly when the JSON text of its kept characters leaves room for the marker and
      the quotes. */
  lemma CapMeetsJsonLimit(v: Value, maxBytes: int, r: Capped)
    requires IsCapped(v, maxBytes, r)
    ensures !r.Denied? ==>
              (Size(r.value) <= maxBytes
               <==> r.Whole? || v.List? || JsonChars(v.chars[..Fitting(v.chars, Budget(maxBytes))]) + 13 <= maxBytes)
    ensures !r.Denied? && !r.Whole? ==> v.List? || v.Text?
  {
    if r.Shortened? && v.Text? {
      CutSize(v.chars, maxBytes);
    } else if r.Shortened? {
      assert Fits(v.items, |r.value.items|, maxBytes);
    }
  }

  /** Of strings without a character at or above U+0800, ASCII included, the cut never helps: one over the
      limit is still over it afterwards. */
  lemma NarrowTextStaysOver(text: seq<Scalar>, maxBytes: int)
    requires Narrow(text) && Size(Text(text)) > maxBytes
    ensures Size(Text(TruncateText(text, maxBytes))) > maxBytes
  {
    hide Encode;
    CutSize(text, maxBytes);
    var k := Fitting(text, Budget(maxBytes));
    NarrowIsNoShorterInJson(text[..k]);
    if k < |text| {
      NextDoesNotFit(text, Budget(maxBytes));
    } else {
      assert text[..k] == text;
    }
  }

  function Quotes(n: nat): seq<Scalar> {
    if n == 0 then [] else [0x22] + Quotes(n - 1)
  }

  lemma {:induction false} QuotesAreWide(n: nat)
    ensures JsonChars(Quotes(n)) == 2 * n && Narrow(Quotes(n))
  {
    if n > 0 {
      QuotesAreWide(n - 1);
    }
  }

  /** For every limit there is such a string: a run of quotes. */
  lemma JsonSizeMayExceedLimit(maxBytes: nat)
    ensures Size(Text(Quotes(maxBytes))) > maxBytes
    ensures Size(Text(TruncateText(Quotes(maxBytes), maxBytes))) > maxBytes
  {
    QuotesAreWide(maxBytes);
    NarrowTextStaysOver(Quotes(maxBytes), maxBytes);
  }

  lemma {:induction false} JsonConcat(x: seq<Scalar>, y: seq<Scalar>)
    ensures JsonChars(x + y) == JsonChars(x) + JsonChars(y)
  {
    if x == [] {
      assert x + y == y;
    } else {
      assert (x + y)[1..] == x[1..] + y;
      JsonConcat(x[1..], y);
    }
  }

  /** How many leading items fit when the list is serialised on its own. */
  predicate Fits(items: seq<Value>, k: nat, maxBytes: int)
    requires k <= |items|
  {
    Size(List(items[..k])) <= maxBytes
  }

  lemma {:induction false} ItemsSizeConcat(x: seq<Value>, y: seq<Value>)
    ensures ItemsSize(x + y) == ItemsSize(x) + ItemsSize(y)
  {
    if x == [] {
      assert x + y == y;
    } else {
      assert (x + y)[1..] == x[1..] + y;
      ItemsSizeConcat(x[1..], y);
    }
  }

  /** A longer prefix is never smaller. */
  lemma PrefixSizes(items: seq<Value>, j: nat, k: nat)
    requires j <= k <= |items|
    ensures Size(List(items[..j])) <= Size(List(items[..k]))
  {
    assert items[..k] == items[..j] + items[j..k];
    ItemsSizeConcat(items[..j], items[j..k]);
  }

  /** What a capped result has to be. */
  ghost predicate IsCapped(v: Value, maxBytes: int, r: Capped) {
    if Size(v) <= maxBytes then r == Whole(v)
    else match v
      case Text(chars) => r == Shortened(Text(TruncateText(chars, maxBytes)))
      case List(items) =>
        if items != [] && Fits(items, 1, maxBytes) then
          && r.Shortened? && r.value.List?
          && var k := |r.value.items|;
          && 1 <= k < |items| && r.value.items == items[..k]
          && forall j | 1 <= j <= |items| :: Fits(items, j, maxBytes) <==> j <= k
        else r == Denied(DENY_OUTPUT_TOO_LARGE)
      case Other(_) => r == Denied(DENY_OUTPUT_TOO_LARGE)
  }

  /** The cap: a fitting value is untouched, a string is truncated, a list keeps exactly the
      longest prefix that fits, and whatever keeps nothing is denied. */
  method CapOutput(v: Value, maxBytes: int) returns (r: Capped)
    ensures IsCapped(v, maxBytes, r)
  {
    if Size(v) <= maxBytes {
      return Whole(v);
    }
    match v
    case Text(chars) =>
      return Shortened(Text(TruncateText(chars, maxBytes)));
    case Other(_) =>
      return Denied(DENY_OUTPUT_TOO_LARGE);
    case List(items) =>
      var kept: seq<Value> := [];
      var i := 0;
      while i < |items|
        invariant 0 <= i <= |items|
        invariant kept == items[..i]
        invariant i > 0 ==> Fits(items, i, maxBytes)
      {
        assert items[..i + 1] == kept + [items[i]];
        if Size(List(kept + [items[i]])) > maxBytes {
          break;
        }
        kept := kept + [items[i]];
        i := i + 1;
      }
      assert items[..|items|] == items;
      forall j | 1 <= j <= |items| ensures Fits(items, j, maxBytes) <==> j <= i {
        if j <= i {
          PrefixSizes(items, j, i);
        } else {
          PrefixSizes(items, i + 1, j);
        }
      }
      if kept == [] {
        return Denied(DENY_OUTPUT_TOO_LARGE);
      }
      return Shortened(List(kept));
  }

  lemma MarkerReads()
    ensures |MARKER| == 11 && forall i | 0 <= i < 11 :: MARKER[i] == "[truncated]"[i] as int
  {
  }

  /** What the cap returns, measured in JSON text: a value that is not too long, as it is; a text cut and marked;
      a list's first items, as many as are not too long; and otherwise a refusal. */
  lemma CapReads(v: Value, maxBytes: int, r: Capped)
    requires IsCapped(v, maxBytes, r)
    ensures if |Rendered(v)| <= maxBytes then r == Whole(v)
            else match v
              case Text(chars) => r == Shortened(Text(TruncateText(chars, maxBytes)))
              case Other(_) => r == Denied("denied:output_too_large")
              case List(items) =>
                if r.Denied? then
                  r.reason == "denied:output_too_large"
                  && (items != [] ==> |Rendered(List(items[..1]))| > maxBytes)
                else
                  && r.Shortened? && r.value.List?
                  && var k := |r.value.items|;
                     && 1 <= k < |items| && r.value.items == items[..k]
                     && |Rendered(List(items[..k]))| <= maxBytes && |Rendered(List(items[..k + 1]))| > maxBytes
  {
    SizeIsLength(v);
    hide Rendered;
    hide TruncateText;
    if v.List? {
      forall k | 1 <= k <= |v.items|
        ensures |Rendered(List(v.items[..k]))| <= maxBytes <==> Fits(v.items, k, maxBytes)
      {
        SizeIsLength(List(v.items[..k]));
      }
      hide Fits;
      hide Size;
    }
  }

  /** The capped result is determined, so the specification leaves the method no choice. */
  lemma CappedIsUnique(v: Value, maxBytes: int, r1: Capped, r2: Capped)
    requires IsCapped(v, maxBytes, r1) && IsCapped(v, maxBytes, r2)
    ensures r1 == r2
  {
    hide Size;
    hide TruncateText;
    hide Fits;
    if Size(v) > maxBytes && v.List? && v.items != [] && Fits(v.items, 1, maxBytes) {
      var k1, k2 := |r1.value.items|, |r2.value.items|;
      assert Fits(v.items, k1, maxBytes) && Fits(v.items, k2, maxBytes);
    }
  }
}
