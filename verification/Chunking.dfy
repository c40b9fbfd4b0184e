/** Markdown into parent and child chunks: front matter, headings, parent windows, child windows. */
module Chunking {
  import opened Text
  import opened Windows

  const PARENT := Sizes(3500, 5000, 400)
  const CHILD := Sizes(800, 1200, 100)

  datatype Role = Parent | Child

  datatype Chunk = Chunk(id: string, text: string, sourcePath: string, section: string,
                         role: Role, parentId: string)

  datatype Section = Section(heading: string, text: string)

  /** Sixteen hexadecimal characters of the SHA-256 of a text. */
  type Digest = string -> string

  // ----- front matter and headings --------------------------------------------------------

  predicate StartsWith(s: string, prefix: string) {
    |prefix| <= |s| && s[..|prefix|] == prefix
  }

  /** Where the closing fence starts, looking from `i`; the length when there is none. */
  function FenceAt(raw: string, i: nat): (j: nat)
    requires i <= |raw|
    ensures j <= |raw|
    ensures j < |raw| ==> j >= i && StartsWith(raw[j..], "\n---")
    decreases |raw| - i
  {
    if i == |raw| || StartsWith(raw[i..], "\n---") then i else FenceAt(raw, i + 1)
  }

  /** The document without its front matter. */
  function Body(raw: string): string {
    if !StartsWith(raw, "---\n") then raw
    else
      var j := FenceAt(raw, 4);
      if j == |raw| then raw
      else raw[j + 4 + (if j + 4 < |raw| && raw[j + 4] == '\n' then 1 else 0)..]
  }

  function Hashes(line: string): (n: nat)
    ensures n <= |line|
  {
    if line == [] || line[0] != '#' then 0 else 1 + Hashes(line[1..])
  }

  /** One to six hash marks, white space, and something after it. */
  predicate IsHeading(line: string) {
    var n := Hashes(line);
    1 <= n <= 6 && n + 1 < |line| && IsSpace(line[n])
  }

  function Title(line: string): string {
    Strip(line[Hashes(line)..])
  }

  function Flushed(heading: string, lines: seq<string>): seq<Section> {
    var text := Strip(Join(lines, "\n"));
    if text == [] then [] else [Section(heading, text)]
  }

  function Sections(lines: seq<string>, heading: string, pending: seq<string>): seq<Section>
    decreases |lines|
  {
    if lines == [] then Flushed(heading, pending)
    else if IsHeading(lines[0]) then
      Flushed(heading, pending) + Sections(lines[1..], Title(lines[0]), [lines[0]])
    else Sections(lines[1..], heading, pending + [lines[0]])
  }

  function SplitByHeading(body: string): seq<Section> {
    var sections := Sections(SplitLines(body), "lead", []);
    if Strip(body) == [] then []
    else if sections != [] then sections
    else [Section("lead", Strip(body))]
  }

  method SplitHeadings(body: string) returns (sections: seq<Section>)
    ensures sections == SplitByHeading(body)
  {
    var lines := SplitLines(body);
    var heading, pending := "lead", [];
    sections := [];
    for i := 0 to |lines|
      invariant sections + Sections(lines[i..], heading, pending) == Sections(lines, "lead", [])
    {
      assert lines[i..][1..] == lines[i + 1..];
      if IsHeading(lines[i]) {
        sections := sections + Flushed(heading, pending);
        heading, pending := Title(lines[i]), [lines[i]];
      } else {
        pending := pending + [lines[i]];
      }
    }
    sections := sections + Flushed(heading, pending);
    if Strip(body) == [] {
      return [];
    }
    if sections == [] {
      return [Section("lead", Strip(body))];
    }
  }

  // ----- chunk ids ------------------------------------------------------------------------

  function DigitChar(d: nat): char
    requires d < 10
  {
    '0' + d as char
  }

  predicate IsDigit(c: char) {
    '0' <= c <= '9'
  }

  function Decimal(n: nat): (s: string)
    ensures s != [] && forall i | 0 <= i < |s| :: IsDigit(s[i])
  {
    if n < 10 then [DigitChar(n)] else Decimal(n / 10) + [DigitChar(n % 10)]
  }

  /** At least four digits, padded with zeros on the left. */
  function Padded(n: nat): (s: string)
    ensures forall i | 0 <= i < |s| :: IsDigit(s[i])
  {
    var d := Decimal(n);
    if |d| >= 4 then d else Zeros(4 - |d|) + d
  }

  function KindChar(role: Role): char {
    if role == Parent then 'p' else 'c'
  }

  function ChunkId(digest: Digest, role: Role, index: nat, path: string, section: string, text: string): string {
    path + "#" + [KindChar(role)] + Padded(index) + "-" + digest(path + ['\0'] + section + ['\0'] + text)
  }

  /** A chunk id as documented: path, kind, number with at least four digits, and digest of path, heading and text. */
  lemma ChunkIdExactly(digest: Digest, role: Role, index: nat, path: string, section: string, text: string)
    ensures ChunkId(digest, role, index, path, section, text)
         == path + "#" + (if role == Parent then "p" else "c") + Padded(index)
            + "-" + digest(path + "\0" + section + "\0" + text)
    ensures |Padded(index)| >= 4 && (index >= 1000 ==> Padded(index)[0] != '0')
  {
    FirstDigit(index);
  }

  lemma {:induction false} FirstDigit(n: nat)
    ensures (n >= 1 ==> Decimal(n)[0] != '0') && (|Decimal(n)| >= 4 <==> n >= 1000)
    ensures |Decimal(n)| >= 3 <==> n >= 100
    ensures |Decimal(n)| >= 2 <==> n >= 10
  {
    if n >= 10 {
      FirstDigit(n / 10);
    }
  }

  function Value(s: string): nat
    requires forall i | 0 <= i < |s| :: IsDigit(s[i])
  {
    if s == [] then 0
    else
      assert IsDigit(s[|s| - 1]);
      Value(s[..|s| - 1]) * 10 + (s[|s| - 1] as int - '0' as int)
  }

  lemma {:induction false} ValueOfDecimal(n: nat)
    ensures Value(Decimal(n)) == n
  {
    if n >= 10 {
      ValueOfDecimal(n / 10);
      assert Decimal(n)[..|Decimal(n)| - 1] == Decimal(n / 10);
    }
  }

  lemma {:induction false} LeadingZeros(k: nat, s: string)
    requires forall i | 0 <= i < |s| :: IsDigit(s[i])
    ensures Value(Zeros(k) + s) == Value(s)
    decreases k + |s|
  {
    if s != [] {
      assert (Zeros(k) + s)[..k + |s| - 1] == Zeros(k) + s[..|s| - 1];
      LeadingZeros(k, s[..|s| - 1]);
    } else if k > 0 {
      assert (Zeros(k) + s)[..k - 1] == Zeros(k - 1) + s;
      LeadingZeros(k - 1, s);
    }
  }

  lemma ValueOfPadded(n: nat)
    ensures Value(Padded(n)) == n
  {
    ValueOfDecimal(n);
    var d := Decimal(n);
    if |d| < 4 {
      LeadingZeros(4 - |d|, d);
    }
  }

  /** Two digit runs that end two equal strings right after a character that is no digit are the same
      run. */
  lemma DigitTail(x1: string, c1: char, d1: string, x2: string, c2: char, d2: string)
    requires !IsDigit(c1) && !IsDigit(c2)
    requires (forall i | 0 <= i < |d1| :: IsDigit(d1[i])) && (forall i | 0 <= i < |d2| :: IsDigit(d2[i]))
    requires x1 + [c1] + d1 == x2 + [c2] + d2
    ensures x1 == x2 && c1 == c2 && d1 == d2
  {
    var s1, s2 := x1 + [c1] + d1, x2 + [c2] + d2;
    assert s1[|x1|] == c1 && s2[|x2|] == c2;
    assert forall i | |x1| < i < |s1| :: s1[i] == d1[i - |x1| - 1];
    assert forall i | |x2| < i < |s2| :: s2[i] == d2[i - |x2| - 1];
    assert |x1| == |x2|;
    assert x1 == s1[..|x1|] && x2 == s2[..|x2|] && d1 == s1[|x1| + 1..] && d2 == s2[|x2| + 1..];
  }

  lemma DropTail(x1: string, y1: string, x2: string, y2: string)
    requires |y1| == |y2| && x1 + y1 == x2 + y2
    ensures x1 == x2 && y1 == y2
  {
    assert x1 == (x1 + y1)[..|x1|] && x2 == (x2 + y2)[..|x2|];
    assert y1 == (x1 + y1)[|x1|..] && y2 == (x2 + y2)[|x2|..];
  }

  /** Ids are unique across path, kind and index, whatever the digests are. */
  lemma ChunkIdInjective(digest: Digest, r1: Role, i1: nat, p1: string, s1: string, t1: string,
                         r2: Role, i2: nat, p2: string, s2: string, t2: string)
    requires forall t :: |digest(t)| == 16
    requires ChunkId(digest, r1, i1, p1, s1, t1) == ChunkId(digest, r2, i2, p2, s2, t2)
    ensures r1 == r2 && i1 == i2 && p1 == p2
  {
    var g1 := digest(p1 + ['\0'] + s1 + ['\0'] + t1);
    var g2 := digest(p2 + ['\0'] + s2 + ['\0'] + t2);
    var a1, a2 := p1 + "#" + [KindChar(r1)] + Padded(i1), p2 + "#" + [KindChar(r2)] + Padded(i2);
    assert ChunkId(digest, r1, i1, p1, s1, t1) == a1 + ("-" + g1);
    assert ChunkId(digest, r2, i2, p2, s2, t2) == a2 + ("-" + g2);
    DropTail(a1, "-" + g1, a2, "-" + g2);
    DigitTail(p1 + "#", KindChar(r1), Padded(i1), p2 + "#", KindChar(r2), Padded(i2));
    DropTail(p1, "#", p2, "#");
    ValueOfPadded(i1);
    ValueOfPadded(i2);
  }

  // ----- the document ---------------------------------------------------------------------

  function ChildChunk(digest: Digest, path: string, heading: string, parentId: string, text: string,
                      index: nat): Chunk {
    Chunk(ChunkId(digest, Child, index, path, heading, text), text, path, heading, Child, parentId)
  }

  function ParentChunk(digest: Digest, path: string, heading: string, text: string, index: nat): Chunk {
    var id := ChunkId(digest, Parent, index, path, heading, text);
    Chunk(id, text, path, heading, Parent, id)
  }

  function Children(digest: Digest, path: string, heading: string, parentId: string, texts: seq<string>,
                    index: nat): (r: seq<Chunk>)
    ensures |r| == |texts|
  {
    if texts == [] then []
    else [ChildChunk(digest, path, heading, parentId, texts[0], index)]
         + Children(digest, path, heading, parentId, texts[1..], index + 1)
  }

  /** A parent window followed by its child windows. */
  function Family(digest: Digest, path: string, heading: string, window: string, p: nat, c: nat): seq<Chunk> {
    var parent := ParentChunk(digest, path, heading, window, p);
    [parent] + Children(digest, path, heading, parent.id, SplitBySize(window, CHILD), c)
  }

  /** The chunks of one section's parent windows; the counters run through the whole document. */
  function Parents(digest: Digest, path: string, heading: string, windows: seq<string>, p: nat, c: nat): seq<Chunk>
    decreases |windows|
  {
    if windows == [] then []
    else
      Family(digest, path, heading, windows[0], p, c)
      + Parents(digest, path, heading, windows[1..], p + 1, c + |SplitBySize(windows[0], CHILD)|)
  }

  function CountChildren(windows: seq<string>): nat {
    if windows == [] then 0 else |SplitBySize(windows[0], CHILD)| + CountChildren(windows[1..])
  }

  function SectionChunks(digest: Digest, path: string, sections: seq<Section>, p: nat, c: nat): seq<Chunk>
    decreases |sections|
  {
    if sections == [] then []
    else
      var windows := SplitBySize(sections[0].text, PARENT);
      Parents(digest, path, sections[0].heading, windows, p, c)
      + SectionChunks(digest, path, sections[1..], p + |windows|, c + CountChildren(windows))
  }

  function Document(digest: Digest, path: string, raw: string): seq<Chunk> {
    SectionChunks(digest, path, SplitByHeading(Body(raw)), 0, 0)
  }

  method ChunkDocument(digest: Digest, path: string, raw: string) returns (chunks: seq<Chunk>)
    ensures chunks == Document(digest, path, raw)
  {
    hide SplitByHeading;
    hide Body;
    hide Parents;
    hide CountChildren;
    hide SplitBySize;
    var sections := SplitHeadings(Body(raw));
    chunks := [];
    var parentIndex, childIndex := 0, 0;
    for i := 0 to |sections|
      invariant chunks + SectionChunks(digest, path, sections[i..], parentIndex, childIndex)
             == Document(digest, path, raw)
    {
      assert sections[i..][1..] == sections[i + 1..];
      var windows := SplitText(sections[i].text, PARENT);
      chunks, parentIndex, childIndex :=
        AddWindows(digest, path, sections[i].heading, windows, chunks, parentIndex, childIndex);
    }
  }

  method AddWindows(digest: Digest, path: string, heading: string, windows: seq<string>,
                    chunks: seq<Chunk>, parentIndex: nat, childIndex: nat)
    returns (chunks': seq<Chunk>, parentIndex': nat, childIndex': nat)
    ensures chunks' == chunks + Parents(digest, path, heading, windows, parentIndex, childIndex)
    ensures parentIndex' == parentIndex + |windows| && childIndex' == childIndex + CountChildren(windows)
  {
    hide SplitBySize;
    hide Family;
    chunks', parentIndex', childIndex' := chunks, parentIndex, childIndex;
    for i := 0 to |windows|
      invariant parentIndex' == parentIndex + i
      invariant childIndex' + CountChildren(windows[i..]) == childIndex + CountChildren(windows)
      invariant chunks' + Parents(digest, path, heading, windows[i..], parentIndex', childIndex')
             == chunks + Parents(digest, path, heading, windows, parentIndex, childIndex)
    {
      assert windows[i..][1..] == windows[i + 1..];
      chunks', parentIndex', childIndex' :=
        AddFamily(digest, path, heading, windows[i], chunks', parentIndex', childIndex');
    }
  }

  /** One turn of the parent loop. */
  method AddFamily(digest: Digest, path: string, heading: string, window: string,
                   chunks: seq<Chunk>, parentIndex: nat, childIndex: nat)
    returns (chunks': seq<Chunk>, parentIndex': nat, childIndex': nat)
    ensures chunks' == chunks + Family(digest, path, heading, window, parentIndex, childIndex)
    ensures parentIndex' == parentIndex + 1 && childIndex' == childIndex + |SplitBySize(window, CHILD)|
  {
    hide SplitBySize;
    hide Children;
    var parent := ParentChunk(digest, path, heading, window, parentIndex);
    chunks' := chunks + [parent];
    var texts := SplitText(window, CHILD);
    chunks' := AddChildren(digest, path, heading, parent.id, texts, chunks', childIndex);
    parentIndex', childIndex' := parentIndex + 1, childIndex + |texts|;
  }

  method AddChildren(digest: Digest, path: string, heading: string, parentId: string, texts: seq<string>,
                     chunks: seq<Chunk>, childIndex: nat)
    returns (chunks': seq<Chunk>)
    ensures chunks' == chunks + Children(digest, path, heading, parentId, texts, childIndex)
  {
    hide ChildChunk;
    chunks' := chunks;
    for i := 0 to |texts|
      invariant chunks' + Children(digest, path, heading, parentId, texts[i..], childIndex + i)
             == chunks + Children(digest, path, heading, parentId, texts, childIndex)
    {
      assert texts[i..][1..] == texts[i + 1..];
      chunks' := chunks' + [ChildChunk(digest, path, heading, parentId, texts[i], childIndex + i)];
    }
  }

  /** Children only: what ingest embeds and search returns. */
  function Retrieval(chunks: seq<Chunk>): (r: seq<Chunk>)
    ensures forall c | c in r :: c in chunks && c.role == Child
    ensures forall c | c in chunks && c.role == Child :: c in r
  {
    if chunks == [] then []
    else (if chunks[0].role == Child then [chunks[0]] else []) + Retrieval(chunks[1..])
  }

  lemma {:induction false} RetrievalConcat(x: seq<Chunk>, y: seq<Chunk>)
    ensures Retrieval(x + y) == Retrieval(x) + Retrieval(y)
  {
    if x == [] {
      assert x + y == y;
    } else {
      assert (x + y)[1..] == x[1..] + y;
      RetrievalConcat(x[1..], y);
    }
  }
}
