/** From document to child chunks: no text lost, ids unique, sizes bounded, every child tied to the
    parent it was cut from. */
module ChunkCover {
  import opened Text
  import opened Cover
  import opened Windows
  import opened WindowCover
  import opened Chunking

  function TextsOf(sections: seq<Section>): seq<string> {
    if sections == [] then [] else [sections[0].text] + TextsOf(sections[1..])
  }

  function Texts(chunks: seq<Chunk>): (r: seq<string>)
    ensures |r| == |chunks| && forall i | 0 <= i < |chunks| :: r[i] == chunks[i].text
  {
    seq(|chunks|, i requires 0 <= i < |chunks| => chunks[i].text)
  }

  // ----- sections -------------------------------------------------------------------------

  lemma {:induction false} TextsOfConcat(x: seq<Section>, y: seq<Section>)
    ensures TextsOf(x + y) == TextsOf(x) + TextsOf(y)
  {
    if x == [] {
      assert x + y == y;
    } else {
      assert (x + y)[1..] == x[1..] + y;
      TextsOfConcat(x[1..], y);
    }
  }

  lemma FlushKeeps(heading: string, lines: seq<string>)
    ensures SqueezeAll(TextsOf(Flushed(heading, lines))) == SqueezeAll(lines)
  {
    var joined := Join(lines, "\n");
    SqueezeSpaces("\n");
    SqueezeJoin(lines, "\n");
    SqueezeStrip(joined);
    StripEmpty(joined);
    if Strip(joined) != [] {
      var t := TextsOf(Flushed(heading, lines));
      assert t == [Strip(joined)] && t[1..] == [];
    }
  }

  /** Headings stay inside their sections, so cutting at headings loses white space only. */
  lemma {:induction false} SectionsKeep(lines: seq<string>, heading: string, pending: seq<string>)
    ensures SqueezeAll(TextsOf(Sections(lines, heading, pending))) == SqueezeAll(pending) + SqueezeAll(lines)
    decreases |lines|
  {
    hide Flushed;
    hide IsHeading;
    hide Squeeze;
    if lines == [] {
      FlushKeeps(heading, pending);
    } else {
      var line, rest := lines[0], lines[1..];
      assert SqueezeAll([line]) == Squeeze(line) by { assert [line][1..] == []; }
      if IsHeading(line) {
        FlushKeeps(heading, pending);
        SectionsKeep(rest, Title(line), [line]);
        TextsOfConcat(Flushed(heading, pending), Sections(rest, Title(line), [line]));
        SqueezeAllConcat(TextsOf(Flushed(heading, pending)), TextsOf(Sections(rest, Title(line), [line])));
      } else {
        SectionsKeep(rest, heading, pending + [line]);
        SqueezeAllConcat(pending, [line]);
      }
    }
  }

  /** The sections of a body, white space aside, are the body, and the fallback section for a body
      without sections is never needed. */
  lemma HeadingsKeepText(body: string)
    ensures SqueezeAll(TextsOf(SplitByHeading(body))) == Squeeze(body)
    ensures SplitByHeading(body) == Sections(SplitLines(body), "lead", [])
  {
    SectionsKeep(SplitLines(body), "lead", []);
    SplitLinesKeepsText(body);
    StripEmpty(body);
    var sections := Sections(SplitLines(body), "lead", []);
    SectionsNonEmpty(SplitLines(body), "lead", []);
    if sections != [] {
      StripEmpty(sections[0].text);
      assert SqueezeAll(TextsOf(sections)) == Squeeze(sections[0].text) + SqueezeAll(TextsOf(sections)[1..]);
      assert Squeeze(body) != [];
    }
    assert SqueezeAll([]) == [];
  }

  lemma {:induction false} SectionsNonEmpty(lines: seq<string>, heading: string, pending: seq<string>)
    ensures forall i | 0 <= i < |Sections(lines, heading, pending)| ::
              var t := Sections(lines, heading, pending)[i].text; t != [] && Strip(t) == t
    decreases |lines|
  {
    StripTwice(Join(pending, "\n"));
    hide Strip;
    if lines != [] {
      SectionsNonEmpty(lines[1..], Title(lines[0]), [lines[0]]);
      SectionsNonEmpty(lines[1..], heading, pending + [lines[0]]);
    }
  }

  // ----- where sections begin -------------------------------------------------------------

  /** One to six hashes, white space, and at least one more character. */
  predicate HeadingLine(line: string, n: nat) {
    && 1 <= n <= 6 && n + 1 < |line|
    && (forall i | 0 <= i < n :: line[i] == '#') && IsSpace(line[n])
  }

  ghost predicate Heading(line: string) {
    exists n: nat :: HeadingLine(line, n)
  }

  /** The section begins at the line: at a heading it is named after what follows the hashes, and only a document
      that does not open with a heading has a lead. */
  ghost predicate Named(lines: seq<string>, a: nat, heading: string)
    requires a < |lines|
  {
    if Heading(lines[a]) then exists n: nat :: HeadingLine(lines[a], n) && heading == Strip(lines[a][n..])
    else a == 0 && heading == "lead"
  }

  /** The section is the lines from `a` up to the next heading. */
  ghost predicate SectionAt(lines: seq<string>, section: Section, a: nat, b: nat) {
    && a < b <= |lines| && Named(lines, a, section.heading)
    && (forall i | a < i < b :: !Heading(lines[i])) && (b < |lines| ==> Heading(lines[b]))
    && section.text == Strip(Join(lines[a..b], "\n")) != []
  }

  ghost predicate Begins(lines: seq<string>, section: Section, a: nat) {
    exists b: nat :: SectionAt(lines, section, a, b)
  }

  ghost predicate CutAt(lines: seq<string>, sections: seq<Section>, starts: seq<nat>) {
    && |starts| == |sections|
    && (forall i, j | 0 <= i < j < |starts| :: starts[i] < starts[j])
    && forall i | 0 <= i < |starts| :: Begins(lines, sections[i], starts[i])
  }

  lemma {:induction false} HashesAre(line: string, n: nat)
    requires n < |line| && line[n] != '#' && forall i | 0 <= i < n :: line[i] == '#'
    ensures Hashes(line) == n
  {
    if n > 0 {
      HashesAre(line[1..], n - 1);
    }
  }

  lemma {:induction false} HashesLead(line: string)
    ensures forall i | 0 <= i < Hashes(line) :: line[i] == '#'
  {
    if line != [] && line[0] == '#' {
      HashesLead(line[1..]);
      forall i | 0 <= i < Hashes(line) ensures line[i] == '#' {
        assert i > 0 ==> line[i] == line[1..][i - 1];
      }
    }
  }

  lemma HeadingIs(line: string)
    ensures IsHeading(line) <==> Heading(line)
    ensures IsHeading(line) ==> HeadingLine(line, Hashes(line)) && Title(line) == Strip(line[Hashes(line)..])
  {
    HashesLead(line);
    assert IsHeading(line) ==> HeadingLine(line, Hashes(line));
    if Heading(line) {
      var n: nat :| HeadingLine(line, n);
      HashesAre(line, n);
    }
  }

  lemma {:induction false} SectionsFrom(lines: seq<string>, a: nat, k: nat, heading: string) returns (starts: seq<nat>)
    requires a <= k <= |lines|
    requires if a == k then a == 0 && heading == "lead" else Named(lines, a, heading)
    requires forall i | a < i < k :: !Heading(lines[i])
    ensures CutAt(lines, Sections(lines[k..], heading, lines[a..k]), starts)
    ensures forall i | 0 <= i < |starts| :: starts[i] >= a
    decreases |lines| - k
  {
    hide Heading;
    hide Title;
    hide Strip;
    hide IsHeading;
    hide Flushed;
    hide CutAt;
    if k < |lines| {
      assert lines[k..][0] == lines[k] && lines[k..][1..] == lines[k + 1..];
      HeadingIs(lines[k]);
      if IsHeading(lines[k]) {
        assert lines[k..k + 1] == [lines[k]];
        var rest := SectionsFrom(lines, k, k + 1, Title(lines[k]));
        starts := FlushAt(lines, a, k, heading, Sections(lines[k + 1..], Title(lines[k]), [lines[k]]), rest);
      } else {
        assert lines[a..k] + [lines[k]] == lines[a..k + 1];
        starts := SectionsFrom(lines, a, k + 1, heading);
      }
    } else {
      NothingCut(lines);
      starts := FlushAt(lines, a, k, heading, [], []);
      assert lines[k..] == [];
      assert Flushed(heading, lines[a..k]) + [] == Flushed(heading, lines[a..k]);
    }
  }

  lemma FlushAt(lines: seq<string>, a: nat, k: nat, heading: string, sections: seq<Section>, rest: seq<nat>)
    returns (starts: seq<nat>)
    requires a <= k <= |lines| && (k < |lines| ==> Heading(lines[k]))
    requires if a == k then a == 0 else Named(lines, a, heading)
    requires forall i | a < i < k :: !Heading(lines[i])
    requires CutAt(lines, sections, rest) && forall i | 0 <= i < |rest| :: rest[i] >= k
    ensures CutAt(lines, Flushed(heading, lines[a..k]) + sections, starts)
    ensures forall i | 0 <= i < |starts| :: starts[i] >= a
  {
    hide Heading;
    hide Named;
    hide Strip;
    hide Join;
    hide Begins;
    var flushed := Flushed(heading, lines[a..k]);
    if flushed == [] {
      starts := rest;
      assert flushed + sections == sections;
    } else {
      FlushBegins(lines, a, k, heading);
      starts := [a] + rest;
      hide Flushed;
      var all := flushed + sections;
      forall i | 0 <= i < |starts| ensures Begins(lines, all[i], starts[i]) {
        if i > 0 {
          assert all[i] == sections[i - 1] && starts[i] == rest[i - 1];
        }
      }
    }
  }

  lemma FlushBegins(lines: seq<string>, a: nat, k: nat, heading: string)
    requires a <= k <= |lines| && (k < |lines| ==> Heading(lines[k])) && Flushed(heading, lines[a..k]) != []
    requires a < k ==> Named(lines, a, heading)
    requires forall i | a < i < k :: !Heading(lines[i])
    ensures a < k && |Flushed(heading, lines[a..k])| == 1 && Begins(lines, Flushed(heading, lines[a..k])[0], a)
  {
    hide Heading;
    hide Named;
    hide Strip;
    NothingFlushed(lines, a, k, heading);
    hide Join;
    assert SectionAt(lines, Flushed(heading, lines[a..k])[0], a, k);
  }

  lemma NothingCut(lines: seq<string>)
    ensures CutAt(lines, [], [])
  {
  }

  lemma NothingFlushed(lines: seq<string>, a: nat, k: nat, heading: string)
    requires a <= k <= |lines|
    ensures Flushed(heading, lines[a..k]) != [] ==> a < k
  {
    if a == k {
      assert lines[a..k] == [];
      assert Join([], "\n") == [] && Strip([]) == [];
    }
  }

  /** The sections of a body, exactly: each runs from a heading, or from the first line, to the next heading, is named
      after its heading, or `lead`, and holds its lines, heading included. With the text all kept, none is missing. */
  lemma SectionsExactly(body: string) returns (starts: seq<nat>)
    ensures CutAt(SplitLines(body), SplitByHeading(body), starts)
    ensures SqueezeAll(TextsOf(SplitByHeading(body))) == Squeeze(body)
  {
    HeadingsKeepText(body);
    var lines := SplitLines(body);
    assert lines[0..] == lines && lines[0..0] == [];
    starts := SectionsFrom(lines, 0, 0, "lead");
  }

  // ----- composition ----------------------------------------------------------------------

  function Groups(texts: seq<string>, z: Sizes): (r: seq<seq<string>>)
    requires z.target >= 1
    ensures |r| == |texts| && forall i | 0 <= i < |texts| :: r[i] == SplitBySize(texts[i], z)
  {
    seq(|texts|, i requires 0 <= i < |texts| => SplitBySize(texts[i], z))
  }

  function SqueezeGroups(groups: seq<seq<string>>): (r: seq<seq<string>>)
    ensures |r| == |groups| && forall i | 0 <= i < |groups| :: r[i] == SqueezeEach(groups[i])
  {
    seq(|groups|, i requires 0 <= i < |groups| => SqueezeEach(groups[i]))
  }

  lemma {:induction false} SqueezeFlatten(groups: seq<seq<string>>)
    ensures Flatten(SqueezeGroups(groups)) == SqueezeEach(Flatten(groups))
  {
    if groups != [] {
      SqueezeFlatten(groups[1..]);
      assert SqueezeGroups(groups)[1..] == SqueezeGroups(groups[1..]);
      SqueezeEachConcat(groups[0], Flatten(groups[1..]));
    }
  }

  /** Cutting every text of a covering list into windows leaves a covering list. */
  lemma CutAll(src: string, texts: seq<string>, z: Sizes)
    requires z.target >= 1 && Covers(src, SqueezeEach(texts))
    ensures Covers(src, SqueezeEach(Flatten(Groups(texts, z))))
  {
    hide Covers;
    hide SplitBySize;
    var groups := Groups(texts, z);
    forall i | 0 <= i < |texts| ensures Covers(SqueezeEach(texts)[i], SqueezeGroups(groups)[i]) {
      WindowsCover(texts[i], z);
    }
    CoversThrough(src, SqueezeEach(texts), SqueezeGroups(groups));
    SqueezeFlatten(groups);
  }

  /** Texts laid end to end cover what they spell. */
  lemma LaidEndToEnd(texts: seq<string>)
    ensures Covers(SqueezeAll(texts), SqueezeEach(texts))
  {
    var ms := LayFrom(SqueezeAll(texts), texts, 0);
  }

  lemma {:induction false} LayFrom(src: string, texts: seq<string>, lo: nat) returns (ms: seq<seq<nat>>)
    requires lo <= |src| && src[lo..] == SqueezeAll(texts)
    ensures Placed(src, SqueezeEach(texts), ms)
    ensures forall p | lo <= p < |src| :: p in Hits(ms)
  {
    hide Squeeze;
    if texts == [] {
      ms := [];
    } else {
      var hi := lo + |Squeeze(texts[0])|;
      assert src[hi..] == src[lo..][hi - lo..] == SqueezeAll(texts[1..]);
      assert src[lo..hi] == src[lo..][..hi - lo] == Squeeze(texts[0]);
      hide SqueezeAll;
      var rest := LayFrom(src, texts[1..], hi);
      ms := [Range(lo, hi)] + rest;
      assert SqueezeEach(texts) == [Squeeze(texts[0])] + SqueezeEach(texts[1..]);
      hide SqueezeEach;
      LayOne(src, lo, hi, SqueezeEach(texts[1..]), rest);
    }
  }

  lemma LayOne(src: string, lo: nat, hi: nat, pieces: seq<string>, rest: seq<seq<nat>>)
    requires lo <= hi <= |src| && Placed(src, pieces, rest) && forall p | hi <= p < |src| :: p in Hits(rest)
    ensures Placed(src, [src[lo..hi]] + pieces, [Range(lo, hi)] + rest)
    ensures forall p | lo <= p < |src| :: p in Hits([Range(lo, hi)] + rest)
  {
    var ms := [Range(lo, hi)] + rest;
    RangePicks(src, lo, hi);
    forall p | lo <= p < |src| ensures p in Hits(ms) {
      if p < hi {
        assert ms[0][p - lo] == p;
      }
      assert ms[1..] == rest;
    }
  }

  // ----- the chunks of a document ---------------------------------------------------------

  lemma {:induction false} FlattenConcat(x: seq<seq<string>>, y: seq<seq<string>>)
    ensures Flatten(x + y) == Flatten(x) + Flatten(y)
  {
    if x == [] {
      assert x + y == y;
    } else {
      assert (x + y)[1..] == x[1..] + y;
      FlattenConcat(x[1..], y);
    }
  }

  lemma {:induction false} ChildrenTexts(digest: Digest, path: string, heading: string, parentId: string,
                                         texts: seq<string>, index: nat)
    ensures var cs := Children(digest, path, heading, parentId, texts, index);
            Retrieval(cs) == cs && Texts(cs) == texts
  {
    if texts != [] {
      ChildrenTexts(digest, path, heading, parentId, texts[1..], index + 1);
      var cs := Children(digest, path, heading, parentId, texts, index);
      assert cs[1..] == Children(digest, path, heading, parentId, texts[1..], index + 1);
    }
  }

  lemma TextsConcat(x: seq<Chunk>, y: seq<Chunk>)
    ensures Texts(x + y) == Texts(x) + Texts(y)
  {
  }

  lemma GroupsConcat(x: seq<string>, y: seq<string>, z: Sizes)
    requires z.target >= 1
    ensures Groups(x + y, z) == Groups(x, z) + Groups(y, z)
  {
    hide SplitBySize;
  }

  lemma FlattenGroupsStep(texts: seq<string>, z: Sizes)
    requires z.target >= 1 && texts != []
    ensures Flatten(Groups(texts, z)) == SplitBySize(texts[0], z) + Flatten(Groups(texts[1..], z))
  {
    hide SplitBySize;
    assert Groups(texts, z)[1..] == Groups(texts[1..], z);
  }

  /** A parent drops out of the retrieved chunks; its children stay. */
  lemma FamilyTexts(parent: Chunk, children: seq<Chunk>, rest: seq<Chunk>)
    requires parent.role == Parent && Retrieval(children) == children
    ensures Texts(Retrieval([parent] + children + rest)) == Texts(children) + Texts(Retrieval(rest))
  {
    assert Retrieval([parent]) == [] by { assert [parent][1..] == []; }
    RetrievalConcat([parent], children);
    RetrievalConcat([parent] + children, rest);
    assert [] + children == children;
    TextsConcat(children, Retrieval(rest));
  }

  lemma {:induction false} ParentsTexts(digest: Digest, path: string, heading: string, windows: seq<string>,
                                        p: nat, c: nat)
    ensures Texts(Retrieval(Parents(digest, path, heading, windows, p, c))) == Flatten(Groups(windows, CHILD))
    decreases |windows|
  {
    hide SplitBySize;
    hide Texts;
    if windows == [] {
      NoTexts();
    } else {
      var parent := ParentChunk(digest, path, heading, windows[0], p);
      var texts := SplitBySize(windows[0], CHILD);
      var children := Children(digest, path, heading, parent.id, texts, c);
      ParentsTexts(digest, path, heading, windows[1..], p + 1, c + |texts|);
      ChildrenTexts(digest, path, heading, parent.id, texts, c);
      FlattenGroupsStep(windows, CHILD);
      hide Children;
      hide Retrieval;
      hide Flatten;
      hide ParentChunk;
      FamilyTexts(parent, children, Parents(digest, path, heading, windows[1..], p + 1, c + |texts|));
    }
  }

  lemma NoTexts()
    ensures Texts(Retrieval([])) == []
  {
  }

  /** The child windows of the parent windows of some texts. */
  function Windowed(texts: seq<string>): seq<string> {
    Flatten(Groups(Flatten(Groups(texts, PARENT)), CHILD))
  }

  lemma WindowedStep(texts: seq<string>)
    requires texts != []
    ensures Windowed(texts) == Flatten(Groups(SplitBySize(texts[0], PARENT), CHILD)) + Windowed(texts[1..])
  {
    hide SplitBySize;
    FlattenGroupsStep(texts, PARENT);
    hide Flatten;
    hide Groups;
    var windows, more := SplitBySize(texts[0], PARENT), Flatten(Groups(texts[1..], PARENT));
    GroupsConcat(windows, more, CHILD);
    FlattenConcat(Groups(windows, CHILD), Groups(more, CHILD));
  }

  lemma NoneWindowed()
    ensures Windowed([]) == []
  {
  }

  lemma SectionStep(digest: Digest, path: string, sections: seq<Section>, p: nat, c: nat)
    requires sections != []
    ensures var windows := SplitBySize(sections[0].text, PARENT);
            SectionChunks(digest, path, sections, p, c)
            == Parents(digest, path, sections[0].heading, windows, p, c)
               + SectionChunks(digest, path, sections[1..], p + |windows|, c + CountChildren(windows))
  {
    hide SplitBySize;
    hide Parents;
    hide CountChildren;
  }

  lemma {:induction false} SectionTexts(digest: Digest, path: string, sections: seq<Section>, p: nat, c: nat)
    ensures Texts(Retrieval(SectionChunks(digest, path, sections, p, c))) == Windowed(TextsOf(sections))
    decreases |sections|
  {
    hide SplitBySize;
    hide Parents;
    hide Texts;
    hide Windowed;
    hide CountChildren;
    hide Retrieval;
    hide Flatten;
    hide Groups;
    if sections == [] {
      NoTexts();
      NoneWindowed();
    } else {
      SectionStep(digest, path, sections, p, c);
      hide SectionChunks;
      var windows := SplitBySize(sections[0].text, PARENT);
      var first := Parents(digest, path, sections[0].heading, windows, p, c);
      var rest := SectionChunks(digest, path, sections[1..], p + |windows|, c + CountChildren(windows));
      ParentsTexts(digest, path, sections[0].heading, windows, p, c);
      SectionTexts(digest, path, sections[1..], p + |windows|, c + CountChildren(windows));
      assert TextsOf(sections)[0] == sections[0].text && TextsOf(sections)[1..] == TextsOf(sections[1..]);
      hide TextsOf;
      WindowedStep(TextsOf(sections));
      RetrievalConcat(first, rest);
      TextsConcat(Retrieval(first), Retrieval(rest));
    }
  }

  lemma BodyIsCovered(digest: Digest, path: string, raw: string)
    ensures Covers(Squeeze(Body(raw)), SqueezeEach(Texts(Retrieval(Document(digest, path, raw)))))
  {
    hide Covers;
    hide SplitBySize;
    var sections := SplitByHeading(Body(raw));
    var texts := TextsOf(sections);
    HeadingsKeepText(Body(raw));
    hide SplitByHeading;
    LaidEndToEnd(texts);
    CutAll(Squeeze(Body(raw)), texts, PARENT);
    CutAll(Squeeze(Body(raw)), Flatten(Groups(texts, PARENT)), CHILD);
    SectionTexts(digest, path, sections, 0, 0);
  }

  /** A closing fence begins at `i`. */
  predicate Fence(raw: string, i: nat) {
    i + 4 <= |raw| && raw[i..i + 4] == "\n---"
  }

  /** The text opens with a fence that nothing closes, or with none. */
  predicate NoFrontMatter(raw: string) {
    |raw| < 4 || raw[..4] != "---\n" || forall i: nat | 4 <= i < |raw| :: !Fence(raw, i)
  }

  /** The text is front matter between two fences, the second one the first to close, and the rest. */
  predicate FrontMatter(raw: string, front: string, rest: string) {
    raw == "---\n" + front + "\n---" + rest && forall i: nat | 4 <= i < 4 + |front| :: !Fence(raw, i)
  }

  lemma {:induction false} FenceIsFirst(raw: string, i: nat, j: nat)
    requires i <= j <= |raw| && (j == |raw| || Fence(raw, j))
    requires forall k: nat | i <= k < j :: !Fence(raw, k)
    ensures FenceAt(raw, i) == j
    decreases j - i
  {
    assert forall k: nat | k < |raw| :: StartsWith(raw[k..], "\n---") <==> Fence(raw, k) by {
      forall k: nat | k < |raw| ensures StartsWith(raw[k..], "\n---") <==> Fence(raw, k) {
        if k + 4 <= |raw| {
          assert raw[k..][..4] == raw[k..k + 4];
        }
      }
    }
    if i < j {
      FenceIsFirst(raw, i + 1, j);
    }
  }

  /** Every character of a document that is not white space lies in some child chunk, and each chunk holds
      characters of the document only, in the order they have there: for every document, less its front matter
      and the fences around it. Between chunks there is no order to state, since a later one may repeat what an
      earlier one held. */
  lemma NoTextLost(digest: Digest, path: string, raw: string)
    ensures var chunks := SqueezeEach(Texts(Retrieval(Document(digest, path, raw))));
            && (NoFrontMatter(raw) ==> Covers(Squeeze(raw), chunks))
            && forall front, rest | FrontMatter(raw, front, rest) :: Covers(Squeeze(rest), chunks)
  {
    hide Document;
    hide Covers;
    hide Squeeze;
    BodyIsCovered(digest, path, raw);
    if NoFrontMatter(raw) {
      NoBodyCut(raw);
    }
    forall front, rest | FrontMatter(raw, front, rest) ensures Squeeze(Body(raw)) == Squeeze(rest) {
      BodyIsRest(raw, front, rest);
    }
  }

  lemma NoBodyCut(raw: string)
    requires NoFrontMatter(raw)
    ensures Body(raw) == raw
  {
    if StartsWith(raw, "---\n") {
      FenceIsFirst(raw, 4, |raw|);
    }
  }

  lemma BodyIsRest(raw: string, front: string, rest: string)
    requires FrontMatter(raw, front, rest)
    ensures Squeeze(Body(raw)) == Squeeze(rest)
  {
    var j := 4 + |front|;
    assert raw[..4] == "---\n" && raw[j..j + 4] == "\n---" && raw[j + 4..] == rest;
    FenceIsFirst(raw, 4, j);
    if rest != [] && rest[0] == '\n' {
      assert raw[j + 5..] == rest[1..];
      assert Squeeze(rest) == [] + Squeeze(rest[1..]);
    }
  }

  // ----- ids, sizes, parents --------------------------------------------------------------

  ghost predicate Numbered(digest: Digest, chunk: Chunk, n: nat) {
    chunk.id == ChunkId(digest, chunk.role, n, chunk.sourcePath, chunk.section, chunk.text)
  }

  /** A chunk of the file, within its size limit, numbered from the range of its role. */
  ghost predicate Fits(digest: Digest, path: string, chunk: Chunk, p: nat, c: nat, p': nat, c': nat) {
    && chunk.sourcePath == path
    && 0 < |chunk.text| <= SizeLimit(chunk.role)
    && exists n: nat :: Numbered(digest, chunk, n)
                        && if chunk.role == Parent then p <= n < p' else c <= n < c'
  }

  function SizeLimit(role: Role): nat {
    if role == Parent then 5402 else 1302
  }

  ghost predicate AllFit(digest: Digest, path: string, chunks: seq<Chunk>, p: nat, c: nat, p': nat, c': nat) {
    forall k | 0 <= k < |chunks| :: Fits(digest, path, chunks[k], p, c, p', c')
  }

  predicate DistinctIds(chunks: seq<Chunk>) {
    forall j, k | 0 <= j < k < |chunks| :: chunks[j].id != chunks[k].id
  }

  /** A parent names the child, shares its section and holds its text as one of its windows. */
  predicate IsParentOf(parent: Chunk, child: Chunk) {
    && parent.role == Parent && child.parentId == parent.id
    && parent.section == child.section
    && child.text in SplitBySize(parent.text, Sizes(800, 1200, 100))
  }

  predicate HasParent(before: seq<Chunk>, child: Chunk) {
    exists j :: 0 <= j < |before| && IsParentOf(before[j], child)
  }

  predicate Parented(chunks: seq<Chunk>) {
    forall k | 0 <= k < |chunks| && chunks[k].role == Child :: HasParent(chunks[..k], chunks[k])
  }

  /** What holds of the chunks numbered from `p` and `c` up to `p'` and `c'`. */
  ghost predicate WellFormed(digest: Digest, path: string, chunks: seq<Chunk>, p: nat, c: nat, p': nat, c': nat) {
    AllFit(digest, path, chunks, p, c, p', c') && DistinctIds(chunks) && Parented(chunks)
  }

  lemma IdsDiffer(digest: Digest, a: Chunk, n: nat, b: Chunk, m: nat)
    requires (forall t :: |digest(t)| == 16) && Numbered(digest, a, n) && Numbered(digest, b, m)
    requires a.role != b.role || n != m || a.sourcePath != b.sourcePath
    ensures a.id != b.id
  {
    hide ChunkId;
    if a.id == b.id {
      ChunkIdInjective(digest, a.role, n, a.sourcePath, a.section, a.text, b.role, m, b.sourcePath, b.section, b.text);
    }
  }

  /** Chunks numbered from ranges that do not meet, or of different files, have different ids. */
  lemma RangesDiffer(digest: Digest, path1: string, a: Chunk, p: nat, c: nat, p1: nat, c1: nat,
                     path2: string, b: Chunk, p2: nat, c2: nat, p3: nat, c3: nat)
    requires forall t :: |digest(t)| == 16
    requires Fits(digest, path1, a, p, c, p1, c1) && Fits(digest, path2, b, p2, c2, p3, c3)
    requires path1 != path2 || (p1 <= p2 && c1 <= c2)
    ensures a.id != b.id
  {
    hide Numbered;
    var n: nat :| Numbered(digest, a, n) && if a.role == Parent then p <= n < p1 else c <= n < c1;
    var m: nat :| Numbered(digest, b, m) && if b.role == Parent then p2 <= m < p3 else c2 <= m < c3;
    IdsDiffer(digest, a, n, b, m);
  }

  lemma FitsWider(digest: Digest, path: string, chunk: Chunk, p: nat, c: nat, p': nat, c': nat,
                  q: nat, d: nat, q': nat, d': nat)
    requires Fits(digest, path, chunk, p, c, p', c')
    requires q <= p && d <= c && p' <= q' && c' <= d'
    ensures Fits(digest, path, chunk, q, d, q', d')
  {
    hide Numbered;
  }

  lemma AllFitConcat(digest: Digest, path: string, x: seq<Chunk>, y: seq<Chunk>,
                     p: nat, c: nat, p1: nat, c1: nat, p2: nat, c2: nat)
    requires p <= p1 <= p2 && c <= c1 <= c2
    requires AllFit(digest, path, x, p, c, p1, c1) && AllFit(digest, path, y, p1, c1, p2, c2)
    ensures AllFit(digest, path, x + y, p, c, p2, c2)
  {
    hide Fits;
    var z := x + y;
    forall k | 0 <= k < |z| ensures Fits(digest, path, z[k], p, c, p2, c2) {
      if k < |x| {
        FitsWider(digest, path, x[k], p, c, p1, c1, p, c, p2, c2);
      } else {
        FitsWider(digest, path, y[k - |x|], p1, c1, p2, c2, p, c, p2, c2);
      }
    }
  }

  lemma ParentedConcat(x: seq<Chunk>, y: seq<Chunk>)
    requires Parented(x) && Parented(y)
    ensures Parented(x + y)
  {
    hide IsParentOf;
    var z := x + y;
    forall k | 0 <= k < |z| && z[k].role == Child ensures HasParent(z[..k], z[k]) {
      if k < |x| {
        assert z[..k] == x[..k];
      } else {
        var before := y[..k - |x|];
        assert HasParent(before, y[k - |x|]);
        var j :| 0 <= j < |before| && IsParentOf(before[j], z[k]);
        assert z[..k][|x| + j] == before[j];
      }
    }
  }

  lemma WellFormedConcat(digest: Digest, path: string, x: seq<Chunk>, y: seq<Chunk>,
                         p: nat, c: nat, p1: nat, c1: nat, p2: nat, c2: nat)
    requires forall t :: |digest(t)| == 16
    requires p <= p1 <= p2 && c <= c1 <= c2
    requires WellFormed(digest, path, x, p, c, p1, c1) && WellFormed(digest, path, y, p1, c1, p2, c2)
    ensures WellFormed(digest, path, x + y, p, c, p2, c2)
  {
    AllFitConcat(digest, path, x, y, p, c, p1, c1, p2, c2);
    ParentedConcat(x, y);
    hide Parented;
    hide Fits;
    forall j, k | 0 <= j < |x| && 0 <= k < |y| ensures x[j].id != y[k].id {
      RangesDiffer(digest, path, x[j], p, c, p1, c1, path, y[k], p1, c1, p2, c2);
    }
  }

  lemma {:induction false} FamilyWellFormed(digest: Digest, path: string, heading: string, window: string,
                                            texts: seq<string>, n: nat, p: nat, c: nat)
    requires forall t :: |digest(t)| == 16
    requires 0 < |window| <= SizeLimit(Parent) && n <= |texts| && texts == SplitBySize(window, CHILD)
    requires Within(texts, SizeLimit(Child))
    ensures var parent := ParentChunk(digest, path, heading, window, p);
            WellFormed(digest, path, [parent] + Children(digest, path, heading, parent.id, texts[..n], c),
                       p, c, p + 1, c + n)
    decreases n
  {
    hide SplitBySize;
    hide WellFormed;
    hide ChunkId;
    var parent := ParentChunk(digest, path, heading, window, p);
    if n == 0 {
      assert [parent] + Children(digest, path, heading, parent.id, texts[..0], c) == [parent];
      LoneParent(digest, path, parent, p, c);
    } else {
      var front := [parent] + Children(digest, path, heading, parent.id, texts[..n - 1], c);
      FamilyWellFormed(digest, path, heading, window, texts, n - 1, p, c);
      ChildrenLast(digest, path, heading, parent.id, texts[..n], c);
      hide Children;
      var last := ChildChunk(digest, path, heading, parent.id, texts[n - 1], c + n - 1);
      assert texts[..n][..n - 1] == texts[..n - 1];
      var all := [parent] + Children(digest, path, heading, parent.id, texts[..n], c);
      assert all == front + [last];
      AddChild(digest, path, front, last, p, c, c + n - 1);
    }
  }

  lemma LoneParent(digest: Digest, path: string, parent: Chunk, p: nat, c: nat)
    requires parent.role == Parent && parent.sourcePath == path && 0 < |parent.text| <= SizeLimit(Parent)
    requires Numbered(digest, parent, p)
    ensures WellFormed(digest, path, [parent], p, c, p + 1, c)
  {
    hide Numbered;
  }

  lemma AddChild(digest: Digest, path: string, front: seq<Chunk>, last: Chunk, p: nat, c: nat, n: nat)
    requires forall t :: |digest(t)| == 16
    requires c <= n && WellFormed(digest, path, front, p, c, p + 1, n)
    requires front != [] && IsParentOf(front[0], last) && last.role == Child
    requires last.sourcePath == path && 0 < |last.text| <= SizeLimit(Child)
    requires Numbered(digest, last, n)
    ensures WellFormed(digest, path, front + [last], p, c, p + 1, n + 1)
  {
    hide IsParentOf;
    hide Numbered;
    assert Fits(digest, path, last, p + 1, n, p + 1, n + 1);
    hide Fits;
    AllFitConcat(digest, path, front, [last], p, c, p + 1, n, p + 1, n + 1);
    forall j | 0 <= j < |front| ensures front[j].id != last.id {
      RangesDiffer(digest, path, front[j], p, c, p + 1, n, path, last, p + 1, n, p + 1, n + 1);
    }
    var z := front + [last];
    forall k | 0 <= k < |z| && z[k].role == Child ensures HasParent(z[..k], z[k]) {
      assert z[..k] == front[..k];
      if k == |front| {
        assert z[..k][0] == front[0];
      }
    }
  }

  lemma {:induction false} ChildrenLast(digest: Digest, path: string, heading: string, parentId: string,
                                        texts: seq<string>, c: nat)
    requires texts != []
    ensures var n := |texts| - 1;
            Children(digest, path, heading, parentId, texts, c)
            == Children(digest, path, heading, parentId, texts[..n], c)
               + [ChildChunk(digest, path, heading, parentId, texts[n], c + n)]
  {
    hide ChildChunk;
    var n := |texts| - 1;
    if n > 0 {
      ChildrenStep(digest, path, heading, parentId, texts, c);
      ChildrenStep(digest, path, heading, parentId, texts[..n], c);
      hide Children;
      ChildrenLast(digest, path, heading, parentId, texts[1..], c + 1);
      assert texts[1..][..n - 1] == texts[..n][1..];
    } else {
      assert texts[1..] == [];
    }
  }

  lemma ChildrenStep(digest: Digest, path: string, heading: string, parentId: string, texts: seq<string>, c: nat)
    requires texts != []
    ensures Children(digest, path, heading, parentId, texts, c)
         == [ChildChunk(digest, path, heading, parentId, texts[0], c)]
            + Children(digest, path, heading, parentId, texts[1..], c + 1)
  {
    hide ChildChunk;
  }

  lemma {:induction false} ParentsWellFormed(digest: Digest, path: string, heading: string, windows: seq<string>,
                                             p: nat, c: nat)
    requires forall t :: |digest(t)| == 16
    requires Within(windows, SizeLimit(Parent))
    ensures WellFormed(digest, path, Parents(digest, path, heading, windows, p, c), p, c,
                       p + |windows|, c + CountChildren(windows))
    decreases |windows|
  {
    hide WellFormed;
    hide SplitBySize;
    hide Children;
    hide ParentChunk;
    if windows == [] {
      NothingWellFormed(digest, path, p, c);
    } else {
      var texts := SplitBySize(windows[0], CHILD);
      var parent := ParentChunk(digest, path, heading, windows[0], p);
      assert texts[..|texts|] == texts;
      WindowSizes(windows[0], CHILD);
      FamilyWellFormed(digest, path, heading, windows[0], texts, |texts|, p, c);
      ParentsWellFormed(digest, path, heading, windows[1..], p + 1, c + |texts|);
      WellFormedConcat(digest, path,
                       Family(digest, path, heading, windows[0], p, c),
                       Parents(digest, path, heading, windows[1..], p + 1, c + |texts|),
                       p, c, p + 1, c + |texts|, p + |windows|, c + CountChildren(windows));
    }
  }

  lemma NothingWellFormed(digest: Digest, path: string, p: nat, c: nat)
    ensures WellFormed(digest, path, [], p, c, p, c)
  {
  }

  function CountAll(sections: seq<Section>): (nat, nat) {
    if sections == [] then (0, 0)
    else
      var windows := SplitBySize(sections[0].text, PARENT);
      var (p, c) := CountAll(sections[1..]);
      (|windows| + p, CountChildren(windows) + c)
  }

  lemma {:induction false} SectionsWellFormed(digest: Digest, path: string, sections: seq<Section>, p: nat, c: nat)
    requires forall t :: |digest(t)| == 16
    ensures WellFormed(digest, path, SectionChunks(digest, path, sections, p, c), p, c,
                       p + CountAll(sections).0, c + CountAll(sections).1)
    decreases |sections|
  {
    hide WellFormed;
    hide SplitBySize;
    hide Parents;
    if sections == [] {
      NothingWellFormed(digest, path, p, c);
    } else {
      var windows := SplitBySize(sections[0].text, PARENT);
      WindowSizes(sections[0].text, PARENT);
      ParentsWellFormed(digest, path, sections[0].heading, windows, p, c);
      SectionsWellFormed(digest, path, sections[1..], p + |windows|, c + CountChildren(windows));
      WellFormedConcat(digest, path,
                       Parents(digest, path, sections[0].heading, windows, p, c),
                       SectionChunks(digest, path, sections[1..], p + |windows|, c + CountChildren(windows)),
                       p, c, p + |windows|, c + CountChildren(windows),
                       p + CountAll(sections).0, c + CountAll(sections).1);
    }
  }

  lemma DocumentIsWellFormed(digest: Digest, path: string, raw: string) returns (p: nat, c: nat)
    requires forall t :: |digest(t)| == 16
    ensures WellFormed(digest, path, Document(digest, path, raw), 0, 0, p, c)
  {
    hide SectionChunks;
    hide WellFormed;
    hide CountAll;
    hide CountChildren;
    hide SplitByHeading;
    hide Body;
    var sections := SplitByHeading(Body(raw));
    SectionsWellFormed(digest, path, sections, 0, 0);
    p, c := CountAll(sections).0, CountAll(sections).1;
  }

  /** A parent is a window of a section of the document and carries its heading. */
  ghost predicate FromSection(sections: seq<Section>, chunk: Chunk) {
    exists k :: 0 <= k < |sections| && chunk.section == sections[k].heading
                && chunk.text in SplitBySize(sections[k].text, Sizes(3500, 5000, 400))
  }

  lemma {:induction false} ParentsFromWindows(digest: Digest, path: string, heading: string, windows: seq<string>,
                                              p: nat, c: nat)
    ensures forall chunk | chunk in Parents(digest, path, heading, windows, p, c) && chunk.role == Parent ::
              chunk.section == heading && chunk.text in windows && chunk.parentId == chunk.id
    decreases |windows|
  {
    hide SplitBySize;
    hide ChunkId;
    if windows != [] {
      var texts := SplitBySize(windows[0], CHILD);
      var id := ParentChunk(digest, path, heading, windows[0], p).id;
      ChildrenAreChildren(digest, path, heading, id, texts, c);
      ParentsFromWindows(digest, path, heading, windows[1..], p + 1, c + |texts|);
      hide Children;
    }
  }

  lemma {:induction false} ChildrenAreChildren(digest: Digest, path: string, heading: string, parentId: string,
                                               texts: seq<string>, c: nat)
    ensures forall chunk | chunk in Children(digest, path, heading, parentId, texts, c) :: chunk.role == Child
  {
    hide ChunkId;
    if texts != [] {
      ChildrenAreChildren(digest, path, heading, parentId, texts[1..], c + 1);
    }
  }

  lemma {:induction false} ParentsFromSections(digest: Digest, path: string, sections: seq<Section>, p: nat, c: nat)
    ensures forall chunk | chunk in SectionChunks(digest, path, sections, p, c) && chunk.role == Parent ::
              FromSection(sections, chunk)
    decreases |sections|
  {
    hide SplitBySize;
    hide Parents;
    if sections != [] {
      var windows := SplitBySize(sections[0].text, PARENT);
      ParentsFromWindows(digest, path, sections[0].heading, windows, p, c);
      ParentsFromSections(digest, path, sections[1..], p + |windows|, c + CountChildren(windows));
      forall chunk | chunk in SectionChunks(digest, path, sections, p, c) && chunk.role == Parent
        ensures FromSection(sections, chunk)
      {
        if chunk in Parents(digest, path, sections[0].heading, windows, p, c) {
          assert chunk.text in SplitBySize(sections[0].text, Sizes(3500, 5000, 400));
        } else {
          var k :| 0 <= k < |sections[1..]| && chunk.section == sections[1..][k].heading
                   && chunk.text in SplitBySize(sections[1..][k].text, Sizes(3500, 5000, 400));
          assert sections[k + 1] == sections[1..][k];
        }
      }
    }
  }

  /** Every chunk of a document belongs to it, is within its size limit and has an id of its own; every parent is a
      window of a section, under its heading; and every child comes after the parent it names and was cut from. */
  lemma DocumentWellFormed(digest: Digest, path: string, raw: string)
    requires forall t :: |digest(t)| == 16
    ensures var chunks := Document(digest, path, raw);
            && (forall k | 0 <= k < |chunks| ::
                  chunks[k].sourcePath == path && 0 < |chunks[k].text| <= SizeLimit(chunks[k].role))
            && DistinctIds(chunks) && Parented(chunks)
            && (forall k | 0 <= k < |chunks| && chunks[k].role == Parent ::
                  FromSection(SplitByHeading(Body(raw)), chunks[k]))
  {
    ParentsFromSections(digest, path, SplitByHeading(Body(raw)), 0, 0);
    assert forall k | 0 <= k < |Document(digest, path, raw)| ::
        Document(digest, path, raw)[k] in Document(digest, path, raw);
    hide SectionChunks;
    hide SplitByHeading;
    hide Body;
    hide FromSection;
    hide Numbered;
    hide Parented;
    var p, c := DocumentIsWellFormed(digest, path, raw);
  }

  /** Chunks of different files never share an id. */
  lemma FilesDoNotClash(digest: Digest, path1: string, raw1: string, path2: string, raw2: string, a: Chunk,
                        b: Chunk)
    requires (forall t :: |digest(t)| == 16) && path1 != path2
    ensures a in Document(digest, path1, raw1) && b in Document(digest, path2, raw2) ==> a.id != b.id
  {
    hide Document;
    hide Parented;
    hide Fits;
    var p1, c1 := DocumentIsWellFormed(digest, path1, raw1);
    var p2, c2 := DocumentIsWellFormed(digest, path2, raw2);
    if a in Document(digest, path1, raw1) && b in Document(digest, path2, raw2) {
      RangesDiffer(digest, path1, a, 0, 0, p1, c1, path2, b, 0, 0, p2, c2);
    }
  }
}
