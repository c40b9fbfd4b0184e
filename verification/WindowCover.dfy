/** No text is lost by cutting into windows: with white space set aside, every window is a
    subsequence of the text and together the windows use every character of it. */
module WindowCover {
  import opened Text
  import opened Cover
  import opened Windows

  function SqueezeEach(parts: seq<string>): (r: seq<string>)
    ensures |r| == |parts| && forall i | 0 <= i < |parts| :: r[i] == Squeeze(parts[i])
  {
    seq(|parts|, i requires 0 <= i < |parts| => Squeeze(parts[i]))
  }

  lemma SqueezeEachConcat(x: seq<string>, y: seq<string>)
    ensures SqueezeEach(x + y) == SqueezeEach(x) + SqueezeEach(y)
  {
  }

  // ----- hard split -----------------------------------------------------------------------

  /** Characters that are not white space before an index. */
  function Before(text: string, i: nat): nat
    requires i <= |text|
  {
    |Squeeze(text[..i])|
  }

  /** A slice of the text is a slice of the squeezed text. */
  lemma SliceOfSqueeze(text: string, a: nat, b: nat)
    requires a <= b <= |text|
    ensures Before(text, a) <= Before(text, b) <= |Squeeze(text)|
    ensures Squeeze(text)[Before(text, a)..Before(text, b)] == Squeeze(text[a..b])
    ensures b == |text| ==> Before(text, b) == |Squeeze(text)|
  {
    var x, y, w := text[..a], text[a..b], text[b..];
    assert text == (x + y) + w && text[..b] == x + y;
    SqueezeConcat(x + y, w);
    SqueezeConcat(x, y);
  }

  lemma {:induction false} HardCovers(text: string, start: nat, target: nat,
                                      overlap: nat) returns (ms: seq<seq<nat>>)
    requires target >= 1 && start <= |text|
    ensures Placed(Squeeze(text), SqueezeEach(HardSplit(text, start, target, overlap)), ms)
    ensures forall p | Before(text, start) <= p < |Squeeze(text)| :: p in Hits(ms)
    decreases |text| - start
  {
    var src := Squeeze(text);
    if start == |text| {
      assert text[..start] == text;
      assert HardSplit(text, start, target, overlap) == [];
      ms := [];
    } else {
      var end := SliceEnd(text, start, target);
      HardSplitStep(text, start, target, overlap);
      SliceOfSqueeze(text, start, end);
      SqueezeStrip(text[start..end]);
      StripEmpty(text[start..end]);
      var piece := Strip(text[start..end]);
      var first: seq<string>, rest: seq<string> := if piece == [] then [] else [piece], [];
      var m := Range(Before(text, start), Before(text, end));
      RangePicks(src, Before(text, start), Before(text, end));
      var ls := if piece == [] then [] else [m];
      var rs: seq<seq<nat>> := [];
      if end < |text| {
        var next := NextStart(start, end, overlap);
        rest := HardSplit(text, next, target, overlap);
        rs := HardCovers(text, next, target, overlap);
        NothingSkipped(text, end, next);
      } else {
        assert end == |text|;
      }
      ms := ls + rs;
      SqueezeEachConcat(first, rest);
      PlacedConcat(src, SqueezeEach(first), ls, SqueezeEach(rest), rs);
      forall p | Before(text, start) <= p < |src| ensures p in Hits(ms) {
        if p < Before(text, end) {
          assert m[p - Before(text, start)] == p;
          assert piece != [];
          HitsAt(ls, 0, p);
        }
      }
    }
  }

  /** The next slice starts no later than the first character not yet covered. */
  lemma NothingSkipped(text: string, end: nat, next: nat)
    requires end < |text| && next <= |text|
    requires next <= end || (next == end + 1 && text[end] == '\n')
    ensures Before(text, next) <= Before(text, end)
  {
    if next <= end {
      SliceOfSqueeze(text, next, end);
    } else {
      assert text[..next] == text[..end] + [text[end]];
      SqueezeConcat(text[..end], [text[end]]);
    }
  }

  // ----- packing --------------------------------------------------------------------------

  /** Where paragraph `k` starts in the squeezed text. */
  function Offset(paras: seq<string>, k: nat): nat
    requires k <= |paras|
  {
    |SqueezeAll(paras[..k])|
  }

  lemma OffsetStep(paras: seq<string>, k: nat)
    requires k < |paras|
    ensures Offset(paras, k + 1) == Offset(paras, k) + |Squeeze(paras[k])| <= |SqueezeAll(paras)|
    ensures SqueezeAll(paras)[Offset(paras, k)..Offset(paras, k + 1)] == Squeeze(paras[k])
  {
    var x, y, w := paras[..k], [paras[k]], paras[k + 1..];
    assert paras == (x + y) + w && paras[..k + 1] == x + y;
    SqueezeAllConcat(x + y, w);
    SqueezeAllConcat(x, y);
    assert SqueezeAll(y) == Squeeze(paras[k]) by { assert y[1..] == []; }
  }

  lemma {:induction false} OffsetsGrow(paras: seq<string>, j: nat, k: nat)
    requires j <= k <= |paras|
    ensures Offset(paras, j) <= Offset(paras, k) <= |SqueezeAll(paras)|
    decreases k - j
  {
    if j < k {
      OffsetStep(paras, j);
      OffsetsGrow(paras, j + 1, k);
    } else {
      assert paras == paras[..k] + paras[k..];
      SqueezeAllConcat(paras[..k], paras[k..]);
    }
  }

  function At(paras: seq<string>, idx: seq<nat>): (r: seq<string>)
    requires Below(idx, |paras|)
    ensures |r| == |idx| && forall j | 0 <= j < |idx| :: r[j] == paras[idx[j]]
  {
    seq(|idx|, j requires 0 <= j < |idx| => paras[idx[j]])
  }

  /** Positions, in the squeezed text, of the characters of the chosen paragraphs. */
  function Spots(paras: seq<string>, idx: seq<nat>): seq<nat>
    requires Below(idx, |paras|)
  {
    if idx == [] then []
    else
      var k := idx[|idx| - 1];
      OffsetStep(paras, k);
      Spots(paras, idx[..|idx| - 1]) + Range(Offset(paras, k), Offset(paras, k + 1))
  }

  /** The chosen paragraphs, joined and squeezed, are read off at their spots. */
  lemma {:induction false} SpotsRead(paras: seq<string>, idx: seq<nat>, bound: nat)
    requires Increasing(idx) && Below(idx, bound) && bound <= |paras|
    ensures Increasing(Spots(paras, idx)) && Below(Spots(paras, idx), Offset(paras, bound))
    ensures Below(Spots(paras, idx), |SqueezeAll(paras)|)
    ensures Pick(SqueezeAll(paras), Spots(paras, idx)) == SqueezeAll(At(paras, idx))
  {
    hide Squeeze;
    hide Offset;
    var src := SqueezeAll(paras);
    if idx != [] {
      hide SqueezeAll;
      var front, k := idx[..|idx| - 1], idx[|idx| - 1];
      var m := SpotsStep(paras, idx);
      SpotsRead(paras, front, k);
      OffsetStep(paras, k);
      OffsetsGrow(paras, k + 1, bound);
      RangePicks(src, Offset(paras, k), Offset(paras, k + 1));
      PickConcat(src, Spots(paras, front), m);
      hide Offset;
      hide Pick;
      AtStep(paras, idx);
    } else {
      OffsetsGrow(paras, 0, bound);
    }
  }

  lemma SpotsStep(paras: seq<string>, idx: seq<nat>) returns (m: seq<nat>)
    requires Below(idx, |paras|) && idx != []
    ensures var k := idx[|idx| - 1];
            && Offset(paras, k) <= Offset(paras, k + 1)
            && m == Range(Offset(paras, k), Offset(paras, k + 1))
            && Spots(paras, idx) == Spots(paras, idx[..|idx| - 1]) + m
  {
    var k := idx[|idx| - 1];
    OffsetStep(paras, k);
    m := Range(Offset(paras, k), Offset(paras, k + 1));
  }

  lemma AtStep(paras: seq<string>, idx: seq<nat>)
    requires Below(idx, |paras|) && idx != []
    ensures SqueezeAll(At(paras, idx))
         == SqueezeAll(At(paras, idx[..|idx| - 1])) + Squeeze(paras[idx[|idx| - 1]])
  {
    var front, p := idx[..|idx| - 1], paras[idx[|idx| - 1]];
    assert At(paras, idx) == At(paras, front) + [p];
    SqueezeAllConcat(At(paras, front), [p]);
    assert SqueezeAll([p]) == Squeeze(p) by { assert [p][1..] == []; }
  }

  lemma PickConcat(src: string, x: seq<nat>, y: seq<nat>)
    requires Below(x, |src|) && Below(y, |src|)
    ensures Below(x + y, |src|) && Pick(src, x + y) == Pick(src, x) + Pick(src, y)
  {
  }

  /** The overlap kept by an emit is a tail of the buffer. */
  lemma {:induction false} CarryIsTail(buf: seq<string>, taken: seq<string>, overlap: nat) returns (j: nat)
    ensures j <= |buf| && Carry(buf, taken, overlap) == buf[j..] + taken
  {
    if buf == [] || JoinedLength([buf[|buf| - 1]] + taken) > overlap {
      j := |buf|;
    } else {
      j := CarryIsTail(buf[..|buf| - 1], [buf[|buf| - 1]] + taken, overlap);
      assert buf[j..] == buf[..|buf| - 1][j..] + [buf[|buf| - 1]];
    }
  }

  lemma EmitCovers(paras: seq<string>, buf: seq<string>, idx: seq<nat>, i: nat) returns (ms: seq<seq<nat>>)
    requires Increasing(idx) && Below(idx, i) && i <= |paras| && At(paras, idx) == buf
    ensures Placed(SqueezeAll(paras), SqueezeEach(Emitted(buf)), ms)
    ensures forall p | p in Spots(paras, idx) :: p in Hits(ms)
  {
    SpotsRead(paras, idx, i);
    SqueezeJoinBlank(buf);
    if buf == [] {
      ms := [];
    } else {
      ms := [Spots(paras, idx)];
    }
  }

  lemma SqueezeJoinBlank(parts: seq<string>)
    ensures Squeeze(Join(parts, BLANK)) == SqueezeAll(parts)
  {
    SqueezeSpaces(BLANK);
    SqueezeJoin(parts, BLANK);
  }

  /** The paragraphs waiting after a turn, by index. */
  lemma WaitingIndices(paras: seq<string>, i: nat, buf: seq<string>, idx: seq<nat>,
                       z: Sizes) returns (next: seq<nat>)
    requires i < |paras| && Increasing(idx) && Below(idx, i) && At(paras, idx) == buf
    ensures Increasing(next) && Below(next, i + 1) && At(paras, next) == Waiting(buf, paras[i], z)
    ensures |paras[i]| <= z.maxChars ==> next != [] && next[|next| - 1] == i
    ensures |paras[i]| <= z.maxChars && !Overflows(buf, paras[i], z) ==> next == idx + [i]
  {
    var j := CarryIsTail(buf, [], z.overlap);
    hide Carry;
    hide Overflows;
    assert At(paras, idx[j..]) == buf[j..] == Carry(buf, [], z.overlap);
    if |paras[i]| > z.maxChars {
      next := idx[j..];
    } else if Overflows(buf, paras[i], z) {
      next := idx[j..] + [i];
    } else {
      next := idx + [i];
    }
  }

  lemma {:induction false} PackCovers(paras: seq<string>, i: nat, buf: seq<string>, idx: seq<nat>, z: Sizes)
    returns (ms: seq<seq<nat>>)
    requires z.target >= 1 && i <= |paras| && Increasing(idx) && Below(idx, i) && At(paras, idx) == buf
    ensures Placed(SqueezeAll(paras), SqueezeEach(Pack(paras, i, buf, z)), ms)
    ensures forall p | p in Spots(paras, idx) :: p in Hits(ms)
    ensures forall p | Offset(paras, i) <= p < |SqueezeAll(paras)| :: p in Hits(ms)
    decreases |paras| - i
  {
    var src := SqueezeAll(paras);
    var es := EmitCovers(paras, buf, idx, i);
    if i == |paras| {
      assert paras[..i] == paras;
      ms := es;
    } else {
      var para := paras[i];
      var next := WaitingIndices(paras, i, buf, idx, z);
      var rest := Pack(paras, i + 1, Waiting(buf, para, z), z);
      var rs := PackCovers(paras, i + 1, Waiting(buf, para, z), next, z);
      var ls := ReleasedCovers(paras, i, buf, idx, z, es);
      ms := ls + rs;
      SqueezeEachConcat(Released(buf, para, z), rest);
      PlacedConcat(src, SqueezeEach(Released(buf, para, z)), ls, SqueezeEach(rest), rs);
      OffsetStep(paras, i);
      if |para| <= z.maxChars {
        LastSpots(paras, next, i);
        assert !Overflows(buf, para, z) ==> next[..|next| - 1] == idx;
      }
    }
  }

  lemma LastSpots(paras: seq<string>, idx: seq<nat>, i: nat)
    requires i < |paras| && Below(idx, |paras|) && idx != [] && idx[|idx| - 1] == i
    ensures forall p | Offset(paras, i) <= p < Offset(paras, i + 1) :: p in Spots(paras, idx)
    ensures forall p | p in Spots(paras, idx[..|idx| - 1]) :: p in Spots(paras, idx)
  {
    OffsetStep(paras, i);
    var m := Range(Offset(paras, i), Offset(paras, i + 1));
    forall p | Offset(paras, i) <= p < Offset(paras, i + 1) ensures p in Spots(paras, idx) {
      assert m[p - Offset(paras, i)] == p;
    }
  }

  /** The windows one paragraph releases: the buffer when it is emitted, and a long paragraph whole. */
  lemma ReleasedCovers(paras: seq<string>, i: nat, buf: seq<string>, idx: seq<nat>, z: Sizes, es: seq<seq<nat>>)
    returns (ls: seq<seq<nat>>)
    requires z.target >= 1 && i < |paras| && Below(idx, |paras|)
    requires Placed(SqueezeAll(paras), SqueezeEach(Emitted(buf)), es)
    requires forall p | p in Spots(paras, idx) :: p in Hits(es)
    ensures Placed(SqueezeAll(paras), SqueezeEach(Released(buf, paras[i], z)), ls)
    ensures |paras[i]| > z.maxChars || Overflows(buf, paras[i], z) ==>
              forall p | p in Spots(paras, idx) :: p in Hits(ls)
    ensures |paras[i]| > z.maxChars ==>
              forall p | Offset(paras, i) <= p < Offset(paras, i + 1) :: p in Hits(ls)
  {
    var src, para := SqueezeAll(paras), paras[i];
    if |para| > z.maxChars {
      var hard := HardSplit(para, 0, z.target, z.overlap);
      var ks := HardCovers(para, 0, z.target, z.overlap);
      OffsetStep(paras, i);
      var lo, hi := Offset(paras, i), Offset(paras, i + 1);
      RangePicks(src, lo, hi);
      PlacedThrough(src, Range(lo, hi), SqueezeEach(hard), ks);
      var hs := ComposeAll(Range(lo, hi), ks);
      forall p | lo <= p < hi ensures p in Hits(hs) {
        assert p - lo in Hits(ks);
        assert Range(lo, hi)[p - lo] == p;
      }
      ls := es + hs;
      SqueezeEachConcat(Emitted(buf), hard);
      PlacedConcat(src, SqueezeEach(Emitted(buf)), es, SqueezeEach(hard), hs);
    } else if Overflows(buf, para, z) {
      ls := es;
    } else {
      ls := [];
    }
  }

  lemma {:induction false} ParagraphsKeepText(parts: seq<string>)
    ensures SqueezeAll(Paragraphs(parts)) == SqueezeAll(parts)
  {
    if parts != [] {
      ParagraphsKeepText(parts[1..]);
      SqueezeStrip(parts[0]);
      StripEmpty(parts[0]);
      if Strip(parts[0]) != [] {
        assert Paragraphs(parts)[1..] == Paragraphs(parts[1..]);
      } else {
        assert SqueezeAll(parts) == [] + SqueezeAll(parts[1..]);
        assert Paragraphs(parts) == Paragraphs(parts[1..]);
      }
    }
  }

  lemma {:induction false} ParagraphsAreStripped(parts: seq<string>)
    ensures forall k | 0 <= k < |Paragraphs(parts)| ::
              Paragraphs(parts)[k] != [] && Strip(Paragraphs(parts)[k]) == Paragraphs(parts)[k]
  {
    hide Strip;
    if parts != [] {
      ParagraphsAreStripped(parts[1..]);
      StripTwice(parts[0]);
    }
  }

  /** The paragraphs of a text: its parts between blank lines, stripped, none blank, no text lost. */
  lemma ParagraphsExactly(text: string)
    ensures var parts := SplitBlank(text);
            var paras := Paragraphs(parts);
            && Join(parts, "\n\n") == text && (forall k | 0 <= k < |parts| :: !HoldsBlank(parts[k]))
            && (forall k | 0 <= k < |paras| :: paras[k] != [] && Strip(paras[k]) == paras[k])
            && SqueezeAll(paras) == Squeeze(text)
  {
    hide HoldsBlank;
    hide Strip;
    hide SplitBlank;
    SplitBlankExactly(text);
    ParagraphsAreStripped(SplitBlank(text));
    ParagraphsKeepText(SplitBlank(text));
    SplitBlankKeepsText(text);
  }

  /** Every character of a text that is not white space lies in some window, and each window holds
      characters of the text in their order, for every text and every target size, limit and overlap. */
  lemma WindowsCover(text: string, z: Sizes)
    requires z.target >= 1
    ensures Covers(Squeeze(text), SqueezeEach(SplitBySize(text, z)))
  {
    var t := Strip(text);
    SqueezeStrip(text);
    StripEmpty(text);
    if t == [] {
      assert Placed(Squeeze(text), SqueezeEach(SplitBySize(text, z)), []);
    } else if |t| <= z.maxChars {
      WholeCovers(Squeeze(text));
      assert SqueezeEach(SplitBySize(text, z)) == [Squeeze(text)];
    } else {
      var paras := Paragraphs(SplitBlank(t));
      SplitBlankKeepsText(t);
      ParagraphsKeepText(SplitBlank(t));
      var ms := PackCovers(paras, 0, [], [], z);
      assert paras[..0] == [];
    }
  }

  // ----- contiguity -----------------------------------------------------------------------

  /** When no paragraph exceeds the limit, every window is a run of consecutive paragraphs. */
  ghost predicate IsRun(paras: seq<string>, w: string) {
    exists a, b :: 0 <= a < b <= |paras| && w == Join(paras[a..b], BLANK)
  }

  ghost predicate AllRuns(paras: seq<string>, windows: seq<string>) {
    forall k | 0 <= k < |windows| :: IsRun(paras, windows[k])
  }

  lemma {:induction false} PackRuns(paras: seq<string>, i: nat, a: nat, z: Sizes)
    requires z.target >= 1 && a <= i <= |paras|
    requires forall k | 0 <= k < |paras| :: |paras[k]| <= z.maxChars
    ensures AllRuns(paras, Pack(paras, i, paras[a..i], z))
    decreases |paras| - i
  {
    hide IsRun;
    hide Carry;
    hide Overflows;
    var buf := paras[a..i];
    EmittedRun(paras, a, i);
    if i < |paras| {
      var j := CarryIsTail(buf, [], z.overlap);
      assert buf[j..] == paras[a + j..i];
      var start := if Overflows(buf, paras[i], z) then a + j else a;
      assert paras[start..i] + [paras[i]] == paras[start..i + 1];
      assert Waiting(buf, paras[i], z) == paras[start..i + 1];
      PackRuns(paras, i + 1, start, z);
      hide Waiting;
      AllRunsConcat(paras, Released(buf, paras[i], z), Pack(paras, i + 1, paras[start..i + 1], z));
    }
  }

  lemma AllRunsConcat(paras: seq<string>, x: seq<string>, y: seq<string>)
    requires AllRuns(paras, x) && AllRuns(paras, y)
    ensures AllRuns(paras, x + y)
  {
    hide IsRun;
  }

  lemma EmittedRun(paras: seq<string>, a: nat, i: nat)
    requires a <= i <= |paras|
    ensures AllRuns(paras, Emitted(paras[a..i]))
  {
  }

  /** With no paragraph over the limit, every window of a long text is a run of its paragraphs. */
  lemma WindowsAreRuns(text: string, z: Sizes)
    requires z.target >= 1 && |Strip(text)| > z.maxChars
    requires forall k | 0 <= k < |Paragraphs(SplitBlank(Strip(text)))| ::
               |Paragraphs(SplitBlank(Strip(text)))[k]| <= z.maxChars
    ensures AllRuns(Paragraphs(SplitBlank(Strip(text))), SplitBySize(text, z))
  {
    var paras := Paragraphs(SplitBlank(Strip(text)));
    PackRuns(paras, 0, 0, z);
    assert paras[0..0] == [];
  }

  /** A one-line paragraph with nothing to strip. */
  predicate Plain(p: string) {
    p != [] && !IsSpace(p[0]) && !IsSpace(p[|p| - 1]) && forall i | 0 <= i < |p| :: p[i] != '\n'
  }

  lemma ThreeParagraphs(a: string, b: string, c: string)
    requires Plain(a) && Plain(b) && Plain(c)
    ensures var t := a + BLANK + (b + BLANK + c);
            Strip(t) == t && Paragraphs(SplitBlank(t)) == [a, b, c]
  {
    var t := a + BLANK + (b + BLANK + c);
    NothingToStrip(t);
    NothingToStrip(a);
    NothingToStrip(b);
    NothingToStrip(c);
    hide Strip;
    hide IsSpace;
    BlankPair(a, b + BLANK + c);
    BlankPair(b, c);
    BlankNone(c);
    hide SplitBlank;
    assert [c][1..] == [] && [b, c][1..] == [c] && [a, b, c][1..] == [b, c];
    assert Paragraphs([c]) == [c];
    assert Paragraphs([b, c]) == [b, c];
  }

  lemma {:induction false} BlankNone(p: string)
    requires forall i | 0 <= i < |p| :: p[i] != '\n'
    ensures SplitBlank(p) == [p]
  {
    BlankNowhere(p);
  }

  lemma {:induction false} BlankNowhere(p: string)
    requires forall i | 0 <= i < |p| :: p[i] != '\n'
    ensures BlankAt(p) == |p|
  {
    if |p| >= 2 {
      BlankNowhere(p[1..]);
    }
  }

  /** A paragraph over the limit breaks this, whatever the text: when the paragraph before it fits in
      the overlap it is still waiting afterwards, so it is emitted a second time on its own, and a
      third time joined to the paragraph on the far side of the long one. */
  lemma LongParagraphBreaksRuns(a: string, b: string, c: string, z: Sizes)
    requires z.target >= 1 && Plain(a) && Plain(b) && Plain(c)
    requires |a| <= z.maxChars < |b| && |c| <= z.maxChars
    requires |a| <= z.overlap && |a| + 2 + |c| > z.target
    ensures SplitBySize(a + BLANK + (b + BLANK + c), z)
         == [a] + HardSplit(b, 0, z.target, z.overlap) + [a, a + BLANK + c]
  {
    var paras := [a, b, c];
    ThreeParagraphs(a, b, c);
    hide Strip;
    hide SplitBlank;
    hide Paragraphs;
    hide HardSplit;
    var hard := HardSplit(b, 0, z.target, z.overlap);
    BrokenTurns(a, b, c, z);
    hide Released;
    hide Waiting;
    assert Pack(paras, 3, [a, c], z) == [a + BLANK + c];
    assert Pack(paras, 2, [a], z) == [a] + [a + BLANK + c];
    assert Pack(paras, 1, [a], z) == [a] + hard + ([a] + [a + BLANK + c]);
    assert Pack(paras, 0, [], z) == [] + ([a] + hard + ([a] + [a + BLANK + c]));
  }

  lemma BrokenTurns(a: string, b: string, c: string, z: Sizes)
    requires z.target >= 1 && a != [] && |a| <= z.maxChars < |b| && |c| <= z.maxChars
    requires |a| <= z.overlap && |a| + 2 + |c| > z.target
    ensures Released([], a, z) == [] && Waiting([], a, z) == [a]
    ensures Released([a], b, z) == [a] + HardSplit(b, 0, z.target, z.overlap) && Waiting([a], b, z) == [a]
    ensures Released([a], c, z) == [a] && Waiting([a], c, z) == [a, c]
    ensures Emitted([a, c]) == [a + BLANK + c]
  {
    hide HardSplit;
    assert Join([a], BLANK) == a;
    assert Carry([a], [], z.overlap) == [a] by {
      assert [a] + [] == [a] && [a][..0] == [];
      assert Carry([], [a], z.overlap) == [a];
    }
    hide Carry;
    assert [a, c][1..] == [c];
    assert Join([a, c], BLANK) == a + BLANK + c;
    assert [] + [a] == [a] && [a] + [c] == [a, c];
  }

  lemma BlankPair(x: string, y: string)
    requires x != [] && (forall i | 0 <= i < |x| :: x[i] != '\n')
    ensures SplitBlank(x + BLANK + y) == [x] + SplitBlank(y)
  {
    BlankAfter(x, y);
    var s := x + BLANK + y;
    assert s[..|x|] == x && s[|x| + 2..] == y;
  }

  lemma {:induction false} BlankAfter(x: string, y: string)
    requires forall i | 0 <= i < |x| :: x[i] != '\n'
    ensures BlankAt(x + BLANK + y) == |x|
  {
    if x != [] {
      assert (x + BLANK + y)[1..] == x[1..] + BLANK + y;
      BlankAfter(x[1..], y);
    }
  }
}
