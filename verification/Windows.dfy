/** Cutting a text into windows: whole paragraphs packed up to a target size with overlap, and
    hard cuts for a paragraph that is too long. */
module Windows {
  import opened Text

  /** Aimed-at size, hard limit for one paragraph, and characters shared by neighbours. */
  datatype Sizes = Sizes(target: nat, maxChars: nat, overlap: nat)

  const BLANK := "\n\n"

  function Max(x: int, y: int): int {
    if x < y then y else x
  }

  // ----- hard split -----------------------------------------------------------------------

  /** End of the slice that starts at `start`: the target size, or the last line feed in its
      second half when text remains. */
  function SliceEnd(text: string, start: nat, target: nat): (end: nat)
    requires start < |text| && target >= 1
    ensures start <= end <= |text| && end <= start + target
    ensures end == start ==> text[start] == '\n'
    ensures end < |text| ==> start + target < |text|
  {
    if start + target >= |text| then |text|
    else
      var brk := RFindNewline(text[start..start + target]);
      if brk >= target / 2 then start + brk else start + target
  }

  function NextStart(start: nat, end: nat, overlap: nat): nat {
    Max(end - overlap, start + 1)
  }

  /** The slices of the text, before stripping. */
  function Slices(text: string, start: nat, target: nat, overlap: nat): seq<(nat, nat)>
    requires target >= 1
    decreases |text| - start
  {
    if start >= |text| then []
    else
      var end := SliceEnd(text, start, target);
      [(start, end)] + (if end >= |text| then [] else Slices(text, NextStart(start, end, overlap), target, overlap))
  }

  predicate SlicesOf(text: string, slices: seq<(nat, nat)>) {
    forall i | 0 <= i < |slices| :: slices[i].0 <= slices[i].1 <= |text|
  }

  /** The stripped, non-empty contents of the slices. */
  function Pieces(text: string, slices: seq<(nat, nat)>): seq<string>
    requires SlicesOf(text, slices)
  {
    if slices == [] then []
    else
      var piece := Strip(text[slices[0].0..slices[0].1]);
      (if piece == [] then [] else [piece]) + Pieces(text, slices[1..])
  }

  lemma {:induction false} SlicesAreSlices(text: string, start: nat, target: nat, overlap: nat)
    requires target >= 1
    ensures SlicesOf(text, Slices(text, start, target, overlap))
    decreases |text| - start
  {
    if start < |text| {
      var end := SliceEnd(text, start, target);
      if end < |text| {
        SlicesAreSlices(text, NextStart(start, end, overlap), target, overlap);
      }
    }
  }

  function HardSplit(text: string, start: nat, target: nat, overlap: nat): seq<string>
    requires target >= 1
  {
    SlicesAreSlices(text, start, target, overlap);
    Pieces(text, Slices(text, start, target, overlap))
  }

  /** Neighbours move forward, share at most `overlap` characters, and leave out at most one line
      feed between them. */
  predicate Follows(text: string, a: (nat, nat), b: (nat, nat), overlap: nat)
    requires a.1 <= |text|
  {
    && a.0 < b.0
    && a.1 - b.0 <= overlap
    && (a.1 < b.0 ==> b.0 == a.1 + 1 && a.1 < |text| && text[a.1] == '\n')
  }

  /** The slices start where asked, end at the end of the text, are at most `target` long and follow
      one another. */
  lemma {:induction false} SliceGeometry(text: string, start: nat, target: nat, overlap: nat)
    requires target >= 1 && start < |text|
    ensures var sl := Slices(text, start, target, overlap);
            && sl != [] && sl[0].0 == start && sl[|sl| - 1].1 == |text|
            && (forall i | 0 <= i < |sl| :: sl[i].0 <= sl[i].1 <= |text| && sl[i].1 - sl[i].0 <= target)
            && (forall i | 0 <= i < |sl| - 1 :: Follows(text, sl[i], sl[i + 1], overlap))
    decreases |text| - start
  {
    hide SliceEnd;
    var end := SliceEnd(text, start, target);
    if end < |text| {
      var next := NextStart(start, end, overlap);
      var rest := Slices(text, next, target, overlap);
      SliceGeometry(text, next, target, overlap);
      assert Follows(text, (start, end), rest[0], overlap);
      hide Follows;
      var sl := Slices(text, start, target, overlap);
      assert sl == [(start, end)] + rest;
      forall i | 0 <= i < |sl| - 1 ensures Follows(text, sl[i], sl[i + 1], overlap) {
        if i > 0 {
          assert sl[i] == rest[i - 1] && sl[i + 1] == rest[i];
        }
      }
    }
  }

  /** Where slices end and begin, exactly: each but the last is a target long, unless a line feed stands in its second
      half, and then it ends at the last one; the next slice begins an overlap earlier, but always further on. */
  predicate CutsWell(text: string, a: (nat, nat), b: (nat, nat), target: nat, overlap: nat)
    requires a.0 + target < |text|
  {
    && (if a.1 == a.0 + target then forall i | a.0 + target / 2 <= i < a.0 + target :: text[i] != '\n'
        else a.0 + target / 2 <= a.1 < a.0 + target && text[a.1] == '\n'
             && forall i | a.1 < i < a.0 + target :: text[i] != '\n')
    && b.0 == if a.1 - overlap < a.0 + 1 then a.0 + 1 else a.1 - overlap
  }

  lemma SliceEndExactly(text: string, start: nat, target: nat, overlap: nat)
    requires target >= 1 && start < |text|
    ensures var end := SliceEnd(text, start, target);
            if start + target >= |text| then end == |text|
            else CutsWell(text, (start, end), (NextStart(start, end, overlap), 0), target, overlap)
  {
    if start + target < |text| {
      var window := text[start..start + target];
      assert forall i | start <= i < start + target :: text[i] == window[i - start];
    }
  }

  lemma {:induction false} SlicesExactly(text: string, start: nat, target: nat, overlap: nat)
    requires target >= 1 && start < |text|
    ensures var sl := Slices(text, start, target, overlap);
            && sl != [] && sl[0].0 == start && sl[|sl| - 1].1 == |text|
            && forall i | 0 <= i < |sl| - 1 ::
                 sl[i].0 + target < |text| && CutsWell(text, sl[i], sl[i + 1], target, overlap)
    decreases |text| - start
  {
    hide SliceEnd;
    var end := SliceEnd(text, start, target);
    SliceEndExactly(text, start, target, overlap);
    if end < |text| {
      var next := NextStart(start, end, overlap);
      var rest := Slices(text, next, target, overlap);
      SlicesExactly(text, next, target, overlap);
      hide CutsWell;
      FirstOnly(text, (start, end), (next, 0), rest[0], target, overlap);
      var sl := Slices(text, start, target, overlap);
      assert sl == [(start, end)] + rest;
      forall i | 0 <= i < |sl| - 1
        ensures sl[i].0 + target < |text| && CutsWell(text, sl[i], sl[i + 1], target, overlap)
      {
        if i > 0 {
          assert sl[i] == rest[i - 1] && sl[i + 1] == rest[i];
        }
      }
    }
  }

  lemma FirstOnly(text: string, a: (nat, nat), b: (nat, nat), c: (nat, nat), target: nat, overlap: nat)
    requires a.0 + target < |text| && CutsWell(text, a, b, target, overlap) && c.0 == b.0
    ensures CutsWell(text, a, c, target, overlap)
  {
  }

  /** One turn of the cutting loop. */
  lemma HardSplitStep(text: string, start: nat, target: nat, overlap: nat)
    requires target >= 1 && start < |text|
    ensures var end := SliceEnd(text, start, target);
            HardSplit(text, start, target, overlap)
            == (if Strip(text[start..end]) == [] then [] else [Strip(text[start..end])])
               + (if end >= |text| then [] else HardSplit(text, NextStart(start, end, overlap), target, overlap))
  {
    SlicesAreSlices(text, start, target, overlap);
    var end := SliceEnd(text, start, target);
    var sl := Slices(text, start, target, overlap);
    var rest := if end >= |text| then [] else Slices(text, NextStart(start, end, overlap), target, overlap);
    assert sl[0] == (start, end) && sl[1..] == rest;
    assert Pieces(text, []) == [];
  }

  method HardSplitText(text: string, target: nat, overlap: nat) returns (parts: seq<string>)
    requires target >= 1
    ensures parts == HardSplit(text, 0, target, overlap)
  {
    hide HardSplit;
    hide Strip;
    parts := [];
    var start := 0;
    if text == [] {
      HardSplitNothing(target, overlap);
    }
    while start < |text|
      invariant start < |text| ==>
                  parts + HardSplit(text, start, target, overlap) == HardSplit(text, 0, target, overlap)
      invariant start >= |text| ==> parts == HardSplit(text, 0, target, overlap)
      decreases |text| - start
    {
      HardSplitStep(text, start, target, overlap);
      var end := if start + target < |text| then start + target else |text|;
      if end < |text| {
        var brk := RFindNewline(text[start..end]);
        if brk >= target / 2 {
          end := start + brk;
        }
      }
      assert end == SliceEnd(text, start, target);
      var piece := Strip(text[start..end]);
      if piece != [] {
        parts := parts + [piece];
      }
      if end >= |text| {
        break;
      }
      start := Max(end - overlap, start + 1);
    }
  }

  lemma HardSplitNothing(target: nat, overlap: nat)
    requires target >= 1
    ensures HardSplit([], 0, target, overlap) == []
  {
  }

  // ----- packing paragraphs ---------------------------------------------------------------

  /** Length of paragraphs joined by blank lines. */
  function JoinedLength(parts: seq<string>): nat {
    |Join(parts, BLANK)|
  }

  /** The longest run of paragraphs at the end of `buf`, put before `taken`, that stays within the
      overlap when joined. */
  function Carry(buf: seq<string>, taken: seq<string>, overlap: nat): seq<string> {
    if buf == [] || JoinedLength([buf[|buf| - 1]] + taken) > overlap then taken
    else Carry(buf[..|buf| - 1], [buf[|buf| - 1]] + taken, overlap)
  }

  function Emitted(buf: seq<string>): seq<string> {
    if buf == [] then [] else [Join(buf, BLANK)]
  }

  /** A paragraph that would push the waiting ones past the target. */
  predicate Overflows(buf: seq<string>, para: string, z: Sizes) {
    buf != [] && JoinedLength(buf) + 2 + |para| > z.target
  }

  /** Windows one paragraph releases when `buf` is waiting. */
  function Released(buf: seq<string>, para: string, z: Sizes): seq<string>
    requires z.target >= 1
  {
    if |para| > z.maxChars then Emitted(buf) + HardSplit(para, 0, z.target, z.overlap)
    else if Overflows(buf, para, z) then Emitted(buf)
    else []
  }

  /** Paragraphs waiting afterwards. */
  function Waiting(buf: seq<string>, para: string, z: Sizes): seq<string> {
    if |para| > z.maxChars then Carry(buf, [], z.overlap)
    else if Overflows(buf, para, z) then Carry(buf, [], z.overlap) + [para]
    else buf + [para]
  }

  /** Windows still to come when paragraphs `i` onwards are left and `buf` is waiting. */
  function Pack(paras: seq<string>, i: nat, buf: seq<string>, z: Sizes): seq<string>
    requires z.target >= 1 && i <= |paras|
    decreases |paras| - i
  {
    if i == |paras| then Emitted(buf)
    else Released(buf, paras[i], z) + Pack(paras, i + 1, Waiting(buf, paras[i], z), z)
  }

  /** The stripped non-empty paragraphs of a text. */
  function Paragraphs(parts: seq<string>): (r: seq<string>)
    ensures forall i | 0 <= i < |r| :: r[i] != []
  {
    if parts == [] then []
    else (if Strip(parts[0]) == [] then [] else [Strip(parts[0])]) + Paragraphs(parts[1..])
  }

  function SplitBySize(text: string, z: Sizes): seq<string>
    requires z.target >= 1
  {
    var t := Strip(text);
    if t == [] then []
    else if |t| <= z.maxChars then [t]
    else Pack(Paragraphs(SplitBlank(t)), 0, [], z)
  }

  predicate NonEmpty(parts: seq<string>) {
    forall i | 0 <= i < |parts| :: parts[i] != []
  }

  lemma JoinedLengthStep(parts: seq<string>, p: string)
    ensures JoinedLength(parts + [p]) == JoinedLength(parts) + |p| + (if parts == [] then 0 else 2)
    ensures JoinedLength([p] + parts) == JoinedLength(parts) + |p| + (if parts == [] then 0 else 2)
  {
    JoinLast(parts, p);
    assert ([p] + parts)[1..] == parts;
  }

  lemma {:induction false} JoinLast(parts: seq<string>, p: string)
    ensures Join(parts + [p], BLANK) == if parts == [] then p else Join(parts, BLANK) + BLANK + p
  {
    if |parts| == 1 {
      assert (parts + [p])[1..] == [p];
      assert (parts + [p]) == [parts[0], p];
    } else if parts != [] {
      assert (parts + [p])[1..] == parts[1..] + [p];
      JoinLast(parts[1..], p);
    }
  }

  lemma {:induction false} JoinNonEmpty(parts: seq<string>)
    requires parts != [] && NonEmpty(parts)
    ensures JoinedLength(parts) > 0
  {
    assert parts == parts[..|parts| - 1] + [parts[|parts| - 1]];
    JoinedLengthStep(parts[..|parts| - 1], parts[|parts| - 1]);
  }

  lemma {:induction false} CarryKeeps(buf: seq<string>, taken: seq<string>, overlap: nat)
    requires NonEmpty(buf) && NonEmpty(taken) && JoinedLength(taken) <= overlap
    ensures NonEmpty(Carry(buf, taken, overlap)) && JoinedLength(Carry(buf, taken, overlap)) <= overlap
  {
    if !(buf == [] || JoinedLength([buf[|buf| - 1]] + taken) > overlap) {
      CarryKeeps(buf[..|buf| - 1], [buf[|buf| - 1]] + taken, overlap);
    }
  }

  /** A tail of the buffer fits in the overlap exactly when it is no longer than what is kept. */
  lemma {:induction false} CarryIsLongest(buf: seq<string>, taken: seq<string>, overlap: nat, i: nat)
    requires i <= |buf| && JoinedLength(taken) <= overlap
    ensures |Join(buf[i..] + taken, "\n\n")| <= overlap <==> |buf| - i + |taken| <= |Carry(buf, taken, overlap)|
    ensures |Carry(buf, taken, overlap)| >= |taken|
  {
    if i == |buf| {
      assert buf[i..] + taken == taken;
      if !(buf == [] || JoinedLength([buf[|buf| - 1]] + taken) > overlap) {
        CarryIsLongest(buf[..|buf| - 1], [buf[|buf| - 1]] + taken, overlap, |buf| - 1);
      }
    } else {
      var front, last := buf[..|buf| - 1], buf[|buf| - 1];
      assert buf[i..] + taken == front[i..] + ([last] + taken);
      if JoinedLength([last] + taken) > overlap {
        LongerTail(front[i..], [last] + taken);
      } else {
        CarryIsLongest(front, [last] + taken, overlap, i);
      }
    }
  }

  lemma {:induction false} LongerTail(x: seq<string>, y: seq<string>)
    ensures JoinedLength(x + y) >= JoinedLength(y)
  {
    if x == [] {
      assert x + y == y;
    } else {
      assert x + y == [x[0]] + (x[1..] + y);
      JoinedLengthStep(x[1..] + y, x[0]);
      LongerTail(x[1..], y);
    }
  }

  /** A paragraph overflows when it and the waiting ones, joined, are longer than the target. */
  lemma OverflowMeans(buf: seq<string>, para: string, z: Sizes)
    ensures Overflows(buf, para, z) <==> buf != [] && |Join(buf + [para], "\n\n")| > z.target
  {
    JoinedLengthStep(buf, para);
  }

  /** A blank text has no window, and one within the limit is one window, stripped. */
  lemma ShortTextIsWhole(text: string, z: Sizes)
    requires z.target >= 1 && |Strip(text)| <= z.maxChars
    ensures SplitBySize(text, z) == if Strip(text) == [] then [] else [Strip(text)]
  {
  }

  /** What one emit leaves behind, computed as the program does, from the back of the buffer. */
  method CarryOver(buf: seq<string>, overlap: nat) returns (kept: seq<string>, keptLength: nat)
    requires NonEmpty(buf)
    ensures kept == Carry(buf, [], overlap) && keptLength == JoinedLength(kept)
    ensures NonEmpty(kept)
  {
    kept, keptLength := [], 0;
    assert buf[..|buf|] == buf;
    var j := |buf|;
    while j > 0
      invariant 0 <= j <= |buf|
      invariant Carry(buf[..j], kept, overlap) == Carry(buf, [], overlap)
      invariant keptLength == JoinedLength(kept) && NonEmpty(kept)
    {
      assert buf[..j][..j - 1] == buf[..j - 1];
      var prev := buf[j - 1];
      JoinedLengthStep(kept, prev);
      var extra := if kept == [] then |prev| else |prev| + 2;
      if keptLength + extra > overlap {
        break;
      }
      kept, keptLength := [prev] + kept, keptLength + extra;
      j := j - 1;
    }
  }

  method SplitText(text: string, z: Sizes) returns (windows: seq<string>)
    requires z.target >= 1
    ensures windows == SplitBySize(text, z)
  {
    var t := Strip(text);
    if t == [] {
      return [];
    }
    if |t| <= z.maxChars {
      return [t];
    }
    windows := PackParagraphs(Paragraphs(SplitBlank(t)), z);
    WindowSizes(text, z);
    windows := KeepNonEmpty(windows);
  }

  method PackParagraphs(paras: seq<string>, z: Sizes) returns (windows: seq<string>)
    requires z.target >= 1 && NonEmpty(paras)
    ensures windows == Pack(paras, 0, [], z)
  {
    hide Released;
    hide Waiting;
    windows := [];
    var buf: seq<string> := [];
    var bufLength := 0;
    for i := 0 to |paras|
      invariant NonEmpty(buf)
      invariant bufLength == JoinedLength(buf)
      invariant windows + Pack(paras, i, buf, z) == Pack(paras, 0, [], z)
    {
      windows, buf, bufLength := TakeParagraph(windows, buf, bufLength, paras[i], z);
    }
    windows, buf, bufLength := Emit(windows, buf, bufLength, z.overlap);
  }

  /** One turn of the packing loop. */
  method TakeParagraph(windows: seq<string>, buf: seq<string>, bufLength: nat, para: string, z: Sizes)
    returns (windows': seq<string>, buf': seq<string>, bufLength': nat)
    requires z.target >= 1 && NonEmpty(buf) && bufLength == JoinedLength(buf) && para != []
    ensures windows' == windows + Released(buf, para, z)
    ensures buf' == Waiting(buf, para, z) && NonEmpty(buf') && bufLength' == JoinedLength(buf')
  {
    assert JoinedLength([]) == 0;
    hide JoinedLength;
    hide Carry;
    hide HardSplit;
    hide Emitted;
    windows', buf', bufLength' := windows, buf, bufLength;
    if |para| > z.maxChars {
      windows', buf', bufLength' := Emit(windows', buf', bufLength', z.overlap);
      var pieces := HardSplitText(para, z.target, z.overlap);
      windows' := windows' + pieces;
      assert windows' == windows + (Emitted(buf) + pieces);
      return;
    }
    var added := |para| + if buf' != [] then 2 else 0;
    if buf' != [] && bufLength' + added > z.target {
      windows', buf', bufLength' := Emit(windows', buf', bufLength', z.overlap);
    } else {
      assert windows' == windows + [];
    }
    JoinedLengthStep(buf', para);
    if buf' != [] {
      JoinNonEmpty(buf');
    }
    bufLength' := bufLength' + |para| + (if bufLength' != 0 then 2 else 0);
    buf' := buf' + [para];
  }

  /** Emit the buffer as a window and keep its tail as overlap; an empty buffer emits nothing. */
  method Emit(windows: seq<string>, buf: seq<string>, bufLength: nat, overlap: nat)
    returns (windows': seq<string>, buf': seq<string>, bufLength': nat)
    requires NonEmpty(buf) && bufLength == JoinedLength(buf)
    ensures windows' == windows + Emitted(buf)
    ensures buf' == Carry(buf, [], overlap) && NonEmpty(buf') && bufLength' == JoinedLength(buf')
  {
    if buf == [] {
      return windows, buf, bufLength;
    }
    windows' := windows + [Join(buf, BLANK)];
    buf', bufLength' := CarryOver(buf, overlap);
  }

  /** The final filter of the program, which never drops anything. */
  method KeepNonEmpty(windows: seq<string>) returns (kept: seq<string>)
    ensures NonEmpty(windows) ==> kept == windows
  {
    kept := [];
    for i := 0 to |windows|
      invariant NonEmpty(windows) ==> kept == windows[..i]
    {
      if windows[i] != [] {
        kept := kept + [windows[i]];
      }
    }
  }

  // ----- sizes ----------------------------------------------------------------------------

  predicate Within(parts: seq<string>, limit: int) {
    forall i | 0 <= i < |parts| :: 0 < |parts[i]| <= limit
  }

  lemma {:induction false} PiecesWithin(text: string, slices: seq<(nat, nat)>, limit: nat)
    requires SlicesOf(text, slices)
    requires forall i | 0 <= i < |slices| :: slices[i].1 - slices[i].0 <= limit
    ensures Within(Pieces(text, slices), limit)
  {
    if slices != [] {
      PiecesWithin(text, slices[1..], limit);
    }
  }

  /** Hard pieces are never empty and never longer than the target. */
  lemma HardPiecesWithin(text: string, target: nat, overlap: nat)
    requires target >= 1
    ensures Within(HardSplit(text, 0, target, overlap), target)
  {
    SlicesAreSlices(text, 0, target, overlap);
    if text != [] {
      SliceGeometry(text, 0, target, overlap);
    }
    PiecesWithin(text, Slices(text, 0, target, overlap), target);
  }

  function Limit(z: Sizes): int {
    Max(z.target, z.maxChars + z.overlap + 2)
  }

  /** What waits after a paragraph fits in a window, whatever waited before. */
  lemma WaitingFits(buf: seq<string>, para: string, z: Sizes)
    requires NonEmpty(buf) && para != []
    requires JoinedLength(buf) <= Limit(z)
    ensures NonEmpty(Waiting(buf, para, z)) && JoinedLength(Waiting(buf, para, z)) <= Limit(z)
  {
    assert JoinedLength([]) == 0;
    CarryKeeps(buf, [], z.overlap);
    var kept := Carry(buf, [], z.overlap);
    hide Carry;
    hide JoinedLength;
    JoinedLengthStep(kept, para);
    JoinedLengthStep(buf, para);
  }

  lemma ReleasedFits(buf: seq<string>, para: string, z: Sizes)
    requires z.target >= 1 && NonEmpty(buf) && JoinedLength(buf) <= Limit(z)
    ensures Within(Released(buf, para, z), Limit(z)) && Within(Emitted(buf), Limit(z))
  {
    if buf != [] {
      JoinNonEmpty(buf);
    }
    HardPiecesWithin(para, z.target, z.overlap);
    hide HardSplit;
    hide Join;
  }

  lemma {:induction false} PackWithin(paras: seq<string>, i: nat, buf: seq<string>, z: Sizes)
    requires z.target >= 1 && i <= |paras| && NonEmpty(paras) && NonEmpty(buf)
    requires JoinedLength(buf) <= Limit(z)
    ensures Within(Pack(paras, i, buf, z), Limit(z))
    decreases |paras| - i
  {
    hide Released;
    hide Waiting;
    hide JoinedLength;
    hide Emitted;
    if i == |paras| {
      ReleasedFits(buf, [], z);
    } else {
      ReleasedFits(buf, paras[i], z);
      WaitingFits(buf, paras[i], z);
      PackWithin(paras, i + 1, Waiting(buf, paras[i], z), z);
    }
  }

  /** No window is empty, and none is longer than the target or than a longest paragraph behind a
      full overlap. */
  lemma WindowSizes(text: string, z: Sizes)
    requires z.target >= 1
    ensures Within(SplitBySize(text, z), Limit(z))
  {
    PackWithin(Paragraphs(SplitBlank(Strip(text))), 0, [], z);
  }

  // ----- paragraphs stay whole ------------------------------------------------------------

  ghost predicate Contains(w: string, p: string) {
    exists x: string, y: string :: w == x + p + y
  }

  lemma {:induction false} JoinContains(parts: seq<string>, k: nat)
    requires k < |parts|
    ensures Contains(Join(parts, BLANK), parts[k])
  {
    if |parts| == 1 {
      assert Join(parts, BLANK) == [] + parts[k] + [];
    } else if k == 0 {
      assert Join(parts, BLANK) == [] + parts[0] + (BLANK + Join(parts[1..], BLANK));
    } else {
      JoinContains(parts[1..], k - 1);
      var x, y :| Join(parts[1..], BLANK) == x + parts[k] + y;
      assert Join(parts, BLANK) == (parts[0] + BLANK + x) + parts[k] + y;
    }
  }

  ghost predicate InSome(windows: seq<string>, p: string) {
    exists w :: 0 <= w < |windows| && Contains(windows[w], p)
  }

  lemma InSomeConcat(x: seq<string>, y: seq<string>, p: string)
    requires InSome(x, p) || InSome(y, p)
    ensures InSome(x + y, p)
  {
    if InSome(x, p) {
      var w :| 0 <= w < |x| && Contains(x[w], p);
      assert (x + y)[w] == x[w];
    } else {
      var w :| 0 <= w < |y| && Contains(y[w], p);
      assert (x + y)[|x| + w] == y[w];
    }
  }

  lemma EmittedIsWhole(buf: seq<string>, p: string)
    requires p in buf
    ensures InSome(Emitted(buf), p)
  {
    var k :| 0 <= k < |buf| && buf[k] == p;
    JoinContains(buf, k);
    assert Contains(Emitted(buf)[0], p);
  }

  lemma {:induction false} WaitingIsWhole(paras: seq<string>, i: nat, buf: seq<string>, z: Sizes, p: string)
    requires z.target >= 1 && i <= |paras| && p in buf
    ensures InSome(Pack(paras, i, buf, z), p)
    decreases |paras| - i
  {
    hide InSome;
    hide Emitted;
    hide HardSplit;
    hide JoinedLength;
    EmittedIsWhole(buf, p);
    if i < |paras| {
      var para := paras[i];
      var rest := Pack(paras, i + 1, Waiting(buf, para, z), z);
      if |para| > z.maxChars {
        InSomeConcat(Emitted(buf), HardSplit(para, 0, z.target, z.overlap), p);
      } else if !Overflows(buf, para, z) {
        WaitingIsWhole(paras, i + 1, buf + [para], z, p);
      }
      InSomeConcat(Released(buf, para, z), rest, p);
    }
  }

  lemma {:induction false} PackKeepsWhole(paras: seq<string>, i: nat, buf: seq<string>, z: Sizes, k: nat)
    requires z.target >= 1 && i <= k < |paras| && |paras[k]| <= z.maxChars
    ensures InSome(Pack(paras, i, buf, z), paras[k])
    decreases |paras| - i
  {
    var next := Waiting(buf, paras[i], z);
    if k == i {
      assert next[|next| - 1] == paras[i];
      WaitingIsWhole(paras, i + 1, next, z, paras[i]);
    } else {
      PackKeepsWhole(paras, i + 1, next, z, k);
    }
    InSomeConcat(Released(buf, paras[i], z), Pack(paras, i + 1, next, z), paras[k]);
  }

  /** Every paragraph no longer than the limit appears whole in some window. */
  lemma ParagraphsStayWhole(text: string, z: Sizes, k: nat)
    requires z.target >= 1
    requires |Strip(text)| > z.maxChars && Strip(text) != []
    requires k < |Paragraphs(SplitBlank(Strip(text)))|
    requires |Paragraphs(SplitBlank(Strip(text)))[k]| <= z.maxChars
    ensures InSome(SplitBySize(text, z), Paragraphs(SplitBlank(Strip(text)))[k])
  {
    PackKeepsWhole(Paragraphs(SplitBlank(Strip(text))), 0, [], z, k);
  }
}
