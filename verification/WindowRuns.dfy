/** Where each window comes from, and when every joined window is a run of neighbouring paragraphs. */
module WindowRuns {
  import opened Text
  import opened Cover
  import opened Windows
  import opened WindowCover

  /** A window joined from waiting paragraphs, given by their indices, or a piece of a long paragraph. */
  datatype Origin = Joined(idx: seq<nat>) | Cut(para: nat, piece: nat)

  /** The waiting indices an emit keeps. */
  function KeptIndices(paras: seq<string>, idx: seq<nat>, z: Sizes): seq<nat>
    requires Below(idx, |paras|)
  {
    var n := |Carry(At(paras, idx), [], z.overlap)|;
    CarryIsShorter(At(paras, idx), z.overlap);
    idx[|idx| - n..]
  }

  function WaitingIndex(paras: seq<string>, i: nat, idx: seq<nat>, z: Sizes): seq<nat>
    requires Below(idx, |paras|) && i < |paras|
  {
    if |paras[i]| > z.maxChars then KeptIndices(paras, idx, z)
    else if Overflows(At(paras, idx), paras[i], z) then KeptIndices(paras, idx, z) + [i]
    else idx + [i]
  }

  function EmittedOrigin(idx: seq<nat>): seq<Origin> {
    if idx == [] then [] else [Joined(idx)]
  }

  function Cuts(para: nat, pieces: nat): (r: seq<Origin>)
    ensures |r| == pieces && forall k | 0 <= k < pieces :: r[k] == Cut(para, k)
  {
    seq(pieces, k requires 0 <= k => Cut(para, k))
  }

  function ReleasedOrigins(paras: seq<string>, i: nat, idx: seq<nat>, z: Sizes): seq<Origin>
    requires z.target >= 1 && Below(idx, |paras|) && i < |paras|
  {
    if |paras[i]| > z.maxChars then
      EmittedOrigin(idx) + Cuts(i, |HardSplit(paras[i], 0, z.target, z.overlap)|)
    else if Overflows(At(paras, idx), paras[i], z) then EmittedOrigin(idx)
    else []
  }

  /** The origins of the windows still to come when the paragraphs at `idx` are waiting. */
  function Origins(paras: seq<string>, i: nat, idx: seq<nat>, z: Sizes): seq<Origin>
    requires z.target >= 1 && Below(idx, |paras|) && i <= |paras|
    decreases |paras| - i
  {
    if i == |paras| then EmittedOrigin(idx)
    else
      WaitingAgrees(paras, i, idx, z);
      ReleasedOrigins(paras, i, idx, z) + Origins(paras, i + 1, WaitingIndex(paras, i, idx, z), z)
  }

  /** The window with the given origin. */
  predicate ComesFrom(paras: seq<string>, window: string, o: Origin, z: Sizes)
    requires z.target >= 1
  {
    match o
    case Joined(idx) => Below(idx, |paras|) && window == Join(At(paras, idx), BLANK)
    case Cut(p, k) =>
      p < |paras| && k < |HardSplit(paras[p], 0, z.target, z.overlap)|
      && window == HardSplit(paras[p], 0, z.target, z.overlap)[k]
  }

  predicate AllComeFrom(paras: seq<string>, windows: seq<string>, origins: seq<Origin>, z: Sizes)
    requires z.target >= 1
  {
    |windows| == |origins| && forall k | 0 <= k < |windows| :: ComesFrom(paras, windows[k], origins[k], z)
  }

  lemma CarryIsShorter(buf: seq<string>, overlap: nat)
    ensures |Carry(buf, [], overlap)| <= |buf|
    ensures Carry(buf, [], overlap) == buf[|buf| - |Carry(buf, [], overlap)|..]
  {
    var j := CarryIsTail(buf, [], overlap);
  }

  lemma KeptAreCarried(paras: seq<string>, idx: seq<nat>, z: Sizes)
    requires Below(idx, |paras|)
    ensures Below(KeptIndices(paras, idx, z), |paras|)
    ensures At(paras, KeptIndices(paras, idx, z)) == Carry(At(paras, idx), [], z.overlap)
  {
    CarryIsShorter(At(paras, idx), z.overlap);
    hide Carry;
  }

  lemma WaitingAgrees(paras: seq<string>, i: nat, idx: seq<nat>, z: Sizes)
    requires Below(idx, |paras|) && i < |paras|
    ensures Below(WaitingIndex(paras, i, idx, z), |paras|)
    ensures At(paras, WaitingIndex(paras, i, idx, z)) == Waiting(At(paras, idx), paras[i], z)
  {
    hide Carry;
    hide Overflows;
    KeptAreCarried(paras, idx, z);
    hide KeptIndices;
  }

  lemma ReleasedAgrees(paras: seq<string>, i: nat, idx: seq<nat>, z: Sizes)
    requires z.target >= 1 && Below(idx, |paras|) && i < |paras|
    ensures AllComeFrom(paras, Released(At(paras, idx), paras[i], z), ReleasedOrigins(paras, i, idx, z), z)
  {
    hide HardSplit;
    hide Overflows;
    hide Join;
  }

  lemma AllComeFromConcat(paras: seq<string>, w1: seq<string>, o1: seq<Origin>, w2: seq<string>, o2: seq<Origin>,
                          z: Sizes)
    requires z.target >= 1 && AllComeFrom(paras, w1, o1, z) && AllComeFrom(paras, w2, o2, z)
    ensures AllComeFrom(paras, w1 + w2, o1 + o2, z)
  {
    hide ComesFrom;
  }

  /** The origins are those of the windows, one by one. */
  lemma {:induction false} WindowsComeFrom(paras: seq<string>, i: nat, idx: seq<nat>, z: Sizes)
    requires z.target >= 1 && Below(idx, |paras|) && i <= |paras|
    ensures AllComeFrom(paras, Pack(paras, i, At(paras, idx), z), Origins(paras, i, idx, z), z)
    decreases |paras| - i
  {
    if i < |paras| {
      var next := WaitingIndex(paras, i, idx, z);
      WaitingAgrees(paras, i, idx, z);
      ReleasedAgrees(paras, i, idx, z);
      hide WaitingIndex;
      hide Waiting;
      hide Released;
      hide ReleasedOrigins;
      hide AllComeFrom;
      WindowsComeFrom(paras, i + 1, next, z);
      AllComeFromConcat(paras, Released(At(paras, idx), paras[i], z), ReleasedOrigins(paras, i, idx, z),
                        Pack(paras, i + 1, At(paras, next), z), Origins(paras, i + 1, next, z), z);
    }
  }

  // ----- runs -----------------------------------------------------------------------------

  predicate Consecutive(idx: seq<nat>) {
    forall j | 0 <= j < |idx| - 1 :: idx[j + 1] == idx[j] + 1
  }

  /** Some window joins paragraphs that are not neighbours. */
  predicate Broken(origins: seq<Origin>) {
    exists k :: 0 <= k < |origins| && origins[k].Joined? && !Consecutive(origins[k].idx)
  }

  /** Two paragraphs within the limit with only long ones, and at least one, between them, the first short
      enough to be kept as overlap. */
  predicate Bridged(paras: seq<string>, j: nat, k: nat, z: Sizes) {
    && j + 1 < k < |paras|
    && |paras[j]| <= z.maxChars && |paras[j]| <= z.overlap && |paras[k]| <= z.maxChars
    && forall m | j < m < k :: |paras[m]| > z.maxChars
  }

  ghost predicate AnyBridge(paras: seq<string>, z: Sizes) {
    exists j, k :: Bridged(paras, j, k, z)
  }

  lemma BrokenConcat(x: seq<Origin>, y: seq<Origin>)
    ensures Broken(x + y) <==> Broken(x) || Broken(y)
  {
    hide Consecutive;
    if Broken(x) {
      var k :| 0 <= k < |x| && x[k].Joined? && !Consecutive(x[k].idx);
      assert (x + y)[k] == x[k];
    }
    if Broken(y) {
      var k :| 0 <= k < |y| && y[k].Joined? && !Consecutive(y[k].idx);
      assert (x + y)[|x| + k] == y[k];
    }
  }

  lemma EmittedBreaks(idx: seq<nat>)
    ensures Broken(EmittedOrigin(idx)) <==> !Consecutive(idx)
  {
    if !Consecutive(idx) {
      assert EmittedOrigin(idx)[0] == Joined(idx);
    }
  }

  lemma ReleasedBreaks(paras: seq<string>, i: nat, idx: seq<nat>, z: Sizes)
    requires z.target >= 1 && Below(idx, |paras|) && i < |paras|
    ensures Broken(ReleasedOrigins(paras, i, idx, z))
       <==> !Consecutive(idx) && (|paras[i]| > z.maxChars || Overflows(At(paras, idx), paras[i], z))
  {
    hide Consecutive;
    hide HardSplit;
    hide Overflows;
    EmittedBreaks(idx);
    hide EmittedOrigin;
    if |paras[i]| > z.maxChars {
      BrokenConcat(EmittedOrigin(idx), Cuts(i, |HardSplit(paras[i], 0, z.target, z.overlap)|));
    }
  }

  /** Something is kept exactly when the last waiting paragraph fits in the overlap. */
  lemma KeptEnds(paras: seq<string>, idx: seq<nat>, z: Sizes)
    requires Below(idx, |paras|)
    ensures var kept := KeptIndices(paras, idx, z);
            && (kept != [] <==> idx != [] && |paras[idx[|idx| - 1]]| <= z.overlap)
            && (kept != [] ==> kept[|kept| - 1] == idx[|idx| - 1])
            && (Consecutive(idx) ==> Consecutive(kept))
  {
    var buf := At(paras, idx);
    CarryIsShorter(buf, z.overlap);
    if idx != [] {
      var last := buf[|buf| - 1];
      assert [last] + [] == [last];
      assert JoinedLength([last]) == |last|;
      if |last| <= z.overlap {
        var j := CarryIsTail(buf[..|buf| - 1], [last], z.overlap);
      }
    }
  }

  // ----- a bridge breaks a window ---------------------------------------------------------

  /** Waiting paragraphs that are not neighbours are emitted together. */
  lemma {:induction false} BrokenIsEmitted(paras: seq<string>, i: nat, idx: seq<nat>, z: Sizes)
    requires z.target >= 1 && Below(idx, |paras|) && i <= |paras| && !Consecutive(idx)
    ensures Broken(Origins(paras, i, idx, z))
    decreases |paras| - i
  {
    hide Overflows;
    hide Broken;
    hide Consecutive;
    hide ReleasedOrigins;
    hide KeptIndices;
    hide Waiting;
    EmittedBreaks(idx);
    if i < |paras| {
      ReleasedBreaks(paras, i, idx, z);
      WaitingAgrees(paras, i, idx, z);
      var next := WaitingIndex(paras, i, idx, z);
      BrokenConcat(ReleasedOrigins(paras, i, idx, z), Origins(paras, i + 1, next, z));
      if |paras[i]| <= z.maxChars && !Overflows(At(paras, idx), paras[i], z) {
        StillBroken(idx, i);
        BrokenIsEmitted(paras, i + 1, next, z);
      }
    }
  }

  lemma StillBroken(idx: seq<nat>, i: nat)
    requires !Consecutive(idx)
    ensures !Consecutive(idx + [i])
  {
    var j :| 0 <= j < |idx| - 1 && idx[j + 1] != idx[j] + 1;
    assert (idx + [i])[j] == idx[j] && (idx + [i])[j + 1] == idx[j + 1];
  }

  lemma JumpBreaks(idx: seq<nat>, i: nat)
    requires idx != [] && i != idx[|idx| - 1] + 1
    ensures !Consecutive(idx + [i])
  {
    var more := idx + [i];
    assert more[|idx| - 1] == idx[|idx| - 1] && more[|idx|] == i;
  }

  /** A long paragraph adds nothing and leaves the last waiting one if it fits in the overlap. */
  lemma AfterLong(paras: seq<string>, i: nat, idx: seq<nat>, z: Sizes)
    requires Below(idx, |paras|) && i < |paras| && |paras[i]| > z.maxChars
    ensures var next := WaitingIndex(paras, i, idx, z);
            && (next != [] <==> idx != [] && |paras[idx[|idx| - 1]]| <= z.overlap)
            && (next != [] ==> next[|next| - 1] == idx[|idx| - 1])
            && (Consecutive(idx) ==> Consecutive(next))
  {
    hide Consecutive;
    hide KeptIndices;
    KeptEnds(paras, idx, z);
  }

  /** A paragraph within the limit is joined to what is waiting, or to what an emit keeps of it. */
  lemma AfterShort(paras: seq<string>, i: nat, idx: seq<nat>, z: Sizes) returns (front: seq<nat>)
    requires Below(idx, |paras|) && i < |paras| && |paras[i]| <= z.maxChars
    ensures WaitingIndex(paras, i, idx, z) == front + [i]
    ensures front != [] ==> idx != [] && front[|front| - 1] == idx[|idx| - 1]
    ensures idx != [] && |paras[idx[|idx| - 1]]| <= z.overlap ==> front != []
    ensures Consecutive(idx) ==> Consecutive(front)
  {
    hide Consecutive;
    hide KeptIndices;
    hide Overflows;
    KeptEnds(paras, idx, z);
    front := if Overflows(At(paras, idx), paras[i], z) then KeptIndices(paras, idx, z) else idx;
  }

  /** From the first side of a bridge to the second, the first side is the last one waiting. */
  lemma BridgeHolds(paras: seq<string>, i: nat, idx: seq<nat>, z: Sizes, j: nat, k: nat)
    requires Below(idx, |paras|) && i < k && Bridged(paras, j, k, z)
    requires i > j ==> idx != [] && idx[|idx| - 1] == j
    ensures var next := WaitingIndex(paras, i, idx, z);
            i + 1 > j ==> next != [] && next[|next| - 1] == j
  {
    hide WaitingIndex;
    hide Consecutive;
    if i > j {
      AfterLong(paras, i, idx, z);
    } else if i == j {
      var front := AfterShort(paras, i, idx, z);
    }
  }

  lemma BridgeJumps(paras: seq<string>, idx: seq<nat>, z: Sizes, j: nat, k: nat)
    requires Below(idx, |paras|) && Bridged(paras, j, k, z)
    requires idx != [] && idx[|idx| - 1] == j
    ensures !Consecutive(WaitingIndex(paras, k, idx, z))
  {
    hide WaitingIndex;
    hide Consecutive;
    var front := AfterShort(paras, k, idx, z);
    JumpBreaks(front, k);
  }

  lemma {:induction false} BridgeBreaks(paras: seq<string>, i: nat, idx: seq<nat>, z: Sizes, j: nat, k: nat)
    requires z.target >= 1 && Below(idx, |paras|) && i <= k && Bridged(paras, j, k, z)
    requires i > j ==> idx != [] && idx[|idx| - 1] == j
    ensures Broken(Origins(paras, i, idx, z))
    decreases |paras| - i
  {
    hide Broken;
    hide WaitingIndex;
    hide ReleasedOrigins;
    hide Consecutive;
    assert k < |paras| && j < k;
    var next := WaitingIndex(paras, i, idx, z);
    WaitingAgrees(paras, i, idx, z);
    hide Waiting;
    if i < k {
      BridgeHolds(paras, i, idx, z, j, k);
      hide Bridged;
      BridgeBreaks(paras, i + 1, next, z, j, k);
    } else {
      BridgeJumps(paras, idx, z, j, k);
      hide Bridged;
      BrokenIsEmitted(paras, i + 1, next, z);
    }
    BrokenConcat(ReleasedOrigins(paras, i, idx, z), Origins(paras, i + 1, next, z));
  }

  // ----- nothing else does ----------------------------------------------------------------

  /** The waiting paragraphs are neighbours within the limit; what follows them up to `i` is long, and there is
      such only if the last of them fits in the overlap. */
  predicate Orderly(paras: seq<string>, i: nat, idx: seq<nat>, z: Sizes)
    requires Below(idx, |paras|) && i <= |paras|
  {
    && Consecutive(idx)
    && (idx != [] ==>
          var last := idx[|idx| - 1];
          && last < i && |paras[last]| <= z.maxChars
          && (forall m | last < m < i :: |paras[m]| > z.maxChars)
          && (last + 1 < i ==> |paras[last]| <= z.overlap))
  }

  lemma JoinedIsConsecutive(front: seq<nat>, i: nat)
    requires Consecutive(front) && (front != [] ==> front[|front| - 1] + 1 == i)
    ensures Consecutive(front + [i])
  {
  }

  lemma NextIsOrderly(paras: seq<string>, i: nat, idx: seq<nat>, z: Sizes)
    requires Below(idx, |paras|) && i < |paras| && Orderly(paras, i, idx, z) && !AnyBridge(paras, z)
    ensures Below(WaitingIndex(paras, i, idx, z), |paras|) && Orderly(paras, i + 1, WaitingIndex(paras, i, idx, z), z)
  {
    hide WaitingIndex;
    hide Consecutive;
    hide Waiting;
    WaitingAgrees(paras, i, idx, z);
    var next := WaitingIndex(paras, i, idx, z);
    if |paras[i]| > z.maxChars {
      AfterLong(paras, i, idx, z);
    } else {
      var front := AfterShort(paras, i, idx, z);
      if front != [] {
        var last: nat := front[|front| - 1];
        assert last + 1 < i ==> Bridged(paras, last, i, z);
      }
      JoinedIsConsecutive(front, i);
      assert next[|next| - 1] == i;
    }
  }

  lemma {:induction false} NoBridgeNoBreak(paras: seq<string>, i: nat, idx: seq<nat>, z: Sizes)
    requires z.target >= 1 && Below(idx, |paras|) && i <= |paras| && Orderly(paras, i, idx, z) && !AnyBridge(paras, z)
    ensures !Broken(Origins(paras, i, idx, z))
    decreases |paras| - i
  {
    EmittedBreaks(idx);
    hide Broken;
    hide AnyBridge;
    if i < |paras| {
      ReleasedBreaks(paras, i, idx, z);
      NextIsOrderly(paras, i, idx, z);
      hide WaitingIndex;
      hide Orderly;
      var next := WaitingIndex(paras, i, idx, z);
      NoBridgeNoBreak(paras, i + 1, next, z);
      BrokenConcat(ReleasedOrigins(paras, i, idx, z), Origins(paras, i + 1, next, z));
    }
  }

  /** When windows are runs, exactly: each window of a text over the limit is a piece of one long paragraph or
      joined from waiting paragraphs, and every joined one joins neighbours if and only if nowhere do two
      paragraphs within the limit stand around long ones only, the first short enough for the overlap. */
  lemma RunsExactly(text: string, z: Sizes)
    requires z.target >= 1 && |Strip(text)| > z.maxChars
    ensures var paras := Paragraphs(SplitBlank(Strip(text)));
            && AllComeFrom(paras, SplitBySize(text, z), Origins(paras, 0, [], z), z)
            && (Broken(Origins(paras, 0, [], z)) <==> AnyBridge(paras, z))
  {
    var paras := Paragraphs(SplitBlank(Strip(text)));
    hide Paragraphs;
    hide SplitBlank;
    hide Strip;
    var none: seq<nat> := [];
    assert At(paras, none) == [];
    WindowsComeFrom(paras, 0, none, z);
    hide Pack;
    hide Origins;
    if AnyBridge(paras, z) {
      var j, k :| Bridged(paras, j, k, z);
      BridgeBreaks(paras, 0, none, z, j, k);
    } else {
      NoBridgeNoBreak(paras, 0, none, z);
    }
  }
}
