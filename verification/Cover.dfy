/** When a list of pieces keeps a whole text: every piece is a subsequence of it, in order, and
    together the pieces use every one of its positions. */
module Cover {

  predicate Increasing(m: seq<nat>) {
    forall i, j | 0 <= i < j < |m| :: m[i] < m[j]
  }

  predicate Below(m: seq<nat>, n: nat) {
    forall i | 0 <= i < |m| :: m[i] < n
  }

  function Pick(src: string, m: seq<nat>): string
    requires Below(m, |src|)
  {
    seq(|m|, i requires 0 <= i < |m| => src[m[i]])
  }

  /** The positions used by a list of pieces. */
  function Hits(ms: seq<seq<nat>>): set<nat> {
    if ms == [] then {} else (set p | p in ms[0]) + Hits(ms[1..])
  }

  /** Each piece is read off `src` at increasing positions. */
  ghost predicate Placed(src: string, pieces: seq<string>, ms: seq<seq<nat>>) {
    && |ms| == |pieces|
    && forall i | 0 <= i < |ms| ::
         Increasing(ms[i]) && Below(ms[i], |src|) && Pick(src, ms[i]) == pieces[i]
  }

  /** Nothing invented, nothing reordered inside a piece, nothing lost; the pieces themselves may come in any
      order and overlap. */
  ghost predicate Covers(src: string, pieces: seq<string>) {
    exists ms :: Placed(src, pieces, ms) && forall p | 0 <= p < |src| :: p in Hits(ms)
  }

  function Range(lo: nat, hi: nat): (m: seq<nat>)
    requires lo <= hi
    ensures |m| == hi - lo && forall i | 0 <= i < |m| :: m[i] == lo + i
  {
    seq(hi - lo, i requires 0 <= i => lo + i)
  }

  function Compose(m: seq<nat>, k: seq<nat>): (r: seq<nat>)
    requires Below(k, |m|)
    ensures |r| == |k| && forall i | 0 <= i < |k| :: r[i] == m[k[i]]
  {
    seq(|k|, i requires 0 <= i < |k| => m[k[i]])
  }

  function ComposeAll(m: seq<nat>, ks: seq<seq<nat>>): (r: seq<seq<nat>>)
    requires forall i | 0 <= i < |ks| :: Below(ks[i], |m|)
    ensures |r| == |ks| && forall i | 0 <= i < |ks| :: r[i] == Compose(m, ks[i])
  {
    seq(|ks|, i requires 0 <= i < |ks| => Compose(m, ks[i]))
  }

  lemma {:induction false} HitsConcat(x: seq<seq<nat>>, y: seq<seq<nat>>)
    ensures Hits(x + y) == Hits(x) + Hits(y)
  {
    if x == [] {
      assert x + y == y;
    } else {
      assert (x + y)[1..] == x[1..] + y;
      HitsConcat(x[1..], y);
    }
  }

  lemma {:induction false} HitWitness(ms: seq<seq<nat>>, p: nat) returns (i: nat)
    requires p in Hits(ms)
    ensures i < |ms| && p in ms[i]
  {
    if p in ms[0] {
      i := 0;
    } else {
      i := HitWitness(ms[1..], p);
      i := i + 1;
    }
  }

  lemma {:induction false} HitsAt(ms: seq<seq<nat>>, i: nat, p: nat)
    requires i < |ms| && p in ms[i]
    ensures p in Hits(ms)
  {
    if i > 0 {
      HitsAt(ms[1..], i - 1, p);
    }
  }

  lemma PlacedConcat(src: string, x: seq<string>, xs: seq<seq<nat>>, y: seq<string>, ys: seq<seq<nat>>)
    requires Placed(src, x, xs) && Placed(src, y, ys)
    ensures Placed(src, x + y, xs + ys)
    ensures Hits(xs + ys) == Hits(xs) + Hits(ys)
  {
    HitsConcat(xs, ys);
  }

  /** Pieces of a piece are pieces of the whole. */
  lemma PlacedThrough(src: string, m: seq<nat>, pieces: seq<string>, ks: seq<seq<nat>>)
    requires Increasing(m) && Below(m, |src|) && Placed(Pick(src, m), pieces, ks)
    ensures Placed(src, pieces, ComposeAll(m, ks))
    ensures forall q | 0 <= q < |m| && q in Hits(ks) :: m[q] in Hits(ComposeAll(m, ks))
  {
    forall i | 0 <= i < |ks|
      ensures var r := ComposeAll(m, ks)[i];
              Increasing(r) && Below(r, |src|) && Pick(src, r) == pieces[i]
    {
    }
    forall q | 0 <= q < |m| && q in Hits(ks) ensures m[q] in Hits(ComposeAll(m, ks)) {
      var i := HitWitness(ks, q);
      var j :| 0 <= j < |ks[i]| && ks[i][j] == q;
      assert ComposeAll(m, ks)[i][j] == m[q];
      HitsAt(ComposeAll(m, ks), i, m[q]);
    }
  }

  function Flatten(groups: seq<seq<string>>): seq<string> {
    if groups == [] then [] else groups[0] + Flatten(groups[1..])
  }

  /** Covering is transitive: cover each covering piece, and the whole stays covered. */
  lemma CoversThrough(src: string, pieces: seq<string>, groups: seq<seq<string>>)
    requires Covers(src, pieces) && |groups| == |pieces|
    requires forall i | 0 <= i < |pieces| :: Covers(pieces[i], groups[i])
    ensures Covers(src, Flatten(groups))
  {
    var ms :| Placed(src, pieces, ms) && forall p | 0 <= p < |src| :: p in Hits(ms);
    var rs := FlattenPlaced(src, pieces, ms, groups);
  }

  lemma {:induction false} FlattenPlaced(src: string, pieces: seq<string>, ms: seq<seq<nat>>,
                                         groups: seq<seq<string>>)
    returns (rs: seq<seq<nat>>)
    requires Placed(src, pieces, ms) && |groups| == |pieces|
    requires forall i | 0 <= i < |pieces| :: Covers(pieces[i], groups[i])
    ensures Placed(src, Flatten(groups), rs)
    ensures Hits(ms) <= Hits(rs)
  {
    if pieces == [] {
      rs := [];
    } else {
      var rest := FlattenPlaced(src, pieces[1..], ms[1..], groups[1..]);
      assert Covers(pieces[0], groups[0]);
      var ks :| Placed(pieces[0], groups[0], ks) && forall p | 0 <= p < |pieces[0]| :: p in Hits(ks);
      PlacedThrough(src, ms[0], groups[0], ks);
      var first := ComposeAll(ms[0], ks);
      rs := first + rest;
      PlacedConcat(src, groups[0], first, Flatten(groups[1..]), rest);
      forall p | p in ms[0] ensures p in Hits(first) {
        var q :| 0 <= q < |ms[0]| && ms[0][q] == p;
      }
    }
  }

  lemma RangePicks(src: string, lo: nat, hi: nat)
    requires lo <= hi <= |src|
    ensures Increasing(Range(lo, hi)) && Below(Range(lo, hi), |src|)
    ensures Pick(src, Range(lo, hi)) == src[lo..hi]
  {
  }

  /** A partition covers. */
  lemma WholeCovers(src: string)
    ensures Covers(src, [src])
  {
    RangePicks(src, 0, |src|);
    var ms := [Range(0, |src|)];
    forall p | 0 <= p < |src| ensures p in Hits(ms) {
      assert ms[0][p] == p;
    }
    assert Placed(src, [src], ms);
  }
}
