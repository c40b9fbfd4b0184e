/** What the fused ranking promises about the two rankings it was made from. */
module RankFusionOrder {
  import opened Ordering
  import opened Options
  import opened RankFusion

  lemma AheadIsStrict(bm25: seq<Hit>, knn: seq<Hit>, w: Weights, a: string, b: string)
    ensures !(Ahead(bm25, knn, w, a, b) && Ahead(bm25, knn, w, b, a)) && !Ahead(bm25, knn, w, a, a)
  {
    hide Score;
    LessIsTotal(a, b);
    LessIsTotal(a, a);
  }

  lemma SameRow(bm25: seq<Hit>, knn: seq<Hit>, w: Weights, x: Hit, y: Hit)
    requires x.id == y.id
    requires x.score == Score(bm25, knn, w, x.id) && Carries(x, Shown(bm25, knn, x.id))
    requires y.score == Score(bm25, knn, w, y.id) && Carries(y, Shown(bm25, knn, y.id))
    ensures x == y
  {
    hide Score;
    hide Shown;
    var o := Shown(bm25, knn, x.id).value;
    assert x == o.(score := x.score) && y == o.(score := y.score);
  }

  /** If the longer fusion starts like the shorter one up to `i`, they also agree at `i`. */
  lemma SameAt(bm25: seq<Hit>, knn: seq<Hit>, k1: nat, k2: nat, w: Weights, f1: seq<Hit>, f2: seq<Hit>, i: nat)
    requires IsFusion(bm25, knn, k1, w, f1) && IsFusion(bm25, knn, k2, w, f2) && i < |f1| <= |f2|
    requires forall j | 0 <= j < i :: f1[j].id == f2[j].id
    ensures f1[i].id == f2[i].id
  {
    hide Score;
    hide Shown;
    hide Pool;
    hide Offered;
    hide Carries;
    hide Ahead;
    var a, b := f1[i].id, f2[i].id;
    AheadIsStrict(bm25, knn, w, a, b);
    AheadIsStrict(bm25, knn, w, b, b);
    if a != b {
      LateOrAbsent(bm25, knn, k1, w, f1, f2, i);
      LateOrAbsent(bm25, knn, k2, w, f2, f1, i);
    }
  }

  /** Whatever stands at `i` in one fusion and not in the other is behind what the other has there. */
  lemma LateOrAbsent(bm25: seq<Hit>, knn: seq<Hit>, k1: nat, w: Weights, f1: seq<Hit>, f2: seq<Hit>, i: nat)
    requires IsFusion(bm25, knn, k1, w, f1) && i < |f1| && i < |f2| && f1[i].id != f2[i].id
    requires Offered(bm25, knn, f2[i].id)
    requires forall j | 0 <= j < i :: f1[j].id == f2[j].id && Ahead(bm25, knn, w, f2[j].id, f2[i].id)
    ensures Ahead(bm25, knn, w, f1[i].id, f2[i].id)
  {
    hide Score;
    hide Shown;
    hide Pool;
    hide Offered;
    hide Carries;
    hide Ahead;
    var b := f2[i].id;
    AheadIsStrict(bm25, knn, w, b, b);
    if Has(f1, b) {
      var j :| 0 <= j < |f1| && f1[j].id == b;
      assert j > i;
    }
  }

  /** The fusion is determined by its inputs, and asking for fewer results gives the first of them. */
  lemma FewerIsPrefix(bm25: seq<Hit>, knn: seq<Hit>, k1: nat, k2: nat, w: Weights, f1: seq<Hit>, f2: seq<Hit>)
    requires IsFusion(bm25, knn, k1, w, f1) && IsFusion(bm25, knn, k2, w, f2) && k1 <= k2
    ensures f1 == f2[..|f1|]
  {
    IdsAgree(bm25, knn, k1, k2, w, f1, f2, |f1|);
    hide Score;
    hide Shown;
    hide Pool;
    hide Offered;
    hide Carries;
    hide Ahead;
    forall i | 0 <= i < |f1| ensures f1[i] == f2[i] {
      SameRow(bm25, knn, w, f1[i], f2[i]);
    }
  }

  lemma {:induction false} IdsAgree(bm25: seq<Hit>, knn: seq<Hit>, k1: nat, k2: nat, w: Weights, f1: seq<Hit>,
                                    f2: seq<Hit>, n: nat)
    requires IsFusion(bm25, knn, k1, w, f1) && IsFusion(bm25, knn, k2, w, f2) && n <= |f1| <= |f2|
    ensures forall j | 0 <= j < n :: f1[j].id == f2[j].id
  {
    hide IsFusion;
    if n > 0 {
      IdsAgree(bm25, knn, k1, k2, w, f1, f2, n - 1);
      SameAt(bm25, knn, k1, k2, w, f1, f2, n - 1);
    }
  }

  // ----- scores of distinct ids -----------------------------------------------------------

  lemma {:induction false} GivenOnce(hits: seq<Hit>, weight: real, k: nat, i: nat)
    requires DistinctIds(hits) && i < |hits|
    ensures Given(hits, weight, k, hits[i].id) == Share(weight, k, i + 1)
  {
    hide Share;
    var n := |hits| - 1;
    if i < n {
      GivenOnce(hits[..n], weight, k, i);
    } else {
      GivenNothing(hits[..n], weight, k, hits[n].id);
    }
  }

  lemma {:induction false} GivenNothing(hits: seq<Hit>, weight: real, k: nat, id: string)
    requires forall i | 0 <= i < |hits| :: hits[i].id != id
    ensures Given(hits, weight, k, id) == 0.0
  {
    if hits != [] {
      GivenNothing(hits[..|hits| - 1], weight, k, id);
    }
  }

  lemma SharesFall(weight: real, k: nat, r: nat, s: nat)
    requires weight > 0.0 && 1 <= r < s
    ensures Share(weight, k, r) > Share(weight, k, s) > 0.0
  {
    var x, y := (k + r) as real, (k + s) as real;
    assert 0.0 < x < y;
    Quotients(weight, x, y);
  }

  lemma Quotients(w: real, x: real, y: real)
    requires w > 0.0 && 0.0 < x < y
    ensures w / x > w / y > 0.0
  {
    assert (w / x) * x == w && (w / y) * y == w;
    Scaled(w / y, x, y);
    Cancel(w / y, w / x, x);
  }

  lemma Scaled(q: real, x: real, y: real)
    requires q > 0.0 && x < y
    ensures q * x < q * y
  {
  }

  lemma Cancel(q: real, p: real, x: real)
    requires q * x < p * x && x > 0.0
    ensures q < p
  {
  }

  /** `a` is in the list, and `b` is after it or nowhere. */
  ghost predicate Leads(hits: seq<Hit>, a: string, b: string) {
    exists i :: LeadsAt(hits, i, a, b)
  }

  predicate LeadsAt(hits: seq<Hit>, i: int, a: string, b: string) {
    0 <= i < |hits| && hits[i].id == a && forall j | 0 <= j <= i :: hits[j].id != b
  }

  lemma LeadersGetMore(hits: seq<Hit>, weight: real, k: nat, a: string, b: string)
    requires DistinctIds(hits) && Leads(hits, a, b) && weight > 0.0
    ensures Given(hits, weight, k, a) > Given(hits, weight, k, b)
    ensures Has(hits, a)
  {
    hide Share;
    hide Given;
    var i :| LeadsAt(hits, i, a, b);
    GivenOnce(hits, weight, k, i);
    if Has(hits, b) {
      var j :| 0 <= j < |hits| && hits[j].id == b;
      GivenOnce(hits, weight, k, j);
      SharesFall(weight, k, i + 1, j + 1);
    } else {
      GivenNothing(hits, weight, k, b);
      SharesFall(weight, k, i + 1, i + 2);
    }
  }

  /** An item ahead of another in both rankings is ahead of it in the fused one; it cannot be dropped
      while the other stays. */
  lemma LeaderStaysAhead(bm25: seq<Hit>, knn: seq<Hit>, topK: nat, w: Weights, fused: seq<Hit>, a: string, j: nat)
    requires IsFusion(bm25, knn, topK, w, fused) && j < |fused|
    requires DistinctIds(bm25) && DistinctIds(knn) && w.bm25 > 0.0 && w.knn > 0.0
    requires Leads(bm25, a, fused[j].id) && Leads(knn, a, fused[j].id)
    ensures exists i :: 0 <= i < j && fused[i].id == a && fused[i].score > fused[j].score
  {
    var b := fused[j].id;
    LeadersGetMore(bm25, w.bm25, w.k, a, b);
    LeadersGetMore(knn, w.knn, w.k, a, b);
    assert Offered(bm25, knn, a);
    assert Score(bm25, knn, w, a) > Score(bm25, knn, w, b);
    assert Ahead(bm25, knn, w, a, b);
    hide Shown;
    hide Pool;
    hide Carries;
    hide Score;
    hide Offered;
    AheadIsStrict(bm25, knn, w, a, b);
    AheadIsStrict(bm25, knn, w, b, b);
    assert Has(fused, a);
    var i :| 0 <= i < |fused| && fused[i].id == a;
    assert i < j;
  }

  // ----- one list empty -------------------------------------------------------------------

  function Rescored(hits: seq<Hit>, weight: real, k: nat): (r: seq<Hit>)
    ensures |r| == |hits| && forall i | 0 <= i < |hits| :: r[i] == hits[i].(score := Share(weight, k, i + 1))
  {
    seq(|hits|, i requires 0 <= i < |hits| => hits[i].(score := Share(weight, k, i + 1)))
  }

  lemma {:induction false} ShownAlone(hits: seq<Hit>, i: nat)
    requires DistinctIds(hits) && i < |hits|
    ensures LastOf(hits, hits[i].id) == Some(hits[i]) && FirstOf(hits, hits[i].id) == Some(hits[i])
  {
    var n := |hits| - 1;
    if i < n {
      ShownAlone(hits[..n], i);
    } else {
      ShownNothing(hits[..n], hits[n].id);
    }
  }

  lemma {:induction false} ShownNothing(hits: seq<Hit>, id: string)
    requires forall i | 0 <= i < |hits| :: hits[i].id != id
    ensures FirstOf(hits, id) == None
  {
    if hits != [] {
      ShownNothing(hits[..|hits| - 1], id);
    }
  }

  lemma {:induction false} PoolOfDistinct(hits: seq<Hit>)
    requires DistinctIds(hits)
    ensures |Pool(hits, [])| == |hits| && |Pool([], hits)| == |hits|
  {
    forall x ensures x in Ids(hits) <==> x in Pool(hits, []) {
      if x in Pool(hits, []) {
        var i :| 0 <= i < |hits| && hits[i].id == x;
        assert Ids(hits)[i] == x;
      }
    }
    CountKeys(Ids(hits), Pool(hits, []));
    assert Pool([], hits) == Pool(hits, []);
  }

  /** With one ranking empty the fused one is the other, in its own order, cut to the limit. */
  lemma LoneListKeepsOrder(hits: seq<Hit>, topK: nat, w: Weights, fused: seq<Hit>)
    requires DistinctIds(hits)
    ensures w.bm25 > 0.0 && IsFusion(hits, [], topK, w, fused) ==>
              fused == Rescored(hits, w.bm25, w.k)[..if topK < |hits| then topK else |hits|]
    ensures w.knn > 0.0 && IsFusion([], hits, topK, w, fused) ==>
              fused == Rescored(hits, w.knn, w.k)[..if topK < |hits| then topK else |hits|]
  {
    PoolOfDistinct(hits);
    hide Share;
    if w.bm25 > 0.0 && IsFusion(hits, [], topK, w, fused) {
      LoneBm25(hits, w);
      hide IsFusion;
      PrefixEitherWay(hits, [], topK, |hits|, w, fused, Rescored(hits, w.bm25, w.k));
    }
    if w.knn > 0.0 && IsFusion([], hits, topK, w, fused) {
      LoneKnn(hits, w);
      hide IsFusion;
      PrefixEitherWay([], hits, topK, |hits|, w, fused, Rescored(hits, w.knn, w.k));
    }
  }

  lemma PrefixEitherWay(bm25: seq<Hit>, knn: seq<Hit>, k1: nat, k2: nat, w: Weights, f1: seq<Hit>, f2: seq<Hit>)
    requires IsFusion(bm25, knn, k1, w, f1) && IsFusion(bm25, knn, k2, w, f2) && k2 == |Pool(bm25, knn)| == |f2|
    ensures f1 == f2[..if k1 < k2 then k1 else k2]
  {
    if k1 < k2 {
      FewerIsPrefix(bm25, knn, k1, k2, w, f1, f2);
    } else {
      FewerIsPrefix(bm25, knn, k2, k1, w, f2, f1);
    }
  }

  /** Rows in falling order of their own scores, one for each id offered, are the fusion. */
  lemma FallingIsFusion(bm25: seq<Hit>, knn: seq<Hit>, w: Weights, rows: seq<Hit>)
    requires |rows| == |Pool(bm25, knn)| && forall id :: Offered(bm25, knn, id) <==> Has(rows, id)
    requires forall i | 0 <= i < |rows| ::
               rows[i].score == Score(bm25, knn, w, rows[i].id) && Carries(rows[i], Shown(bm25, knn, rows[i].id))
    requires forall i, j | 0 <= i < j < |rows| :: rows[i].score > rows[j].score
    ensures IsFusion(bm25, knn, |rows|, w, rows)
  {
    hide Score;
    hide Shown;
    hide Pool;
    hide Carries;
    hide Offered;
    assert forall i | 0 <= i < |rows| :: Has(rows, rows[i].id);
  }

  lemma RescoredFalls(hits: seq<Hit>, weight: real, k: nat)
    requires weight > 0.0
    ensures var r := Rescored(hits, weight, k); forall i, j | 0 <= i < j < |r| :: r[i].score > r[j].score
  {
    hide Share;
    var r := Rescored(hits, weight, k);
    forall i, j | 0 <= i < j < |r| ensures r[i].score > r[j].score {
      SharesFall(weight, k, i + 1, j + 1);
    }
  }

  lemma LoneRow(hits: seq<Hit>, w: Weights, i: nat)
    requires DistinctIds(hits) && i < |hits|
    ensures Score(hits, [], w, hits[i].id) == Share(w.bm25, w.k, i + 1)
    ensures Score([], hits, w, hits[i].id) == Share(w.knn, w.k, i + 1)
    ensures Shown(hits, [], hits[i].id) == Some(hits[i]) && Shown([], hits, hits[i].id) == Some(hits[i])
  {
    hide Share;
    GivenOnce(hits, w.bm25, w.k, i);
    GivenOnce(hits, w.knn, w.k, i);
    ShownAlone(hits, i);
  }

  lemma LoneBm25(hits: seq<Hit>, w: Weights)
    requires DistinctIds(hits) && w.bm25 > 0.0
    ensures IsFusion(hits, [], |hits|, w, Rescored(hits, w.bm25, w.k))
  {
    hide Share;
    hide Score;
    hide Shown;
    hide IsFusion;
    hide Has;
    hide Offered;
    hide Pool;
    PoolOfDistinct(hits);
    var rows := Rescored(hits, w.bm25, w.k);
    forall i | 0 <= i < |rows|
      ensures rows[i].score == Score(hits, [], w, rows[i].id) && Carries(rows[i], Shown(hits, [], rows[i].id))
    {
      LoneRow(hits, w, i);
    }
    RescoredFalls(hits, w.bm25, w.k);
    AllThere(hits, rows);
    FallingIsFusion(hits, [], w, rows);
  }

  lemma LoneKnn(hits: seq<Hit>, w: Weights)
    requires DistinctIds(hits) && w.knn > 0.0
    ensures IsFusion([], hits, |hits|, w, Rescored(hits, w.knn, w.k))
  {
    hide Share;
    hide Score;
    hide Shown;
    hide IsFusion;
    hide Has;
    hide Offered;
    hide Pool;
    PoolOfDistinct(hits);
    var rows := Rescored(hits, w.knn, w.k);
    forall i | 0 <= i < |rows|
      ensures rows[i].score == Score([], hits, w, rows[i].id) && Carries(rows[i], Shown([], hits, rows[i].id))
    {
      LoneRow(hits, w, i);
    }
    RescoredFalls(hits, w.knn, w.k);
    AllThere(hits, rows);
    FallingIsFusion([], hits, w, rows);
  }

  lemma AllThere(hits: seq<Hit>, rescored: seq<Hit>)
    requires |rescored| == |hits| && forall i | 0 <= i < |hits| :: rescored[i].id == hits[i].id
    ensures forall id :: Offered(hits, [], id) <==> Has(rescored, id)
    ensures forall id :: Offered([], hits, id) <==> Has(rescored, id)
  {
    forall id ensures Has(hits, id) <==> Has(rescored, id) {
      if Has(hits, id) {
        var i :| 0 <= i < |hits| && hits[i].id == id;
        assert rescored[i].id == id;
      }
      if Has(rescored, id) {
        var i :| 0 <= i < |hits| && rescored[i].id == id;
        assert hits[i].id == id;
      }
    }
  }
}
