/** Reciprocal rank fusion of a text ranking and a vector ranking. */
module RankFusion {
  import opened Options
  import opened Ordering

  datatype Hit = Hit(id: string, text: string, sourcePath: string, section: string, score: real)

  /** The fusion constant and the weights of the two lists. */
  datatype Weights = Weights(k: nat, bm25: real, knn: real)

  function Ids(hits: seq<Hit>): (r: seq<string>)
    ensures |r| == |hits| && forall i | 0 <= i < |hits| :: r[i] == hits[i].id
  {
    seq(|hits|, i requires 0 <= i < |hits| => hits[i].id)
  }

  predicate DistinctIds(hits: seq<Hit>) {
    forall i, j | 0 <= i < j < |hits| :: hits[i].id != hits[j].id
  }

  predicate Has(hits: seq<Hit>, id: string) {
    exists i :: 0 <= i < |hits| && hits[i].id == id
  }

  function Share(weight: real, k: nat, rank: nat): real
    requires rank >= 1
  {
    weight / (k + rank) as real
  }

  /** What a list gives to an id: the weight over the shifted rank, for each place the id takes. */
  function Given(hits: seq<Hit>, weight: real, k: nat, id: string): real {
    if hits == [] then 0.0
    else
      Given(hits[..|hits| - 1], weight, k, id)
      + (if hits[|hits| - 1].id == id then Share(weight, k, |hits|) else 0.0)
  }

  function Score(bm25: seq<Hit>, knn: seq<Hit>, w: Weights, id: string): real {
    Given(bm25, w.bm25, w.k, id) + Given(knn, w.knn, w.k, id)
  }

  function LastOf(hits: seq<Hit>, id: string): Option<Hit> {
    if hits == [] then None
    else
      var last := hits[|hits| - 1];
      if last.id == id then Some(last) else LastOf(hits[..|hits| - 1], id)
  }

  function FirstOf(hits: seq<Hit>, id: string): Option<Hit> {
    if hits == [] then None
    else
      var last, front := hits[|hits| - 1], FirstOf(hits[..|hits| - 1], id);
      if front.Some? then front else if last.id == id then Some(last) else None
  }

  /** The hit whose text is shown: the last one in the first list, else the first one in the second. */
  function Shown(bm25: seq<Hit>, knn: seq<Hit>, id: string): Option<Hit> {
    var best := LastOf(bm25, id);
    if best.Some? then best else FirstOf(knn, id)
  }

  /** The same hit but for its score. */
  predicate Carries(hit: Hit, shown: Option<Hit>) {
    shown.Some? && shown.value.(score := hit.score) == hit
  }

  /** Ahead in the fused ranking: more score, or the same score and the smaller id. */
  predicate Ahead(bm25: seq<Hit>, knn: seq<Hit>, w: Weights, a: string, b: string) {
    var x, y := Score(bm25, knn, w, a), Score(bm25, knn, w, b);
    x > y || (x == y && Less(a, b))
  }

  predicate Offered(bm25: seq<Hit>, knn: seq<Hit>, id: string) {
    Has(bm25, id) || Has(knn, id)
  }

  function Pool(bm25: seq<Hit>, knn: seq<Hit>): set<string> {
    (set i | 0 <= i < |bm25| :: bm25[i].id) + (set i | 0 <= i < |knn| :: knn[i].id)
  }

  /** The best `topK` of everything offered, in order, with their scores and texts. */
  ghost predicate IsFusion(bm25: seq<Hit>, knn: seq<Hit>, topK: nat, w: Weights, fused: seq<Hit>) {
    && |fused| == (if topK < |Pool(bm25, knn)| then topK else |Pool(bm25, knn)|)
    && (forall i | 0 <= i < |fused| ::
          && Offered(bm25, knn, fused[i].id)
          && fused[i].score == Score(bm25, knn, w, fused[i].id)
          && Carries(fused[i], Shown(bm25, knn, fused[i].id)))
    && (forall i, j | 0 <= i < j < |fused| :: Ahead(bm25, knn, w, fused[i].id, fused[j].id))
    && (forall id | Offered(bm25, knn, id) && !Has(fused, id) ::
          forall i | 0 <= i < |fused| :: Ahead(bm25, knn, w, fused[i].id, id))
  }

  /** Where an id stands in a list that names it once it earns its list's weight over `k` and its rank, counted
      from one; elsewhere it earns nothing. */
  lemma {:induction false} GivenByRank(hits: seq<Hit>, weight: real, k: nat, id: string)
    requires DistinctIds(hits)
    ensures forall i | 0 <= i < |hits| && hits[i].id == id ::
              Given(hits, weight, k, id) == weight / (k + i + 1) as real
    ensures !Has(hits, id) ==> Given(hits, weight, k, id) == 0.0
  {
    if hits != [] {
      var front, last := hits[..|hits| - 1], hits[|hits| - 1];
      GivenByRank(front, weight, k, id);
      if last.id == id {
        assert !Has(front, id);
      } else {
        forall i | 0 <= i < |hits| && hits[i].id == id
          ensures Given(hits, weight, k, id) == weight / (k + i + 1) as real
        {
          assert front[i] == hits[i];
        }
        assert Has(front, id) ==> Has(hits, id) by {
          if Has(front, id) {
            var i :| 0 <= i < |front| && front[i].id == id;
            assert hits[i] == front[i];
          }
        }
      }
    }
  }

  /** What a fused hit shows: the last of its hits in the text ranking, or else the first in the vector ranking. */
  lemma {:induction false} ShownIs(bm25: seq<Hit>, knn: seq<Hit>, id: string)
    ensures forall i | 0 <= i < |bm25| && bm25[i].id == id && (forall j | i < j < |bm25| :: bm25[j].id != id) ::
              Shown(bm25, knn, id) == Some(bm25[i])
    ensures !Has(bm25, id) ==>
              forall i | 0 <= i < |knn| && knn[i].id == id && (forall j | 0 <= j < i :: knn[j].id != id) ::
                Shown(bm25, knn, id) == Some(knn[i])
    ensures Shown(bm25, knn, id).None? <==> !Offered(bm25, knn, id)
  {
    LastOfIs(bm25, id);
    FirstOfIs(knn, id);
    hide LastOf;
    hide FirstOf;
  }

  lemma {:induction false} LastOfIs(hits: seq<Hit>, id: string)
    ensures forall i | 0 <= i < |hits| && hits[i].id == id && (forall j | i < j < |hits| :: hits[j].id != id) ::
              LastOf(hits, id) == Some(hits[i])
    ensures LastOf(hits, id).None? <==> !Has(hits, id)
  {
    if hits != [] {
      var front := hits[..|hits| - 1];
      LastOfIs(front, id);
      HasMore(front, hits[|hits| - 1], id);
      assert hits == front + [hits[|hits| - 1]];
    }
  }

  lemma {:induction false} FirstOfIs(hits: seq<Hit>, id: string)
    ensures forall i | 0 <= i < |hits| && hits[i].id == id && (forall j | 0 <= j < i :: hits[j].id != id) ::
              FirstOf(hits, id) == Some(hits[i])
    ensures FirstOf(hits, id).None? <==> !Has(hits, id)
  {
    if hits != [] {
      var front := hits[..|hits| - 1];
      FirstOfIs(front, id);
      HasMore(front, hits[|hits| - 1], id);
      assert hits == front + [hits[|hits| - 1]];
    }
  }

  lemma HasMore(front: seq<Hit>, last: Hit, id: string)
    ensures Has(front + [last], id) <==> Has(front, id) || last.id == id
  {
    var hits := front + [last];
    assert hits[|front|] == last;
    if Has(front, id) {
      var i :| 0 <= i < |front| && front[i].id == id;
      assert hits[i] == front[i];
    }
  }

  // ----- the two dictionaries -------------------------------------------------------------

  /** The dictionaries of the program: ids in order of insertion, the hit kept for each, its score. */
  datatype Tally = Tally(keys: seq<string>, byId: map<string, Hit>, scores: map<string, real>)

  /** The dictionaries say what the hits read so far imply about one id. */
  ghost predicate TalliedAt(bm25: seq<Hit>, knn: seq<Hit>, w: Weights, t: Tally, id: string) {
    && (id in t.keys <==> Offered(bm25, knn, id))
    && (id in t.scores <==> id in t.keys) && (id in t.byId <==> id in t.keys)
    && (id in t.scores ==> t.scores[id] == Score(bm25, knn, w, id))
    && (id !in t.scores ==> Score(bm25, knn, w, id) == 0.0)
    && Shown(bm25, knn, id) == if id in t.byId then Some(t.byId[id]) else None
  }

  ghost predicate Tallied(bm25: seq<Hit>, knn: seq<Hit>, w: Weights, t: Tally) {
    && (forall i, j | 0 <= i < j < |t.keys| :: t.keys[i] != t.keys[j])
    && forall id :: TalliedAt(bm25, knn, w, t, id)
  }

  function Gains(scores: map<string, real>, id: string, share: real): map<string, real> {
    scores[id := (if id in scores then scores[id] else 0.0) + share]
  }

  function AddKey(keys: seq<string>, id: string): seq<string> {
    if id in keys then keys else keys + [id]
  }

  /** Reading one hit of the first list: its text replaces what was there. */
  function ReadBm25(t: Tally, hit: Hit, share: real): Tally {
    Tally(AddKey(t.keys, hit.id), t.byId[hit.id := hit], Gains(t.scores, hit.id, share))
  }

  /** Reading one hit of the second list: its text is kept only if the id is new. */
  function ReadKnn(t: Tally, hit: Hit, share: real): Tally {
    Tally(AddKey(t.keys, hit.id), if hit.id in t.byId then t.byId else t.byId[hit.id := hit],
          Gains(t.scores, hit.id, share))
  }

  lemma HasOneMore(hits: seq<Hit>, hit: Hit, id: string)
    ensures Has(hits + [hit], id) <==> Has(hits, id) || hit.id == id
  {
    var more := hits + [hit];
    if Has(hits, id) {
      var i :| 0 <= i < |hits| && hits[i].id == id;
      assert more[i].id == id;
    }
    assert more[|hits|] == hit;
  }

  lemma OneMore(hits: seq<Hit>, hit: Hit, weight: real, k: nat, id: string)
    ensures Given(hits + [hit], weight, k, id)
         == Given(hits, weight, k, id) + if hit.id == id then Share(weight, k, |hits| + 1) else 0.0
    ensures LastOf(hits + [hit], id) == if hit.id == id then Some(hit) else LastOf(hits, id)
    ensures FirstOf(hits + [hit], id)
         == if FirstOf(hits, id).Some? then FirstOf(hits, id) else if hit.id == id then Some(hit) else None
  {
    hide Share;
    assert (hits + [hit])[..|hits|] == hits;
  }

  lemma Bm25Read(bm25: seq<Hit>, w: Weights, t: Tally, hit: Hit)
    requires Tallied(bm25, [], w, t)
    ensures Tallied(bm25 + [hit], [], w, ReadBm25(t, hit, Share(w.bm25, w.k, |bm25| + 1)))
  {
    hide Share;
    var t' := ReadBm25(t, hit, Share(w.bm25, w.k, |bm25| + 1));
    forall id ensures TalliedAt(bm25 + [hit], [], w, t', id) {
      assert TalliedAt(bm25, [], w, t, id);
      HasOneMore(bm25, hit, id);
      OneMore(bm25, hit, w.bm25, w.k, id);
      assert FirstOf([], id) == None;
      hide Given;
      hide LastOf;
      hide FirstOf;
      hide Has;
    }
  }

  lemma KnnRead(bm25: seq<Hit>, knn: seq<Hit>, w: Weights, t: Tally, hit: Hit)
    requires Tallied(bm25, knn, w, t)
    ensures Tallied(bm25, knn + [hit], w, ReadKnn(t, hit, Share(w.knn, w.k, |knn| + 1)))
  {
    hide Share;
    hide Given;
    hide LastOf;
    hide FirstOf;
    hide Has;
    var t' := ReadKnn(t, hit, Share(w.knn, w.k, |knn| + 1));
    forall id ensures TalliedAt(bm25, knn + [hit], w, t', id) {
      assert TalliedAt(bm25, knn, w, t, id);
      HasOneMore(knn, hit, id);
      OneMore(knn, hit, w.knn, w.k, id);
    }
  }

  lemma NothingRead(w: Weights)
    ensures Tallied([], [], w, Tally([], map[], map[]))
  {
  }

  lemma {:induction false} CountKeys(keys: seq<string>, pool: set<string>)
    requires (forall i, j | 0 <= i < j < |keys| :: keys[i] != keys[j]) && forall x :: x in keys <==> x in pool
    ensures |keys| == |pool|
  {
    if keys == [] {
      assert pool == {};
    } else {
      var last := keys[|keys| - 1];
      var front := keys[..|keys| - 1];
      assert keys == front + [last];
      CountKeys(front, pool - {last});
    }
  }

  lemma KeysAreKnown(bm25: seq<Hit>, knn: seq<Hit>, w: Weights, t: Tally)
    requires Tallied(bm25, knn, w, t)
    ensures Known(t.scores, t.keys) && forall k | k in t.keys :: k in t.byId
  {
    forall k | k in t.keys ensures k in t.scores && k in t.byId {
      assert TalliedAt(bm25, knn, w, t, k);
    }
  }

  lemma {:induction false} ShownHasId(bm25: seq<Hit>, knn: seq<Hit>, id: string)
    requires Shown(bm25, knn, id).Some?
    ensures Shown(bm25, knn, id).value.id == id
    decreases |bm25| + |knn|
  {
    if bm25 != [] {
      if bm25[|bm25| - 1].id != id {
        ShownHasId(bm25[..|bm25| - 1], knn, id);
      }
    } else if FirstOf(knn[..|knn| - 1], id).Some? {
      ShownHasId(bm25, knn[..|knn| - 1], id);
    }
  }

  /** The sorted keys: everything offered, once, in fused order. */
  ghost predicate Ranked(bm25: seq<Hit>, knn: seq<Hit>, w: Weights, names: seq<string>) {
    && |names| == |Pool(bm25, knn)|
    && (forall id :: id in names <==> Offered(bm25, knn, id))
    && forall i, j | 0 <= i < j < |names| :: Ahead(bm25, knn, w, names[i], names[j])
  }

  lemma InPool(bm25: seq<Hit>, knn: seq<Hit>, id: string)
    ensures id in Pool(bm25, knn) <==> Offered(bm25, knn, id)
  {
  }

  lemma SortedIsRanked(bm25: seq<Hit>, knn: seq<Hit>, w: Weights, t: Tally)
    requires Tallied(bm25, knn, w, t) && Known(t.scores, t.keys)
    ensures Ranked(bm25, knn, w, Sort(t.scores, t.keys))
  {
    hide Score;
    hide Shown;
    hide Offered;
    hide Pool;
    var names := Sort(t.scores, t.keys);
    SortIsInOrder(t.scores, t.keys);
    forall x ensures x in t.keys <==> x in Pool(bm25, knn) {
      InPool(bm25, knn, x);
      assert TalliedAt(bm25, knn, w, t, x);
    }
    CountKeys(t.keys, Pool(bm25, knn));
    forall id ensures id in names <==> Offered(bm25, knn, id) {
      InPool(bm25, knn, id);
    }
    forall i, j | 0 <= i < j < |names| ensures Ahead(bm25, knn, w, names[i], names[j]) {
      assert Before(t.scores, names[i], names[j]);
      assert TalliedAt(bm25, knn, w, t, names[i]) && TalliedAt(bm25, knn, w, t, names[j]);
    }
  }

  /** The fused list row by row. */
  ghost predicate Rows(t: Tally, names: seq<string>, fused: seq<Hit>) {
    && |fused| == |names|
    && forall i | 0 <= i < |names| ::
         names[i] in t.byId && names[i] in t.scores
         && fused[i] == t.byId[names[i]].(score := t.scores[names[i]])
  }

  lemma RowIsShown(bm25: seq<Hit>, knn: seq<Hit>, w: Weights, t: Tally, name: string, hit: Hit)
    requires Tallied(bm25, knn, w, t) && name in t.byId && name in t.scores
    requires hit == t.byId[name].(score := t.scores[name])
    ensures hit.id == name && hit.score == Score(bm25, knn, w, name)
    ensures Offered(bm25, knn, name) && Carries(hit, Shown(bm25, knn, name))
  {
    hide Score;
    hide Offered;
    assert TalliedAt(bm25, knn, w, t, name);
    ShownHasId(bm25, knn, name);
  }

  lemma RowsAreFusion(bm25: seq<Hit>, knn: seq<Hit>, topK: nat, w: Weights, t: Tally, names: seq<string>, n: nat,
                      fused: seq<Hit>)
    requires Tallied(bm25, knn, w, t) && Ranked(bm25, knn, w, names)
    requires n == (if topK < |names| then topK else |names|) && Rows(t, names[..n], fused)
    ensures IsFusion(bm25, knn, topK, w, fused)
  {
    hide Score;
    hide Offered;
    hide Ahead;
    hide Pool;
    hide Tallied;
    hide Carries;
    hide Shown;
    forall i | 0 <= i < n
      ensures fused[i].id == names[i] && fused[i].score == Score(bm25, knn, w, names[i])
      ensures Offered(bm25, knn, names[i]) && Carries(fused[i], Shown(bm25, knn, names[i]))
    {
      assert fused[i] == t.byId[names[..n][i]].(score := t.scores[names[..n][i]]);
      RowIsShown(bm25, knn, w, t, names[i], fused[i]);
    }
    assert forall i | 0 <= i < n :: Has(fused, names[i]);
    forall id | Offered(bm25, knn, id) && !Has(fused, id)
      ensures forall i | 0 <= i < n :: Ahead(bm25, knn, w, fused[i].id, id)
    {
      var j :| 0 <= j < |names| && names[j] == id;
      assert j >= n;
    }
  }

  method MergeHybridRankings(bm25: seq<Hit>, knn: seq<Hit>, topK: int, w: Weights) returns (r: Option<seq<Hit>>)
    ensures r.None? <==> topK < 1
    ensures r.Some? ==> IsFusion(bm25, knn, topK, w, r.value)
  {
    if topK < 1 {
      return None;
    }
    hide Share;
    hide Tallied;
    var t := Tally([], map[], map[]);
    NothingRead(w);
    for i := 0 to |bm25|
      invariant Tallied(bm25[..i], [], w, t)
    {
      assert bm25[..i + 1] == bm25[..i] + [bm25[i]];
      Bm25Read(bm25[..i], w, t, bm25[i]);
      t := ReadBm25(t, bm25[i], Share(w.bm25, w.k, i + 1));
    }
    assert bm25[..|bm25|] == bm25;
    for i := 0 to |knn|
      invariant Tallied(bm25, knn[..i], w, t)
    {
      assert knn[..i + 1] == knn[..i] + [knn[i]];
      KnnRead(bm25, knn[..i], w, t, knn[i]);
      t := ReadKnn(t, knn[i], Share(w.knn, w.k, i + 1));
    }
    assert knn[..|knn|] == knn;
    KeysAreKnown(bm25, knn, w, t);
    var ordered := Sort(t.scores, t.keys);
    SortedIsRanked(bm25, knn, w, t);
    hide Ranked;
    var n := if topK < |ordered| then topK else |ordered|;
    forall i | 0 <= i < n ensures ordered[i] in t.byId && ordered[i] in t.scores {
      SortedNamesAreKeys(t, ordered[i]);
    }
    var fused := RowsFor(t, ordered[..n]);
    RowsAreFusion(bm25, knn, topK, w, t, ordered, n, fused);
    r := Some(fused);
  }

  /** The rows of some names, best first: the kept hit of each with its summed score. */
  method RowsFor(t: Tally, names: seq<string>) returns (fused: seq<Hit>)
    requires forall i | 0 <= i < |names| :: names[i] in t.byId && names[i] in t.scores
    ensures Rows(t, names, fused)
  {
    fused := [];
    for i := 0 to |names|
      invariant Rows(t, names[..i], fused)
    {
      var hit := t.byId[names[i]];
      fused := fused + [Hit(hit.id, hit.text, hit.sourcePath, hit.section, t.scores[names[i]])];
    }
    assert names[..|names|] == names;
  }

  lemma SortedNamesAreKeys(t: Tally, name: string)
    requires Known(t.scores, t.keys) && name in Sort(t.scores, t.keys)
    requires forall i, j | 0 <= i < j < |t.keys| :: t.keys[i] != t.keys[j]
    ensures name in t.keys
  {
    SortIsInOrder(t.scores, t.keys);
  }
}
