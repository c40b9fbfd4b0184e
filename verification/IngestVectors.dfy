/** Whole documents: what vectors the index holds, and what one ingest reports. */
module IngestVectors {
  import opened Options
  import opened Chunking
  import opened Ingest
  import opened IngestRuns

  /** What a text is embedded as. */
  type Meaning = string -> Vector

  /** An embedder that works text by text. */
  ghost predicate Textwise(embedder: Embedder, e: Meaning) {
    forall texts :: embedder(texts).Some? ==>
      |embedder(texts).value| == |texts| && forall i | 0 <= i < |texts| :: embedder(texts).value[i] == e(texts[i])
  }

  /** Every stored document holds the vector of its own text. */
  ghost predicate TrueVectors(store: Store, e: Meaning) {
    forall id | id in store :: store[id].vector == e(store[id].chunk.text)
  }

  lemma PairedIsTrue(chunks: seq<Chunk>, embedder: Embedder, e: Meaning, doc: Doc, i: nat)
    requires i < |chunks| && Paired(chunks, embedder, doc, i) && Textwise(embedder, e)
    ensures doc.vector == e(doc.chunk.text)
  {
    var from := i - i % 32;
    var batch := BatchAt(chunks, from);
    assert batch[i % 32] == chunks[i];
    var texts := TextsOf(batch);
    assert texts[i % 32] == chunks[i].text && embedder(texts).Some?;
  }

  lemma EmbedIsTrue(chunks: seq<Chunk>, embedder: Embedder, e: Meaning)
    requires Embed(chunks, embedder).Some? && Textwise(embedder, e)
    ensures forall d | d in Embed(chunks, embedder).value :: d.vector == e(d.chunk.text)
  {
    hide Textwise;
    hide Paired;
    EmbedPairs(chunks, embedder);
    hide Embed;
    var docs := Embed(chunks, embedder).value;
    forall d | d in docs ensures d.vector == e(d.chunk.text) {
      var i :| 0 <= i < |docs| && docs[i] == d;
      PairedIsTrue(chunks, embedder, e, d, i);
    }
  }

  lemma UpsertIsTrue(store: Store, docs: seq<Doc>, e: Meaning)
    requires TrueVectors(store, e) && forall d | d in docs :: d.vector == e(d.chunk.text)
    ensures TrueVectors(Upsert(store, docs), e)
  {
    hide Upsert;
    forall id | id in Upsert(store, docs)
      ensures Upsert(store, docs)[id].vector == e(Upsert(store, docs)[id].chunk.text)
    {
      UpsertAt(store, docs, id);
    }
  }

  /** Whatever its outcome, an ingest with such an embedder leaves true vectors true and adds no other. */
  lemma IngestKeepsVectors(corpus: Corpus, files: Files, paths: Option<seq<string>>, skip: bool, embedder: Embedder,
                           before: Index, e: Meaning)
    requires Textwise(embedder, e) && TrueVectors(before.store, e)
    ensures TrueVectors(Ingested(corpus, files, paths, skip, embedder, before).0.store, e)
  {
    hide Textwise;
    hide Resolve;
    hide ToProcess;
    hide AllChunks;
    hide Embed;
    hide Upsert;
    hide Record;
    SelectionMeaning(corpus, files, paths);
    var selection := Resolve(corpus, files, paths);
    if selection.Selected? && selection.paths != [] {
      var todo := ToProcess(corpus, files, before.manifest, skip, selection.paths);
      var chunks := AllChunks(corpus, files, todo);
      if Embed(chunks, embedder).Some? {
        EmbedIsTrue(chunks, embedder, e);
        UpsertIsTrue(WithoutPaths(before.store, todo), Embed(chunks, embedder).value, e);
      }
    }
  }

  /** Every ingest of the run uses such an embedder. */
  ghost predicate AllTextwise(steps: seq<Step>, e: Meaning) {
    forall i | 0 <= i < |steps| :: steps[i].Run? ==> Textwise(steps[i].embedder, e)
  }

  lemma {:induction false} RunKeepsVectors(corpus: Corpus, world: World, steps: seq<Step>, e: Meaning)
    requires AllTextwise(steps, e) && TrueVectors(world.index.store, e)
    ensures TrueVectors(TakeAll(corpus, world, steps).index.store, e)
    decreases |steps|
  {
    hide Ingested;
    hide Textwise;
    hide TrueVectors;
    if steps != [] {
      if steps[0].Run? {
        IngestKeepsVectors(corpus, world.files, steps[0].paths, true, steps[0].embedder, world.index, e);
      }
      RunKeepsVectors(corpus, Take(corpus, world, steps[0]), steps[1..], e);
    }
  }

  // ----- whole documents ------------------------------------------------------------------

  function DocsOf(store: Store, path: string): set<Doc> {
    set id | id in store && store[id].chunk.sourcePath == path :: store[id]
  }

  /** What the index should hold for one file: its child chunks, each with the vector of its text. */
  function FreshDocs(corpus: Corpus, path: string, raw: string, e: Meaning): set<Doc> {
    set c | c in FileChunks(corpus.digest, path, raw) :: Doc(c, e(c.text))
  }

  lemma DocsFollowChunks(store: Store, path: string, e: Meaning)
    requires TrueVectors(store, e)
    ensures DocsOf(store, path) == set c | c in ChunksOf(store, path) :: Doc(c, e(c.text))
  {
    var docs := set c | c in ChunksOf(store, path) :: Doc(c, e(c.text));
    forall d | d in docs ensures d in DocsOf(store, path) {
      var id :| id in store && store[id].chunk == d.chunk && store[id].chunk.sourcePath == path;
      assert store[id] == d;
    }
  }

  /** Incremental ingest equals a rebuild, vectors included: after any edits and completed ingests with an embedder
      that works text by text, a further successful ingest leaves each selected file with exactly the documents of its
      current content, each chunk with the vector of its own text, as a rebuild without skipping does; and other files
      with the documents they had. */
  lemma IncrementalDocuments(corpus: Corpus, files0: Files, steps: seq<Step>, paths: Option<seq<string>>,
                             embedder: Embedder, other: Index, rebuilder: Embedder, path: string, e: Meaning)
    requires Hashing(corpus) && Sound(corpus.digest, other.store) && TrueVectors(other.store, e)
    requires AllTextwise(steps, e) && Textwise(embedder, e) && Textwise(rebuilder, e)
    ensures var start := World(files0, Index(map[], map[]));
            var world := TakeAll(corpus, start, steps);
            var (after, done) := Ingested(corpus, world.files, paths, true, embedder, world.index);
            var (rebuilt, redone) := Ingested(corpus, world.files, paths, false, rebuilder, other);
            AllCompleted(corpus, start, steps) && done.Done? && redone.Done? ==>
              var selection := Resolve(corpus, world.files, paths);
              && selection.Selected? && AllIn(selection.paths, corpus, world.files)
              && if path in selection.paths
                 then DocsOf(after.store, path) == DocsOf(rebuilt.store, path)
                      == FreshDocs(corpus, path, world.files[path], e)
                 else DocsOf(after.store, path) == DocsOf(world.index.store, path)
  {
    hide Resolve;
    hide Ingested;
    hide Sound;
    hide AllCompleted;
    hide TakeAll;
    hide Textwise;
    hide TrueVectors;
    hide AllTextwise;
    hide DocsOf;
    hide ChunksOf;
    var start := World(files0, Index(map[], map[]));
    var world := TakeAll(corpus, start, steps);
    IncrementalEqualsRebuild(corpus, files0, steps, paths, embedder, other, rebuilder, path);
    NoVectors(e);
    RunKeepsVectors(corpus, start, steps, e);
    IngestKeepsVectors(corpus, world.files, paths, true, embedder, world.index, e);
    IngestKeepsVectors(corpus, world.files, paths, false, rebuilder, other, e);
    DocsFollowChunks(Ingested(corpus, world.files, paths, true, embedder, world.index).0.store, path, e);
    DocsFollowChunks(Ingested(corpus, world.files, paths, false, rebuilder, other).0.store, path, e);
    DocsFollowChunks(world.index.store, path, e);
    hide FileChunks;
  }

  lemma NoVectors(e: Meaning)
    ensures TrueVectors(map[], e)
  {
  }

  lemma SameDocsByFile(x: Store, y: Store)
    requires forall p :: DocsOf(x, p) == DocsOf(y, p)
    ensures x.Values <= y.Values
  {
    forall d | d in x.Values ensures d in y.Values {
      assert d in DocsOf(x, d.chunk.sourcePath);
      assert d in DocsOf(y, d.chunk.sourcePath);
    }
  }

  /** With every file selected, the store holds exactly the documents of a rebuild from nothing. */
  lemma FullRunDocuments(corpus: Corpus, files: Files, embedder: Embedder, before: Index, rebuilder: Embedder,
                         e: Meaning)
    requires Hashing(corpus) && Trusty(corpus, before) && TrueVectors(before.store, e)
    requires Textwise(embedder, e) && Textwise(rebuilder, e)
    requires Ingested(corpus, files, None, true, embedder, before).1.Done?
    requires Ingested(corpus, files, None, false, rebuilder, Index(map[], map[])).1.Done?
    ensures Ingested(corpus, files, None, true, embedder, before).0.store.Values
         == Ingested(corpus, files, None, false, rebuilder, Index(map[], map[])).0.store.Values
  {
    hide Ingested;
    hide Trusty;
    hide Textwise;
    hide TrueVectors;
    hide DocsOf;
    var empty := Index(map[], map[]);
    var after := Ingested(corpus, files, None, true, embedder, before).0.store;
    var rebuilt := Ingested(corpus, files, None, false, rebuilder, empty).0.store;
    NoVectors(e);
    IngestKeepsVectors(corpus, files, None, true, embedder, before, e);
    IngestKeepsVectors(corpus, files, None, false, rebuilder, empty, e);
    FullRunEqualsRebuild(corpus, files, embedder, before, rebuilder);
    forall p ensures DocsOf(after, p) == DocsOf(rebuilt, p) {
      SameChunks(after, rebuilt, p);
      DocsFollowChunks(after, p, e);
      DocsFollowChunks(rebuilt, p, e);
    }
    SameDocsByFile(after, rebuilt);
    SameDocsByFile(rebuilt, after);
  }

  lemma SameChunks(x: Store, y: Store, path: string)
    requires AllOf(x) == AllOf(y)
    ensures ChunksOf(x, path) == ChunksOf(y, path)
  {
    assert ChunksOf(x, path) == set c | c in AllOf(x) && c.sourcePath == path;
    assert ChunksOf(y, path) == set c | c in AllOf(y) && c.sourcePath == path;
  }

  // ----- what one ingest reports ----------------------------------------------------------

  /** The counts of a successful ingest: processed and skipped files make up the selection; as many documents are
      written as the processed files have child chunks; and what was deleted is what the store held for them. */
  lemma CountsAre(corpus: Corpus, files: Files, paths: Option<seq<string>>, skip: bool, embedder: Embedder,
                  before: Index)
    ensures var (after, outcome) := Ingested(corpus, files, paths, skip, embedder, before);
            var selection := Resolve(corpus, files, paths);
            outcome.Done? ==>
              && selection.Selected? && AllIn(selection.paths, corpus, files)
              && var todo := ToProcess(corpus, files, before.manifest, skip, selection.paths);
                 && outcome.files == |todo| && outcome.skipped == |selection.paths| - |todo|
                 && outcome.chunks == outcome.indexed == ChunkCount(corpus, files, todo)
                 && outcome.deleted == |before.store| - |WithoutPaths(before.store, todo)|
                 && (forall id :: id in WithoutPaths(before.store, todo)
                                  <==> id in before.store && before.store[id].chunk.sourcePath !in todo)
  {
    hide Resolve;
    hide Upsert;
    hide Record;
    hide Embed;
    SelectionMeaning(corpus, files, paths);
    var selection := Resolve(corpus, files, paths);
    if selection.Selected? && selection.paths != [] {
      var todo := ToProcess(corpus, files, before.manifest, skip, selection.paths);
      ChunksAreCounted(corpus, files, todo);
      hide ToProcess;
      hide AllChunks;
      if Embed(AllChunks(corpus, files, todo), embedder).Some? {
        EmbedPairs(AllChunks(corpus, files, todo), embedder);
      }
    }
  }

  function ChunkCount(corpus: Corpus, files: Files, paths: seq<string>): nat
    requires forall p | p in paths :: p in files
  {
    if paths == [] then 0
    else |FileChunks(corpus.digest, paths[0], files[paths[0]])| + ChunkCount(corpus, files, paths[1..])
  }

  lemma {:induction false} ChunksAreCounted(corpus: Corpus, files: Files, paths: seq<string>)
    requires forall p | p in paths :: p in files
    ensures |AllChunks(corpus, files, paths)| == ChunkCount(corpus, files, paths)
  {
    hide FileChunks;
    if paths != [] {
      ChunksAreCounted(corpus, files, paths[1..]);
    }
  }
}
