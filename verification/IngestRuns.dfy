/** What the index holds after any sequence of edits and skip-enabled ingests: exactly what a rebuild
    would hold. */
module IngestRuns {
  import opened Options
  import opened Chunking
  import opened ChunkCover
  import opened Ingest

  /** What the store holds for one file. */
  function ChunksOf(store: Store, path: string): set<Chunk> {
    set id | id in store && store[id].chunk.sourcePath == path :: store[id].chunk
  }

  function AllOf(store: Store): set<Chunk> {
    set id | id in store :: store[id].chunk
  }

  /** What it should hold: the child chunks of the file's content. */
  function Fresh(corpus: Corpus, path: string, raw: string): set<Chunk> {
    set c | c in FileChunks(corpus.digest, path, raw)
  }

  ghost predicate Labelled(digest: Digest, chunk: Chunk) {
    exists n: nat :: Numbered(digest, chunk, n)
  }

  /** A store keyed by the ids of its chunks, each a proper id for its file. */
  ghost predicate Sound(digest: Digest, store: Store) {
    forall id | id in store :: store[id].chunk.id == id && Labelled(digest, store[id].chunk)
  }

  ghost predicate Hashing(corpus: Corpus) {
    && (forall t :: |corpus.digest(t)| == 16)
    && (forall x, y :: corpus.hash(x) == corpus.hash(y) ==> x == y)
  }

  /** The two can be had together. */
  lemma HashingExists(corpus: Corpus) returns (other: Corpus)
    ensures Hashing(other) && other.allowed == corpus.allowed
  {
    other := corpus.(digest := (t: string) => seq(16, _ => '0'), hash := (t: string) => t);
  }

  // ----- the chunks of one file -----------------------------------------------------------

  lemma FileChunksOwned(digest: Digest, path: string, raw: string, c: Chunk)
    requires (forall t :: |digest(t)| == 16) && c in FileChunks(digest, path, raw)
    ensures c.sourcePath == path && Labelled(digest, c)
  {
    hide Document;
    hide Parented;
    hide Numbered;
    var p, n := DocumentIsWellFormed(digest, path, raw);
    assert c in Document(digest, path, raw);
  }

  lemma FileChunksUnique(digest: Digest, path: string, raw: string, a: Chunk, b: Chunk)
    requires forall t :: |digest(t)| == 16
    requires a in FileChunks(digest, path, raw) && b in FileChunks(digest, path, raw) && a.id == b.id
    ensures a == b
  {
    hide Document;
    hide Parented;
    DocumentWellFormed(digest, path, raw);
    assert a in Document(digest, path, raw) && b in Document(digest, path, raw);
  }

  lemma SameIdSamePath(digest: Digest, a: Chunk, b: Chunk)
    requires (forall t :: |digest(t)| == 16) && Labelled(digest, a) && Labelled(digest, b) && a.id == b.id
    ensures a.sourcePath == b.sourcePath
  {
    hide Numbered;
    var n: nat :| Numbered(digest, a, n);
    var m: nat :| Numbered(digest, b, m);
    if a.sourcePath != b.sourcePath {
      IdsDiffer(digest, a, n, b, m);
    }
  }

  lemma {:induction false} InAllChunks(corpus: Corpus, files: Files, paths: seq<string>, c: Chunk)
    requires (forall t :: |corpus.digest(t)| == 16) && forall p | p in paths :: p in files
    ensures c in AllChunks(corpus, files, paths)
       <==> c.sourcePath in paths && c in FileChunks(corpus.digest, c.sourcePath, files[c.sourcePath])
  {
    hide FileChunks;
    if paths != [] {
      InAllChunks(corpus, files, paths[1..], c);
      assert paths == [paths[0]] + paths[1..];
      if c in FileChunks(corpus.digest, paths[0], files[paths[0]]) {
        FileChunksOwned(corpus.digest, paths[0], files[paths[0]], c);
      }
    }
  }

  // ----- one ingest -----------------------------------------------------------------------

  predicate Names(docs: seq<Doc>, id: string) {
    exists k :: 0 <= k < |docs| && docs[k].chunk.id == id
  }

  /** An upsert leaves under each id some document written for it, or what was there. */
  lemma {:induction false} UpsertAt(store: Store, docs: seq<Doc>, id: string)
    ensures id in Upsert(store, docs) <==> id in store || Names(docs, id)
    ensures Names(docs, id) ==> Upsert(store, docs)[id] in docs && Upsert(store, docs)[id].chunk.id == id
    ensures id in store && !Names(docs, id) ==> Upsert(store, docs)[id] == store[id]
    decreases |docs|
  {
    if docs != [] {
      var rest := docs[1..];
      UpsertAt(store[docs[0].chunk.id := docs[0]], rest, id);
      assert docs == [docs[0]] + rest;
      if Names(rest, id) {
        var k :| 0 <= k < |rest| && rest[k].chunk.id == id;
        assert docs[k + 1].chunk.id == id;
      }
    }
  }

  /** The store written by a run over `todo`. */
  ghost predicate Written(corpus: Corpus, files: Files, before: Store, todo: seq<string>, docs: seq<Doc>,
                          after: Store)
    requires forall p | p in todo :: p in files
  {
    && after == Upsert(WithoutPaths(before, todo), docs)
    && |docs| == |AllChunks(corpus, files, todo)|
    && forall k | 0 <= k < |docs| :: docs[k].chunk == AllChunks(corpus, files, todo)[k]
  }

  lemma WrittenDoc(corpus: Corpus, files: Files, before: Store, todo: seq<string>, docs: seq<Doc>, after: Store,
                   d: Doc)
    requires Hashing(corpus) && (forall p | p in todo :: p in files)
    requires Written(corpus, files, before, todo, docs, after)
    requires d in docs
    ensures var p := d.chunk.sourcePath;
            p in todo && d.chunk in FileChunks(corpus.digest, p, files[p]) && Labelled(corpus.digest, d.chunk)
  {
    hide FileChunks;
    hide AllChunks;
    hide Labelled;
    hide Upsert;
    InAllChunks(corpus, files, todo, d.chunk);
    FileChunksOwned(corpus.digest, d.chunk.sourcePath, files[d.chunk.sourcePath], d.chunk);
  }

  /** What is under one id after a run. */
  lemma WrittenAt(corpus: Corpus, files: Files, before: Store, todo: seq<string>, docs: seq<Doc>, after: Store,
                  id: string)
    requires Hashing(corpus) && Sound(corpus.digest, before)
    requires (forall p | p in todo :: p in files) && Written(corpus, files, before, todo, docs, after) && id in after
    ensures after[id].chunk.id == id && Labelled(corpus.digest, after[id].chunk)
    ensures var c := after[id].chunk; var p := c.sourcePath;
            if p in todo then c in FileChunks(corpus.digest, p, files[p]) else id in before && before[id].chunk == c
  {
    hide FileChunks;
    hide AllChunks;
    hide Labelled;
    hide Upsert;
    UpsertAt(WithoutPaths(before, todo), docs, id);
    if Names(docs, id) {
      WrittenDoc(corpus, files, before, todo, docs, after, after[id]);
    }
  }

  lemma StaysSound(corpus: Corpus, files: Files, before: Store, todo: seq<string>, docs: seq<Doc>, after: Store)
    requires Hashing(corpus) && Sound(corpus.digest, before)
    requires (forall p | p in todo :: p in files) && Written(corpus, files, before, todo, docs, after)
    ensures Sound(corpus.digest, after)
  {
    hide Written;
    hide Labelled;
    forall id | id in after ensures after[id].chunk.id == id && Labelled(corpus.digest, after[id].chunk) {
      WrittenAt(corpus, files, before, todo, docs, after, id);
    }
  }

  /** A chunk of a rewritten file is there afterwards. */
  lemma FreshIsWritten(corpus: Corpus, files: Files, before: Store, todo: seq<string>, docs: seq<Doc>, after: Store,
                       path: string, c: Chunk)
    requires Hashing(corpus) && Sound(corpus.digest, before)
    requires (forall p | p in todo :: p in files) && Written(corpus, files, before, todo, docs, after)
    requires path in todo && c in FileChunks(corpus.digest, path, files[path])
    ensures c in ChunksOf(after, path)
  {
    hide FileChunks;
    hide Labelled;
    hide Upsert;
    FileChunksOwned(corpus.digest, path, files[path], c);
    InAllChunks(corpus, files, todo, c);
    hide AllChunks;
    var k :| 0 <= k < |docs| && docs[k].chunk == c;
    UpsertAt(WithoutPaths(before, todo), docs, c.id);
    var d := after[c.id];
    WrittenDoc(corpus, files, before, todo, docs, after, d);
    SameIdSamePath(corpus.digest, c, d.chunk);
    FileChunksUnique(corpus.digest, path, files[path], c, d.chunk);
  }

  /** A chunk of a file left alone is there afterwards: no new chunk takes its id. */
  lemma OldIsKept(corpus: Corpus, files: Files, before: Store, todo: seq<string>, docs: seq<Doc>, after: Store,
                  id: string)
    requires Hashing(corpus) && Sound(corpus.digest, before)
    requires (forall p | p in todo :: p in files) && Written(corpus, files, before, todo, docs, after)
    requires id in before && before[id].chunk.sourcePath !in todo
    ensures id in after && after[id] == before[id]
  {
    hide FileChunks;
    hide Labelled;
    hide Upsert;
    hide AllChunks;
    UpsertAt(WithoutPaths(before, todo), docs, id);
    if Names(docs, id) {
      var k :| 0 <= k < |docs| && docs[k].chunk.id == id;
      WrittenDoc(corpus, files, before, todo, docs, after, docs[k]);
      SameIdSamePath(corpus.digest, before[id].chunk, docs[k].chunk);
    }
  }

  /** A run rewrites the files it processes and nothing else. */
  lemma RunRewrites(corpus: Corpus, files: Files, before: Store, todo: seq<string>, docs: seq<Doc>, after: Store,
                    path: string)
    requires Hashing(corpus) && Sound(corpus.digest, before)
    requires (forall p | p in todo :: p in files) && Written(corpus, files, before, todo, docs, after)
    ensures ChunksOf(after, path) == if path in todo then Fresh(corpus, path, files[path]) else ChunksOf(before, path)
  {
    hide Written;
    hide FileChunks;
    hide Sound;
    forall c | c in ChunksOf(after, path)
      ensures c in if path in todo then Fresh(corpus, path, files[path]) else ChunksOf(before, path)
    {
      var id :| id in after && after[id].chunk == c && c.sourcePath == path;
      WrittenAt(corpus, files, before, todo, docs, after, id);
    }
    if path in todo {
      forall c | c in Fresh(corpus, path, files[path]) ensures c in ChunksOf(after, path) {
        FreshIsWritten(corpus, files, before, todo, docs, after, path, c);
      }
    } else {
      forall c | c in ChunksOf(before, path) ensures c in ChunksOf(after, path) {
        var id :| id in before && before[id].chunk == c && c.sourcePath == path;
        OldIsKept(corpus, files, before, todo, docs, after, id);
      }
    }
  }

  lemma WithoutRewrites(before: Store, todo: seq<string>, path: string)
    ensures ChunksOf(WithoutPaths(before, todo), path) == if path in todo then {} else ChunksOf(before, path)
  {
    var after := WithoutPaths(before, todo);
    if path !in todo {
      forall c | c in ChunksOf(before, path) ensures c in ChunksOf(after, path) {
        var id :| id in before && before[id].chunk == c && c.sourcePath == path;
        assert id in after && after[id].chunk == c;
      }
    }
  }

  /** What any ingest does to one file, by outcome. */
  lemma IngestedFile(corpus: Corpus, files: Files, paths: Option<seq<string>>, skip: bool, embedder: Embedder,
                     before: Index, path: string)
    requires Hashing(corpus) && Sound(corpus.digest, before.store)
    ensures var (after, outcome) := Ingested(corpus, files, paths, skip, embedder, before);
            var selection := Resolve(corpus, files, paths);
            && Sound(corpus.digest, after.store)
            && (outcome.Failed? && outcome.error != EmbedFailed ==> after == before)
            && (outcome.Done? ==> selection.Selected? && AllIn(selection.paths, corpus, files))
            && (outcome.Done?
                && (path !in selection.paths || (skip && Unchanged(corpus, files, before.manifest, path))) ==>
                  && ChunksOf(after.store, path) == ChunksOf(before.store, path)
                  && (path in after.manifest <==> path in before.manifest)
                  && (path in after.manifest ==> after.manifest[path] == before.manifest[path]))
            && (outcome.Done? && path in selection.paths
                && !(skip && Unchanged(corpus, files, before.manifest, path)) ==>
                  && ChunksOf(after.store, path) == Fresh(corpus, path, files[path])
                  && (skip ==> path in after.manifest && after.manifest[path] == corpus.hash(files[path])))
  {
    hide Resolve;
    hide Fresh;
    hide ChunksOf;
    hide AllChunks;
    hide Upsert;
    hide Record;
    hide ToProcess;
    hide Labelled;
    SelectionMeaning(corpus, files, paths);
    var selection := Resolve(corpus, files, paths);
    if selection.Selected? && selection.paths != [] {
      var selected := selection.paths;
      var todo := ToProcess(corpus, files, before.manifest, skip, selected);
      ToProcessMembers(corpus, files, before.manifest, skip, selected, path);
      var chunks := AllChunks(corpus, files, todo);
      var docs := Embed(chunks, embedder);
      if docs.Some? {
        EmbedKeepsChunks(chunks, embedder);
        hide Embed;
        var after := Upsert(WithoutPaths(before.store, todo), docs.value);
        assert Written(corpus, files, before.store, todo, docs.value, after);
        hide Written;
        StaysSound(corpus, files, before.store, todo, docs.value, after);
        RunRewrites(corpus, files, before.store, todo, docs.value, after, path);
        Recorded(corpus, files, before.manifest, todo);
      }
    }
  }

  /** After a successful skip-enabled ingest, from any sound store and any manifest, a selected file is
      up to date exactly when its recorded hash differed or it was up to date already. */
  lemma SkipRunExact(corpus: Corpus, files: Files, paths: Option<seq<string>>, embedder: Embedder, before: Index,
                     path: string)
    requires Hashing(corpus) && Sound(corpus.digest, before.store)
    ensures var (after, outcome) := Ingested(corpus, files, paths, true, embedder, before);
            outcome.Done? ==>
              var selection := Resolve(corpus, files, paths);
              && selection.Selected? && AllIn(selection.paths, corpus, files)
              && (path in selection.paths ==>
                    (ChunksOf(after.store, path) == Fresh(corpus, path, files[path])
                     <==> !Unchanged(corpus, files, before.manifest, path)
                          || ChunksOf(before.store, path) == Fresh(corpus, path, files[path])))
              && (path !in selection.paths ==> ChunksOf(after.store, path) == ChunksOf(before.store, path))
  {
    IngestedFile(corpus, files, paths, true, embedder, before, path);
  }

  // ----- runs -----------------------------------------------------------------------------

  datatype World = World(files: Files, index: Index)

  /** A file written or removed by an editor, or a skip-enabled ingest. */
  datatype Step =
    | Edit(path: string, content: Option<string>)
    | Run(paths: Option<seq<string>>, embedder: Embedder)

  function Take(corpus: Corpus, world: World, step: Step): World {
    match step
    case Edit(path, None) => world.(files := world.files - {path})
    case Edit(path, Some(content)) => world.(files := world.files[path := content])
    case Run(paths, embedder) =>
      world.(index := Ingested(corpus, world.files, paths, true, embedder, world.index).0)
  }

  function TakeAll(corpus: Corpus, world: World, steps: seq<Step>): World
    decreases |steps|
  {
    if steps == [] then world else TakeAll(corpus, Take(corpus, world, steps[0]), steps[1..])
  }

  /** Ingests may be refused before they start; none fails in the middle. */
  predicate Completed(corpus: Corpus, world: World, step: Step) {
    step.Run? ==> Ingested(corpus, world.files, step.paths, true, step.embedder, world.index).1 != Failed(EmbedFailed)
  }

  predicate AllCompleted(corpus: Corpus, world: World, steps: seq<Step>)
    decreases |steps|
  {
    steps == []
    || (Completed(corpus, world, steps[0]) && AllCompleted(corpus, Take(corpus, world, steps[0]), steps[1..]))
  }

  /** A recorded hash is the hash of the content whose chunks the store holds. */
  ghost predicate HonestAbout(corpus: Corpus, index: Index, path: string) {
    path in index.manifest ==>
      exists raw :: corpus.hash(raw) == index.manifest[path] && ChunksOf(index.store, path) == Fresh(corpus, path, raw)
  }

  /** Only allowlisted files are held. */
  ghost predicate Confined(corpus: Corpus, index: Index, path: string) {
    path in corpus.allowed || ChunksOf(index.store, path) == {}
  }

  ghost predicate Trusty(corpus: Corpus, index: Index) {
    Sound(corpus.digest, index.store) && forall p :: HonestAbout(corpus, index, p) && Confined(corpus, index, p)
  }

  lemma NewIndexIsTrusty(corpus: Corpus)
    ensures Trusty(corpus, Index(map[], map[]))
  {
  }

  lemma RunKeepsFile(corpus: Corpus, files: Files, paths: Option<seq<string>>, embedder: Embedder, before: Index,
                     path: string)
    requires Hashing(corpus) && Sound(corpus.digest, before.store)
    requires HonestAbout(corpus, before, path) && Confined(corpus, before, path)
    requires Ingested(corpus, files, paths, true, embedder, before).1 != Failed(EmbedFailed)
    ensures var after := Ingested(corpus, files, paths, true, embedder, before).0;
            HonestAbout(corpus, after, path) && Confined(corpus, after, path)
  {
    IngestedFile(corpus, files, paths, true, embedder, before, path);
    hide Ingested;
    hide Resolve;
    hide Sound;
    hide ChunksOf;
    hide Fresh;
  }

  lemma StepKeepsTrust(corpus: Corpus, world: World, step: Step)
    requires Hashing(corpus) && Trusty(corpus, world.index) && Completed(corpus, world, step)
    ensures Trusty(corpus, Take(corpus, world, step).index)
  {
    hide HonestAbout;
    hide Confined;
    hide Sound;
    hide Ingested;
    if step.Run? {
      var after := Take(corpus, world, step).index;
      IngestedFile(corpus, world.files, step.paths, true, step.embedder, world.index, "");
      forall p ensures HonestAbout(corpus, after, p) && Confined(corpus, after, p) {
        RunKeepsFile(corpus, world.files, step.paths, step.embedder, world.index, p);
      }
    } else {
      assert Take(corpus, world, step).index == world.index;
    }
  }

  lemma {:induction false} RunKeepsTrust(corpus: Corpus, world: World, steps: seq<Step>)
    requires Hashing(corpus) && Trusty(corpus, world.index) && AllCompleted(corpus, world, steps)
    ensures Trusty(corpus, TakeAll(corpus, world, steps).index)
    decreases |steps|
  {
    hide Trusty;
    hide Take;
    if steps != [] {
      StepKeepsTrust(corpus, world, steps[0]);
      RunKeepsTrust(corpus, Take(corpus, world, steps[0]), steps[1..]);
    }
  }

  /** In a trusty index a file whose hash is recorded is up to date. */
  lemma UnchangedIsFresh(corpus: Corpus, files: Files, index: Index, path: string)
    requires Hashing(corpus) && HonestAbout(corpus, index, path) && path in files
    requires Unchanged(corpus, files, index.manifest, path)
    ensures ChunksOf(index.store, path) == Fresh(corpus, path, files[path])
  {
    hide ChunksOf;
    hide Fresh;
    var raw :| corpus.hash(raw) == index.manifest[path] && ChunksOf(index.store, path) == Fresh(corpus, path, raw);
    assert raw == files[path];
  }

  /** Incremental ingest equals a rebuild. After any edits and ingests on an index that started empty,
      a further successful ingest leaves every selected file with exactly the chunks of its current
      content, which is what ingesting without skipping leaves from any sound index, and leaves every
      other file alone. */
  lemma IncrementalEqualsRebuild(corpus: Corpus, files0: Files, steps: seq<Step>, paths: Option<seq<string>>,
                                 embedder: Embedder,
                                 other: Index, rebuilder: Embedder, path: string)
    requires Hashing(corpus) && Sound(corpus.digest, other.store)
    ensures var start := World(files0, Index(map[], map[]));
            var world := TakeAll(corpus, start, steps);
            var (after, done) := Ingested(corpus, world.files, paths, true, embedder, world.index);
            var (rebuilt, redone) := Ingested(corpus, world.files, paths, false, rebuilder, other);
            AllCompleted(corpus, start, steps) && done.Done? && redone.Done? ==>
              var selection := Resolve(corpus, world.files, paths);
              && selection.Selected? && AllIn(selection.paths, corpus, world.files)
              && if path in selection.paths
                 then ChunksOf(after.store, path) == ChunksOf(rebuilt.store, path)
                      == Fresh(corpus, path, world.files[path])
                 else ChunksOf(after.store, path) == ChunksOf(world.index.store, path)
  {
    hide Resolve;
    hide ChunksOf;
    hide Fresh;
    hide Ingested;
    hide Trusty;
    hide Sound;
    hide Unchanged;
    hide AllCompleted;
    hide TakeAll;
    var start := World(files0, Index(map[], map[]));
    NewIndexIsTrusty(corpus);
    var world := TakeAll(corpus, start, steps);
    if AllCompleted(corpus, start, steps) && Ingested(corpus, world.files, paths, true, embedder, world.index).1.Done? {
      RunKeepsTrust(corpus, start, steps);
      FreshAfterRun(corpus, world.files, paths, embedder, world.index, path);
      IngestedFile(corpus, world.files, paths, false, rebuilder, other, path);
    }
  }

  lemma FreshAfterRun(corpus: Corpus, files: Files, paths: Option<seq<string>>, embedder: Embedder, before: Index,
                      path: string)
    requires Hashing(corpus) && Trusty(corpus, before)
    requires Ingested(corpus, files, paths, true, embedder, before).1.Done?
    ensures var after := Ingested(corpus, files, paths, true, embedder, before).0;
            var selection := Resolve(corpus, files, paths);
            && selection.Selected? && AllIn(selection.paths, corpus, files)
            && if path in selection.paths then ChunksOf(after.store, path) == Fresh(corpus, path, files[path])
               else ChunksOf(after.store, path) == ChunksOf(before.store, path)
  {
    hide Ingested;
    hide Sound;
    hide Resolve;
    SkipRunExact(corpus, files, paths, embedder, before, path);
    hide ChunksOf;
    hide Fresh;
    var selected := Resolve(corpus, files, paths).paths;
    if path in selected && Unchanged(corpus, files, before.manifest, path) {
      UnchangedIsFresh(corpus, files, before, path);
    }
  }

  /** With every file selected, the whole store equals a rebuild from nothing. */
  lemma FullRunEqualsRebuild(corpus: Corpus, files: Files, embedder: Embedder, before: Index, rebuilder: Embedder)
    requires Hashing(corpus) && Trusty(corpus, before)
    requires Ingested(corpus, files, None, true, embedder, before).1.Done?
    requires Ingested(corpus, files, None, false, rebuilder, Index(map[], map[])).1.Done?
    ensures AllOf(Ingested(corpus, files, None, true, embedder, before).0.store)
         == AllOf(Ingested(corpus, files, None, false, rebuilder, Index(map[], map[])).0.store)
  {
    NewIndexIsTrusty(corpus);
    var empty := Index(map[], map[]);
    var after := Ingested(corpus, files, None, true, embedder, before).0.store;
    var rebuilt := Ingested(corpus, files, None, false, rebuilder, empty).0.store;
    forall p ensures ChunksOf(after, p) == ChunksOf(rebuilt, p) {
      FreshAfterRun(corpus, files, None, embedder, before, p);
      IngestedFile(corpus, files, None, false, rebuilder, empty, p);
      assert Confined(corpus, before, p);
      assert ChunksOf(empty.store, p) == {};
      SelectionMeaning(corpus, files, None);
    }
    SameByFile(after, rebuilt);
    SameByFile(rebuilt, after);
  }

  lemma SameByFile(x: Store, y: Store)
    requires forall p :: ChunksOf(x, p) == ChunksOf(y, p)
    ensures AllOf(x) <= AllOf(y)
  {
    forall c | c in AllOf(x) ensures c in AllOf(y) {
      assert c in ChunksOf(x, c.sourcePath);
      assert c in ChunksOf(y, c.sourcePath);
    }
  }

  // ----- runs with failures ---------------------------------------------------------------

  /** The run gets to delete the file's chunks. */
  predicate Processes(corpus: Corpus, world: World, paths: Option<seq<string>>, path: string) {
    var selection := Resolve(corpus, world.files, paths);
    && selection.Selected? && path in selection.paths && path in world.files
    && !Unchanged(corpus, world.files, world.index.manifest, path)
  }

  /** Whether chunks of a file with a recorded hash are lost: a run that failed in the middle deleted them, and no
      run has processed the file with success since. */
  predicate LostBy(corpus: Corpus, world: World, step: Step, path: string, lost: bool) {
    if step.Run? && Processes(corpus, world, step.paths, path) then
      match Ingested(corpus, world.files, step.paths, true, step.embedder, world.index).1
      case Done(_, _, _, _, _) => false
      case Failed(_) => lost || (path in world.index.manifest && ChunksOf(world.index.store, path) != {})
    else lost
  }

  predicate Lost(corpus: Corpus, world: World, steps: seq<Step>, path: string, lost: bool)
    decreases |steps|
  {
    if steps == [] then lost
    else Lost(corpus, Take(corpus, world, steps[0]), steps[1..], path, LostBy(corpus, world, steps[0], path, lost))
  }

  /** What is known of a file: its recorded hash is honest unless its chunks are lost, and then none is held. */
  ghost predicate KnownAbout(corpus: Corpus, index: Index, path: string, lost: bool) {
    && Sound(corpus.digest, index.store)
    && (HonestAbout(corpus, index, path) <==> !lost)
    && (lost ==> ChunksOf(index.store, path) == {})
  }

  /** A run that fails in the middle has deleted the chunks of the files it processes and done nothing else. */
  lemma FailedFile(corpus: Corpus, files: Files, paths: Option<seq<string>>, embedder: Embedder, before: Index,
                   path: string)
    requires Ingested(corpus, files, paths, true, embedder, before).1 == Failed(EmbedFailed)
    requires Sound(corpus.digest, before.store)
    ensures var after := Ingested(corpus, files, paths, true, embedder, before).0;
            && Sound(corpus.digest, after.store) && after.manifest == before.manifest
            && ChunksOf(after.store, path)
               == if Processes(corpus, World(files, before), paths, path) then {} else ChunksOf(before.store, path)
  {
    hide Resolve;
    hide ChunksOf;
    hide AllChunks;
    hide ToProcess;
    hide Labelled;
    SelectionMeaning(corpus, files, paths);
    if Resolve(corpus, files, paths).Selected? {
      var selected := Resolve(corpus, files, paths).paths;
      var todo := ToProcess(corpus, files, before.manifest, true, selected);
      ToProcessMembers(corpus, files, before.manifest, true, selected, path);
      WithoutRewrites(before.store, todo, path);
    }
  }

  /** Deleting the chunks of a file breaks an honest record exactly when there were any. */
  lemma DeletionBreaks(corpus: Corpus, before: Index, after: Index, path: string, lost: bool)
    requires Hashing(corpus) && KnownAbout(corpus, before, path, lost)
    requires Sound(corpus.digest, after.store) && after.manifest == before.manifest
    requires ChunksOf(after.store, path) == {}
    ensures KnownAbout(corpus, after, path, lost || (path in before.manifest && ChunksOf(before.store, path) != {}))
  {
    hide ChunksOf;
    hide Fresh;
    hide Sound;
  }

  lemma RunKeepsKnown(corpus: Corpus, world: World, step: Step, path: string, lost: bool)
    requires Hashing(corpus) && step.Run? && KnownAbout(corpus, world.index, path, lost)
    ensures KnownAbout(corpus, Take(corpus, world, step).index, path, LostBy(corpus, world, step, path, lost))
  {
    hide ChunksOf;
    hide Fresh;
    hide Sound;
    hide Resolve;
    hide Unchanged;
    var (after, outcome) := Ingested(corpus, world.files, step.paths, true, step.embedder, world.index);
    if outcome == Failed(EmbedFailed) {
      FailedFile(corpus, world.files, step.paths, step.embedder, world.index, path);
      hide Ingested;
      if Processes(corpus, world, step.paths, path) {
        DeletionBreaks(corpus, world.index, after, path, lost);
      }
    } else {
      IngestedFile(corpus, world.files, step.paths, true, step.embedder, world.index, path);
      hide Ingested;
    }
  }

  /** Over every run, with failures: the hash recorded for a file is honest exactly when its chunks are not lost. */
  lemma {:induction false} HonestExactly(corpus: Corpus, world: World, steps: seq<Step>, path: string, lost: bool)
    requires Hashing(corpus) && KnownAbout(corpus, world.index, path, lost)
    ensures KnownAbout(corpus, TakeAll(corpus, world, steps).index, path, Lost(corpus, world, steps, path, lost))
    decreases |steps|
  {
    hide KnownAbout;
    hide Ingested;
    hide Processes;
    if steps != [] {
      if steps[0].Run? {
        RunKeepsKnown(corpus, world, steps[0], path, lost);
      }
      HonestExactly(corpus, Take(corpus, world, steps[0]), steps[1..], path,
                    LostBy(corpus, world, steps[0], path, lost));
    }
  }

  /** Incremental ingest with failures, exactly: after any edits and ingests on an index that started empty, failed
      ones included, a further successful ingest leaves a selected file with the chunks of its current content if
      and only if its chunks are not lost or its content differs from the recorded one. */
  lemma IncrementalExactly(corpus: Corpus, files0: Files, steps: seq<Step>, paths: Option<seq<string>>,
                           embedder: Embedder, path: string)
    requires Hashing(corpus)
    ensures var start := World(files0, Index(map[], map[]));
            var world := TakeAll(corpus, start, steps);
            var (after, done) := Ingested(corpus, world.files, paths, true, embedder, world.index);
            var selection := Resolve(corpus, world.files, paths);
            done.Done? ==>
              && selection.Selected? && AllIn(selection.paths, corpus, world.files)
              && (path in selection.paths ==>
                    (ChunksOf(after.store, path) == Fresh(corpus, path, world.files[path])
                     <==> !(Lost(corpus, start, steps, path, false)
                            && Unchanged(corpus, world.files, world.index.manifest, path))))
  {
    var start := World(files0, Index(map[], map[]));
    NewIndexIsTrusty(corpus);
    hide Ingested;
    hide Resolve;
    hide Lost;
    hide TakeAll;
    hide ChunksOf;
    hide Fresh;
    hide Sound;
    HonestExactly(corpus, start, steps, path, false);
    var world := TakeAll(corpus, start, steps);
    SkipRunExact(corpus, world.files, paths, embedder, world.index, path);
    if path in world.files && Unchanged(corpus, world.files, world.index.manifest, path) {
      HonestMeansFresh(corpus, world.files, world.index, path);
    }
  }

  /** For a file whose content has the recorded hash, honest means up to date. */
  lemma HonestMeansFresh(corpus: Corpus, files: Files, index: Index, path: string)
    requires Hashing(corpus) && path in files && Unchanged(corpus, files, index.manifest, path)
    ensures HonestAbout(corpus, index, path) <==> ChunksOf(index.store, path) == Fresh(corpus, path, files[path])
  {
    hide ChunksOf;
    hide Fresh;
    if HonestAbout(corpus, index, path) {
      UnchangedIsFresh(corpus, files, index, path);
    }
  }

  /** Why a failed run is left out: embedding fails after the old chunks are deleted, the file is put
      back as it was, and the next run skips it with nothing in the store. */
  lemma FailedRunHidesLoss(corpus: Corpus, files: Files, index: Index, path: string, edited: string,
                           failing: Embedder, working: Embedder)
    requires Hashing(corpus) && Sound(corpus.digest, index.store)
    requires path in corpus.allowed && corpus.resolve(path) == path && path in files
    requires Unchanged(corpus, files, index.manifest, path)
    requires edited != files[path] && FileChunks(corpus.digest, path, edited) != []
    requires forall texts :: failing(texts).None?
    ensures var (broken, failed) := Ingested(corpus, files[path := edited], Some([path]), true, failing, index);
            var (after, done) := Ingested(corpus, files, Some([path]), true, working, broken);
            && failed == Failed(EmbedFailed)
            && done == Done(0, 0, 0, 1, 0)
            && Unchanged(corpus, files, after.manifest, path)
            && ChunksOf(after.store, path) == {}
  {
    hide FileChunks;
    hide ChunksOf;
    hide Sound;
    var files1 := files[path := edited];
    ResolveOne(corpus, files, path);
    ResolveOne(corpus, files1, path);
    assert [path][1..] == [];
    assert !Unchanged(corpus, files1, index.manifest, path);
    hide Resolve;
    assert ToProcess(corpus, files1, index.manifest, true, [path]) == [path];
    assert ToProcess(corpus, files, index.manifest, true, [path]) == [];
    hide ToProcess;
    assert AllChunks(corpus, files1, [path]) == FileChunks(corpus.digest, path, edited);
    hide AllChunks;
    WithoutRewrites(index.store, [path], path);
    var broken := Index(WithoutPaths(index.store, [path]), index.manifest);
    WithoutNone(broken.store);
    hide WithoutPaths;
    assert Ingested(corpus, files1, Some([path]), true, failing, index) == (broken, Failed(EmbedFailed));
    NothingToDo(corpus, files, broken, [path], working);
  }

  lemma ResolveOne(corpus: Corpus, files: Files, path: string)
    requires path in corpus.allowed && corpus.resolve(path) == path && path in files
    ensures Resolve(corpus, files, Some([path])) == Selected([path])
  {
    var raws, none: seq<string> := [path], [];
    assert raws[1..] == none && none + [path] == raws;
    assert ResolveFrom(corpus, files, none, raws) == Selected(raws);
    assert ResolveFrom(corpus, files, raws, none) == ResolveFrom(corpus, files, raws[1..], none + [path]);
  }

  lemma NothingToDo(corpus: Corpus, files: Files, before: Index, selected: seq<string>, embedder: Embedder)
    requires forall p | p in selected :: p in files
    ensures AllChunks(corpus, files, []) == [] && Embed([], embedder) == Some([])
    ensures Upsert(before.store, []) == before.store && Record(corpus, files, before.manifest, []) == before.manifest
  {
  }
}
