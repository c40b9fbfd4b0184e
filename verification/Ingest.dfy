/** Indexing the knowledge corpus: delete a changed file's chunks, cut it again, embed the children in
    batches and upsert them by id. A manifest of content hashes lets unchanged files be skipped. */
module Ingest {
  import opened Options
  import opened Chunking

  const BATCH: nat := 32

  type Vector = seq<real>

  /** One embedding call. It may raise, or answer with any number of vectors. */
  type Embedder = seq<string> -> Option<seq<Vector>>

  datatype Doc = Doc(chunk: Chunk, vector: Vector)

  type Store = map<string, Doc>

  /** Relative path to content, for the files that exist. */
  type Files = map<string, string>

  /** The allowlist, the normalisation of a path, the hash of a file, and the digest inside chunk ids. */
  datatype Corpus = Corpus(allowed: seq<string>, resolve: string -> string,
                           hash: string -> string, digest: Digest)

  datatype Index = Index(store: Store, manifest: map<string, string>)

  datatype Error = NotAllowed(path: string) | NoSelection | Missing(paths: seq<string>)
                 | NothingProduced | EmbedFailed

  datatype Outcome = Done(files: nat, chunks: nat, indexed: nat, skipped: nat, deleted: int)
                   | Failed(error: Error)

  datatype Selection = Selected(paths: seq<string>) | Refused(error: Error)

  // ----- which files ----------------------------------------------------------------------

  function MissingFrom(files: Files, paths: seq<string>): seq<string> {
    if paths == [] then []
    else (if paths[0] in files then [] else [paths[0]]) + MissingFrom(files, paths[1..])
  }

  function ResolveFrom(corpus: Corpus, files: Files, raws: seq<string>, taken: seq<string>): Selection
    decreases |raws|
  {
    if raws == [] then Selected(taken)
    else
      var rel := corpus.resolve(raws[0]);
      if rel !in corpus.allowed then Refused(NotAllowed(rel))
      else if rel in taken then ResolveFrom(corpus, files, raws[1..], taken)
      else if rel !in files then Refused(Missing([rel]))
      else ResolveFrom(corpus, files, raws[1..], taken + [rel])
  }

  function Resolve(corpus: Corpus, files: Files, paths: Option<seq<string>>): Selection {
    match paths
    case None =>
      var missing := MissingFrom(files, corpus.allowed);
      if missing != [] then Refused(Missing(missing)) else Selected(corpus.allowed)
    case Some(raws) =>
      if raws == [] then Refused(NoSelection) else ResolveFrom(corpus, files, raws, [])
  }

  predicate AllIn(paths: seq<string>, corpus: Corpus, files: Files) {
    forall p | p in paths :: p in corpus.allowed && p in files
  }

  predicate Distinct(paths: seq<string>) {
    forall i, j | 0 <= i < j < |paths| :: paths[i] != paths[j]
  }

  lemma {:induction false} NoneMissing(files: Files, paths: seq<string>)
    ensures MissingFrom(files, paths) == [] <==> forall p | p in paths :: p in files
  {
    if paths != [] {
      NoneMissing(files, paths[1..]);
      assert paths == [paths[0]] + paths[1..];
    }
  }

  lemma {:induction false} ResolvedFrom(corpus: Corpus, files: Files, raws: seq<string>, taken: seq<string>)
    requires AllIn(taken, corpus, files) && Distinct(taken)
    ensures match ResolveFrom(corpus, files, raws, taken)
            case Refused(_) =>
              exists raw | raw in raws :: corpus.resolve(raw) !in corpus.allowed || corpus.resolve(raw) !in files
            case Selected(ps) =>
              && AllIn(ps, corpus, files) && Distinct(ps)
              && (forall raw | raw in raws :: corpus.resolve(raw) in ps)
              && (forall p | p in ps :: p in taken || exists raw | raw in raws :: corpus.resolve(raw) == p)
              && (forall p | p in taken :: p in ps)
    decreases |raws|
  {
    if raws != [] {
      var rel := corpus.resolve(raws[0]);
      assert raws == [raws[0]] + raws[1..];
      if rel in corpus.allowed {
        if rel in taken {
          ResolvedFrom(corpus, files, raws[1..], taken);
        } else if rel in files {
          ResolvedFrom(corpus, files, raws[1..], taken + [rel]);
        }
      }
    }
  }

  /** A selection names allowed, existing files only; given paths, it is each of them once, whatever
      spelling they were given in, and it is refused exactly when one of them is not such a file. */
  lemma SelectionMeaning(corpus: Corpus, files: Files, paths: Option<seq<string>>)
    ensures match Resolve(corpus, files, paths)
            case Selected(ps) =>
              && AllIn(ps, corpus, files)
              && (paths.None? ==> ps == corpus.allowed)
              && (paths.Some? ==>
                    Distinct(ps) && ps != [] && forall p :: p in ps <==> p in Resolved(corpus, paths.value))
            case Refused(_) =>
              if paths.None? then exists p | p in corpus.allowed :: p !in files
              else
                || paths.value == []
                || exists p | p in Resolved(corpus, paths.value) :: p !in corpus.allowed || p !in files
  {
    NoneMissing(files, corpus.allowed);
    if paths.Some? {
      ResolvedFrom(corpus, files, paths.value, []);
      if paths.value != [] {
        assert paths.value[0] in paths.value;
      }
    }
  }

  lemma SelectedExist(corpus: Corpus, files: Files, paths: Option<seq<string>>)
    ensures Resolve(corpus, files, paths).Selected? ==>
              forall p | p in Resolve(corpus, files, paths).paths :: p in files
  {
    SelectionMeaning(corpus, files, paths);
    hide Resolve;
  }

  function Resolved(corpus: Corpus, raws: seq<string>): set<string> {
    set raw | raw in raws :: corpus.resolve(raw)
  }

  method ResolveSourcePaths(corpus: Corpus, files: Files, paths: Option<seq<string>>) returns (r: Selection)
    ensures r == Resolve(corpus, files, paths)
  {
    if paths.None? {
      var missing := MissingFrom(files, corpus.allowed);
      return if missing != [] then Refused(Missing(missing)) else Selected(corpus.allowed);
    }
    var raws := paths.value;
    if raws == [] {
      return Refused(NoSelection);
    }
    var taken: seq<string> := [];
    for i := 0 to |raws|
      invariant ResolveFrom(corpus, files, raws[i..], taken) == Resolve(corpus, files, paths)
    {
      assert raws[i..][1..] == raws[i + 1..];
      var rel := corpus.resolve(raws[i]);
      if rel !in corpus.allowed {
        return Refused(NotAllowed(rel));
      }
      if rel !in taken {
        if rel !in files {
          return Refused(Missing([rel]));
        }
        taken := taken + [rel];
      }
    }
    r := Selected(taken);
  }

  // ----- what is indexed ------------------------------------------------------------------

  /** The child chunks of one file. */
  function FileChunks(digest: Digest, path: string, raw: string): seq<Chunk> {
    Retrieval(Document(digest, path, raw))
  }

  predicate Unchanged(corpus: Corpus, files: Files, manifest: map<string, string>, path: string)
    requires path in files
  {
    path in manifest && manifest[path] == corpus.hash(files[path])
  }

  /** The file itself, or nothing if it is skipped. */
  function UnlessSkipped(corpus: Corpus, files: Files, manifest: map<string, string>, skip: bool,
                         path: string): (r: seq<string>)
    requires path in files
    ensures |r| <= 1 && forall p | p in r :: p == path
  {
    if skip && Unchanged(corpus, files, manifest, path) then [] else [path]
  }

  function ToProcess(corpus: Corpus, files: Files, manifest: map<string, string>, skip: bool,
                     paths: seq<string>): (r: seq<string>)
    requires forall p | p in paths :: p in files
    ensures |r| <= |paths| && forall p | p in r :: p in paths
  {
    if paths == [] then []
    else UnlessSkipped(corpus, files, manifest, skip, paths[0]) + ToProcess(corpus, files, manifest, skip, paths[1..])
  }

  lemma {:induction false} ToProcessMembers(corpus: Corpus, files: Files, manifest: map<string, string>, skip: bool,
                                            paths: seq<string>, p: string)
    requires forall q | q in paths :: q in files
    ensures p in ToProcess(corpus, files, manifest, skip, paths)
       <==> p in paths && !(skip && Unchanged(corpus, files, manifest, p))
  {
    hide Unchanged;
    if paths != [] {
      ToProcessMembers(corpus, files, manifest, skip, paths[1..], p);
      assert paths == [paths[0]] + paths[1..];
    }
  }

  lemma {:induction false} ToProcessMore(corpus: Corpus, files: Files, manifest: map<string, string>, skip: bool,
                                         paths: seq<string>, path: string)
    requires forall p | p in paths + [path] :: p in files
    ensures path in files && forall p | p in paths :: p in files
    ensures ToProcess(corpus, files, manifest, skip, paths + [path])
         == ToProcess(corpus, files, manifest, skip, paths) + UnlessSkipped(corpus, files, manifest, skip, path)
  {
    hide UnlessSkipped;
    InBoth(paths, path, files);
    if paths == [] {
      assert [path][1..] == [] && [] + [path] == [path];
      assert ToProcess(corpus, files, manifest, skip, [path][1..]) == [];
    } else {
      assert (paths + [path])[1..] == paths[1..] + [path];
      ToProcessMore(corpus, files, manifest, skip, paths[1..], path);
    }
  }

  lemma InBoth(paths: seq<string>, path: string, files: Files)
    requires forall p | p in paths + [path] :: p in files
    ensures path in files && forall p | p in paths :: p in files
  {
    assert path in paths + [path];
    assert forall p | p in paths :: p in paths + [path];
  }

  function AllChunks(corpus: Corpus, files: Files, paths: seq<string>): seq<Chunk>
    requires forall p | p in paths :: p in files
  {
    if paths == [] then []
    else FileChunks(corpus.digest, paths[0], files[paths[0]]) + AllChunks(corpus, files, paths[1..])
  }

  function WithoutPaths(store: Store, paths: seq<string>): Store {
    map id | id in store && store[id].chunk.sourcePath !in paths :: store[id]
  }

  lemma {:induction false} AllChunksMore(corpus: Corpus, files: Files, paths: seq<string>, path: string)
    requires forall p | p in paths + [path] :: p in files
    ensures path in files && forall p | p in paths :: p in files
    ensures AllChunks(corpus, files, paths + [path])
         == AllChunks(corpus, files, paths) + FileChunks(corpus.digest, path, files[path])
  {
    hide FileChunks;
    assert path in paths + [path];
    assert forall p | p in paths :: p in paths + [path];
    if paths == [] {
      assert [path][1..] == [];
    } else {
      assert (paths + [path])[1..] == paths[1..] + [path];
      AllChunksMore(corpus, files, paths[1..], path);
    }
  }

  lemma WithoutMore(store: Store, paths: seq<string>, path: string)
    ensures WithoutPaths(WithoutPaths(store, paths), [path]) == WithoutPaths(store, paths + [path])
  {
  }

  lemma WithoutNone(store: Store)
    ensures WithoutPaths(store, []) == store
  {
  }

  function TextsOf(chunks: seq<Chunk>): (r: seq<string>)
    ensures |r| == |chunks| && forall i | 0 <= i < |r| :: r[i] == chunks[i].text
  {
    seq(|chunks|, i requires 0 <= i < |chunks| => chunks[i].text)
  }

  function Zip(chunks: seq<Chunk>, vectors: seq<Vector>): (r: seq<Doc>)
    requires |chunks| == |vectors|
    ensures |r| == |chunks| && forall i | 0 <= i < |r| :: r[i] == Doc(chunks[i], vectors[i])
  {
    seq(|chunks|, i requires 0 <= i < |chunks| => Doc(chunks[i], vectors[i]))
  }

  function BatchSize(n: nat): nat {
    if n < BATCH then n else BATCH
  }

  /** One batch after another; nothing when a call raises or answers with the wrong number. */
  function Embed(chunks: seq<Chunk>, embedder: Embedder): Option<seq<Doc>>
    decreases |chunks|
  {
    if chunks == [] then Some([])
    else
      var n := BatchSize(|chunks|);
      var batch := chunks[..n];
      var answer := embedder(TextsOf(batch));
      if answer.None? || |answer.value| != |batch| then None
      else
        Before(Zip(batch, answer.value), Embed(chunks[n..], embedder))
  }

  function Before(docs: seq<Doc>, rest: Option<seq<Doc>>): Option<seq<Doc>> {
    if rest.None? then None else Some(docs + rest.value)
  }

  /** When embedding succeeds, every chunk gets one document, in order. */
  lemma {:induction false} EmbedKeepsChunks(chunks: seq<Chunk>, embedder: Embedder)
    requires Embed(chunks, embedder).Some?
    ensures var docs := Embed(chunks, embedder).value;
            |docs| == |chunks| && forall i | 0 <= i < |docs| :: docs[i].chunk == chunks[i]
    decreases |chunks|
  {
    if chunks != [] {
      EmbedKeepsChunks(chunks[BatchSize(|chunks|)..], embedder);
    }
  }

  /** The batch that begins at `from` is at most 32 chunks. */
  function BatchAt(chunks: seq<Chunk>, from: nat): seq<Chunk>
    requires from <= |chunks|
  {
    chunks[from..if from + 32 < |chunks| then from + 32 else |chunks|]
  }

  predicate Answered(chunks: seq<Chunk>, embedder: Embedder, from: nat)
    requires from <= |chunks|
  {
    var batch := BatchAt(chunks, from);
    var answer := embedder(TextsOf(batch));
    answer.Some? && |answer.value| == |batch|
  }

  /** The document holds the chunk and the vector at its place in the answer to its own batch. */
  predicate Paired(chunks: seq<Chunk>, embedder: Embedder, doc: Doc, i: nat)
    requires i < |chunks|
  {
    var from := i - i % 32;
    && Answered(chunks, embedder, from)
    && i % 32 < |BatchAt(chunks, from)|
    && doc == Doc(chunks[i], embedder(TextsOf(BatchAt(chunks, from))).value[i % 32])
  }

  lemma NextBatch(chunks: seq<Chunk>, from: nat)
    requires 32 <= from <= |chunks|
    ensures BatchAt(chunks[32..], from - 32) == BatchAt(chunks, from)
  {
  }

  lemma FirstBatch(chunks: seq<Chunk>)
    ensures BatchAt(chunks, 0) == chunks[..BatchSize(|chunks|)]
  {
  }

  /** When embedding succeeds every chunk is paired with its own vector, whatever the embedder. */
  lemma {:induction false} EmbedPairs(chunks: seq<Chunk>, embedder: Embedder)
    requires Embed(chunks, embedder).Some?
    ensures var docs := Embed(chunks, embedder).value;
            |docs| == |chunks| && forall i | 0 <= i < |docs| :: Paired(chunks, embedder, docs[i], i)
    decreases |chunks|
  {
    if chunks != [] {
      var n := BatchSize(|chunks|);
      var docs, rest := Embed(chunks, embedder).value, Embed(chunks[n..], embedder).value;
      EmbedPairs(chunks[n..], embedder);
      FirstBatch(chunks);
      forall i | 0 <= i < |docs| ensures Paired(chunks, embedder, docs[i], i) {
        if i >= n {
          assert n == 32 && docs[i] == rest[i - 32];
          assert Paired(chunks[32..], embedder, rest[i - 32], i - 32);
          NextBatch(chunks, i - i % 32);
          assert (i - 32) % 32 == i % 32;
        } else {
          assert i % 32 == i;
        }
      }
    }
  }

  /** Embedding succeeds exactly when the embedder answers each batch of 32 with as many vectors. */
  lemma {:induction false} EmbedSucceedsExactly(chunks: seq<Chunk>, embedder: Embedder)
    ensures Embed(chunks, embedder).Some? <==> forall b: nat | 32 * b < |chunks| :: Answered(chunks, embedder, 32 * b)
    decreases |chunks|
  {
    if chunks != [] {
      var n := BatchSize(|chunks|);
      EmbedSucceedsExactly(chunks[n..], embedder);
      FirstBatch(chunks);
      assert Answered(chunks, embedder, 32 * 0) <==> Answered(chunks, embedder, 0);
      if n == 32 {
        forall b: nat | 32 * b < |chunks[32..]|
          ensures Answered(chunks[32..], embedder, 32 * b) == Answered(chunks, embedder, 32 * (b + 1))
        {
          NextBatch(chunks, 32 * (b + 1));
        }
        forall b: nat | 0 < b && 32 * b < |chunks|
          ensures Answered(chunks[32..], embedder, 32 * (b - 1)) == Answered(chunks, embedder, 32 * b)
        {
          NextBatch(chunks, 32 * b);
        }
      }
      hide Answered;
    }
  }

  lemma BeforeNothing(rest: Option<seq<Doc>>)
    ensures Before([], rest) == rest
  {
    if rest.Some? {
      assert [] + rest.value == rest.value;
    }
  }

  lemma BeforeTwice(x: seq<Doc>, y: seq<Doc>, rest: Option<seq<Doc>>)
    ensures Before(x, Before(y, rest)) == Before(x + y, rest)
  {
    if rest.Some? {
      assert x + (y + rest.value) == x + y + rest.value;
    }
  }

  method EmbedChunks(chunks: seq<Chunk>, embedder: Embedder) returns (docs: Option<seq<Doc>>)
    ensures docs == Embed(chunks, embedder)
  {
    var documents: seq<Doc> := [];
    var offset := 0;
    BeforeNothing(Embed(chunks, embedder));
    assert chunks[0..] == chunks;
    while offset < |chunks|
      invariant 0 <= offset <= |chunks|
      invariant Embed(chunks, embedder) == Before(documents, Embed(chunks[offset..], embedder))
    {
      var n := BatchSize(|chunks| - offset);
      assert chunks[offset..][n..] == chunks[offset + n..] && chunks[offset..][..n] == chunks[offset..offset + n];
      var batch := chunks[offset..offset + n];
      var answer := embedder(TextsOf(batch));
      if answer.None? || |answer.value| != |batch| {
        return None;
      }
      BeforeTwice(documents, Zip(batch, answer.value), Embed(chunks[offset + n..], embedder));
      documents := documents + Zip(batch, answer.value);
      offset := offset + n;
    }
    assert documents + [] == documents;
    docs := Some(documents);
  }

  function Upsert(store: Store, docs: seq<Doc>): Store
    decreases |docs|
  {
    if docs == [] then store else Upsert(store[docs[0].chunk.id := docs[0]], docs[1..])
  }

  function Record(corpus: Corpus, files: Files, manifest: map<string, string>, paths: seq<string>): map<string,
                  string>
    requires forall p | p in paths :: p in files
    decreases |paths|
  {
    if paths == [] then manifest
    else Record(corpus, files, manifest[paths[0] := corpus.hash(files[paths[0]])], paths[1..])
  }

  lemma {:induction false} RecordMore(corpus: Corpus, files: Files, manifest: map<string, string>,
                                      paths: seq<string>, path: string)
    requires forall p | p in paths + [path] :: p in files
    ensures path in files && forall p | p in paths :: p in files
    ensures Record(corpus, files, manifest, paths + [path])
         == Record(corpus, files, manifest, paths)[path := corpus.hash(files[path])]
    decreases |paths|
  {
    assert path in paths + [path];
    assert forall p | p in paths :: p in paths + [path];
    if paths == [] {
      assert [path][1..] == [];
    } else {
      assert (paths + [path])[1..] == paths[1..] + [path];
      RecordMore(corpus, files, manifest[paths[0] := corpus.hash(files[paths[0]])], paths[1..], path);
    }
  }

  lemma {:induction false} Recorded(corpus: Corpus, files: Files, manifest: map<string, string>, paths: seq<string>)
    requires forall p | p in paths :: p in files
    ensures var r := Record(corpus, files, manifest, paths);
            forall p :: (p in r <==> p in manifest || p in paths)
                        && (p in r ==> r[p] == if p in paths then corpus.hash(files[p]) else manifest[p])
    decreases |paths|
  {
    if paths != [] {
      Recorded(corpus, files, manifest[paths[0] := corpus.hash(files[paths[0]])], paths[1..]);
      assert paths == [paths[0]] + paths[1..];
    }
  }

  lemma NoneProcessed(corpus: Corpus, files: Files, manifest: map<string, string>, skip: bool,
                      known: map<string, string>, store: Store)
    ensures ToProcess(corpus, files, manifest, skip, []) == [] && WithoutPaths(store, []) == store
    ensures AllChunks(corpus, files, []) == [] && Record(corpus, files, known, []) == known
  {
  }

  // ----- one ingest -----------------------------------------------------------------------

  /** The index and the answer after one ingest, for every outcome. */
  function Ingested(corpus: Corpus, files: Files, paths: Option<seq<string>>, skip: bool, embedder: Embedder,
                    before: Index): (Index, Outcome)
  {
    match Resolve(corpus, files, paths)
    case Refused(error) => (before, Failed(error))
    case Selected(selected) =>
      SelectionMeaning(corpus, files, paths);
      var todo := ToProcess(corpus, files, before.manifest, skip, selected);
      var kept := WithoutPaths(before.store, todo);
      var chunks := AllChunks(corpus, files, todo);
      if selected == [] then (before, Failed(NothingProduced))
      else
        match Embed(chunks, embedder)
        case None => (Index(kept, before.manifest), Failed(EmbedFailed))
        case Some(docs) =>
          (Index(Upsert(kept, docs), if skip then Record(corpus, files, before.manifest, todo) else before.manifest),
           Done(|todo|, |chunks|, |docs|, |selected| - |todo|, |before.store| - |kept|))
  }

  class KnowledgeIndex {
    var store: Store
    var manifest: map<string, string>

    constructor ()
      ensures store == map[] && manifest == map[]
    {
      store, manifest := map[], map[];
    }

    function Current(): Index
      reads this
    {
      Index(store, manifest)
    }

    method DeleteBySourcePath(path: string) returns (deleted: int)
      modifies this`store
      ensures store == WithoutPaths(old(store), [path]) && deleted == |old(store)| - |store|
    {
      var size := |store|;
      store := map id | id in store && store[id].chunk.sourcePath != path :: store[id];
      deleted := size - |store|;
    }

    method BulkUpsert(docs: seq<Doc>) returns (written: nat)
      modifies this`store
      ensures store == Upsert(old(store), docs) && written == |docs|
    {
      for i := 0 to |docs|
        invariant Upsert(store, docs[i..]) == Upsert(old(store), docs)
      {
        assert docs[i..][1..] == docs[i + 1..];
        store := store[docs[i].chunk.id := docs[i]];
      }
      written := |docs|;
    }

    /** The loop over the selected files: delete, cut, remember the hash. */
    method ProcessFiles(corpus: Corpus, files: Files, selected: seq<string>, skip: bool)
      returns (children: seq<Chunk>, processed: nat, skipped: nat, deleted: int, updated: map<string, string>)
      requires forall p | p in selected :: p in files
      modifies this`store
      ensures var todo := ToProcess(corpus, files, manifest, skip, selected);
              && store == WithoutPaths(old(store), todo)
              && children == AllChunks(corpus, files, todo)
              && processed == |todo| && skipped == |selected| - |todo| && deleted == |old(store)| - |store|
              && updated == Record(corpus, files, if skip then manifest else map[], todo)
    {
      ghost var known := if skip then manifest else map[];
      ghost var done := [];
      NoneProcessed(corpus, files, manifest, skip, known, store);
      hide ToProcess;
      hide WithoutPaths;
      hide AllChunks;
      hide Record;
      hide FileChunks;
      children, processed, skipped, deleted := [], 0, 0, 0;
      updated := if skip then manifest else map[];
      for i := 0 to |selected|
        invariant (forall p | p in selected[..i] :: p in files) && (forall p | p in done :: p in files)
        invariant done == ToProcess(corpus, files, manifest, skip, selected[..i])
        invariant store == WithoutPaths(old(store), done) && children == AllChunks(corpus, files, done)
        invariant updated == Record(corpus, files, known, done)
        invariant processed == |done| && processed + skipped == i && deleted == |old(store)| - |store|
      {
        var path := selected[i];
        assert selected[..i + 1] == selected[..i] + [path];
        ToProcessMore(corpus, files, manifest, skip, selected[..i], path);
        if skip && path in manifest && manifest[path] == corpus.hash(files[path]) {
          assert done + [] == done;
          skipped := skipped + 1;
          continue;
        }
        WithoutMore(old(store), done, path);
        AllChunksMore(corpus, files, done, path);
        RecordMore(corpus, files, known, done, path);
        done := done + [path];
        var n := DeleteBySourcePath(path);
        deleted := deleted + n;
        children := children + FileChunks(corpus.digest, path, files[path]);
        processed := processed + 1;
        updated := updated[path := corpus.hash(files[path])];
      }
      assert selected[..|selected|] == selected;
    }

    method Ingest(corpus: Corpus, files: Files, paths: Option<seq<string>>, skip: bool, embedder: Embedder)
      returns (outcome: Outcome)
      modifies this
      ensures (Current(), outcome) == Ingested(corpus, files, paths, skip, embedder, old(Current()))
    {
      hide Resolve;
      hide Embed;
      hide AllChunks;
      hide Record;
      hide ToProcess;
      hide Upsert;
      hide WithoutPaths;
      var selection := ResolveSourcePaths(corpus, files, paths);
      if selection.Refused? {
        return Failed(selection.error);
      }
      SelectedExist(corpus, files, paths);
      var children, processed, skipped, deleted, updated := ProcessFiles(corpus, files, selection.paths, skip);
      if processed == 0 && skipped == 0 {
        WithoutNone(old(store));
        return Failed(NothingProduced);
      }
      var docs := EmbedChunks(children, embedder);
      if docs.None? {
        return Failed(EmbedFailed);
      }
      var indexed := BulkUpsert(docs.value);
      if skip {
        manifest := updated;
      }
      outcome := Done(processed, |children|, indexed, skipped, deleted);
    }
  }
}
