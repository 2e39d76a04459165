/** The activity cache under interleaved readers and writers (internal/wallet/activity.go).

    A writer holds the sending lock from start to end. Readers are serialised by a lock of their
    own; one takes the sending lock twice, to compare generations and to list the directory, and
    reads the archive files after letting go of it. */
module ActivityCache {
  import opened Records
  import opened ActivityFiles
  import opened ActivityCompaction
  import opened ActivityStore

  datatype Writer =
    | NoWriter
    | Writing(chunks: seq<seq<Id>>, keep: seq<Id>)

  datatype Reader =
    | NoReader
    | Outdated    // the cache was not current when looked at
    | Rebuilding(paths: seq<nat>, active: seq<Id>, generation: nat, read: nat, ids: seq<Id>)

  datatype World = World(dir: Dir, generation: nat, cache: Option<Cached>, reader: Reader, writer: Writer)

  datatype Event =
    | WriteBegin(ids: seq<Id>)
    | WriteChunk(stamp: nat, outcome: Outcome)
    | WriteActive(outcome: Outcome)
    | ReadBegin
    | ReadSnapshot
    | ReadArchive
    | ReadPublish
    | Restart

  function StepWriteBegin(w: World, ids: seq<Id>): World {
    if w.writer != NoWriter || !ValidIds(ids) || !ReadableDir(w.dir) || Added(w.dir, ids) == [] then w
    else
      var plan := PlanOf(Combined(w.dir, ids));
      w.(generation := w.generation + 1, writer := Writing(plan.chunks, plan.keep))
  }

  function StepWriteChunk(w: World, stamp: nat, outcome: Outcome): World {
    if !w.writer.Writing? || w.writer.chunks == [] || exists a :: a in w.dir.archives && a.stamp >= stamp then w
    else
      var archives := w.dir.archives + [Archive(stamp, w.writer.chunks[0])];
      w.(dir := w.dir.(archives := AfterWrite(w.dir.archives, archives, outcome)),
         writer := if outcome == Written then Writing(w.writer.chunks[1..], w.writer.keep) else NoWriter)
  }

  function StepWriteActive(w: World, outcome: Outcome): World {
    if !w.writer.Writing? || w.writer.chunks != [] then w
    else w.(dir := w.dir.(active := AfterWrite(w.dir.active, Some(w.writer.keep), outcome)), writer := NoWriter)
  }

  function StepReadBegin(w: World): World {
    if w.reader != NoReader || w.writer != NoWriter then w
    else if w.cache.Some? && w.cache.value.generation == w.generation then w
    else w.(reader := Outdated)
  }

  function Paths(archives: seq<Archive>): seq<nat> {
    seq(|archives|, i requires 0 <= i < |archives| => archives[i].stamp)
  }

  function StepReadSnapshot(w: World): World {
    if w.reader != Outdated || w.writer != NoWriter then w
    else if !Readable(ActiveIds(w.dir)) then w.(reader := NoReader)
    else w.(reader := Rebuilding(Paths(w.dir.archives), ActiveIds(w.dir), w.generation, 0, []))
  }

  /** A missing file reads as empty. */
  function FileAt(archives: seq<Archive>, path: nat): seq<Id> {
    if archives == [] then []
    else if archives[|archives|-1].stamp == path then archives[|archives|-1].ids
    else FileAt(archives[..|archives|-1], path)
  }

  function StepReadArchive(w: World): World {
    if !w.reader.Rebuilding? || w.reader.read >= |w.reader.paths| then w
    else
      var r := w.reader;
      var file := FileAt(w.dir.archives, r.paths[r.read]);
      if !Readable(file) then w.(reader := NoReader)
      else w.(reader := r.(read := r.read + 1, ids := r.ids + Fresh(file, Elems(r.ids))))
  }

  function StepReadPublish(w: World): World {
    if !w.reader.Rebuilding? || w.reader.read < |w.reader.paths| then w
    else
      var r := w.reader;
      w.(cache := Some(Cached(r.generation, r.ids + Fresh(r.active, Elems(r.ids)))), reader := NoReader)
  }

  function Next(w: World, e: Event): World {
    match e
    case WriteBegin(ids) => StepWriteBegin(w, ids)
    case WriteChunk(stamp, outcome) => StepWriteChunk(w, stamp, outcome)
    case WriteActive(outcome) => StepWriteActive(w, outcome)
    case ReadBegin => StepReadBegin(w)
    case ReadSnapshot => StepReadSnapshot(w)
    case ReadArchive => StepReadArchive(w)
    case ReadPublish => StepReadPublish(w)
    case Restart => w.(generation := 0, cache := None, reader := NoReader, writer := NoWriter)
  }

  function Run(w: World, events: seq<Event>): World {
    if events == [] then w else Next(Run(w, events[..|events|-1]), events[|events|-1])
  }

  // ---------------------------------------------------------------- invariant

  /** A cache of the current generation is the index of the files, and no write is under way. */
  predicate CacheOk(w: World) {
    w.cache.Some? ==>
      && w.cache.value.generation <= w.generation
      && (w.cache.value.generation == w.generation ==> w.writer == NoWriter && w.cache.value.ids == Index(w.dir))
  }

  /** The listed archives are still there, unchanged; if the generation has not moved, so is the rest. */
  predicate ReaderOk(w: World) {
    w.reader.Rebuilding? ==>
      var r := w.reader;
      && r.generation <= w.generation
      && r.read <= |r.paths| <= |w.dir.archives|
      && r.paths == Paths(w.dir.archives[..|r.paths|])
      && r.ids == Fresh(Flatten(w.dir.archives[..r.read]), {})
      && (r.generation == w.generation ==>
           w.writer == NoWriter && |r.paths| == |w.dir.archives| && r.active == ActiveIds(w.dir))
  }

  predicate Inv(w: World) {
    && Ordered(w.dir.archives)
    && CacheOk(w)
    && ReaderOk(w)
  }

  lemma {:induction false} FileAtPath(archives: seq<Archive>, i: nat)
    requires Ordered(archives) && i < |archives|
    ensures FileAt(archives, archives[i].stamp) == archives[i].ids
  {
    if i < |archives| - 1 {
      FileAtPath(archives[..|archives|-1], i);
    }
  }

  lemma FreshMore(a: seq<Id>, b: seq<Id>)
    ensures Fresh(a + b, {}) == Fresh(a, {}) + Fresh(b, Elems(Fresh(a, {})))
  {
    FreshConcat(a, b, {});
    FreshMembers(a, {});
    assert {} + Elems(a) == Elems(Fresh(a, {}));
  }

  lemma ArchiveInv(w: World)
    requires Inv(w)
    ensures Inv(StepReadArchive(w))
  {
    hide Fresh, FileAt, Flatten, Index, Readable;
    var r := w.reader;
    if r.Rebuilding? && r.read < |r.paths| {
      var archives := w.dir.archives;
      assert r.paths[r.read] == archives[..|r.paths|][r.read].stamp;
      FileAtPath(archives, r.read);
      FlattenSnoc(archives[..r.read], archives[r.read]);
      assert archives[..r.read + 1] == archives[..r.read] + [archives[r.read]];
      FreshMore(Flatten(archives[..r.read]), archives[r.read].ids);
    }
  }

  lemma PublishInv(w: World)
    requires Inv(w)
    ensures Inv(StepReadPublish(w))
  {
    var r := w.reader;
    if r.Rebuilding? && r.read == |r.paths| {
      FreshMore(Flatten(w.dir.archives[..r.read]), r.active);
      assert w.dir.archives[..|w.dir.archives|] == w.dir.archives;
    }
  }

  lemma ChunkInv(w: World, stamp: nat, outcome: Outcome)
    requires Inv(w)
    ensures Inv(StepWriteChunk(w, stamp, outcome))
  {
    hide Index, Fresh, Flatten;
    var next := StepWriteChunk(w, stamp, outcome);
    assert Ordered(next.dir.archives) by {
      assert forall i :: 0 <= i < |w.dir.archives| ==> w.dir.archives[i] in w.dir.archives;
    }
    if w.reader.Rebuilding? {
      assert next.dir.archives[..|w.reader.paths|] == w.dir.archives[..|w.reader.paths|];
      assert next.dir.archives[..w.reader.read] == w.dir.archives[..w.reader.read];
    }
  }

  lemma NextInv(w: World, e: Event)
    requires Inv(w)
    ensures Inv(Next(w, e))
  {
    hide Index, Flatten, Readable, Added, Combined, PlanOf, ReadableDir;
    match e {
      case WriteChunk(stamp, outcome) => ChunkInv(w, stamp, outcome);
      case ReadArchive => ArchiveInv(w);
      case ReadPublish => PublishInv(w);
      case ReadSnapshot =>
        assert w.dir.archives[..|w.dir.archives|] == w.dir.archives;
        NothingRead(w.dir.archives);
      case _ =>
    }
  }

  lemma NothingRead(archives: seq<Archive>)
    ensures Fresh(Flatten(archives[..0]), {}) == []
  {
  }

  lemma CurrentCache(w: World)
    ensures Inv(w) && w.cache.Some? && w.cache.value.generation == w.generation ==> w.cache.value.ids == Index(w.dir)
    ensures w.cache.None? ==> CacheOk(w)
    ensures !w.reader.Rebuilding? ==> ReaderOk(w)
  {
  }

  /** In every interleaving of readers, writers, failed writes and restarts, a cache that carries
      the current generation holds exactly the index rebuilt from the files; so the reader that
      finds it current returns the right answer. */
  lemma {:induction false} CacheMatchesFiles(dir: Dir, events: seq<Event>)
    requires Ordered(dir.archives)
    ensures var w := Run(World(dir, 0, None, NoReader, NoWriter), events);
      && Inv(w)
      && (w.cache.Some? && w.cache.value.generation == w.generation ==> w.cache.value.ids == Index(w.dir))
  {
    hide Next, CacheOk, ReaderOk, Ordered, Index;
    if events != [] {
      var front, last := events[..|events|-1], events[|events|-1];
      CacheMatchesFiles(dir, front);
      NextInv(Run(World(dir, 0, None, NoReader, NoWriter), front), last);
    }
    CurrentCache(Run(World(dir, 0, None, NoReader, NoWriter), events));
  }
}
