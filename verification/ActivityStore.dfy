/** Adding hashes to the activity index and reading it back, as the service does it
    (internal/wallet/activity.go). */
module ActivityStore {
  import opened Records
  import opened ActivityFiles
  import opened ActivityCompaction
  import opened Sequences

  datatype Cached = Cached(generation: nat, ids: seq<Id>)

  method ReadActivityFile(file: Option<seq<Id>>) returns (r: Result<seq<Id>>)
    ensures var stored := if file.Some? then file.value else [];
      r == if Readable(stored) then Ok(stored) else Err(CorruptFile)
  {
    if file.None? {
      return Ok([]);
    }
    var ids := file.value;
    if JsonSize(ids) > MAX_BYTES || |ids| > MAX_HASHES {
      return Err(CorruptFile);
    }
    for i := 0 to |ids|
      invariant forall k :: 0 <= k < i ==> ValidId(ids[k])
    {
      if !ValidId(ids[i]) {
        assert ids[i] in ids;
        return Err(CorruptFile);
      }
    }
    r := Ok(ids);
  }

  /** Keeps the ids not seen before, and marks them seen. */
  method Collect(ids: seq<Id>, before: set<Id>) returns (kept: seq<Id>, seen: set<Id>)
    ensures kept == Fresh(ids, before) && seen == before + Elems(ids)
  {
    kept, seen := [], before;
    for i := 0 to |ids|
      invariant kept == Fresh(ids[..i], before)
      invariant seen == before + Elems(ids[..i])
    {
      PrefixStep(ids, i);
      if ids[i] !in seen {
        kept, seen := kept + [ids[i]], seen + {ids[i]};
      }
    }
    assert ids[..|ids|] == ids;
  }

  method SplitChunks(hashes: seq<Id>) returns (chunks: seq<seq<Id>>)
    ensures chunks == Chunks(hashes)
  {
    var rest := hashes;
    chunks := [];
    while rest != []
      invariant chunks + Chunks(rest) == Chunks(hashes)
      decreases |rest|
    {
      var n := if |rest| < MAX_HASHES then |rest| else MAX_HASHES;
      chunks := chunks + [rest[..n]];
      rest := rest[n..];
    }
  }

  lemma NothingAdded(dir: Dir, ids: seq<Id>)
    ensures Index(dir) + Added(dir, ids)[..0] == Index(dir) && Added(dir, ids)[0..] == Added(dir, ids)
    ensures ids == [] ==> Added(dir, ids) == []
  {
  }

  /** What activity.json holds after new hashes went in: all that is not archived while that is at most a
      thousand, and otherwise the newest two hundred, the rest being archived. */
  ghost predicate NewestKept(before: Dir, after: Dir, ids: seq<Id>) {
    if Added(before, ids) == [] then after == before
    else
      var combined := Combined(before, ids);
      && after.active == Some(if |combined| > 1000 then combined[|combined| - 200..] else combined)
      && (|combined| <= 1000 ==> after.archives == before.archives)
  }

  class ActivityStore {
    var active: Option<seq<Id>>
    var archives: seq<Archive>
    var generation: nat
    var cache: Option<Cached>
    var lastNano: nat

    function Files(): Dir
      reads this
    {
      Dir(active, archives)
    }

    /** The cached index, if it carries the current generation, is the index of the files. */
    ghost predicate Valid()
      reads this
    {
      && Ordered(archives)
      && (cache.Some? ==> cache.value.generation <= generation)
      && (cache.Some? && cache.value.generation == generation ==>
           ReadableDir(Files()) && cache.value.ids == Index(Files()))
    }

    /** A service opened on a wallet directory. */
    constructor (dir: Dir)
      requires Ordered(dir.archives)
      ensures Valid() && Files() == dir
    {
      active, archives, generation, cache, lastNano := dir.active, dir.archives, 0, None, 0;
    }

    /** The least number that is not below the clock, the last name used or any existing name. */
    method NextActivityArchiveName(existing: seq<nat>, clock: nat) returns (name: nat)
      modifies this`lastNano
      ensures lastNano == name && name >= clock && name > old(lastNano)
      ensures forall e :: e in existing ==> e < name
      ensures name == clock || name - 1 == old(lastNano) || name - 1 in existing
    {
      name := clock;
      if name <= lastNano {
        name := lastNano + 1;
      }
      for i := 0 to |existing|
        invariant name >= clock && name > lastNano
        invariant forall k :: 0 <= k < i ==> existing[k] < name
        invariant name == clock || name - 1 == lastNano || name - 1 in existing
      {
        if existing[i] >= name {
          name := existing[i] + 1;
        }
      }
      lastNano := name;
    }

    method ReadArchives() returns (r: Result<seq<Id>>)
      ensures r.Ok? <==> forall i :: 0 <= i < |archives| ==> Readable(archives[i].ids)
      ensures r.Ok? ==> r.value == Flatten(archives)
    {
      var files := archives;
      var all: seq<Id> := [];
      for i := 0 to |files|
        invariant all == Flatten(files[..i])
        invariant forall k :: 0 <= k < i ==> Readable(files[k].ids)
      {
        PrefixStep(files, i);
        var ids := ReadActivityFile(Some(files[i].ids));
        if ids.Err? {
          return Err(CorruptFile);
        }
        all := all + ids.value;
      }
      assert files[..|files|] == files;
      r := Ok(all);
    }

    /** The chunks are written one by one under new names; the first failure stops. */
    method WriteArchives(chunks: seq<seq<Id>>, clock: nat -> nat, writes: nat -> Outcome)
      returns (ok: bool, ghost stamps: seq<nat>)
      requires Ordered(archives)
      modifies this`archives, this`lastNano
      ensures |stamps| <= |chunks| && (ok ==> |stamps| == |chunks|)
      ensures ok <==> forall i :: 0 <= i < |chunks| ==> writes(i) == Written
      ensures Rising(old(archives), stamps)
      ensures archives == old(archives) + Stamped(chunks, stamps)
    {
      var start := archives;
      var existing := seq(|start|, i requires 0 <= i < |start| => start[i].stamp);
      stamps := [];
      ok := true;
      for i := 0 to |chunks|
        invariant |stamps| == i && ok && |existing| == |start|
        invariant forall k :: 0 <= k < i ==> writes(k) == Written
        invariant forall k :: 0 <= k < |start| ==> existing[k] == start[k].stamp
        invariant Rising(old(archives), stamps) && forall k :: 0 <= k < i ==> stamps[k] <= lastNano
        invariant archives == old(archives) + Stamped(chunks, stamps)
      {
        var name := NextActivityArchiveName(existing, clock(i));
        var outcome := writes(i);
        if outcome != FailedOld {
          archives := archives + [Archive(name, chunks[i])];
          ghost var longer := stamps + [name];
          assert longer[..i + 1] == longer && longer[..i] == stamps;
          StampedSnoc(old(archives), chunks, longer, i);
          forall a | a in start ensures a.stamp < name {
            var k :| 0 <= k < |start| && start[k] == a;
            assert existing[k] == a.stamp && existing[k] in existing;
          }
          stamps := longer;
        }
        if outcome != Written {
          return false, stamps;
        }
      }
    }

    /** `clock(i)` and `writes(i)` belong to the i-th file written. `p` says how many of the added
        hashes are in the index afterwards. */
    method AddActivityHashes(ids: seq<Id>, clock: nat -> nat, writes: nat -> Outcome)
      returns (r: Result<nat>, ghost p: nat)
      requires Valid()
      modifies this
      ensures Valid() && cache == old(cache)
      ensures Files() != old(Files()) ==> generation == old(generation) + 1
      ensures !ValidIds(ids) || !ReadableDir(old(Files())) ==> Files() == old(Files())
      ensures r.Err? && r.error != WriteFailed ==> !ValidIds(ids) || !ReadableDir(old(Files()))
      ensures ReadableDir(old(Files())) ==> ReadableDir(Files())
      ensures ValidIds(ids) && ReadableDir(old(Files())) && (forall i :: writes(i) == Written) ==> r.Ok?
      ensures p <= |Added(old(Files()), ids)| && (r.Ok? ==> p == r.value == |Added(old(Files()), ids)|)
      ensures Index(Files()) == Index(old(Files())) + Added(old(Files()), ids)[..p]
      ensures Added(Files(), ids) == Added(old(Files()), ids)[p..]
      ensures old(archives) <= archives
      ensures r.Ok? ==> NewestKept(old(Files()), Files(), ids)
    {
      hide Index, Added, Combined, PlanOf, Readable, ValidId, Fresh, Flatten;
      p := 0;
      ghost var dir := Files();
      NothingAdded(dir, ids);
      for i := 0 to |ids|
        invariant forall k :: 0 <= k < i ==> ValidId(ids[k])
      {
        if !ValidId(ids[i]) {
          assert ids[i] in ids;
          return Err(InvalidRecord), 0;
        }
      }
      if |ids| == 0 {
        return Ok(0), 0;
      }
      var archived := ReadArchives();
      if archived.Err? {
        return Err(CorruptFile), 0;
      }
      var activeIds := ReadActivityFile(active);
      if activeIds.Err? {
        return Err(CorruptFile), 0;
      }
      var toAppend, combined := Merge(archived.value, activeIds.value, ids);
      if |toAppend| == 0 {
        return Ok(0), 0;
      }
      generation := generation + 1;
      var written;
      written, p := Compact(ids, combined, clock, writes);
      r := if written then Ok(|toAppend|) else Err(WriteFailed);
    }

    method Merge(archived: seq<Id>, activeIds: seq<Id>, ids: seq<Id>) returns (toAppend: seq<Id>, combined: seq<Id>)
      requires archived == Flatten(archives) && activeIds == ActiveIds(Files())
      ensures toAppend == Added(Files(), ids) && combined == Combined(Files(), ids)
    {
      var none, seen := Collect(archived, {});
      assert seen == Elems(archived);
      var kept;
      kept, seen := Collect(activeIds, seen);
      toAppend, seen := Collect(ids, seen);
      combined := kept + toAppend;
      IndexElems(Files());
      CombinedParts(Files(), ids);
    }

    /** Chunks first, then activity.json. */
    method Compact(ids: seq<Id>, combined: seq<Id>, clock: nat -> nat, writes: nat -> Outcome)
      returns (ok: bool, ghost p: nat)
      requires ReadableDir(Files()) && Ordered(archives) && ValidIds(ids) && combined == Combined(Files(), ids)
      modifies this`active, this`archives, this`lastNano
      ensures p <= |Added(old(Files()), ids)| && (ok ==> p == |Added(old(Files()), ids)|)
      ensures (forall i :: writes(i) == Written) ==> ok
      ensures ok ==> active == Some(if |combined| > 1000 then combined[|combined| - 200..] else combined)
      ensures |combined| <= 1000 ==> archives == old(archives)
      ensures ReadableDir(Files()) && Ordered(archives) && old(archives) <= archives
      ensures Index(Files()) == Index(old(Files())) + Added(old(Files()), ids)[..p]
      ensures Added(Files(), ids) == Added(old(Files()), ids)[p..]
    {
      hide ReadableDir, Index, Added, Combined, Rising, Chunks;
      ghost var dir := Files();
      ghost var plan := PlanOf(combined);
      var chunks: seq<seq<Id>>, keep := [], combined;
      if |combined| > MAX_HASHES {
        keep := combined[|combined| - KEEP..];
        chunks := SplitChunks(combined[..|combined| - KEEP]);
      }
      ghost var stamps;
      ok, stamps := WriteArchives(chunks, clock, writes);
      ghost var done := false;
      if ok {
        var outcome := writes(|chunks|);
        if outcome != FailedOld {
          active, done := Some(keep), true;
        }
        ok := outcome == Written;
      }
      assert Files() == Stored(dir, plan, stamps, done);
      p := CutOff(dir, ids, stamps, done);
    }

    /** Rebuilds the index unless the cached one is current. */
    method LoadActivityIndex() returns (r: Result<seq<Id>>)
      requires Valid()
      modifies this`cache
      ensures Valid()
      ensures r.Ok? <==> ReadableDir(Files())
      ensures r.Ok? ==> r.value == Index(Files())
    {
      hide Index, Fresh, Flatten, Readable;
      if cache.Some? && cache.value.generation == generation {
        return Ok(cache.value.ids);
      }
      var activeIds := ReadActivityFile(active);
      if activeIds.Err? {
        return Err(CorruptFile);
      }
      var archived := ReadArchives();
      if archived.Err? {
        return Err(CorruptFile);
      }
      var all, seen := Collect(archived.value, {});
      var more;
      more, seen := Collect(activeIds.value, seen);
      assert {} + Elems(archived.value) == Elems(archived.value);
      CombinedParts(Files(), []);
      cache := Some(Cached(generation, all + more));
      r := Ok(all + more);
    }
  }
}
