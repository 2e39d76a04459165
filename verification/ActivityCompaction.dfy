/** A compaction cut off anywhere keeps the index: old hashes in order, then a prefix of the new. */
module ActivityCompaction {
  import opened Records
  import opened ActivityFiles

  lemma {:induction false} JsonFits(ids: seq<Id>)
    requires ValidIds(ids) && ids != []
    ensures JsonSize(ids) == 69 * |ids| + 1
  {
    assert ids[|ids|-1] in ids;
    if |ids| > 1 {
      JsonFits(ids[..|ids|-1]);
    }
  }

  lemma ValidReadable(ids: seq<Id>)
    requires ValidIds(ids) && |ids| <= MAX_HASHES
    ensures Readable(ids)
  {
    if ids != [] {
      JsonFits(ids);
    }
  }

  function Join(chunks: seq<seq<Id>>): seq<Id> {
    if chunks == [] then [] else chunks[0] + Join(chunks[1..])
  }

  lemma {:induction false} ChunksExactly(s: seq<Id>)
    ensures Join(Chunks(s)) == s
    ensures forall c :: c in Chunks(s) ==> 0 < |c| <= MAX_HASHES && forall x :: x in c ==> x in s
  {
    if s != [] {
      var n := if |s| < MAX_HASHES then |s| else MAX_HASHES;
      ChunksExactly(s[n..]);
      assert s == s[..n] + s[n..];
    }
  }

  lemma {:induction false} JoinPrefix(chunks: seq<seq<Id>>, k: nat)
    requires k <= |chunks|
    ensures |Join(chunks[..k])| <= |Join(chunks)|
    ensures Join(chunks[..k]) == Join(chunks)[..|Join(chunks[..k])|]
  {
    if k > 0 {
      JoinPrefix(chunks[1..], k - 1);
      assert chunks[..k][1..] == chunks[1..][..k - 1];
    }
  }

  lemma {:induction false} JoinSnoc(chunks: seq<seq<Id>>, c: seq<Id>)
    ensures Join(chunks + [c]) == Join(chunks) + c
  {
    if chunks == [] {
      assert [c][1..] == [];
      assert Join([c]) == c + [];
    } else {
      assert (chunks + [c])[1..] == chunks[1..] + [c];
      JoinSnoc(chunks[1..], c);
    }
  }

  lemma FlattenSnoc(archives: seq<Archive>, a: Archive)
    ensures Flatten(archives + [a]) == Flatten(archives) + a.ids
  {
    assert (archives + [a])[..|archives + [a]|-1] == archives;
  }

  lemma StampedSnoc(archives: seq<Archive>, chunks: seq<seq<Id>>, stamps: seq<nat>, n: nat)
    requires n < |stamps| <= |chunks|
    ensures archives + Stamped(chunks, stamps[..n + 1])
      == archives + Stamped(chunks, stamps[..n]) + [Archive(stamps[n], chunks[n])]
  {
  }

  lemma {:induction false} FlattenStamped(archives: seq<Archive>, chunks: seq<seq<Id>>, stamps: seq<nat>)
    requires |stamps| <= |chunks|
    ensures Flatten(archives + Stamped(chunks, stamps)) == Flatten(archives) + Join(chunks[..|stamps|])
    decreases |stamps|
  {
    hide Flatten, Join, Stamped;
    if stamps == [] {
      NothingStamped(archives, chunks);
    } else {
      var n := |stamps| - 1;
      FlattenStamped(archives, chunks, stamps[..n]);
      StampedSnoc(archives, chunks, stamps, n);
      assert stamps[..n + 1] == stamps;
      FlattenSnoc(archives + Stamped(chunks, stamps[..n]), Archive(stamps[n], chunks[n]));
      assert chunks[..n + 1] == chunks[..n] + [chunks[n]];
      JoinSnoc(chunks[..n], chunks[n]);
    }
  }

  lemma NothingStamped(archives: seq<Archive>, chunks: seq<seq<Id>>)
    ensures archives + Stamped(chunks, []) == archives && Join(chunks[..0]) == []
  {
  }

  lemma IndexElems(dir: Dir)
    ensures Elems(Index(dir)) == Elems(Flatten(dir.archives)) + Elems(ActiveIds(dir))
    ensures Distinct(Index(dir))
  {
    FreshMembers(Flatten(dir.archives) + ActiveIds(dir), {});
  }

  /** The combined list is the active hashes that are not archived, then the added ones. */
  lemma CombinedParts(dir: Dir, ids: seq<Id>)
    ensures Combined(dir, ids) == Fresh(ActiveIds(dir), Elems(Flatten(dir.archives))) + Added(dir, ids)
    ensures Index(dir) == Fresh(Flatten(dir.archives), {}) + Fresh(ActiveIds(dir), Elems(Flatten(dir.archives)))
  {
    FreshConcat(ActiveIds(dir), ids, Elems(Flatten(dir.archives)));
    FreshConcat(Flatten(dir.archives), ActiveIds(dir), {});
    IndexElems(dir);
    assert {} + Elems(Flatten(dir.archives)) == Elems(Flatten(dir.archives));
  }

  lemma ElemsConcat(a: seq<Id>, b: seq<Id>)
    ensures Elems(a + b) == Elems(a) + Elems(b)
  {
  }

  /** New hashes between the archived and the active ones: the active ones among them drop out. */
  lemma Rebuild(archived: seq<Id>, extra: seq<Id>, active: seq<Id>)
    requires Distinct(extra) && forall x :: x in extra ==> x !in Elems(archived)
    ensures Fresh(archived + extra + active, {})
      == Fresh(archived, {}) + extra + Fresh(active, Elems(archived) + Elems(extra))
  {
    hide Fresh;
    FreshConcat(archived + extra, active, {});
    FreshConcat(archived, extra, {});
    assert {} + Elems(archived) == Elems(archived);
    FreshOfNew(extra, Elems(archived));
    assert {} + Elems(archived + extra) == Elems(archived) + Elems(extra);
  }

  lemma CombinedNew(dir: Dir, ids: seq<Id>)
    ensures Distinct(Combined(dir, ids))
    ensures forall x :: x in Combined(dir, ids) ==> x !in Elems(Flatten(dir.archives))
  {
    FreshMembers(ActiveIds(dir) + ids, Elems(Flatten(dir.archives)));
  }

  /** Archiving the first m of the combined hashes while activity.json is still the old one. */
  lemma ArchivedPrefix(dir: Dir, ids: seq<Id>, m: nat) returns (p: nat)
    requires m <= |Combined(dir, ids)|
    ensures p <= |Added(dir, ids)|
    ensures Fresh(Flatten(dir.archives) + Combined(dir, ids)[..m] + ActiveIds(dir), {}) == Index(dir) + Added(dir, ids)[..p]
  {
    hide Fresh, Index, Added, Combined;
    var archived, active := Flatten(dir.archives), ActiveIds(dir);
    var seen := Elems(archived);
    var combined, old_, new_ := Combined(dir, ids), Fresh(active, seen), Added(dir, ids);
    CombinedParts(dir, ids);
    CombinedNew(dir, ids);
    Rebuild(archived, combined[..m], active);
    if m <= |old_| {
      p := 0;
      assert combined[..m] == old_[..m];
      FreshTail(active, seen, m);
      assert old_[..m] + old_[m..] == old_;
    } else {
      p := m - |old_|;
      assert combined[..m] == old_ + new_[..p];
      FreshMembers(active, seen);
      FreshOfSeen(active, seen + Elems(combined[..m]));
    }
  }

  /** Once activity.json is rewritten the index is complete. */
  lemma ArchivedAll(dir: Dir, ids: seq<Id>, m: nat)
    requires m <= |Combined(dir, ids)|
    ensures Fresh(Flatten(dir.archives) + Combined(dir, ids)[..m] + Combined(dir, ids)[m..], {}) == Index(dir) + Added(dir, ids)
  {
    hide Fresh, Index, Added, Combined;
    var archived, combined := Flatten(dir.archives), Combined(dir, ids);
    CombinedParts(dir, ids);
    CombinedNew(dir, ids);
    assert archived + combined[..m] + combined[m..] == archived + combined + [];
    Rebuild(archived, combined, []);
    FreshOfSeen([], Elems(archived) + Elems(combined));
  }

  lemma CombinedValid(dir: Dir, ids: seq<Id>)
    requires ReadableDir(dir) && ValidIds(ids)
    ensures ValidIds(Combined(dir, ids))
  {
    FreshMembers(ActiveIds(dir) + ids, Elems(Flatten(dir.archives)));
  }

  lemma PlanReadable(combined: seq<Id>)
    requires ValidIds(combined)
    ensures Readable(PlanOf(combined).keep)
    ensures forall chunk :: chunk in PlanOf(combined).chunks ==> Readable(chunk)
  {
    hide Readable, Chunks;
    var plan := PlanOf(combined);
    if |combined| > MAX_HASHES {
      ChunksExactly(combined[..|combined| - KEEP]);
    }
    ValidReadable(plan.keep);
    forall chunk | chunk in plan.chunks ensures Readable(chunk) {
      ValidReadable(chunk);
    }
  }

  lemma StoredReadable(dir: Dir, ids: seq<Id>, stamps: seq<nat>, done: bool)
    requires ReadableDir(dir) && ValidIds(ids)
    requires |stamps| <= |PlanOf(Combined(dir, ids)).chunks|
    ensures ReadableDir(Stored(dir, PlanOf(Combined(dir, ids)), stamps, done))
  {
    hide Readable, Combined, PlanOf;
    CombinedValid(dir, ids);
    PlanReadable(Combined(dir, ids));
  }

  lemma StoredOrdered(dir: Dir, plan: Plan, stamps: seq<nat>, done: bool)
    requires Ordered(dir.archives) && Rising(dir.archives, stamps) && |stamps| <= |plan.chunks|
    ensures Ordered(Stored(dir, plan, stamps, done).archives)
  {
    var archives := Stored(dir, plan, stamps, done).archives;
    forall i, j | 0 <= i < j < |archives| ensures archives[i].stamp < archives[j].stamp {
      if i < |dir.archives| <= j {
        assert dir.archives[i] in dir.archives;
      }
    }
  }

  /** Cut off after any chunk, or between the last chunk and activity.json, every file is still
      readable and the index is the old one followed by the first p added hashes; p is all of
      them once activity.json is rewritten. What is left to add is exactly the rest. */
  lemma CutOff(dir: Dir, ids: seq<Id>, stamps: seq<nat>, done: bool) returns (p: nat)
    requires ReadableDir(dir) && Ordered(dir.archives) && ValidIds(ids)
    requires Rising(dir.archives, stamps) && |stamps| <= |PlanOf(Combined(dir, ids)).chunks|
    requires done ==> |stamps| == |PlanOf(Combined(dir, ids)).chunks|
    ensures p <= |Added(dir, ids)| && (done ==> p == |Added(dir, ids)|)
    ensures var after := Stored(dir, PlanOf(Combined(dir, ids)), stamps, done);
      && ReadableDir(after) && Ordered(after.archives)
      && Index(after) == Index(dir) + Added(dir, ids)[..p]
      && Added(after, ids) == Added(dir, ids)[p..]
  {
    hide ReadableDir, Ordered, Fresh, Flatten;
    var combined := Combined(dir, ids);
    var plan := PlanOf(combined);
    var after := Stored(dir, plan, stamps, done);
    StoredReadable(dir, ids, stamps, done);
    StoredOrdered(dir, plan, stamps, done);
    FlattenStamped(dir.archives, plan.chunks, stamps);
    var m := PlanPrefix(combined, |stamps|);
    if done {
      ArchivedAll(dir, ids, m);
      p := |Added(dir, ids)|;
    } else {
      p := ArchivedPrefix(dir, ids, m);
    }
    IndexAppended(dir, after, ids, p);
  }

  lemma PlanPrefix(combined: seq<Id>, k: nat) returns (m: nat)
    requires k <= |PlanOf(combined).chunks|
    ensures m <= |combined| && Join(PlanOf(combined).chunks[..k]) == combined[..m]
    ensures k == |PlanOf(combined).chunks| ==> PlanOf(combined).keep == combined[m..]
  {
    hide Chunks, Join;
    var plan := PlanOf(combined);
    m := 0;
    if |combined| > MAX_HASHES {
      var head := combined[..|combined| - KEEP];
      ChunksExactly(head);
      JoinPrefix(plan.chunks, k);
      m := |Join(plan.chunks[..k])|;
      assert head[..m] == combined[..m];
      if k == |plan.chunks| {
        assert plan.chunks[..k] == plan.chunks;
      }
    } else {
      assert plan.chunks[..k] == plan.chunks[..0];
      NothingStamped([], plan.chunks);
    }
  }

  lemma IndexAppended(dir: Dir, after: Dir, ids: seq<Id>, p: nat)
    requires p <= |Added(dir, ids)| && Index(after) == Index(dir) + Added(dir, ids)[..p]
    ensures Added(after, ids) == Added(dir, ids)[p..]
  {
    ElemsConcat(Index(dir), Added(dir, ids)[..p]);
    FreshTail(ids, Elems(Index(dir)), p);
  }

  // ---------------------------------------------------------------- retrying

  /** One call: the chunks it got written and whether it rewrote activity.json. */
  datatype Attempt = Attempt(stamps: seq<nat>, done: bool)

  predicate Possible(dir: Dir, ids: seq<Id>, a: Attempt) {
    && Rising(dir.archives, a.stamps)
    && |a.stamps| <= |PlanOf(Combined(dir, ids)).chunks|
    && (a.done ==> |a.stamps| == |PlanOf(Combined(dir, ids)).chunks|)
  }

  /** A call that has nothing to add writes nothing. */
  function Attempted(dir: Dir, ids: seq<Id>, a: Attempt): Dir {
    if Possible(dir, ids, a) && Added(dir, ids) != [] then Stored(dir, PlanOf(Combined(dir, ids)), a.stamps, a.done)
    else dir
  }

  function AllAttempted(dir: Dir, ids: seq<Id>, attempts: seq<Attempt>): Dir {
    if attempts == [] then dir
    else Attempted(AllAttempted(dir, ids, attempts[..|attempts|-1]), ids, attempts[|attempts|-1])
  }

  lemma TwoPrefixes<T>(front: seq<T>, all: seq<T>, p: nat, q: nat)
    requires p + q <= |all|
    ensures (front + all[..p]) + all[p..][..q] == front + all[..p + q]
    ensures all[p..][q..] == all[p + q..]
  {
  }

  lemma AllTaken<T>(all: seq<T>, p: nat)
    requires p <= |all|
    ensures all[p..] == [] <==> p == |all|
    ensures p == |all| ==> all[..p] == all
  {
  }

  /** However often the same call was cut off before, one that completes leaves exactly the old
      index followed by the added hashes. */
  lemma {:induction false} RetriesConverge(dir: Dir, ids: seq<Id>, attempts: seq<Attempt>) returns (p: nat)
    requires ReadableDir(dir) && Ordered(dir.archives) && ValidIds(ids)
    ensures var after := AllAttempted(dir, ids, attempts);
      && p <= |Added(dir, ids)|
      && ReadableDir(after) && Ordered(after.archives)
      && Index(after) == Index(dir) + Added(dir, ids)[..p]
      && Added(after, ids) == Added(dir, ids)[p..]
    ensures attempts != [] && attempts[|attempts|-1].done
      && Possible(AllAttempted(dir, ids, attempts[..|attempts|-1]), ids, attempts[|attempts|-1])
      ==> Index(AllAttempted(dir, ids, attempts)) == Index(dir) + Added(dir, ids)
  {
    hide Index, Added, Combined, ReadableDir, Ordered, ValidIds, Stored, PlanOf, Rising;
    if attempts == [] {
      p := 0;
    } else {
      var before, last := AllAttempted(dir, ids, attempts[..|attempts|-1]), attempts[|attempts|-1];
      p := RetriesConverge(dir, ids, attempts[..|attempts|-1]);
      if Possible(before, ids, last) && Added(before, ids) != [] {
        var q := CutOff(before, ids, last.stamps, last.done);
        TwoPrefixes(Index(dir), Added(dir, ids), p, q);
        p := p + q;
      }
      AllTaken(Added(dir, ids), p);
    }
  }
}
