/** Archiving and restart: what the archive files and the shortened journal keep between them. */
module JournalArchiving {
  import opened Records
  import opened Journal
  import opened JournalInvariant

  // ---------------------------------------------------------------- what is archived and what is kept

  predicate Retires(rs: seq<Record>, cut: int, settled: set<nat>, i: int) {
    0 <= i < |rs| && i < cut && Archivable(rs[i], settled)
  }

  ghost predicate RetiredFrom(rs: seq<Record>, cut: int, settled: set<nat>, c: Record) {
    exists i :: Retires(rs, cut, settled, i) && c == ArchiveCopy(rs[i])
  }

  ghost predicate KeptFrom(rs: seq<Record>, cut: int, settled: set<nat>, r: Record) {
    exists i :: 0 <= i < |rs| && !Retires(rs, cut, settled, i) && r == rs[i]
  }

  lemma {:induction false} RetiredExactly(rs: seq<Record>, cut: int, settled: set<nat>)
    ensures forall c :: c in Retired(rs, cut, settled) <==> RetiredFrom(rs, cut, settled, c)
  {
    if rs != [] {
      var front := rs[..|rs|-1];
      RetiredExactly(front, cut, settled);
      forall c ensures c in Retired(rs, cut, settled) <==> RetiredFrom(rs, cut, settled, c) {
        if RetiredFrom(front, cut, settled, c) {
          var i :| Retires(front, cut, settled, i) && c == ArchiveCopy(front[i]);
          assert Retires(rs, cut, settled, i);
        }
        if RetiredFrom(rs, cut, settled, c) {
          var i :| Retires(rs, cut, settled, i) && c == ArchiveCopy(rs[i]);
          assert i == |rs| - 1 || Retires(front, cut, settled, i);
        }
        if Retires(rs, cut, settled, |rs| - 1) && c == ArchiveCopy(rs[|rs|-1]) {
          assert RetiredFrom(rs, cut, settled, c);
        }
      }
    }
  }

  lemma {:induction false} KeptExactly(rs: seq<Record>, cut: int, settled: set<nat>)
    ensures forall r :: r in Kept(rs, cut, settled) <==> KeptFrom(rs, cut, settled, r)
    ensures |Kept(rs, cut, settled)| <= |rs|
  {
    if rs != [] {
      var front := rs[..|rs|-1];
      KeptExactly(front, cut, settled);
      forall r ensures r in Kept(rs, cut, settled) <==> KeptFrom(rs, cut, settled, r) {
        if KeptFrom(front, cut, settled, r) {
          var i :| 0 <= i < |front| && !Retires(front, cut, settled, i) && r == front[i];
          assert !Retires(rs, cut, settled, i) && rs[i] == r;
        }
        if KeptFrom(rs, cut, settled, r) {
          var i :| 0 <= i < |rs| && !Retires(rs, cut, settled, i) && r == rs[i];
          assert i == |rs| - 1 || (!Retires(front, cut, settled, i) && front[i] == r);
        }
        if !Retires(rs, cut, settled, |rs| - 1) && r == rs[|rs|-1] {
          assert KeptFrom(rs, cut, settled, r);
        }
      }
    }
  }

  lemma ApartCarried(a: seq<Record>, b: seq<Record>, a': seq<Record>, b': seq<Record>)
    requires Apart(a, b) && Carries(a', a) && Carries(b', b)
    ensures Apart(a', b')
  {
    forall x, y | x in a' && y in b' ensures x.hash != y.hash && x.quoteId != y.quoteId {
      var p :| p in a && SamePayment(p, x);
      var q :| q in b && SamePayment(q, y);
    }
  }

  lemma SplitCarried(rs: seq<Record>, cut: int, settled: set<nat>)
    ensures Carries(Retired(rs, cut, settled), rs) && Carries(Kept(rs, cut, settled), rs)
  {
    RetiredExactly(rs, cut, settled);
    KeptExactly(rs, cut, settled);
    forall c | c in Retired(rs, cut, settled) ensures Represented(rs, c) {
      var i :| Retires(rs, cut, settled, i) && c == ArchiveCopy(rs[i]);
      assert rs[i] in rs && SamePayment(rs[i], c);
    }
    forall r | r in Kept(rs, cut, settled) ensures Represented(rs, r) {
      var i :| 0 <= i < |rs| && !Retires(rs, cut, settled, i) && r == rs[i];
      assert rs[i] in rs && SamePayment(rs[i], r);
    }
  }

  lemma ApartSnoc(a: seq<Record>, b: seq<Record>, x: Record)
    requires Apart(a, b)
    ensures Apart(b, [x]) ==> Apart(a + [x], b)
    ensures Apart(a, [x]) ==> Apart(a, b + [x])
  {
  }

  /** What is apart from a record is apart from its archived copy. */
  lemma ApartLast(front: seq<Record>, last: Record, part: seq<Record>, c: Record)
    requires Apart(front, [last]) && Carries(part, front) && SamePayment(last, c)
    ensures Apart(part, [c]) && Unique([c])
  {
    assert last in [last] && Carries([c], [last]);
    ApartCarried(front, [last], part, [c]);
  }

  lemma {:induction false} SplitUnique(rs: seq<Record>, cut: int, settled: set<nat>)
    requires Unique(rs)
    ensures Unique(Retired(rs, cut, settled)) && Unique(Kept(rs, cut, settled))
    ensures Apart(Retired(rs, cut, settled), Kept(rs, cut, settled))
  {
    hide Unique, Apart, Carries, Represented, Archivable;
    if rs == [] {
      NoneUnique();
    } else {
      var front, last := rs[..|rs|-1], rs[|rs|-1];
      assert rs == front + [last];
      UniqueSplit(front, [last]);
      SplitUnique(front, cut, settled);
      SplitCarried(front, cut, settled);
      var a, k, c := Retired(front, cut, settled), Kept(front, cut, settled), ArchiveCopy(last);
      ApartLast(front, last, a, c);
      ApartLast(front, last, k, c);
      ApartLast(front, last, a, last);
      ApartLast(front, last, k, last);
      if Retires(rs, cut, settled, |rs| - 1) {
        assert Retired(rs, cut, settled) == a + [c] && Kept(rs, cut, settled) == k;
        UniqueJoin(a, [c]);
        ApartSnoc(a, k, c);
      } else {
        assert Retired(rs, cut, settled) == a && Kept(rs, cut, settled) == k + [last];
        UniqueJoin(k, [last]);
        ApartSnoc(a, k, last);
      }
    }
  }

  lemma NoneUnique()
    ensures Unique([]) && Apart([], [])
  {
  }

  // ---------------------------------------------------------------- writing the archive file

  function Stored(j: Journal): Journal
    requires ToArchive(j) != []
  {
    j.(disk := j.disk.(archives := PutFile(j.disk.archives, FileOf(ToArchive(j)))))
  }

  lemma RetiredCopy(j: Journal, c: Record) returns (i: nat)
    requires Good(j) && c in ToArchive(j)
    ensures i < |j.records| - ARCHIVE_KEEP && c == ArchiveCopy(j.records[i]) && j.records[i] in Known(j)
    ensures Retires(j.records, Cut(j), FinalNonces(Known(j)), i)
    ensures GoodCopy(Known(j), j.chainId, c)
  {
    RetiredExactly(j.records, Cut(j), FinalNonces(Known(j)));
    i :| Retires(j.records, Cut(j), FinalNonces(Known(j)), i) && c == ArchiveCopy(j.records[i]);
    assert j.records[i] in Known(j) && SamePayment(j.records[i], c);
    if j.records[i].finalized {
      assert IsFinal(j.records[i]);
    }
  }

  /** A file that backs a record archived in memory is never the one being overwritten. */
  lemma BackingFileSurvives(j: Journal, f: ArchiveFile, a: Record)
    requires Good(j) && ToArchive(j) != []
    requires f in j.disk.archives && a in f.records && a in j.archived
    ensures f.name != FileOf(ToArchive(j)).name
  {
    var i := RetiredCopy(j, ToArchive(j)[0]);
    UniqueSplit(j.archived, j.records);
    assert forall k :: 0 <= k < |j.records| ==> j.records[k] in j.records && j.records[k].hash != a.hash;
    assert !Aged(j.records, a.hash);
  }

  lemma StoredFiles(j: Journal)
    requires Good(j) && ToArchive(j) != []
    ensures FilesNamed(Stored(j).disk.archives)
    ensures var file, files := FileOf(ToArchive(j)), j.disk.archives;
      forall f :: f in Stored(j).disk.archives <==> f == file || (f in files && f.name != file.name)
  {
    hide GoodRecords, CopiesGood, ArchivedStored, FilesAged, AllSettled, FinalNonces, Retired, NameLess;
  }

  lemma StoredCopies(j: Journal)
    requires Good(j) && ToArchive(j) != []
    ensures CopiesGood(Known(j), j.chainId, Stored(j).disk.archives)
    ensures FilesAged(j.records, Stored(j).disk.archives)
  {
    hide FilesNamed, ArchivedStored, AllSettled, Unique, GoodCopy, ValidRecord, FinalNonces, Retired, PutFile;
    StoredFiles(j);
    var file, after := FileOf(ToArchive(j)), Stored(j).disk.archives;
    forall f, c | f in after && c in f.records
      ensures GoodCopy(Known(j), j.chainId, c)
      ensures f.name.first in Hashes(j.records) ==> Aged(j.records, c.hash)
    {
      if f == file {
        var i := RetiredCopy(j, c);
      }
    }
  }

  lemma StoredArchived(j: Journal)
    requires Good(j) && ToArchive(j) != []
    ensures ArchivedStored(j.archived, Stored(j).disk.archives)
  {
    hide FilesNamed, CopiesGood, FilesAged, AllSettled, Unique, ValidRecord, FinalNonces, Retired, PutFile;
    StoredFiles(j);
    var files, after := j.disk.archives, Stored(j).disk.archives;
    forall a | a in j.archived ensures CopyIn(after, a) {
      var f :| f in files && a in f.records;
      BackingFileSurvives(j, f, a);
      assert f in after;
    }
  }

  lemma StoredSettled(j: Journal)
    requires Good(j) && ToArchive(j) != []
    ensures AllSettled(Known(j), Stored(j).disk.archives)
  {
    hide FilesNamed, CopiesGood, ArchivedStored, FilesAged, ValidRecord, FinalNonces, Retired, GoodCopy, PutFile;
    StoredFiles(j);
    var file, files, after := FileOf(ToArchive(j)), j.disk.archives, Stored(j).disk.archives;
    forall n | n in FinalNonces(Known(j)) ensures Settled(Known(j), after, n) {
      assert Settled(Known(j), files, n);
      var m :| m in Known(j) && m.nonce == n && IsFinal(m) && Solid(files, m.hash);
      forall f, c | f in after && c in f.records && c.hash == m.hash ensures IsFinal(c) {
        if f == file {
          var i := RetiredCopy(j, c);
          assert j.records[i] == m;
        }
      }
    }
  }

  lemma GoodStored(j: Journal)
    requires Good(j) && ToArchive(j) != []
    ensures Good(Stored(j))
  {
    hide Unique, ValidRecord, FilesNamed, CopiesGood, ArchivedStored, FilesAged, AllSettled, FinalNonces, Retired,
      PutFile;
    StoredFiles(j);
    StoredCopies(j);
    StoredArchived(j);
    StoredSettled(j);
  }

  // ---------------------------------------------------------------- shortening the active file

  function Shortened(j: Journal): Journal {
    j.(records := ToKeep(j), archived := j.archived + ToArchive(j))
  }

  ghost predicate ArchiveWritten(j: Journal) {
    ToArchive(j) != [] && FileOf(ToArchive(j)) in j.disk.archives
  }

  lemma ShortenedUnique(j: Journal)
    requires Good(j)
    ensures Unique(Known(Shortened(j)))
  {
    hide Unique, Apart, Represented, SamePayment, Retired, Kept, FinalNonces, FilesNamed, CopiesGood, ArchivedStored,
      FilesAged, AllSettled, ValidRecord;
    var archive, keep := ToArchive(j), ToKeep(j);
    UniqueSplit(j.archived, j.records);
    SplitUnique(j.records, Cut(j), FinalNonces(Known(j)));
    SplitCarried(j.records, Cut(j), FinalNonces(Known(j)));
    CarriesSelf(j.archived);
    ApartCarried(j.archived, j.records, j.archived, archive + keep);
    UniqueJoin(archive, keep);
    UniqueJoin(j.archived, archive + keep);
    assert Known(Shortened(j)) == j.archived + (archive + keep);
  }

  /** Every known record is still known, if not as it was then as a copy archived because its
      nonce is settled. */
  lemma ShortenedKeeps(j: Journal, m: Record)
    requires Good(j) && m in Known(j)
    ensures Represented(Known(Shortened(j)), m)
    ensures m in Known(Shortened(j)) || (!IsFinal(m) && m.nonce in FinalNonces(Known(j)))
  {
    hide FilesNamed, CopiesGood, ArchivedStored, FilesAged, AllSettled, Unique, FinalNonces, ValidRecord;
    var settled, after := FinalNonces(Known(j)), Known(Shortened(j));
    RetiredExactly(j.records, Cut(j), settled);
    KeptExactly(j.records, Cut(j), settled);
    assert SamePayment(m, m);
    if m !in j.archived {
      var i :| 0 <= i < |j.records| && j.records[i] == m;
      if Retires(j.records, Cut(j), settled, i) {
        assert ArchiveCopy(m) in after && SamePayment(ArchiveCopy(m), m);
      } else {
        assert m in ToKeep(j);
      }
    }
  }

  lemma ShortenedFrom(j: Journal, m: Record)
    requires Good(j) && m in Known(Shortened(j))
    ensures Represented(Known(j), m)
    ensures IsMined(m.state) ==> m in Known(j)
  {
    hide FilesNamed, CopiesGood, ArchivedStored, FilesAged, AllSettled, Unique, FinalNonces, ValidRecord;
    var settled := FinalNonces(Known(j));
    assert SamePayment(m, m);
    if m in ToArchive(j) {
      RetiredExactly(j.records, Cut(j), settled);
      var i :| Retires(j.records, Cut(j), settled, i) && m == ArchiveCopy(j.records[i]);
      assert j.records[i] in Known(j) && SamePayment(j.records[i], m);
    } else if m in ToKeep(j) {
      KeptExactly(j.records, Cut(j), settled);
      var i :| 0 <= i < |j.records| && !Retires(j.records, Cut(j), settled, i) && m == j.records[i];
      assert m in Known(j);
    }
  }

  lemma ShortenedKnown(j: Journal)
    requires Good(j)
    ensures Carries(Known(j), Known(Shortened(j))) && Carries(Known(Shortened(j)), Known(j))
    ensures forall m :: m in Known(j) && IsFinal(m) ==> m in Known(Shortened(j))
    ensures FinalNonces(Known(Shortened(j))) == FinalNonces(Known(j))
    ensures MinedNonces(Known(Shortened(j))) == MinedNonces(Known(j))
  {
    hide Good, Represented, Shortened, Known;
    var before, after := Known(j), Known(Shortened(j));
    forall m | m in before
      ensures Represented(after, m) && (m in after || (!IsFinal(m) && m.nonce in FinalNonces(before)))
    {
      ShortenedKeeps(j, m);
    }
    forall m | m in after ensures Represented(before, m) && (IsMined(m.state) ==> m in before) {
      ShortenedFrom(j, m);
    }
    assert FinalNonces(after) == FinalNonces(before);
  }

  /** Once the active file is shortened, no written file still starts with an active hash. */
  lemma FirstHashRetired(j: Journal, f: ArchiveFile)
    requires Good(j) && f in j.disk.archives
    ensures f.name.first !in Hashes(ToKeep(j))
  {
    var settled := FinalNonces(Known(j));
    KeptExactly(j.records, Cut(j), settled);
    var c := f.records[0];
    assert c in f.records && GoodCopy(Known(j), j.chainId, c);
    forall r | r in ToKeep(j) ensures r.hash != c.hash {
      var k :| 0 <= k < |j.records| && !Retires(j.records, Cut(j), settled, k) && r == j.records[k];
      assert j.records[k] in Known(j) && j.records[k] in j.records;
      if r.hash == c.hash {
        assert Aged(j.records, c.hash);
        var i :| 0 <= i < |j.records| - ARCHIVE_KEEP && j.records[i].hash == c.hash;
        UniqueSplit(j.archived, j.records);
        CopyNonce(Known(j), j.chainId, c, r);
      }
    }
  }

  lemma GoodShortened(j: Journal)
    requires Good(j) && ArchiveWritten(j)
    ensures Good(Shortened(j))
  {
    var files, after := j.disk.archives, Shortened(j);
    ShortenedUnique(j);
    ShortenedKnown(j);
    RetiredExactly(j.records, Cut(j), FinalNonces(Known(j)));
    KeptExactly(j.records, Cut(j), FinalNonces(Known(j)));
    CopiesCarry(Known(j), Known(after), j.chainId, files);
    forall f | f in files ensures f.name.first !in Hashes(after.records) {
      FirstHashRetired(j, f);
    }
    forall n | n in FinalNonces(Known(after)) ensures Settled(Known(after), files, n) {
      assert Settled(Known(j), files, n);
    }
    forall r | r in Known(after) ensures ValidRecord(r, j.chainId) && r.version >= 1 {
      if r in ToArchive(j) {
        var i := RetiredCopy(j, r);
      }
    }
  }

  // ---------------------------------------------------------------- restart

  lemma {:induction false} FlattenExactly(files: seq<ArchiveFile>)
    ensures forall c :: c in Flatten(files) <==> CopyIn(files, c)
  {
    if files != [] {
      var front, last := files[..|files|-1], files[|files|-1];
      assert files == front + [last];
      FlattenExactly(front);
      forall c ensures c in Flatten(files) <==> CopyIn(files, c) {
        if CopyIn(front, c) {
          var f :| f in front && c in f.records;
          assert f in files;
        }
        if c in last.records {
          assert last in files;
        }
      }
    }
  }

  lemma {:induction false} FirstSeenExactly(rs: seq<Record>, seen: set<Hash>)
    ensures forall x :: x in FirstSeen(rs, seen) ==> x in rs && x.hash !in seen
    ensures forall x :: x in rs && x.hash !in seen ==> x.hash in Hashes(FirstSeen(rs, seen))
    ensures forall i, k :: 0 <= i < k < |FirstSeen(rs, seen)| ==> FirstSeen(rs, seen)[i].hash != FirstSeen(rs, seen)[k].hash
  {
    if rs != [] {
      var front, last := rs[..|rs|-1], rs[|rs|-1];
      assert rs == front + [last];
      FirstSeenExactly(front, seen);
      assert forall i :: 0 <= i < |FirstSeen(front, seen)| ==> FirstSeen(front, seen)[i] in front;
      assert Hashes(FirstSeen(rs, seen)) >= Hashes(FirstSeen(front, seen));
      if last.hash !in seen && last.hash !in Hashes(front) {
        assert last in FirstSeen(rs, seen);
      }
    }
  }

  /** What a restart makes of the files when the active file holds `records`. */
  function Reload(j: Journal): Journal {
    j.(archived := FirstSeen(Flatten(j.disk.archives), Hashes(j.records)))
  }

  lemma ReloadMember(j: Journal, a: Record)
    requires Good(j) && a in Reload(j).archived
    ensures CopyIn(j.disk.archives, a) && GoodCopy(Known(j), j.chainId, a) && a.hash !in Hashes(j.records)
  {
    FlattenExactly(j.disk.archives);
    FirstSeenExactly(Flatten(j.disk.archives), Hashes(j.records));
    var f :| f in j.disk.archives && a in f.records;
    assert GoodCopy(Known(j), j.chainId, a);
  }

  /** Every archived hash is found again, final and included if all its copies are. */
  lemma ReloadFinds(j: Journal, m: Record) returns (a: Record)
    requires Good(j) && m in j.archived
    ensures a in Reload(j).archived && SamePayment(a, m) && CopyIn(j.disk.archives, a)
    ensures Solid(j.disk.archives, m.hash) ==> IsFinal(a)
  {
    FlattenExactly(j.disk.archives);
    FirstSeenExactly(Flatten(j.disk.archives), Hashes(j.records));
    UniqueSplit(j.archived, j.records);
    assert m.hash !in Hashes(j.records);
    a :| a in Reload(j).archived && a.hash == m.hash;
    ReloadMember(j, a);
    assert m in Known(j);
    CopyNonce(Known(j), j.chainId, a, m);
  }

  lemma ReloadUnique(j: Journal)
    requires Good(j)
    ensures Unique(Known(Reload(j)))
  {
    var archived := Reload(j).archived;
    UniqueSplit(j.archived, j.records);
    FirstSeenExactly(Flatten(j.disk.archives), Hashes(j.records));
    forall i, k | 0 <= i < |archived| && 0 <= k < |archived| && archived[i].quoteId == archived[k].quoteId
      ensures archived[i].hash == archived[k].hash
    {
      ReloadMember(j, archived[i]);
      ReloadMember(j, archived[k]);
    }
    assert Unique(archived);
    forall x, y | x in archived && y in j.records ensures x.hash != y.hash && x.quoteId != y.quoteId {
      ReloadMember(j, x);
      var r :| r in Known(j) && SamePayment(r, x);
      assert y in Known(j) && y.hash != x.hash;
    }
    UniqueJoin(archived, j.records);
  }

  /** Every known record comes back as it was or as a copy of its payment. */
  lemma ReloadKeeps(j: Journal, m: Record) returns (a: Record)
    requires Good(j) && m in Known(j)
    ensures a in Known(Reload(j)) && SamePayment(a, m) && (m in j.records ==> a == m)
    ensures IsFinal(m) && Solid(j.disk.archives, m.hash) ==> IsFinal(a)
  {
    hide Good, FirstSeen, Flatten;
    if m in j.records {
      a := m;
    } else {
      a := ReloadFinds(j, m);
    }
  }

  lemma ReloadFrom(j: Journal, a: Record)
    requires Good(j) && a in Known(Reload(j))
    ensures Represented(Known(j), a)
    ensures a in Known(j) || (a.finalized && a.nonce in FinalNonces(Known(j)))
  {
    hide Good, FirstSeen, Flatten, FinalNonces, ValidRecord;
    if a in j.records {
      assert a in Known(j) && SamePayment(a, a);
    } else {
      ReloadMember(j, a);
    }
  }

  lemma ReloadSettled(j: Journal)
    requires Good(j)
    ensures AllSettled(Known(Reload(j)), j.disk.archives)
    ensures FinalNonces(Known(Reload(j))) == FinalNonces(Known(j))
  {
    hide FilesNamed, CopiesGood, ArchivedStored, FilesAged, Unique, FirstSeen, Flatten, Represented, ValidRecord, Solid;
    var before, after, files := Known(j), Known(Reload(j)), j.disk.archives;
    forall n | n in FinalNonces(before) ensures Settled(after, files, n) && n in FinalNonces(after) {
      assert Settled(before, files, n);
      var m :| m in before && m.nonce == n && IsFinal(m) && Solid(files, m.hash);
      var a := ReloadKeeps(j, m);
    }
    forall a | a in after && IsFinal(a) ensures a.nonce in FinalNonces(before) {
      ReloadFrom(j, a);
    }
  }

  lemma ReloadMined(j: Journal)
    requires Good(j)
    ensures MinedNonces(Known(Reload(j))) == MinedNonces(Known(j))
  {
    hide FilesNamed, FilesAged, AllSettled, Unique, FirstSeen, Flatten, Represented, ValidRecord;
    var before, after := Known(j), Known(Reload(j));
    ReloadSettled(j);
    forall a | a in after && IsMined(a.state) ensures a.nonce in MinedNonces(before) {
      ReloadFrom(j, a);
    }
    forall m | m in before && IsMined(m.state) ensures m.nonce in MinedNonces(after) {
      if m in j.records {
        assert m in after;
      } else {
        var f :| f in j.disk.archives && m in f.records;
        assert GoodCopy(before, j.chainId, m) && m.nonce in FinalNonces(after);
      }
    }
  }

  lemma ReloadKnown(j: Journal)
    requires Good(j)
    ensures Carries(Known(j), Known(Reload(j))) && Carries(Known(Reload(j)), Known(j))
    ensures FinalNonces(Known(Reload(j))) == FinalNonces(Known(j))
    ensures MinedNonces(Known(Reload(j))) == MinedNonces(Known(j))
    ensures AllSettled(Known(Reload(j)), j.disk.archives)
  {
    hide Good, Reload, FinalNonces, MinedNonces, AllSettled;
    ReloadSettled(j);
    ReloadMined(j);
    forall m | m in Known(j) ensures Represented(Known(Reload(j)), m) {
      var a := ReloadKeeps(j, m);
    }
    forall a | a in Known(Reload(j)) ensures Represented(Known(j), a) {
      ReloadFrom(j, a);
    }
  }

  lemma GoodReload(j: Journal)
    requires Good(j)
    ensures Good(Reload(j))
  {
    var after, files := Reload(j), j.disk.archives;
    ReloadUnique(j);
    ReloadKnown(j);
    CopiesCarry(Known(j), Known(after), j.chainId, files);
    forall a | a in after.archived ensures CopyIn(files, a) && ValidRecord(a, j.chainId) && a.version >= 1 {
      ReloadMember(j, a);
    }
  }

  /** A restart over good files succeeds, and rebuilds exactly what `Reload` says. */
  lemma LoadSucceeds(j: Journal, disk: Disk)
    requires Good(j) && Active(disk) == j.records && disk.archives == j.disk.archives
    ensures Load(disk, j.chainId) == Ok(Reload(j.(disk := disk)))
  {
    hide ValidRecord, FinalNonces, Represented, FirstSeen, Flatten, Unique, FilesNamed, ArchivedStored, FilesAged,
      AllSettled;
    FlattenExactly(disk.archives);
    assert forall r :: r in j.records ==> r in Known(j);
    forall f, r | f in disk.archives && r in f.records ensures ValidRecord(r, j.chainId) && r.finalized && r.version >= 1 {
      assert GoodCopy(Known(j), j.chainId, r);
    }
    assert LoadedAll(Active(disk)) == j.records by {
      assert forall i :: 0 <= i < |j.records| ==> j.records[i] in Known(j);
    }
    assert LoadedAll(Flatten(disk.archives)) == Flatten(disk.archives) by {
      assert forall i :: 0 <= i < |Flatten(disk.archives)| ==> CopyIn(disk.archives, Flatten(disk.archives)[i]);
    }
  }
}
