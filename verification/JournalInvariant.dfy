/** The invariant of the journal and its archive files, and what each write keeps of it. */
module JournalInvariant {
  import opened Records
  import opened Journal

  // ---------------------------------------------------------------- uniqueness

  /** No hash and no quote ID appears twice. */
  ghost predicate Unique(rs: seq<Record>) {
    forall i, j :: 0 <= i < |rs| && 0 <= j < |rs| && (rs[i].hash == rs[j].hash || rs[i].quoteId == rs[j].quoteId)
      ==> i == j
  }

  ghost predicate Apart(a: seq<Record>, b: seq<Record>) {
    forall x, y :: x in a && y in b ==> x.hash != y.hash && x.quoteId != y.quoteId
  }

  lemma UniqueJoin(a: seq<Record>, b: seq<Record>)
    requires Unique(a) && Unique(b) && Apart(a, b)
    ensures Unique(a + b)
  {
    var ab := a + b;
    assert forall i :: 0 <= i < |a| ==> ab[i] in a;
    assert forall i :: |a| <= i < |ab| ==> ab[i] in b && ab[i] == b[i - |a|];
  }

  lemma UniqueSplit(a: seq<Record>, b: seq<Record>)
    requires Unique(a + b)
    ensures Unique(a) && Unique(b) && Apart(a, b)
  {
    var ab := a + b;
    assert forall i :: 0 <= i < |a| ==> ab[i] == a[i];
    assert forall i :: 0 <= i < |b| ==> ab[|a| + i] == b[i];
    forall x, y | x in a && y in b ensures x.hash != y.hash && x.quoteId != y.quoteId {
      var i :| 0 <= i < |a| && a[i] == x;
      var j :| 0 <= j < |b| && b[j] == y;
      assert ab[i] == x && ab[|a| + j] == y;
    }
  }

  // ---------------------------------------------------------------- the invariant

  ghost predicate CopyIn(files: seq<ArchiveFile>, c: Record) {
    exists f :: f in files && c in f.records
  }

  /** Every archived copy of this hash is of a finalized, included transaction. */
  ghost predicate Solid(files: seq<ArchiveFile>, hash: Hash) {
    forall f, c :: f in files && c in f.records && c.hash == hash ==> IsFinal(c)
  }

  /** The finality of this nonce survives whichever copy a restart picks. */
  ghost predicate Settled(known: seq<Record>, files: seq<ArchiveFile>, nonce: nat) {
    exists m :: m in known && m.nonce == nonce && IsFinal(m) && Solid(files, m.hash)
  }

  ghost predicate Represented(known: seq<Record>, c: Record) {
    exists r :: r in known && SamePayment(r, c)
  }

  /** The hash belongs to an active record old enough to be archived. */
  ghost predicate Aged(records: seq<Record>, hash: Hash) {
    exists i :: 0 <= i < |records| - ARCHIVE_KEEP && records[i].hash == hash
  }

  ghost predicate GoodCopy(known: seq<Record>, chainId: int, c: Record) {
    && c.finalized && ValidRecord(c, chainId) && c.version >= 1
    && c.nonce in FinalNonces(known)
    && Represented(known, c)
  }

  ghost predicate FilesNamed(files: seq<ArchiveFile>) {
    Listed(files) && forall f :: f in files ==> f.records != [] && f == FileOf(f.records)
  }

  ghost predicate CopiesGood(known: seq<Record>, chainId: int, files: seq<ArchiveFile>) {
    forall f, c :: f in files && c in f.records ==> GoodCopy(known, chainId, c)
  }

  ghost predicate ArchivedStored(archived: seq<Record>, files: seq<ArchiveFile>) {
    forall a :: a in archived ==> CopyIn(files, a)
  }

  /** A file whose first hash is still active holds only active hashes old enough to be archived:
      it was written, but the active file has not been shortened since. */
  ghost predicate FilesAged(records: seq<Record>, files: seq<ArchiveFile>) {
    forall f, c :: f in files && c in f.records && f.name.first in Hashes(records) ==> Aged(records, c.hash)
  }

  ghost predicate AllSettled(known: seq<Record>, files: seq<ArchiveFile>) {
    forall n :: n in FinalNonces(known) ==> Settled(known, files, n)
  }

  ghost predicate GoodRecords(j: Journal) {
    && |j.records| <= CAPACITY
    && Unique(Known(j))
    && (forall r :: r in Known(j) ==> ValidRecord(r, j.chainId) && r.version >= 1)
    && (forall r :: r in j.records && r.finalized ==> IsMined(r.state))
  }

  ghost predicate Good(j: Journal) {
    && GoodRecords(j)
    && FilesNamed(j.disk.archives)
    && CopiesGood(Known(j), j.chainId, j.disk.archives)
    && ArchivedStored(j.archived, j.disk.archives)
    && FilesAged(j.records, j.disk.archives)
    && AllSettled(Known(j), j.disk.archives)
  }

  // ---------------------------------------------------------------- carrying the parts over

  /** Every payment known before is known after. */
  ghost predicate Carries(before: seq<Record>, after: seq<Record>) {
    forall r :: r in before ==> Represented(after, r)
  }

  lemma CarriesSelf(rs: seq<Record>)
    ensures Carries(rs, rs)
  {
    assert forall r :: r in rs ==> SamePayment(r, r);
  }

  lemma CopiesCarry(known: seq<Record>, after: seq<Record>, chainId: int, files: seq<ArchiveFile>)
    requires CopiesGood(known, chainId, files)
    requires Carries(known, after) && FinalNonces(known) <= FinalNonces(after)
    ensures CopiesGood(after, chainId, files)
  {
    forall f, c | f in files && c in f.records ensures GoodCopy(after, chainId, c) {
      assert GoodCopy(known, chainId, c);
      var r :| r in known && SamePayment(r, c);
      var s :| s in after && SamePayment(s, r);
    }
  }

  /** Records that only gain entries at the end, or change in place, age as before. */
  lemma AgesCarry(records: seq<Record>, after: seq<Record>, files: seq<ArchiveFile>)
    requires FilesAged(records, files)
    requires |records| <= |after| && forall i :: 0 <= i < |records| ==> after[i].hash == records[i].hash
    requires forall f, i :: f in files && |records| <= i < |after| ==> after[i].hash != f.name.first
    ensures FilesAged(after, files)
  {
    forall f, c | f in files && c in f.records && f.name.first in Hashes(after) ensures Aged(after, c.hash) {
      var r :| r in after && r.hash == f.name.first;
      var k :| 0 <= k < |after| && after[k] == r;
      assert records[k] in records && records[k].hash == f.name.first;
      assert Aged(records, c.hash);
      var i :| 0 <= i < |records| - ARCHIVE_KEEP && records[i].hash == c.hash;
      assert after[i].hash == c.hash;
    }
  }

  // ---------------------------------------------------------------- append

  ghost predicate Appendable(j: Journal, r: Record) {
    && |j.records| < CAPACITY
    && ValidRecord(r, j.chainId) && r.version == 1 && !r.finalized
    && Apart(Known(j), [r])
  }

  lemma GoodAppend(j: Journal, r: Record)
    requires Good(j) && Appendable(j, r)
    ensures Good(j.(records := j.records + [r]))
  {
    var after := j.(records := j.records + [r]);
    var files := j.disk.archives;
    assert Known(after) == Known(j) + [r];
    UniqueJoin(Known(j), [r]);
    assert forall x :: x in Known(j) ==> x in Known(after) && SamePayment(x, x);
    assert FinalNonces(Known(after)) == FinalNonces(Known(j));
    CopiesCarry(Known(j), Known(after), j.chainId, files);
    forall f | f in files ensures f.name.first != r.hash {
      assert f.records[0] in f.records && GoodCopy(Known(j), j.chainId, f.records[0]);
      var q :| q in Known(j) && SamePayment(q, f.records[0]);
      assert r in [r];
    }
    AgesCarry(j.records, after.records, files);
    forall n | n in FinalNonces(Known(after)) ensures Settled(Known(after), files, n) {
      assert Settled(Known(j), files, n);
    }
  }

  // ---------------------------------------------------------------- update

  /** An update of one active record as the source makes it: only of one that is not final, only
      of its mutable part, and finalized only when included. */
  ghost predicate Updates(old_: Record, new_: Record) {
    && SamePayment(old_, new_)
    && !old_.finalized
    && new_.version == old_.version + 1
    && (new_.finalized ==> IsMined(new_.state))
  }

  lemma CopyNonce(known: seq<Record>, chainId: int, c: Record, r: Record)
    requires GoodCopy(known, chainId, c) && Unique(known) && r in known && r.hash == c.hash
    ensures r.nonce in FinalNonces(known) && SamePayment(r, c)
  {
  }

  /** The first record finalized at a nonce has no archived copy yet. */
  lemma FirstFinalSolid(known: seq<Record>, chainId: int, files: seq<ArchiveFile>, r: Record)
    requires CopiesGood(known, chainId, files) && Unique(known)
    requires r in known && r.nonce !in FinalNonces(known)
    ensures Solid(files, r.hash)
  {
    forall f, c | f in files && c in f.records ensures c.hash != r.hash {
      assert GoodCopy(known, chainId, c);
      if c.hash == r.hash {
        CopyNonce(known, chainId, c, r);
      }
    }
  }

  lemma KnownUpdated(j: Journal, i: nat, u: Record)
    requires i < |j.records| && Updates(j.records[i], u)
    ensures var before, after := Known(j), Known(j.(records := j.records[i := u]));
      && j.records[i] in before && u in after
      && after == before[|j.archived| + i := u] && before[|j.archived| + i] == j.records[i]
      && Carries(before, after)
      && (forall m :: m in before && IsFinal(m) ==> m in after)
      && (forall m :: m in after ==> m == u || m in before)
      && FinalNonces(before) <= FinalNonces(after)
  {
    var before, after := Known(j), Known(j.(records := j.records[i := u]));
    var at := |j.archived| + i;
    assert before[at] == j.records[i] && after == before[at := u];
    assert after[at] == u;
    forall m | m in before ensures Represented(after, m) && (IsFinal(m) ==> m in after) {
      var k :| 0 <= k < |before| && before[k] == m;
      assert after[k] in after && SamePayment(after[k], m);
    }
    forall m | m in after ensures m == u || m in before {
      var k :| 0 <= k < |after| && after[k] == m;
      assert k == at || m == before[k];
    }
  }

  lemma GoodUpdate(j: Journal, i: nat, u: Record)
    requires Good(j) && i < |j.records| && Updates(j.records[i], u)
    ensures Good(j.(records := j.records[i := u]))
  {
    var after := j.(records := j.records[i := u]);
    var files := j.disk.archives;
    KnownUpdated(j, i, u);
    assert Unique(Known(after));
    CopiesCarry(Known(j), Known(after), j.chainId, files);
    AgesCarry(j.records, after.records, files);
    forall n | n in FinalNonces(Known(after)) ensures Settled(Known(after), files, n) {
      if n in FinalNonces(Known(j)) {
        assert Settled(Known(j), files, n);
      } else {
        FirstFinalSolid(Known(j), j.chainId, files, j.records[i]);
        assert u in Known(after) && IsFinal(u) && u.nonce == n;
      }
    }
  }
}
