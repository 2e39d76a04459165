/** The journal manager itself: memory replaced under a lock, files rewritten, loops over both
    lists (internal/wallet/journal.go). Each method is proved against the function that
    specifies its critical section. */
module JournalStore {
  import opened Records
  import opened Journal
  import J = Journal
  import opened JournalContents
  import opened Sequences

  // ---------------------------------------------------------------- loops against their specifications

  lemma FirstByHashAt(rs: seq<Record>, hash: Hash, i: nat)
    requires i <= |rs| && forall k :: 0 <= k < i ==> rs[k].hash != hash
    ensures i < |rs| && rs[i].hash == hash ==> FirstByHash(rs, hash) == Some(rs[i])
    ensures i == |rs| ==> FirstByHash(rs, hash) == None
  {
    if i > 0 {
      FirstByHashAt(rs[1..], hash, i - 1);
    }
  }

  lemma FirstByQuoteAt(rs: seq<Record>, quoteId: QuoteId, i: nat)
    requires i <= |rs| && forall k :: 0 <= k < i ==> rs[k].quoteId != quoteId
    ensures i < |rs| && rs[i].quoteId == quoteId ==> FirstByQuote(rs, quoteId) == Some(rs[i])
    ensures i == |rs| ==> FirstByQuote(rs, quoteId) == None
  {
    if i > 0 {
      FirstByQuoteAt(rs[1..], quoteId, i - 1);
    }
  }

  lemma IndexByHashAt(rs: seq<Record>, hash: Hash, i: nat)
    requires i <= |rs| && forall k :: 0 <= k < i ==> rs[k].hash != hash
    requires i < |rs| ==> rs[i].hash == hash
    ensures IndexByHash(rs, hash) == i
  {
  }

  lemma {:induction false} FlattenPrefix(files: seq<ArchiveFile>, i: nat)
    requires i < |files|
    ensures Flatten(files[..i + 1]) == Flatten(files[..i]) + files[i].records
  {
    PrefixStep(files, i);
  }

  lemma LoadedConcat(a: seq<Record>, b: seq<Record>)
    ensures LoadedAll(a + b) == LoadedAll(a) + LoadedAll(b)
  {
  }

  lemma RefreshableStep(rs: seq<Record>, i: nat, settled: set<nat>, items: seq<Record>)
    requires i < |rs|
    ensures items + Refreshable(rs[..i + 1], settled)
      == (if !rs[i].finalized && rs[i].nonce !in settled then items + [rs[i]] else items)
         + Refreshable(rs[..i], settled)
  {
    PrefixStep(rs, i);
  }

  lemma LoadedStep(before: seq<Record>, stored: seq<Record>, n: nat)
    requires n < |stored|
    ensures before + LoadedAll(stored[..n + 1]) == before + LoadedAll(stored[..n]) + [Loaded(stored[n])]
  {
  }

  lemma NothingLoaded(files: seq<ArchiveFile>, seen: set<Hash>)
    ensures LoadedAll(Flatten(files[..0])) == [] && Collected([], seen, [], seen)
  {
  }

  lemma LoadedNone(before: seq<Record>, stored: seq<Record>)
    ensures before + LoadedAll(stored[..0]) == before
  {
  }

  lemma SplitNone()
    ensures forall cut, settled :: Retired([], cut, settled) == [] && Kept([], cut, settled) == []
  {
  }

  lemma SplitStep(rs: seq<Record>, i: nat, cut: int, settled: set<nat>)
    requires i < |rs|
    ensures Retired(rs[..i + 1], cut, settled)
      == Retired(rs[..i], cut, settled) + (if i < cut && Archivable(rs[i], settled) then [ArchiveCopy(rs[i])] else [])
    ensures Kept(rs[..i + 1], cut, settled)
      == Kept(rs[..i], cut, settled) + (if i < cut && Archivable(rs[i], settled) then [] else [rs[i]])
  {
    PrefixStep(rs, i);
  }

  method LoadActive(disk: Disk, chainId: int) returns (r: Result<seq<Record>>)
    ensures r == if LoadableActive(disk, chainId) then Ok(LoadedAll(Active(disk))) else Err(CorruptFile)
  {
    if disk.active.None? {
      return Ok([]);
    }
    var stored := disk.active.value;
    if |stored| > CAPACITY {
      return Err(CorruptFile);
    }
    var records: seq<Record> := [];
    for i := 0 to |stored|
      invariant forall k :: 0 <= k < i ==> ValidRecord(stored[k], chainId)
      invariant records == LoadedAll(stored[..i])
    {
      if !ValidRecord(stored[i], chainId) {
        return Err(CorruptFile);
      }
      records := records + [Loaded(stored[i])];
    }
    assert stored[..|stored|] == stored;
    r := Ok(records);
  }

  /** What the walk has collected after the records `walked`: the first copy of every hash that is
      not active, and every hash met. */
  ghost predicate Collected(archived: seq<Record>, seen: set<Hash>, walked: seq<Record>, active: set<Hash>) {
    archived == FirstSeen(walked, active) && seen == active + Hashes(walked)
  }

  lemma CollectNext(archived: seq<Record>, seen: set<Hash>, walked: seq<Record>, active: set<Hash>, r: Record)
    requires Collected(archived, seen, walked, active)
    ensures r.hash in seen ==> Collected(archived, seen, walked + [r], active)
    ensures r.hash !in seen ==> Collected(archived + [r], seen + {r.hash}, walked + [r], active)
  {
    assert (walked + [r])[..|walked + [r]|-1] == walked;
    assert Hashes(walked + [r]) == Hashes(walked) + {r.hash};
  }

  lemma CollectedAll(archived: seq<Record>, seen: set<Hash>, walked: seq<Record>, active: set<Hash>)
    requires Collected(archived, seen, walked, active)
    ensures archived == FirstSeen(walked, active)
  {
  }

  lemma Unloadable(disk: Disk, chainId: int, i: nat, n: nat)
    requires i < |disk.archives| && n < |disk.archives[i].records|
    requires var r := disk.archives[i].records[n]; !ValidRecord(r, chainId) || !r.finalized
    ensures !LoadableArchives(disk, chainId)
  {
    assert disk.archives[i] in disk.archives && disk.archives[i].records[n] in disk.archives[i].records;
  }

  lemma Loadable(disk: Disk, chainId: int)
    requires forall k :: 0 <= k < |disk.archives| ==> AllFinal(disk.archives[k].records, chainId)
    ensures LoadableArchives(disk, chainId)
  {
  }

  predicate AllFinal(rs: seq<Record>, chainId: int) {
    forall r :: r in rs ==> ValidRecord(r, chainId) && r.finalized
  }

  /** Walks the archive files in directory order. */
  method LoadArchives(disk: Disk, chainId: int, records: seq<Record>) returns (r: Result<seq<Record>>)
    ensures r == if LoadableArchives(disk, chainId)
      then Ok(FirstSeen(LoadedAll(Flatten(disk.archives)), Hashes(records))) else Err(CorruptFile)
  {
    hide LoadedAll, Flatten, ValidRecord, LoadableArchives, Collected, FirstSeen, Hashes;
    var seen := Hashes(records);
    var archived: seq<Record> := [];
    ghost var active, walked := seen, LoadedAll(Flatten(disk.archives[..0]));
    NothingLoaded(disk.archives, active);
    for i := 0 to |disk.archives|
      invariant walked == LoadedAll(Flatten(disk.archives[..i]))
      invariant Collected(archived, seen, walked, active)
      invariant forall k :: 0 <= k < i ==> AllFinal(disk.archives[k].records, chainId)
    {
      var stored := disk.archives[i].records;
      ghost var before := walked;
      LoadedNone(before, stored);
      for n := 0 to |stored|
        invariant walked == before + LoadedAll(stored[..n])
        invariant Collected(archived, seen, walked, active)
        invariant AllFinal(stored[..n], chainId)
      {
        if !ValidRecord(stored[n], chainId) || !stored[n].finalized {
          Unloadable(disk, chainId, i, n);
          return Err(CorruptFile);
        }
        var loaded := Loaded(stored[n]);
        CollectNext(archived, seen, walked, active, loaded);
        LoadedStep(before, stored, n);
        walked := walked + [loaded];
        if loaded.hash !in seen {
          archived := archived + [loaded];
          seen := seen + {loaded.hash};
        }
      }
      assert stored[..|stored|] == stored;
      FlattenPrefix(disk.archives, i);
      LoadedConcat(Flatten(disk.archives[..i]), stored);
    }
    assert disk.archives[..|disk.archives|] == disk.archives;
    Loadable(disk, chainId);
    CollectedAll(archived, seen, walked, active);
    r := Ok(archived);
  }

  /** The active records are those of the file; one saved before there were versions has version 1. */
  predicate ReadBack(stored: seq<Record>, records: seq<Record>) {
    && |records| == |stored|
    && forall i :: 0 <= i < |stored| ==>
         records[i] == if stored[i].version == 0 then stored[i].(version := 1) else stored[i]
  }

  class JournalManager {
    const chainId: int
    var records: seq<Record>
    var archived: seq<Record>
    var disk: Disk

    function State(): Journal
      reads this
    {
      Journal(chainId, records, archived, disk)
    }

    constructor (chainId: int, records: seq<Record>, archived: seq<Record>, disk: Disk)
      ensures State() == Journal(chainId, records, archived, disk)
    {
      this.chainId, this.records, this.archived, this.disk := chainId, records, archived, disk;
    }

    static method Open(disk: Disk, chainId: int) returns (r: Result<JournalManager>)
      ensures r.Ok? <==> Load(disk, chainId).Ok?
      ensures r.Ok? ==> fresh(r.value) && r.value.State() == Load(disk, chainId).value
      ensures r.Ok? ==> ReadBack(Active(disk), r.value.records)
    {
      var active := LoadActive(disk, chainId);
      if active.Err? {
        return Err(active.error);
      }
      var older := LoadArchives(disk, chainId, active.value);
      if older.Err? {
        return Err(older.error);
      }
      var jm := new JournalManager(chainId, active.value, older.value, disk);
      r := Ok(jm);
    }

    method HasInFlightTx(evidence: Option<Evidence>) returns (inFlight: bool)
      ensures inFlight == InFlight(Known(State()), evidence)
      ensures inFlight <==> exists r :: r in Known(State()) && StillOpen(Known(State()), evidence, r)
    {
      hide StillOpen, Consumes, IsMined;
      InFlightExactly(archived + records, evidence);
      var all := archived + records;
      var mined: set<nat> := {};
      for i := 0 to |all|
        invariant mined == MinedNonces(all[..i])
      {
        PrefixStep(all, i);
        if IsMined(all[i].state) {
          mined := mined + {all[i].nonce};
        }
      }
      assert all[..|all|] == all;
      for i := 0 to |all|
        invariant forall k :: 0 <= k < i ==> all[k].nonce in mined || Consumes(evidence, all[k])
      {
        if all[i].nonce !in mined && !Consumes(evidence, all[i]) {
          assert all[i] in all;
          return true;
        }
      }
      inFlight := false;
    }

    method FindByQuoteID(quoteId: QuoteId) returns (found: Option<Record>)
      ensures found == FindByQuoteId(State(), quoteId)
    {
      if !ValidQuoteId(quoteId) {
        return None;
      }
      var all := archived + records;
      for i := 0 to |all|
        invariant forall k :: 0 <= k < i ==> all[k].quoteId != quoteId
      {
        if all[i].quoteId == quoteId {
          FirstByQuoteAt(all, quoteId, i);
          return Some(all[i]);
        }
      }
      FirstByQuoteAt(all, quoteId, |all|);
      found := None;
    }

    method FindByHash(hash: Hash) returns (found: Option<Record>)
      ensures found == FirstByHash(Known(State()), hash)
    {
      var all := archived + records;
      for i := 0 to |all|
        invariant forall k :: 0 <= k < i ==> all[k].hash != hash
      {
        if all[i].hash == hash {
          FirstByHashAt(all, hash, i);
          return Some(all[i]);
        }
      }
      FirstByHashAt(all, hash, |all|);
      found := None;
    }

    method NonceRecords(nonce: nat) returns (out: seq<Record>)
      ensures out == AtNonce(Known(State()), nonce)
    {
      var all := archived + records;
      out := [];
      for i := 0 to |all|
        invariant out == AtNonce(all[..i], nonce)
      {
        PrefixStep(all, i);
        if all[i].nonce == nonce {
          out := out + [all[i]];
        }
      }
      assert all[..|all|] == all;
    }

    method NonceMined(nonce: nat) returns (mined: bool)
      ensures mined <==> nonce in MinedNonces(Known(State()))
      ensures mined <==> exists m :: m in Known(State()) && m.nonce == nonce && (m.state == Succeeded || m.state == Reverted)
    {
      var all := archived + records;
      for i := 0 to |all|
        invariant forall k :: 0 <= k < i ==> !(all[k].nonce == nonce && IsMined(all[k].state))
      {
        if all[i].nonce == nonce && IsMined(all[i].state) {
          assert all[i] in all;
          return true;
        }
      }
      mined := false;
    }

    method FinalizedNonces() returns (settled: set<nat>)
      ensures settled == FinalNonces(Known(State()))
    {
      var all := archived + records;
      settled := {};
      for i := 0 to |all|
        invariant settled == FinalNonces(all[..i])
      {
        PrefixStep(all, i);
        if all[i].finalized && IsMined(all[i].state) {
          settled := settled + {all[i].nonce};
        }
      }
      assert all[..|all|] == all;
    }

    /** Newest first. */
    method ToRefresh() returns (items: seq<Record>)
      ensures items == RefreshItems(State())
      ensures exists at :: NewestFirst(records, FinalNonces(Known(State())), items, at)
    {
      hide NewestFirst;
      ghost var at := RefreshablePlaces(records, FinalNonces(Known(State())));
      var settled := FinalizedNonces();
      var active := records;
      items := [];
      var i := |active|;
      assert active[..i] == active;
      while i > 0
        invariant 0 <= i <= |active|
        invariant items + Refreshable(active[..i], settled) == Refreshable(active, settled)
      {
        RefreshableStep(active, i - 1, settled, items);
        i := i - 1;
        if !active[i].finalized && active[i].nonce !in settled {
          items := items + [active[i]];
        }
      }
    }

    /** Rewrites journal.json; memory is left to the caller. */
    method AtomicSave(next: seq<Record>, outcome: Outcome) returns (ok: bool)
      modifies this`disk
      ensures ok == (outcome == Written)
      ensures disk == old(disk).(active := AfterWrite(old(disk).active, Some(next), outcome))
    {
      if outcome != FailedOld {
        disk := disk.(active := Some(next));
      }
      ok := outcome == Written;
    }

    method AppendAtomic(record: Record, outcome: Outcome) returns (version: Result<nat>)
      modifies this
      ensures Outcomes(State(), version) == J.AppendAtomic(old(State()), record, outcome)
      ensures version.Ok? <==> |old(records)| < 1000 && ValidRecord(record, chainId) && outcome == Written
      ensures version.Ok? ==> records == old(records) + [record.(version := 1)] && disk.active == Some(records)
      ensures version.Err? ==> records == old(records) && (version.error == JournalFull <==> |records| >= 1000)
      ensures archived == old(archived) && disk.archives == old(disk).archives
    {
      if |records| >= CAPACITY {
        return Err(JournalFull);
      }
      if !ValidRecord(record, chainId) {
        return Err(InvalidRecord);
      }
      var next := records + [record.(version := 1)];
      var ok := AtomicSave(next, outcome);
      if !ok {
        return Err(WriteFailed);
      }
      records := next;
      version := Ok(1);
    }

    method UpdateStateAtomicIfVersion(hash: Hash, expected: nat, report: Report, now: nat, outcome: Outcome)
      returns (updated: Result<bool>)
      modifies this
      ensures Outcomes(State(), updated) == UpdateIfVersion(old(State()), hash, expected, report, now, outcome)
      ensures Updated(old(State()), hash, expected, report, now, State(), updated)
      ensures updated.Err? && updated.error != RecordNotFound ==> outcome != Written
    {
      hide Updated;
      UpdateStores(State(), hash, expected, report, now, outcome);
      var target := 0;
      while target < |records| && records[target].hash != hash
        invariant target <= |records|
        invariant forall k :: 0 <= k < target ==> records[k].hash != hash
      {
        target := target + 1;
      }
      IndexByHashAt(records, hash, target);
      if target == |records| {
        for i := 0 to |archived|
          invariant forall k :: 0 <= k < i ==> archived[k].hash != hash
        {
          if archived[i].hash == hash {
            assert archived[i] in archived;
            return Ok(false);
          }
        }
        return Err(RecordNotFound);
      }
      if records[target].version != expected {
        return Ok(false);
      }
      if Reported(records[target], report) {
        return Ok(true);
      }
      var next := records[target := Apply(records[target], report, now)];
      var ok := AtomicSave(next, outcome);
      if !ok {
        return Err(WriteFailed);
      }
      records := next;
      updated := Ok(true);
    }

    /** The archive file is written before journal.json is shortened. */
    method ArchiveFinalized(fileOutcome: Outcome, activeOutcome: Outcome) returns (count: Result<nat>)
      modifies this
      ensures Outcomes(State(), count) == J.ArchiveFinalized(old(State()), fileOutcome, activeOutcome)
      ensures count.Ok? ==> Archived(old(State()), State(), count.value)
      ensures count.Err? ==> records == old(records) && archived == old(archived)
      ensures fileOutcome == Written && activeOutcome == Written ==> count.Ok?
    {
      hide Retired, Kept, FinalNonces, PutFile, Known, Archived;
      ArchivingMakesRoom(State(), fileOutcome, activeOutcome);
      SplitNone();
      if |records| < ARCHIVE_THRESHOLD {
        return Ok(0);
      }
      var settled := FinalizedNonces();
      var active := records;
      var archive: seq<Record>, keep: seq<Record> := [], [];
      var cut := |active| - ARCHIVE_KEEP;
      for i := 0 to |active|
        invariant State() == old(State())
        invariant archive == Retired(active[..i], cut, settled)
        invariant keep == Kept(active[..i], cut, settled)
      {
        SplitStep(active, i, cut, settled);
        var r := active[i];
        if i < cut && (r.finalized || r.nonce in settled) {
          if !r.finalized {
            r := r.(finalized := true, state := Replaced);
          }
          archive := archive + [r];
        } else {
          keep := keep + [r];
        }
      }
      assert active[..|active|] == active;
      assert archive == ToArchive(State()) && keep == ToKeep(State());
      if archive == [] {
        return Ok(0);
      }
      if fileOutcome != FailedOld {
        disk := disk.(archives := PutFile(disk.archives, FileOf(archive)));
      }
      if fileOutcome != Written {
        return Err(WriteFailed);
      }
      var ok := AtomicSave(keep, activeOutcome);
      if !ok {
        return Err(WriteFailed);
      }
      records := keep;
      archived := archived + archive;
      count := Ok(|archive|);
    }
  }
}
