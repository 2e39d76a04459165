/** What the journal holds after an update or archiving, and what a listing holds, field by field and
    place by place (internal/wallet/journal.go). */
module JournalContents {
  import opened Records
  import opened Journal
  import J = Journal

  // ---------------------------------------------------------------- updates

  /** This is the first record with this hash. */
  predicate FirstAt(rs: seq<Record>, hash: Hash, i: nat) {
    i < |rs| && rs[i].hash == hash && forall k :: 0 <= k < i ==> rs[k].hash != hash
  }

  lemma IndexIs(rs: seq<Record>, hash: Hash, i: nat)
    requires FirstAt(rs, hash, i)
    ensures IndexByHash(rs, hash) == i
  {
  }

  /** A record that stores a report: each of the five fields is the reported one, the payment is the same,
      and the version has moved by one exactly if a field is new. */
  predicate Stores(before: Record, after: Record, report: Report, now: nat) {
    && after.state == report.state && after.finalized == report.finalized && after.error == report.error
    && after.confirmations == report.confirmations && after.fee == report.fee
    && SamePayment(before, after)
    && if before.state == report.state && before.finalized == report.finalized && before.error == report.error
         && before.confirmations == report.confirmations && before.fee == report.fee
       then after == before
       else after.version == before.version + 1 && after.updatedAt == now
  }

  /** The other records are as they were. */
  predicate OthersKept(before: seq<Record>, after: seq<Record>, i: nat) {
    |after| == |before| && forall k :: 0 <= k < |before| && k != i ==> after[k] == before[k]
  }

  /** What a version-checked update comes to: it stores the report in the first active record of its hash
      if that one's version is as expected; it is stale if the version is not, or if only archived records
      have the hash; it fails if nobody has, or if the write does. */
  ghost predicate Updated(j: Journal, hash: Hash, expected: nat, report: Report, now: nat, k: Journal, result: Result<bool>) {
    && k.archived == j.archived && k.chainId == j.chainId && k.disk.archives == j.disk.archives
    && match result
       case Ok(true) =>
         exists i: nat :: FirstAt(j.records, hash, i) && j.records[i].version == expected && OthersKept(j.records, k.records, i)
           && Stores(j.records[i], k.records[i], report, now)
           && (k.records != j.records ==> k.disk.active == Some(k.records))
       case Ok(false) =>
         && k == j
         && if hash in Hashes(j.records) then exists i: nat :: FirstAt(j.records, hash, i) && j.records[i].version != expected
            else hash in Hashes(j.archived)
       case Err(error) =>
         && k.records == j.records
         && (error == RecordNotFound <==> hash !in Hashes(j.records) && hash !in Hashes(j.archived))
  }

  lemma UpdateStores(j: Journal, hash: Hash, expected: nat, report: Report, now: nat, outcome: Outcome)
    ensures var after := UpdateIfVersion(j, hash, expected, report, now, outcome);
      && Updated(j, hash, expected, report, now, after.journal, after.result)
      && (after.result.Err? && after.result.error != RecordNotFound ==> outcome != Written)
  {
    var i := IndexByHash(j.records, hash);
    if i < |j.records| {
      assert FirstAt(j.records, hash, i) && j.records[i] in j.records;
    } else {
      assert hash !in Hashes(j.records);
    }
  }

  lemma UpdatedAt(j: Journal, hash: Hash, expected: nat, report: Report, now: nat, k: Journal, result: Result<bool>, i: nat)
    requires Updated(j, hash, expected, report, now, k, result)
    requires FirstAt(j.records, hash, i) && j.records[i].version == expected
    ensures result != Ok(false) && result != Err(RecordNotFound)
    ensures result == Ok(true) ==> OthersKept(j.records, k.records, i) && Stores(j.records[i], k.records[i], report, now)
  {
    hide Stores;
    IndexIs(j.records, hash, i);
    assert j.records[i] in j.records;
    if result == Ok(true) {
      var x: nat :| FirstAt(j.records, hash, x) && OthersKept(j.records, k.records, x)
        && Stores(j.records[x], k.records[x], report, now);
      IndexIs(j.records, hash, x);
    } else if result == Ok(false) {
      var x: nat :| FirstAt(j.records, hash, x) && j.records[x].version != expected;
      IndexIs(j.records, hash, x);
    }
  }

  // ---------------------------------------------------------------- what is in flight

  /** No transaction is included at this record's nonce, and no finalized account nonce of its signer on
      its chain is past it. */
  ghost predicate StillOpen(known: seq<Record>, evidence: Option<Evidence>, r: Record) {
    && (forall m :: m in known && m.nonce == r.nonce ==> m.state != Succeeded && m.state != Reverted)
    && (evidence.None? || evidence.value.nonce <= r.nonce || r.raw.None?
        || r.raw.value.hash != r.hash || r.raw.value.nonce != r.nonce
        || r.raw.value.chainId != evidence.value.chainId || r.raw.value.sender != evidence.value.account)
  }

  lemma InFlightExactly(known: seq<Record>, evidence: Option<Evidence>)
    ensures InFlight(known, evidence) <==> exists r :: r in known && StillOpen(known, evidence, r)
  {
    forall r | r in known
      ensures StillOpen(known, evidence, r) <==> r.nonce !in MinedNonces(known) && !Consumes(evidence, r)
    {
    }
  }

  // ---------------------------------------------------------------- archiving

  /** Places of a list of n, in order. */
  predicate Places(at: seq<nat>, n: nat) {
    && (forall k :: 0 <= k < |at| ==> at[k] < n)
    && (forall j, k :: 0 <= j < k < |at| ==> at[j] < at[k])
  }

  /** Old enough to be archived, and finalized or at a nonce that somebody else has for good. */
  predicate Leaves(rs: seq<Record>, cut: int, settled: set<nat>, i: nat)
    requires i < |rs|
  {
    i < cut && (rs[i].finalized || rs[i].nonce in settled)
  }

  /** What stays are the records that do not leave, in order. */
  ghost predicate StayInOrder(rs: seq<Record>, cut: int, settled: set<nat>, keep: seq<Record>, at: seq<nat>) {
    && Places(at, |rs|) && |at| == |keep| && (forall k :: 0 <= k < |at| ==> keep[k] == rs[at[k]])
    && forall i :: 0 <= i < |rs| ==> (i in at <==> !Leaves(rs, cut, settled, i))
  }

  /** What is archived are the records that leave, in order, each as it is if finalized, and as a replaced
      one otherwise. */
  ghost predicate LeaveInOrder(rs: seq<Record>, cut: int, settled: set<nat>, archive: seq<Record>, at: seq<nat>) {
    && Places(at, |rs|) && |at| == |archive|
    && (forall k :: 0 <= k < |at| ==>
         archive[k] == if rs[at[k]].finalized then rs[at[k]] else rs[at[k]].(finalized := true, state := Replaced))
    && forall i :: 0 <= i < |rs| ==> (i in at <==> Leaves(rs, cut, settled, i))
  }

  lemma PlacesSnoc(at: seq<nat>, n: nat)
    requires Places(at, n)
    ensures Places(at, n + 1) && Places(at + [n], n + 1)
    ensures n !in at && forall i :: i in at + [n] <==> i in at || i == n
  {
  }

  lemma LeavesFront(rs: seq<Record>, cut: int, settled: set<nat>)
    requires rs != []
    ensures forall i :: 0 <= i < |rs| - 1 ==> Leaves(rs[..|rs|-1], cut, settled, i) == Leaves(rs, cut, settled, i)
  {
  }

  lemma {:induction false} KeptPlaces(rs: seq<Record>, cut: int, settled: set<nat>) returns (at: seq<nat>)
    ensures StayInOrder(rs, cut, settled, Kept(rs, cut, settled), at)
  {
    if rs == [] {
      at := [];
    } else {
      var n, last := |rs| - 1, rs[|rs|-1];
      at := KeptPlaces(rs[..n], cut, settled);
      LeavesFront(rs, cut, settled);
      PlacesSnoc(at, n);
      var keep := Kept(rs[..n], cut, settled);
      if Leaves(rs, cut, settled, n) {
        assert Kept(rs, cut, settled) == keep;
        StaysAsIs(rs, cut, settled, keep, at);
      } else {
        assert Kept(rs, cut, settled) == keep + [last];
        StaysMore(rs, cut, settled, keep, at);
        at := at + [n];
      }
    }
  }

  lemma StaysAsIs(rs: seq<Record>, cut: int, settled: set<nat>, keep: seq<Record>, at: seq<nat>)
    requires rs != [] && StayInOrder(rs[..|rs|-1], cut, settled, keep, at) && Leaves(rs, cut, settled, |rs| - 1)
    ensures StayInOrder(rs, cut, settled, keep, at)
  {
    hide Leaves;
    PlacesSnoc(at, |rs| - 1);
    LeavesFront(rs, cut, settled);
  }

  lemma StaysMore(rs: seq<Record>, cut: int, settled: set<nat>, keep: seq<Record>, at: seq<nat>)
    requires rs != [] && StayInOrder(rs[..|rs|-1], cut, settled, keep, at) && !Leaves(rs, cut, settled, |rs| - 1)
    ensures StayInOrder(rs, cut, settled, keep + [rs[|rs|-1]], at + [|rs| - 1])
  {
    hide Leaves, Places;
    PlacesSnoc(at, |rs| - 1);
    LeavesFront(rs, cut, settled);
    InPlaces(at, |rs| - 1);
  }

  lemma InPlaces(at: seq<nat>, n: nat)
    requires Places(at, n)
    ensures forall k :: 0 <= k < |at| ==> at[k] < n
  {
  }

  lemma {:induction false} RetiredPlaces(rs: seq<Record>, cut: int, settled: set<nat>) returns (at: seq<nat>)
    ensures LeaveInOrder(rs, cut, settled, Retired(rs, cut, settled), at)
  {
    if rs == [] {
      at := [];
    } else {
      var n, last := |rs| - 1, rs[|rs|-1];
      at := RetiredPlaces(rs[..n], cut, settled);
      var archive := Retired(rs[..n], cut, settled);
      if Leaves(rs, cut, settled, n) {
        assert Retired(rs, cut, settled) == archive + [ArchiveCopy(last)];
        LeavesMore(rs, cut, settled, archive, at);
        at := at + [n];
      } else {
        assert Retired(rs, cut, settled) == archive;
        LeavesAsIs(rs, cut, settled, archive, at);
      }
    }
  }

  lemma LeavesAsIs(rs: seq<Record>, cut: int, settled: set<nat>, archive: seq<Record>, at: seq<nat>)
    requires rs != [] && LeaveInOrder(rs[..|rs|-1], cut, settled, archive, at) && !Leaves(rs, cut, settled, |rs| - 1)
    ensures LeaveInOrder(rs, cut, settled, archive, at)
  {
    hide Leaves;
    PlacesSnoc(at, |rs| - 1);
    LeavesFront(rs, cut, settled);
  }

  lemma LeavesMore(rs: seq<Record>, cut: int, settled: set<nat>, archive: seq<Record>, at: seq<nat>)
    requires rs != [] && LeaveInOrder(rs[..|rs|-1], cut, settled, archive, at) && Leaves(rs, cut, settled, |rs| - 1)
    ensures LeaveInOrder(rs, cut, settled, archive + [ArchiveCopy(rs[|rs|-1])], at + [|rs| - 1])
  {
    hide Leaves, Places;
    PlacesSnoc(at, |rs| - 1);
    LeavesFront(rs, cut, settled);
    InPlaces(at, |rs| - 1);
  }

  lemma {:induction false} PlacesGrow(at: seq<nat>, n: nat, k: nat)
    requires Places(at, n) && k < |at|
    ensures at[k] + (|at| - k) <= n
    decreases |at| - k
  {
    if k + 1 < |at| {
      PlacesGrow(at, n, k + 1);
    }
  }

  /** Archiving has made room: of the records that stay, only the last hundred can be finalized or at a
      settled nonce. */
  lemma RoomMade(rs: seq<Record>, settled: set<nat>, keep: seq<Record>, at: seq<nat>)
    requires StayInOrder(rs, |rs| - 100, settled, keep, at)
    ensures forall k :: 0 <= k < |keep| - 100 ==> !keep[k].finalized && keep[k].nonce !in settled
  {
    forall k | 0 <= k < |keep| - 100 ensures !keep[k].finalized && keep[k].nonce !in settled {
      PlacesGrow(at, |rs|, k);
      assert at[k] in at && !Leaves(rs, |rs| - 100, settled, at[k]);
    }
  }

  /** What archiving leaves when nothing fails: below 900 records it does nothing; from there on the old
      records that are done leave for the archive, the others stay in order, and there is room. */
  ghost predicate Archived(j: Journal, k: Journal, count: nat) {
    if |j.records| < 900 then k == j && count == 0
    else
      var settled, cut := FinalNonces(Known(j)), |j.records| - 100;
      && (exists at :: StayInOrder(j.records, cut, settled, k.records, at))
      && j.archived <= k.archived && |k.archived| == |j.archived| + count
      && (exists at :: LeaveInOrder(j.records, cut, settled, k.archived[|j.archived|..], at))
      && (forall n :: 0 <= n < |k.records| - 100 ==> !k.records[n].finalized && k.records[n].nonce !in settled)
      && (count > 0 ==> k.disk.active == Some(k.records))
  }

  lemma SplitArchived(j: Journal, k: Journal)
    requires |j.records| >= 900
    requires k.records == ToKeep(j) && k.archived == j.archived + ToArchive(j)
    requires ToArchive(j) != [] ==> k.disk.active == Some(k.records)
    ensures Archived(j, k, |ToArchive(j)|)
  {
    hide StayInOrder, LeaveInOrder, FinalNonces, Kept, Retired;
    var settled, cut := FinalNonces(Known(j)), |j.records| - 100;
    var stay := KeptPlaces(j.records, cut, settled);
    var leave := RetiredPlaces(j.records, cut, settled);
    RoomMade(j.records, settled, ToKeep(j), stay);
    assert k.archived[|j.archived|..] == ToArchive(j);
    assert LeaveInOrder(j.records, cut, settled, k.archived[|j.archived|..], leave);
  }

  lemma ArchivingMakesRoom(j: Journal, fileOutcome: Outcome, activeOutcome: Outcome)
    ensures var after := J.ArchiveFinalized(j, fileOutcome, activeOutcome);
      && (after.result.Ok? ==> Archived(j, after.journal, after.result.value))
      && (after.result.Err? ==> after.journal.records == j.records && after.journal.archived == j.archived)
      && (fileOutcome == Written && activeOutcome == Written ==> after.result.Ok?)
  {
    hide StayInOrder, LeaveInOrder, FinalNonces, Kept, Retired, PutFile;
    if |j.records| < 900 {
      return;
    }
    hide Archived;
    if ToArchive(j) == [] {
      var leave := RetiredPlaces(j.records, Cut(j), FinalNonces(Known(j)));
      NobodyLeaves(j.records, Cut(j), FinalNonces(Known(j)), leave);
      assert j.archived + [] == j.archived;
      SplitArchived(j, j);
    } else if fileOutcome == Written && activeOutcome == Written {
      SplitArchived(j, J.ArchiveFinalized(j, fileOutcome, activeOutcome).journal);
    }
  }

  lemma NobodyLeaves(rs: seq<Record>, cut: int, settled: set<nat>, leave: seq<nat>)
    requires LeaveInOrder(rs, cut, settled, [], leave)
    ensures Kept(rs, cut, settled) == rs
  {
    AllKept(rs, cut, settled);
  }

  lemma {:induction false} AllKept(rs: seq<Record>, cut: int, settled: set<nat>)
    requires forall i :: 0 <= i < |rs| ==> !Leaves(rs, cut, settled, i)
    ensures Kept(rs, cut, settled) == rs
  {
    if rs != [] {
      var front := rs[..|rs|-1];
      assert forall i :: 0 <= i < |front| ==> Leaves(front, cut, settled, i) == Leaves(rs, cut, settled, i);
      AllKept(front, cut, settled);
      assert !Leaves(rs, cut, settled, |rs| - 1);
    }
  }

  // ---------------------------------------------------------------- the refresh list

  /** The records to be asked about, from the newest back: active, not finalized, and at a nonce that no
      record has for good. */
  ghost predicate NewestFirst(rs: seq<Record>, settled: set<nat>, items: seq<Record>, at: seq<nat>) {
    && |at| == |items| && (forall k :: 0 <= k < |at| ==> at[k] < |rs| && items[k] == rs[at[k]])
    && (forall j, k :: 0 <= j < k < |at| ==> at[j] > at[k])
    && forall i :: 0 <= i < |rs| ==> (i in at <==> !rs[i].finalized && rs[i].nonce !in settled)
  }

  lemma {:induction false} RefreshablePlaces(rs: seq<Record>, settled: set<nat>) returns (at: seq<nat>)
    ensures NewestFirst(rs, settled, Refreshable(rs, settled), at)
  {
    if rs == [] {
      at := [];
    } else {
      var n, last := |rs| - 1, rs[|rs|-1];
      at := RefreshablePlaces(rs[..n], settled);
      NewestNext(rs, settled, Refreshable(rs[..n], settled), at);
      if !last.finalized && last.nonce !in settled {
        assert Refreshable(rs, settled) == [last] + Refreshable(rs[..n], settled);
        at := [n] + at;
      } else {
        assert Refreshable(rs, settled) == Refreshable(rs[..n], settled);
      }
    }
  }

  lemma NewestNext(rs: seq<Record>, settled: set<nat>, items: seq<Record>, at: seq<nat>)
    requires rs != [] && NewestFirst(rs[..|rs|-1], settled, items, at)
    ensures var n, last := |rs| - 1, rs[|rs|-1];
      if !last.finalized && last.nonce !in settled then NewestFirst(rs, settled, [last] + items, [n] + at)
      else NewestFirst(rs, settled, items, at)
  {
    var n, more := |rs| - 1, [|rs| - 1] + at;
    assert forall i :: 0 <= i < n ==> rs[..n][i] == rs[i];
    assert n !in at && forall i :: i in more <==> i == n || i in at;
    assert forall k :: 0 < k < |more| ==> more[k] == at[k - 1];
  }
}
