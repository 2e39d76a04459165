/** What each critical section of the journal manager does, as functions on the journal's memory
    and files (internal/wallet/journal.go, internal/wallet/nonce.go). */
module Journal {
  import opened Records

  const CAPACITY: nat := 1000
  const ARCHIVE_THRESHOLD: nat := 900
  const ARCHIVE_KEEP: nat := 100

  datatype Journal = Journal(chainId: int, records: seq<Record>, archived: seq<Record>, disk: Disk)

  /** Every record in memory, in the order the source walks them. */
  function Known(j: Journal): seq<Record> {
    j.archived + j.records
  }

  // ---------------------------------------------------------------- queries

  /** A finalized account nonce observed on chain for one account and chain. */
  datatype Evidence = Evidence(account: Address, chainId: int, nonce: nat)

  predicate Consumes(evidence: Option<Evidence>, r: Record) {
    && evidence.Some?
    && r.nonce < evidence.value.nonce
    && r.raw.Some?
    && r.raw.value.hash == r.hash
    && r.raw.value.chainId == evidence.value.chainId
    && r.raw.value.nonce == r.nonce
    && r.raw.value.sender == evidence.value.account
  }

  predicate InFlight(rs: seq<Record>, evidence: Option<Evidence>) {
    exists r :: r in rs && r.nonce !in MinedNonces(rs) && !Consumes(evidence, r)
  }

  function FirstByHash(rs: seq<Record>, hash: Hash): (r: Option<Record>)
    ensures r.Some? ==> r.value in rs && r.value.hash == hash
    ensures r.None? ==> forall x :: x in rs ==> x.hash != hash
  {
    if rs == [] then None
    else if rs[0].hash == hash then Some(rs[0])
    else FirstByHash(rs[1..], hash)
  }

  function FirstByQuote(rs: seq<Record>, quoteId: QuoteId): (r: Option<Record>)
    ensures r.Some? ==> r.value in rs && r.value.quoteId == quoteId
    ensures r.None? ==> forall x :: x in rs ==> x.quoteId != quoteId
  {
    if rs == [] then None
    else if rs[0].quoteId == quoteId then Some(rs[0])
    else FirstByQuote(rs[1..], quoteId)
  }

  function FindByQuoteId(j: Journal, quoteId: QuoteId): Option<Record> {
    if ValidQuoteId(quoteId) then FirstByQuote(Known(j), quoteId) else None
  }

  function AtNonce(rs: seq<Record>, nonce: nat): (out: seq<Record>)
    ensures forall r :: r in out <==> r in rs && r.nonce == nonce
  {
    if rs == [] then []
    else
      var front := AtNonce(rs[..|rs|-1], nonce);
      assert rs == rs[..|rs|-1] + [rs[|rs|-1]];
      if rs[|rs|-1].nonce == nonce then front + [rs[|rs|-1]] else front
  }

  /** The records the chain is asked about again, newest first: not final, and no final record
      at their nonce. `rs` is a prefix of the active records. */
  function Refreshable(rs: seq<Record>, settled: set<nat>): seq<Record> {
    if rs == [] then []
    else
      var last := rs[|rs|-1];
      (if !last.finalized && last.nonce !in settled then [last] else [])
      + Refreshable(rs[..|rs|-1], settled)
  }

  function RefreshItems(j: Journal): seq<Record> {
    Refreshable(j.records, FinalNonces(Known(j)))
  }

  // ---------------------------------------------------------------- writes

  /** journal.json is rewritten; memory follows only if the write succeeded. */
  function Save(j: Journal, next: seq<Record>, outcome: Outcome): Journal {
    var saved := j.(disk := j.disk.(active := AfterWrite(j.disk.active, Some(next), outcome)));
    if outcome == Written then saved.(records := next) else saved
  }

  datatype Outcomes<T> = Outcomes(journal: Journal, result: Result<T>)

  function AppendAtomic(j: Journal, r: Record, outcome: Outcome): Outcomes<nat> {
    if |j.records| >= CAPACITY then Outcomes(j, Err(JournalFull))
    else if !ValidRecord(r, j.chainId) then Outcomes(j, Err(InvalidRecord))
    else
      var after := Save(j, j.records + [r.(version := 1)], outcome);
      Outcomes(after, if outcome == Written then Ok(1) else Err(WriteFailed))
  }

  function IndexByHash(rs: seq<Record>, hash: Hash): (i: nat)
    ensures i <= |rs|
    ensures i < |rs| ==> rs[i].hash == hash
    ensures forall k :: 0 <= k < i ==> rs[k].hash != hash
  {
    if rs == [] || rs[0].hash == hash then 0 else 1 + IndexByHash(rs[1..], hash)
  }

  /** What a broadcast or a chain query reported about one record. */
  datatype Report = Report(state: State, confirmations: string, fee: string, error: string, finalized: bool)

  predicate Reported(r: Record, report: Report) {
    && r.finalized == report.finalized && r.state == report.state
    && r.confirmations == report.confirmations && r.fee == report.fee && r.error == report.error
  }

  function Apply(r: Record, report: Report, now: nat): Record {
    r.(finalized := report.finalized, state := report.state, updatedAt := now,
       confirmations := report.confirmations, fee := report.fee, error := report.error,
       version := r.version + 1)
  }

  function UpdateIfVersion(j: Journal, hash: Hash, version: nat, report: Report, now: nat, outcome: Outcome)
    : Outcomes<bool>
  {
    var i := IndexByHash(j.records, hash);
    if i == |j.records| then
      Outcomes(j, if hash in Hashes(j.archived) then Ok(false) else Err(RecordNotFound))
    else if j.records[i].version != version then Outcomes(j, Ok(false))
    else if Reported(j.records[i], report) then Outcomes(j, Ok(true))
    else
      var after := Save(j, j.records[i := Apply(j.records[i], report, now)], outcome);
      Outcomes(after, if outcome == Written then Ok(true) else Err(WriteFailed))
  }

  // ---------------------------------------------------------------- archiving

  predicate Archivable(r: Record, settled: set<nat>) {
    r.finalized || r.nonce in settled
  }

  function ArchiveCopy(r: Record): Record {
    if r.finalized then r else r.(finalized := true, state := Replaced)
  }

  /** Copies of the archivable records among the first `cut`. */
  function Retired(rs: seq<Record>, cut: int, settled: set<nat>): seq<Record> {
    if rs == [] then []
    else
      var last := rs[|rs|-1];
      Retired(rs[..|rs|-1], cut, settled)
      + (if |rs| - 1 < cut && Archivable(last, settled) then [ArchiveCopy(last)] else [])
  }

  /** The records that stay active. */
  function Kept(rs: seq<Record>, cut: int, settled: set<nat>): seq<Record> {
    if rs == [] then []
    else
      var last := rs[|rs|-1];
      Kept(rs[..|rs|-1], cut, settled)
      + (if |rs| - 1 < cut && Archivable(last, settled) then [] else [last])
  }

  function Cut(j: Journal): int {
    |j.records| - ARCHIVE_KEEP
  }

  function ToArchive(j: Journal): seq<Record> {
    Retired(j.records, Cut(j), FinalNonces(Known(j)))
  }

  function ToKeep(j: Journal): seq<Record> {
    Kept(j.records, Cut(j), FinalNonces(Known(j)))
  }

  function FileOf(rs: seq<Record>): ArchiveFile
    requires rs != []
  {
    ArchiveFile(ArchiveName(rs[0].hash, rs[|rs|-1].hash), rs)
  }

  function ArchiveFinalized(j: Journal, fileOutcome: Outcome, activeOutcome: Outcome): Outcomes<nat> {
    var archive := ToArchive(j);
    if |j.records| < ARCHIVE_THRESHOLD || archive == [] then Outcomes(j, Ok(0))
    else
      var files := PutFile(j.disk.archives, FileOf(archive));
      var stored := j.(disk := j.disk.(archives := AfterWrite(j.disk.archives, files, fileOutcome)));
      if fileOutcome != Written then Outcomes(stored, Err(WriteFailed))
      else
        var after := Save(stored, ToKeep(j), activeOutcome);
        if activeOutcome != Written then Outcomes(after, Err(WriteFailed))
        else Outcomes(after.(archived := j.archived + archive), Ok(|archive|))
  }

  // ---------------------------------------------------------------- restart

  /** Records saved before versions existed read back as version 1. */
  function Loaded(r: Record): Record {
    if r.version == 0 then r.(version := 1) else r
  }

  function LoadedAll(rs: seq<Record>): (out: seq<Record>)
    ensures |out| == |rs| && forall i :: 0 <= i < |rs| ==> out[i] == Loaded(rs[i])
  {
    seq(|rs|, i requires 0 <= i < |rs| => Loaded(rs[i]))
  }

  function Flatten(files: seq<ArchiveFile>): seq<Record> {
    if files == [] then [] else Flatten(files[..|files|-1]) + files[|files|-1].records
  }

  /** The first record of each hash that is not in `seen`. */
  function FirstSeen(rs: seq<Record>, seen: set<Hash>): seq<Record> {
    if rs == [] then []
    else
      var front, last := rs[..|rs|-1], rs[|rs|-1];
      FirstSeen(front, seen)
      + (if last.hash in seen || last.hash in Hashes(front) then [] else [last])
  }

  predicate LoadableActive(disk: Disk, chainId: int) {
    disk.active.Some? ==>
      && |disk.active.value| <= CAPACITY
      && forall r :: r in disk.active.value ==> ValidRecord(r, chainId)
  }

  predicate LoadableArchives(disk: Disk, chainId: int) {
    forall f, r :: f in disk.archives && r in f.records ==> ValidRecord(r, chainId) && r.finalized
  }

  function Active(disk: Disk): seq<Record> {
    if disk.active.Some? then disk.active.value else []
  }

  function Load(disk: Disk, chainId: int): Result<Journal> {
    if !LoadableActive(disk, chainId) || !LoadableArchives(disk, chainId) then Err(CorruptFile)
    else
      var records := LoadedAll(Active(disk));
      Ok(Journal(chainId, records, FirstSeen(LoadedAll(Flatten(disk.archives)), Hashes(records)), disk))
  }
}
