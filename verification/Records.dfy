/** The journal's records, the signed transactions they carry, and the wallet directory
    they are stored in (internal/wallet/journal.go, types.go, keystore.go). */
module Records {

  datatype Option<+T> = None | Some(value: T)

  datatype Result<+T> = Ok(value: T) | Err(error: Error)

  datatype Error =
    | JournalFull
    | InvalidRecord
    | WriteFailed
    | RecordNotFound
    | CorruptFile

  /** A transaction hash: the 32 bytes read as a number. File names print it as fixed-width
      lower-case hex, so the order of names is the order of numbers. */
  type Hash = nat

  type Address = nat

  type QuoteId = string

  datatype State =
    | Pending
    | Submitted
    | BroadcastUnknown
    | ReceiptUnavailable
    | Succeeded
    | Reverted
    | ReorgDetected
    | Replaced

  predicate IsMined(state: State) {
    state == Succeeded || state == Reverted
  }

  /** What the signed bytes of a record decode to. `body` stands for target, value, calldata and gas. */
  datatype SignedTx = SignedTx(
    hash: Hash, chainId: int, sender: Address, nonce: nat, tip: nat, feeCap: nat, body: string)

  /** `raw` is None when the stored bytes do not decode. `display` stands for the address, amount,
      symbol, action and order fields, and `displayOk` for their agreement with the signed bytes. */
  datatype Record = Record(
    hash: Hash,
    quoteId: QuoteId,
    nonce: nat,
    raw: Option<SignedTx>,
    display: string,
    displayOk: bool,
    createdAt: nat,
    state: State,
    finalized: bool,
    updatedAt: nat,
    confirmations: string,
    fee: string,
    error: string,
    version: nat)

  predicate ValidQuoteId(id: QuoteId) {
    0 < |id| <= 128
  }

  predicate ValidRecord(r: Record, chainId: int) {
    && ValidQuoteId(r.quoteId)
    && r.displayOk
    && r.raw.Some?
    && r.raw.value.hash == r.hash
    && r.raw.value.chainId == chainId
  }

  /** The part of a record that no update may touch: the payment it stands for. */
  predicate SamePayment(a: Record, b: Record) {
    && a.hash == b.hash && a.quoteId == b.quoteId && a.nonce == b.nonce && a.raw == b.raw
    && a.display == b.display && a.displayOk == b.displayOk && a.createdAt == b.createdAt
  }

  predicate IsFinal(r: Record) {
    r.finalized && IsMined(r.state)
  }

  function Hashes(rs: seq<Record>): set<Hash> {
    set r | r in rs :: r.hash
  }

  function MinedNonces(rs: seq<Record>): set<nat> {
    set r | r in rs && IsMined(r.state) :: r.nonce
  }

  function FinalNonces(rs: seq<Record>): set<nat> {
    set r | r in rs && IsFinal(r) :: r.nonce
  }

  /** Archive files are named after the first and last hash they hold. */
  datatype ArchiveName = ArchiveName(first: Hash, last: Hash)

  datatype ArchiveFile = ArchiveFile(name: ArchiveName, records: seq<Record>)

  predicate NameLess(a: ArchiveName, b: ArchiveName) {
    a.first < b.first || (a.first == b.first && a.last < b.last)
  }

  /** The wallet directory: journal.json, if present, and the archive files in directory order. */
  datatype Disk = Disk(active: Option<seq<Record>>, archives: seq<ArchiveFile>)

  predicate Listed(files: seq<ArchiveFile>) {
    forall i, j :: 0 <= i < j < |files| ==> NameLess(files[i].name, files[j].name)
  }

  /** Writing a file replaces the one of the same name, if there is one. */
  function PutFile(files: seq<ArchiveFile>, file: ArchiveFile): (r: seq<ArchiveFile>)
    ensures Listed(files) ==> Listed(r)
    ensures Listed(files) ==> forall f :: f in r <==> f == file || (f in files && f.name != file.name)
  {
    if files == [] then [file]
    else
      assert files == [files[0]] + files[1..];
      if files[0].name == file.name then [file] + files[1..]
      else if NameLess(file.name, files[0].name) then [file] + files
      else
        var rest := PutFile(files[1..], file);
        assert Listed(files) ==> forall f :: f in rest ==> NameLess(files[0].name, f.name);
        [files[0]] + rest
  }

  /** A write either succeeds, or fails leaving the old file, or fails after the rename took
      effect. A crash during a write leaves one of the last two. */
  datatype Outcome = Written | FailedOld | FailedNew

  function AfterWrite<T>(old_: T, new_: T, outcome: Outcome): T {
    if outcome == FailedOld then old_ else new_
  }
}
