/** The wallet as a transition system: the critical sections of Send, Retry and History over one
    journal, with write faults and crashes (internal/wallet/service.go, nonce.go, quote.go).

    Send and Retry hold one lock from start to end, History another, so at most one of the first
    two and one History are under way; their steps interleave freely. A crash during a write is a
    failed write followed by Crash. */
module WalletRuns {
  import opened Records
  import opened Journal
  import opened Replacement

  /** A bound quote. For a replacement, `basis` holds the hashes recorded at its nonce when it
      was made; the source keeps, and compares, only their number. */
  datatype Quote = Quote(
    id: QuoteId, nonce: nat, fees: Fees, body: string, basis: Option<set<Hash>>)

  const QUOTE_CAPACITY: nat := 256

  predicate IsHexDigit(c: char) {
    '0' <= c <= '9' || 'a' <= c <= 'f' || 'A' <= c <= 'F'
  }

  predicate NewQuoteId(id: QuoteId) {
    |id| == 32 && forall c :: c in id ==> IsHexDigit(c)
  }

  /** Why a quote was let through to signing. */
  datatype Clearance =
    | NothingOpen              // every recorded nonce has an included transaction
    | OpenBelow(nonce: nat)    // every open nonce is below this finalized account nonce
    | Replacing                // the quote replaces transactions at its own nonce

  datatype SendPc =
    | Idle
    | Waiting(quote: Quote)                       // something is in flight: finality evidence is being fetched
    | Recounting(quote: Quote)                    // a replacement, before its nonce is checked again
    | Cleared(quote: Quote, clearance: Clearance) // all checks passed: about to sign and save
    | Saved(record: Record)                       // durably saved, not yet broadcast
    | RetryFound(record: Record)                  // Retry has read the record
    | RetryReady(record: Record)                  // ... and found its nonce without an included transaction
    | Sending(record: Record, retry: bool)        // the broadcast has been started

  datatype HistoryPc =
    | Resting
    | Refreshing(items: seq<Record>)

  /** What the chain answers about one hash. */
  datatype Answer =
    | Found(report: Report)
    | Missing
    | NoAnswer

  predicate ChainReport(report: Report) {
    && report.error == ""
    && report.state in {Succeeded, Reverted, ReorgDetected, Pending, ReceiptUnavailable}
    && (report.finalized ==> IsMined(report.state))
  }

  datatype Sent = Sent(record: Record, replacement: bool)

  /** `journal`, `fault`, `quotes`, `send` and `history` are the service's state. The rest only
      records what happened: the pairs broadcast, the records appended, the highest finalized
      nonce observed, and whether the chain ever took back an inclusion. */
  datatype World = World(
    account: Address,
    journal: Journal,
    fault: bool,
    quotes: map<QuoteId, Quote>,
    send: SendPc,
    history: HistoryPc,
    broadcast: set<(QuoteId, Hash)>,
    sent: seq<Sent>,
    observed: nat,
    demoted: bool)

  datatype Event =
    | AddQuote(quote: Quote)
    | AddReplacement(id: QuoteId, hash: Hash, suggestedTip: nat, baseFee: nat, body: string)
    | DropQuote(id: QuoteId)
    | SendBegin(id: QuoteId)
    | SendEvidence(evidence: Option<Evidence>)
    | SendRecount
    | SendRefuse
    | SendAppend(hash: Hash, display: string, displayOk: bool, now: nat, outcome: Outcome)
    | RetryBegin(hash: Hash)
    | RetryCheck
    | Broadcast
    | SendRecord(accepted: bool, error: string, now: nat, outcome: Outcome)
    | HistoryBegin
    | HistoryAnswer(item: nat, answer: Answer, now: nat, outcome: Outcome)
    | HistoryCut
    | HistoryArchive(fileOutcome: Outcome, activeOutcome: Outcome)
    | ObserveFinalized(nonce: nat)
    | Crash

  function RawOf(rs: seq<Record>): seq<SignedTx> {
    if rs == [] then []
    else RawOf(rs[..|rs|-1]) + (if rs[|rs|-1].raw.Some? then [rs[|rs|-1].raw.value] else [])
  }

  function SignedRecord(w: World, q: Quote, hash: Hash, display: string, displayOk: bool, now: nat): Record {
    Record(hash, q.id, q.nonce,
      Some(SignedTx(hash, w.journal.chainId, w.account, q.nonce, q.fees.tip, q.fees.feeCap, q.body)),
      display, displayOk, now, Pending, false, now, "", "", "", 1)
  }

  function HashesAt(rs: seq<Record>, nonce: nat): set<Hash> {
    Hashes(AtNonce(rs, nonce))
  }

  // ---------------------------------------------------------------- quotes

  predicate CanQuote(w: World, id: QuoteId) {
    w.send == Idle && !w.fault && NewQuoteId(id) && |w.quotes| < QUOTE_CAPACITY
  }

  function StepAddQuote(w: World, q: Quote): World {
    if CanQuote(w, q.id) && q.basis.None? then w.(quotes := w.quotes[q.id := q]) else w
  }

  function StepAddReplacement(w: World, id: QuoteId, hash: Hash, suggestedTip: nat, baseFee: nat, body: string): World {
    var known := Known(w.journal);
    var target := FirstByHash(known, hash);
    if !CanQuote(w, id) || target.None? || target.value.nonce in MinedNonces(known) then w
    else
      var prior := AtNonce(known, target.value.nonce);
      var q := Quote(id, target.value.nonce, ReplacementFees(RawOf(prior), suggestedTip, baseFee), body,
        Some(Hashes(prior)));
      w.(quotes := w.quotes[id := q])
  }

  // ---------------------------------------------------------------- Send

  function StepSendBegin(w: World, id: QuoteId): World {
    if w.send != Idle || w.fault || FindByQuoteId(w.journal, id).Some? || id !in w.quotes || w.quotes[id].id != id then w
    else
      var q := w.quotes[id];
      if q.basis.Some? then w.(send := Recounting(q))
      else if InFlight(Known(w.journal), None) then w.(send := Waiting(q))
      else w.(send := Cleared(q, NothingOpen))
  }

  function StepSendEvidence(w: World, evidence: Option<Evidence>): World {
    if !w.send.Waiting? then w
    else
      var q := w.send.quote;
      var seen := if evidence.Some? then w.(observed := Max(w.observed, evidence.value.nonce)) else w;
      if InFlight(Known(w.journal), evidence) then seen.(send := Idle)
      else if evidence.None? then seen.(send := Cleared(q, NothingOpen))
      else if q.nonce < evidence.value.nonce then seen.(send := Idle)
      else seen.(send := Cleared(q, OpenBelow(evidence.value.nonce)))
  }

  function StepSendRecount(w: World): World {
    if !w.send.Recounting? then w
    else
      var q := w.send.quote;
      var known := Known(w.journal);
      if q.basis.Some? && |AtNonce(known, q.nonce)| == |q.basis.value| && q.nonce !in MinedNonces(known)
      then w.(send := Cleared(q, Replacing))
      else w.(send := Idle)
  }

  /** Signing and saving. That an appended hash is new is taken from the hash function: the
      source does not check it. */
  function StepSendAppend(w: World, hash: Hash, display: string, displayOk: bool, now: nat, outcome: Outcome): World {
    if !w.send.Cleared? || hash in Hashes(Known(w.journal)) then w
    else
      var q := w.send.quote;
      var r := SignedRecord(w, q, hash, display, displayOk, now);
      var after := AppendAtomic(w.journal, r, outcome);
      var next := w.(journal := after.journal);
      match after.result
      case Ok(_) => next.(send := Saved(r), sent := w.sent + [Sent(r, q.basis.Some?)])
      case Err(JournalFull) => next.(send := Idle)
      case Err(_) => next.(send := Idle, fault := true)
  }

  // ---------------------------------------------------------------- Retry

  function StepRetryBegin(w: World, hash: Hash): World {
    var found := FirstByHash(Known(w.journal), hash);
    if w.send != Idle || w.fault || found.None? then w else w.(send := RetryFound(found.value))
  }

  function StepRetryCheck(w: World): World {
    if !w.send.RetryFound? then w
    else if w.send.record.nonce in MinedNonces(Known(w.journal)) then w.(send := Idle)
    else w.(send := RetryReady(w.send.record))
  }

  // ---------------------------------------------------------------- broadcasting

  function StepBroadcast(w: World): World {
    if w.send.Saved? || w.send.RetryReady? then
      var r := w.send.record;
      w.(send := Sending(r, w.send.RetryReady?), broadcast := w.broadcast + {(r.quoteId, r.hash)})
    else w
  }

  function BroadcastReport(accepted: bool, error: string): Report {
    Report(if accepted then Submitted else BroadcastUnknown, "", "", if accepted then "" else error, false)
  }

  function StepSendRecord(w: World, accepted: bool, error: string, now: nat, outcome: Outcome): World {
    if !w.send.Sending? then w
    else
      var r := w.send.record;
      var after := UpdateIfVersion(w.journal, r.hash, r.version, BroadcastReport(accepted, error), now, outcome);
      var next := w.(journal := after.journal, send := Idle);
      if after.result.Err? then next.(fault := true)
      else if w.send.retry then next
      else next.(quotes := w.quotes - {r.quoteId})
  }

  // ---------------------------------------------------------------- History

  const VANISHED := Report(BroadcastUnknown, "", "", "", false)

  function Without<T>(s: seq<T>, i: nat): seq<T>
    requires i < |s|
  {
    s[..i] + s[i + 1..]
  }

  /** The report an answer leads to, if any: a hash the chain no longer knows only matters if it
      was included. */
  function ReportOf(w: World, item: Record, answer: Answer): Option<Report> {
    match answer
    case Found(report) => if ChainReport(report) then Some(report) else None
    case Missing =>
      var current := FirstByHash(Known(w.journal), item.hash);
      if current.Some? && IsMined(current.value.state) then Some(VANISHED) else None
    case NoAnswer => None
  }

  function StepHistoryAnswer(w: World, i: nat, answer: Answer, now: nat, outcome: Outcome): World {
    if !w.history.Refreshing? || i >= |w.history.items| then w
    else
      var item := w.history.items[i];
      var rest := w.(history := Refreshing(Without(w.history.items, i)));
      var report := ReportOf(w, item, answer);
      if report.None? then rest
      else
        var after := UpdateIfVersion(w.journal, item.hash, item.version, report.value, now, outcome);
        var next := rest.(journal := after.journal,
          demoted := w.demoted || (IsMined(item.state) && !IsMined(report.value.state)));
        if after.result.Err? then next.(fault := true, history := Resting) else next
  }

  function StepHistoryArchive(w: World, fileOutcome: Outcome, activeOutcome: Outcome): World {
    if w.history != Refreshing([]) then w
    else
      var after := ArchiveFinalized(w.journal, fileOutcome, activeOutcome);
      var next := w.(journal := after.journal, history := Resting);
      if after.result.Err? then next.(fault := true) else next
  }

  // ---------------------------------------------------------------- runs

  /** A restart keeps only the files. */
  function StepCrash(w: World): World {
    match Load(w.journal.disk, w.journal.chainId)
    case Ok(j) => w.(journal := j, fault := false, quotes := map[], send := Idle, history := Resting)
    case Err(_) => w
  }

  function Next(w: World, e: Event): World {
    match e
    case AddQuote(q) => StepAddQuote(w, q)
    case AddReplacement(id, hash, tip, baseFee, body) => StepAddReplacement(w, id, hash, tip, baseFee, body)
    case DropQuote(id) => w.(quotes := w.quotes - {id})
    case SendBegin(id) => StepSendBegin(w, id)
    case SendEvidence(evidence) => StepSendEvidence(w, evidence)
    case SendRecount => StepSendRecount(w)
    case SendRefuse => if w.send.Saved? || w.send.Sending? then w else w.(send := Idle)
    case SendAppend(hash, display, ok, now, outcome) => StepSendAppend(w, hash, display, ok, now, outcome)
    case RetryBegin(hash) => StepRetryBegin(w, hash)
    case RetryCheck => StepRetryCheck(w)
    case Broadcast => StepBroadcast(w)
    case SendRecord(accepted, error, now, outcome) => StepSendRecord(w, accepted, error, now, outcome)
    case HistoryBegin => if w.history == Resting then w.(history := Refreshing(RefreshItems(w.journal))) else w
    case HistoryAnswer(i, answer, now, outcome) => StepHistoryAnswer(w, i, answer, now, outcome)
    case HistoryCut => if w.history.Refreshing? then w.(history := Refreshing([])) else w
    case HistoryArchive(a, b) => StepHistoryArchive(w, a, b)
    case ObserveFinalized(n) => w.(observed := Max(w.observed, n))
    case Crash => StepCrash(w)
  }

  function Run(w: World, events: seq<Event>): World {
    if events == [] then w else Next(Run(w, events[..|events|-1]), events[|events|-1])
  }

  /** A new wallet directory. */
  function Start(account: Address, chainId: int): World {
    World(account, Journal(chainId, [], [], Disk(None, [])), false, map[], Idle, Resting, {}, [], 0, false)
  }

  lemma {:induction false} RunConcat(w: World, a: seq<Event>, b: seq<Event>)
    ensures Run(w, a + b) == Run(Run(w, a), b)
  {
    if b == [] {
      assert a + b == a;
    } else {
      var front := b[..|b|-1];
      RunConcat(w, a, front);
      assert (a + b)[..|a + b|-1] == a + front;
    }
  }
}
