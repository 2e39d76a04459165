/** The wallet service: Quote for a replacement, Send, Retry and History as the source runs them,
    each proved to be a run of the wallet's steps (internal/wallet/service.go, replacement.go). */
module WalletService {
  import opened Records
  import opened Journal
  import J = Journal
  import opened JournalContents
  import opened JournalStore
  import opened Replacement
  import opened WalletAnswers
  import opened WalletRuns
  import JournalInvariant
  import WalletInvariant
  import WalletSteps

  /** What a signing attempt is given: the finality evidence, whether every remote check passes,
      the signed bytes' hash, and what the node says to the broadcast. */
  datatype Attempt = Attempt(
    evidence: Option<Evidence>, checksPass: bool, hash: Hash, display: string, displayOk: bool,
    accepted: bool, error: string, now: nat, saveOutcome: Outcome, recordOutcome: Outcome)

  datatype SendResult =
    | Faulted               // a storage fault was signalled earlier
    | Existing(record: Record)
    | Rejected              // nothing was saved and nothing was sent
    | NotSaved(error: Error) // the record may be on disk; nothing was sent
    | NotRecorded           // sent, but its outcome could not be stored
    | Answered(record: Record, state: Records.State)

  function SendEvents(id: QuoteId, a: Attempt): seq<Event> {
    [SendBegin(id), SendEvidence(a.evidence), SendRecount]
    + (if a.checksPass then [] else [SendRefuse])
    + [SendAppend(a.hash, a.display, a.displayOk, a.now, a.saveOutcome), Broadcast,
       SendRecord(a.accepted, a.error, a.now, a.recordOutcome)]
  }

  function RetryEvents(hash: Hash, decodes: bool, accepted: bool, error: string, now: nat, outcome: Outcome): seq<Event> {
    [RetryBegin(hash), RetryCheck] + (if decodes then [] else [SendRefuse])
    + [Broadcast, SendRecord(accepted, error, now, outcome)]
  }

  /** Whatever these methods do, they keep what holds in every run of the wallet. */
  lemma Keeps(w: World, events: seq<Event>)
    ensures WalletInvariant.Inv(w) ==> WalletInvariant.Inv(Run(w, events))
  {
    if WalletInvariant.Inv(w) {
      WalletSteps.RunInv(w, events);
    }
  }

  lemma RunNone(w: World)
    ensures Run(w, []) == w
  {
  }

  lemma RunNext(w: World, events: seq<Event>, e: Event)
    ensures Run(w, events + [e]) == Next(Run(w, events), e)
  {
    assert (events + [e])[..|events + [e]|-1] == events;
  }

  function Refused(w: World): World {
    if w.send.Saved? || w.send.Sending? then w else w.(send := Idle)
  }

  /** The world once the checks before signing are done. */
  function Checked(w: World, id: QuoteId, a: Attempt): World {
    var gone := StepSendRecount(StepSendEvidence(StepSendBegin(w, id), a.evidence));
    if a.checksPass then gone else Refused(gone)
  }

  function Signed(w: World, a: Attempt): World {
    StepSendAppend(w, a.hash, a.display, a.displayOk, a.now, a.saveOutcome)
  }

  function Dispatched(w: World, a: Attempt): World {
    StepSendRecord(StepBroadcast(w), a.accepted, a.error, a.now, a.recordOutcome)
  }

  lemma SendSteps(w: World, id: QuoteId, a: Attempt)
    ensures Next(w, SendBegin(id)) == StepSendBegin(w, id)
    ensures Next(w, SendEvidence(a.evidence)) == StepSendEvidence(w, a.evidence)
    ensures Next(w, SendRecount) == StepSendRecount(w)
    ensures Next(w, SendRefuse) == Refused(w)
    ensures Next(w, SendAppend(a.hash, a.display, a.displayOk, a.now, a.saveOutcome)) == Signed(w, a)
    ensures Next(w, Broadcast) == StepBroadcast(w)
    ensures Next(w, SendRecord(a.accepted, a.error, a.now, a.recordOutcome))
      == StepSendRecord(w, a.accepted, a.error, a.now, a.recordOutcome)
  {
    hide StepAddQuote, StepAddReplacement, StepSendBegin, StepSendEvidence, StepSendRecount, StepSendAppend,
      StepRetryBegin, StepRetryCheck, StepBroadcast, StepSendRecord, StepHistoryAnswer, StepHistoryArchive, StepCrash,
      RefreshItems;
  }

  lemma SendRun(w: World, id: QuoteId, a: Attempt)
    ensures Run(w, SendEvents(id, a)) == Dispatched(Signed(Checked(w, id, a), a), a)
  {
    hide Next, Run, StepSendBegin, StepSendEvidence, StepSendRecount, StepSendAppend, StepBroadcast, StepSendRecord, Refused;
    var begin, evidence := SendBegin(id), SendEvidence(a.evidence);
    var save := SendAppend(a.hash, a.display, a.displayOk, a.now, a.saveOutcome);
    var record := SendRecord(a.accepted, a.error, a.now, a.recordOutcome);
    var checks: seq<Event> := [] + [begin] + [evidence] + [SendRecount];
    RunNone(w);
    RunNext(w, [], begin);
    RunNext(w, [] + [begin], evidence);
    RunNext(w, [] + [begin] + [evidence], SendRecount);
    RunNext(w, checks, SendRefuse);
    var w1, w2 := StepSendBegin(w, id), StepSendEvidence(StepSendBegin(w, id), a.evidence);
    SendSteps(w, id, a);
    SendSteps(w1, id, a);
    SendSteps(w2, id, a);
    SendSteps(StepSendRecount(w2), id, a);
    var gone := if a.checksPass then checks else checks + [SendRefuse];
    var w3 := Checked(w, id, a);
    assert Run(w, gone) == w3;
    RunNext(w, gone, save);
    RunNext(w, gone + [save], Broadcast);
    RunNext(w, gone + [save] + [Broadcast], record);
    SendSteps(w3, id, a);
    SendSteps(Signed(w3, a), id, a);
    SendSteps(StepBroadcast(Signed(w3, a)), id, a);
    assert SendEvents(id, a) == gone + [save] + [Broadcast] + [record];
  }

  /** The world after Retry's two checks. */
  function Found(w: World, hash: Hash, decodes: bool): World {
    var ready := StepRetryCheck(StepRetryBegin(w, hash));
    if decodes then ready else Refused(ready)
  }

  lemma RetryRun(w: World, hash: Hash, decodes: bool, accepted: bool, error: string, now: nat, outcome: Outcome)
    ensures Run(w, RetryEvents(hash, decodes, accepted, error, now, outcome))
      == StepSendRecord(StepBroadcast(Found(w, hash, decodes)), accepted, error, now, outcome)
  {
    hide Run, StepAddQuote, StepAddReplacement, StepSendBegin, StepSendEvidence, StepSendRecount, StepSendAppend,
      StepRetryBegin, StepRetryCheck, StepBroadcast, StepSendRecord, StepHistoryAnswer, StepHistoryArchive, StepCrash,
      RefreshItems;
    var checks: seq<Event> := [] + [RetryBegin(hash)] + [RetryCheck];
    RunNone(w);
    RunNext(w, [], RetryBegin(hash));
    RunNext(w, [] + [RetryBegin(hash)], RetryCheck);
    RunNext(w, checks, SendRefuse);
    var gone := if decodes then checks else checks + [SendRefuse];
    assert Run(w, gone) == Found(w, hash, decodes);
    RunNext(w, gone, Broadcast);
    RunNext(w, gone + [Broadcast], SendRecord(accepted, error, now, outcome));
    assert RetryEvents(hash, decodes, accepted, error, now, outcome)
      == gone + [Broadcast] + [SendRecord(accepted, error, now, outcome)];
  }

  /** The hash is on record, and nothing is included at its nonce. */
  ghost predicate Replaceable(known: seq<Record>, hash: Hash) {
    var target := FirstByHash(known, hash);
    && target.Some?
    && forall m :: m in known && m.nonce == target.value.nonce ==> m.state != Succeeded && m.state != Reverted
  }

  lemma UpdateKeepsHashes(j: Journal, hash: Hash, version: nat, report: Report, now: nat, outcome: Outcome)
    ensures var k := UpdateIfVersion(j, hash, version, report, now, outcome).journal;
      Hashes(k.records) == Hashes(j.records)
  {
    var k := UpdateIfVersion(j, hash, version, report, now, outcome).journal;
    if k.records != j.records {
      forall h ensures h in Hashes(k.records) <==> h in Hashes(j.records) {
        assert forall i :: 0 <= i < |j.records| ==> k.records[i].hash == j.records[i].hash && k.records[i] in k.records;
      }
    }
  }

  lemma IdleDispatch(w: World, a: Attempt)
    requires w.send == Idle
    ensures Dispatched(w, a) == w
  {
  }

  /** Broadcasting and recording, together. */
  lemma DeliverStep(w: World, record: Record, retry: bool, accepted: bool, error: string, now: nat, outcome: Outcome)
    ensures var after := UpdateIfVersion(w.journal, record.hash, record.version, BroadcastReport(accepted, error), now, outcome);
      StepSendRecord(StepBroadcast(w.(send := if retry then RetryReady(record) else Saved(record))), accepted, error, now, outcome)
      == w.(journal := after.journal, send := Idle, broadcast := w.broadcast + {(record.quoteId, record.hash)},
            fault := w.fault || after.result.Err?,
            quotes := if retry || after.result.Err? then w.quotes else w.quotes - {record.quoteId})
  {
    hide UpdateIfVersion, BroadcastReport;
  }

  /** The record at this place says what the node answered, and so does the reply. */
  predicate DeliveredAt(record: Record, after: seq<Record>, i: nat, accepted: bool, error: string, state: Records.State) {
    i < |after| && SamePayment(record, after[i]) && Tells(after[i], accepted, error) && after[i].state == state
  }

  /** What a broadcast comes to for a record that is the active one of its hash: if the write succeeds the
      call is answered, and then the record says what the node did, and so does the answer. */
  ghost predicate Delivered(record: Record, before: seq<Record>, after: seq<Record>, accepted: bool, error: string,
    outcome: Outcome, result: SendResult)
  {
    forall i: nat :: FirstAt(before, record.hash, i) && before[i] == record ==>
      && (outcome == Written ==> result.Answered?)
      && (result.Answered? ==> DeliveredAt(record, after, i, accepted, error, result.state))
  }

  lemma DeliverStores(j: Journal, record: Record, accepted: bool, error: string, now: nat, outcome: Outcome)
    ensures var report := BroadcastReport(accepted, error);
      var after := UpdateIfVersion(j, record.hash, record.version, report, now, outcome);
      && (after.result.Err? ==>
           && after.journal.records == j.records
           && Delivered(record, j.records, after.journal.records, accepted, error, outcome, NotRecorded))
      && (forall result: SendResult ::
           after.result.Ok? && result.Answered? && (after.result.value ==> result.state == report.state) ==>
             Delivered(record, j.records, after.journal.records, accepted, error, outcome, result))
  {
    hide UpdateIfVersion, Stores;
    var report := BroadcastReport(accepted, error);
    var after := UpdateIfVersion(j, record.hash, record.version, report, now, outcome);
    UpdateStores(j, record.hash, record.version, report, now, outcome);
    hide Updated;
    forall i: nat | FirstAt(j.records, record.hash, i) && j.records[i] == record
      ensures outcome == Written ==> after.result.Ok?
      ensures after.result.Ok? ==> after.result.value
      ensures after.result.Ok? ==> DeliveredAt(record, after.journal.records, i, accepted, error, report.state)
    {
      UpdatedAt(j, record.hash, record.version, report, now, after.journal, after.result, i);
      if after.result == Ok(true) {
        StoredTells(record, after.journal.records, i, accepted, error, now);
      }
    }
  }

  lemma StoredTells(record: Record, after: seq<Record>, i: nat, accepted: bool, error: string, now: nat)
    requires i < |after| && Stores(record, after[i], BroadcastReport(accepted, error), now)
    ensures DeliveredAt(record, after, i, accepted, error, BroadcastReport(accepted, error).state)
  {
  }

  /** The signed transaction of a quote is on record, saying what the node answered. */
  ghost predicate Paid(records: seq<Record>, q: Quote, a: Attempt, chainId: int, account: Address, state: Records.State) {
    exists r :: r in records && PaysQuote(r, q, a.hash, chainId, account) && Tells(r, a.accepted, a.error) && state == r.state
  }

  lemma DeliveredPays(record: Record, after: seq<Record>, i: nat, a: Attempt, state: Records.State, q: Quote, chainId: int,
    account: Address)
    requires DeliveredAt(record, after, i, a.accepted, a.error, state) && PaysQuote(record, q, a.hash, chainId, account)
    ensures Paid(after, q, a, chainId, account, state)
  {
    assert after[i] in after;
  }

  /** What Retry answers: an included nonce is reported and not sent again. */
  ghost predicate RetryOutcome(known: seq<Record>, hash: Hash, decodes: bool, result: SendResult) {
    match FirstByHash(known, hash)
    case None => result.Rejected?
    case Some(found) =>
      if exists m :: m in known && m.nonce == found.nonce && (m.state == Succeeded || m.state == Reverted) then
        result == Existing(if found.state == Succeeded || found.state == Reverted then found else found.(state := Replaced))
      else if !decodes then result.Rejected?
      else result.Answered? || result.NotRecorded?
  }

  lemma RetryTells(j: Journal, after: seq<Record>, record: Record, accepted: bool, error: string, outcome: Outcome,
    result: SendResult)
    requires Delivered(record, j.records, after, accepted, error, outcome, result)
    requires FirstByHash(Known(j), record.hash) == Some(record)
    ensures result.Answered? && record.hash !in Hashes(j.archived) ==>
      exists r :: r in after && r.hash == record.hash && Tells(r, accepted, error) && result.state == r.state
    ensures outcome == Written && record.hash !in Hashes(j.archived) ==> result.Answered?
  {
    hide Tells, FirstByHash, Hashes;
    if record.hash !in Hashes(j.archived) {
      var i := FirstActive(j.archived, j.records, record.hash);
      if result.Answered? {
        assert after[i] in after;
      }
    }
  }

  lemma IdleRetry(w: World, accepted: bool, error: string, now: nat, outcome: Outcome)
    requires w.send == Idle
    ensures StepSendRecord(StepBroadcast(w), accepted, error, now, outcome) == w
  {
  }

  /** Retry's two checks, together. */
  lemma RetrySteps(w: World, hash: Hash)
    requires w.send == Idle
    ensures var found := FirstByHash(Known(w.journal), hash);
      StepRetryCheck(StepRetryBegin(w, hash))
        == if w.fault || found.None? || found.value.nonce in MinedNonces(Known(w.journal)) then w
           else w.(send := RetryReady(found.value))
    ensures FirstByHash(Known(w.journal), hash).Some? ==> hash in Hashes(Known(w.journal))
  {
    hide MinedNonces, FirstByHash;
  }

  lemma LastIsFirst(records: seq<Record>, r: Record)
    requires r.hash !in Hashes(records)
    ensures FirstAt(records + [r], r.hash, |records|)
  {
    assert forall k :: 0 <= k < |records| ==> records[k] in records;
  }

  lemma KnownHashes(j: Journal, hash: Hash)
    requires hash !in Hashes(Known(j))
    ensures hash !in Hashes(j.records)
  {
    assert forall r :: r in j.records ==> r in Known(j);
  }

  lemma StoppedRun(w: World, a: Attempt)
    requires w.send == Idle
    ensures Dispatched(Signed(w, a), a) == w
  {
  }

  lemma SameReport(w: World, rest: seq<Record>, item: Record, answer: Answer)
    ensures ReportOf(w.(history := Refreshing(rest)), item, answer) == ReportOf(w, item, answer)
  {
    hide Known;
  }

  lemma BeginHistory(w: World)
    requires w.history == Resting
    ensures Run(w, [] + [HistoryBegin]) == w.(history := Refreshing(RefreshItems(w.journal)))
  {
    hide Run, RefreshItems;
    RunNone(w);
    RunNext(w, [], HistoryBegin);
  }

  lemma CutAndArchive(w: World, fileOutcome: Outcome, activeOutcome: Outcome)
    requires w.history.Refreshing?
    ensures var after := J.ArchiveFinalized(w.journal, fileOutcome, activeOutcome);
      Next(Next(w, HistoryCut), HistoryArchive(fileOutcome, activeOutcome))
      == w.(journal := after.journal, history := Resting, fault := w.fault || after.result.Err?)
  {
    hide J.ArchiveFinalized;
  }

  lemma Observing(w: World, n: nat)
    ensures Next(w, ObserveFinalized(n)) == w.(observed := Max(w.observed, n))
  {
  }

  /** What the chain says to one query of History, and how the write it leads to goes. */
  datatype Reply = Reply(answer: Answer, now: nat, outcome: Outcome)

  /** What is left to visit after `i` visits from position `s`. */
  function Rest<T>(items: seq<T>, s: nat, i: nat): seq<T>
    requires s <= |items| && i <= |items|
  {
    if s + i <= |items| then items[..s] + items[s + i..] else items[s + i - |items|..s]
  }

  lemma Remove<T>(a: seq<T>, b: seq<T>)
    requires b != []
    ensures (a + b)[|a|] == b[0] && Without(a + b, |a|) == a + b[1..]
  {
  }

  lemma RestStep<T>(items: seq<T>, s: nat, i: nat)
    requires s < |items| && i < |items|
    ensures var p := if s + i < |items| then s else 0;
      && p < |Rest(items, s, i)|
      && Rest(items, s, i)[p] == items[if s + i < |items| then s + i else s + i - |items|]
      && Without(Rest(items, s, i), p) == Rest(items, s, i + 1)
  {
    if s + i < |items| {
      Remove(items[..s], items[s + i..]);
      assert items[s + i..][1..] == items[s + i + 1..];
    } else {
      var m := s + i - |items|;
      assert Rest(items, s, i) == items[m..s];
      Remove([], items[m..s]);
      assert [] + items[m..s] == items[m..s];
      assert items[m..s][1..] == items[m + 1..s];
    }
  }

  lemma RestAll<T>(items: seq<T>, s: nat)
    requires s <= |items|
    ensures Rest(items, s, 0) == items
  {
  }

  /** Of the items, as many as come before the limit have their answers in these records, in turn from `start`. */
  ghost predicate AllAnswered(records: seq<Record>, items: seq<Record>, start: nat, replies: nat -> Reply, limit: nat) {
    forall k :: 0 <= k < |items| && k < limit ==> HasAnswer(records, items, Slot(|items|, start, k), replies(k).answer)
  }

  ghost predicate AnswersKept(known: seq<Record>, items: seq<Record>, start: nat, replies: nat -> Reply, limit: nat) {
    forall k :: 0 <= k < |items| && k < limit ==>
      var s := Slot(|items|, start, k);
      s < |items| && AnswerKept(known, items[s], replies(k).answer)
  }

  lemma AnswersArchived(j: Journal, fileOutcome: Outcome, activeOutcome: Outcome, items: seq<Record>, start: nat,
    replies: nat -> Reply, limit: nat)
    requires AllAnswered(j.records, items, start, replies, limit)
    ensures AnswersKept(Known(J.ArchiveFinalized(j, fileOutcome, activeOutcome).journal), items, start, replies, limit)
  {
    hide ShowsAnswer, AnswerKept, Known, J.ArchiveFinalized, Slot;
    var known := Known(J.ArchiveFinalized(j, fileOutcome, activeOutcome).journal);
    forall k | 0 <= k < |items| && k < limit
      ensures Slot(|items|, start, k) < |items| && AnswerKept(known, items[Slot(|items|, start, k)], replies(k).answer)
    {
      var s := Slot(|items|, start, k);
      assert HasAnswer(j.records, items, s, replies(k).answer);
      var r :| r in j.records && ShowsAnswer(r, items[s], replies(k).answer);
      ArchivedAnswer(j, fileOutcome, activeOutcome, items[s], replies(k).answer, r);
    }
  }

  lemma AnswersStay(w0: World, j: Journal, fileOutcome: Outcome, activeOutcome: Outcome, items: seq<Record>, start: nat,
    replies: nat -> Reply, limit: nat)
    requires WalletInvariant.Inv(w0) ==> AllAnswered(j.records, items, start, replies, limit)
    ensures WalletInvariant.Inv(w0) ==>
      AnswersKept(Known(J.ArchiveFinalized(j, fileOutcome, activeOutcome).journal), items, start, replies, limit)
  {
    hide WalletInvariant.Inv, AllAnswered, AnswersKept, J.ArchiveFinalized;
    if WalletInvariant.Inv(w0) {
      AnswersArchived(j, fileOutcome, activeOutcome, items, start, replies, limit);
    }
  }

  lemma NobodyAsked(records: seq<Record>, start: nat, replies: nat -> Reply, limit: nat)
    ensures AllAnswered(records, [], start, replies, limit)
  {
  }

  lemma AnsweredAll(w0: World, records: seq<Record>, items: seq<Record>, start: nat, replies: nat -> Reply, answers: nat -> Answer,
    i: nat, limit: nat)
    requires items != [] && (i == |items| || i == limit)
    requires forall k :: answers(k) == replies(k).answer
    requires WalletInvariant.Inv(w0) ==> AnsweredTo(records, items, start, answers, i)
    ensures WalletInvariant.Inv(w0) ==> AllAnswered(records, items, start, replies, limit)
  {
    hide WalletInvariant.Inv, HasAnswer, Holds, Slot;
  }

  lemma ItemsListed(w0: World, items: seq<Record>, start: nat, answers: nat -> Answer)
    requires items != [] && items == RefreshItems(w0.journal)
    ensures WalletInvariant.Inv(w0) ==> Apiece(items) && AnsweredTo(w0.journal.records, items, start, answers, 0)
  {
    hide Known, FinalNonces, Apiece, AnsweredTo;
    if WalletInvariant.Inv(w0) {
      KnownUnique(w0);
      RecordsUnique(w0.journal);
      ListedApiece(w0.journal.records, FinalNonces(Known(w0.journal)));
      NothingAnswered(w0.journal.records, items, start, answers);
    }
  }

  lemma KnownUnique(w: World)
    requires WalletInvariant.Inv(w)
    ensures JournalInvariant.Unique(Known(w.journal))
  {
  }

  /** One visit of a run of History adds one answer. */
  lemma VisitShown(w0: World, events: seq<Event>, items: seq<Record>, start: nat, answers: nat -> Answer, i: nat, e: Event)
    requires i < |items| && Slot(|items|, start, 0) < |items|
    requires WalletInvariant.Inv(w0) ==> Apiece(items) && AnsweredTo(Run(w0, events).journal.records, items, start, answers, i)
    requires Run(w0, events).history == Refreshing(Rest(items, Slot(|items|, start, 0), i))
    requires e.HistoryAnswer? && e.answer == answers(i)
    requires e.item == if Slot(|items|, start, 0) + i < |items| then Slot(|items|, start, 0) else 0
    ensures var after := Next(Run(w0, events), e);
      WalletInvariant.Inv(w0) ==>
        && (after.history.Refreshing? ==> AnsweredTo(after.journal.records, items, start, answers, i + 1))
        && (e.outcome == Written ==> after.history.Refreshing?)
  {
    hide Run, Next, Rest, Slot, HasAnswer, Apiece, ShowsAnswer, WalletInvariant.Inv;
    if WalletInvariant.Inv(w0) {
      var w, n := Run(w0, events), |items|;
      WalletSteps.RunInv(w0, events);
      KnownUnique(w);
      SlotTurn(n, start, i);
      RestStep(items, Slot(n, start, 0), i);
      assert Holds(w.journal.records, items, Slot(n, start, i));
      AnswerShown(w, e.item, e.answer, e.now, e.outcome);
      var after := Next(w, e);
      if after.history.Refreshing? {
        ShownHas(after.journal.records, items, Slot(n, start, i), e.answer);
        OneAnswered(w.journal.records, after.journal.records, items, start, answers, i);
      }
    }
  }

  lemma ShownHas(records: seq<Record>, items: seq<Record>, s: nat, answer: Answer)
    requires s < |items| && exists r :: r in records && ShowsAnswer(r, items[s], answer)
    ensures HasAnswer(records, items, s, answer)
  {
  }

  /** How many records are queried before the deadline. */
  function Visits(n: nat, limit: nat, late: bool): nat {
    if limit >= n then n else if late then limit + 1 else limit
  }

  lemma VisitsAre(n: nat, limit: nat, late: bool, i: nat)
    requires i <= n && i <= limit && (i == n || i == limit)
    ensures Visits(n, limit, late) == if i < n && late then i + 1 else i
  {
  }

  /** What Send's checks leave behind. */
  ghost predicate GateOk(gate: Gate, w: World, id: QuoteId) {
    match gate
    case Stop(result) =>
      && w.send == Idle
      && match result {
        case Existing(record) => FindByQuoteId(w.journal, id) == Some(record)
        case _ => result.Faulted? || result.Rejected?
      }
    case Go(q) =>
      && w.send.Cleared? && w.send.quote == q && q.id == id && id in w.quotes && w.quotes[id] == q
      && !w.fault && FindByQuoteId(w.journal, id).None?
  }

  datatype Gate = Stop(result: SendResult) | Go(quote: Quote)

  class Service {
    const account: Address
    const journal: JournalManager
    var storageFault: bool
    var quotes: map<QuoteId, Quote>
    var historyOffset: nat

    // what happened so far
    ghost var broadcast: set<(QuoteId, Hash)>
    ghost var sent: seq<Sent>
    ghost var observed: nat
    ghost var demoted: bool

    ghost function World(): World
      reads this, journal
    {
      WalletRuns.World(account, journal.State(), storageFault, quotes, Idle, Resting, broadcast, sent, observed, demoted)
    }

    constructor (account: Address, journal: JournalManager)
      ensures this.journal == journal && this.account == account
      ensures World() == WalletRuns.World(account, journal.State(), false, map[], Idle, Resting, {}, [], 0, false)
    {
      this.account, this.journal := account, journal;
      storageFault, quotes, historyOffset := false, map[], 0;
      broadcast, sent, observed, demoted := {}, [], 0, false;
    }

    /** Speed-up or cancellation of a recorded transaction. */
    method QuoteReplacement(id: QuoteId, hash: Hash, suggestedTip: nat, baseFee: nat, body: string) returns (added: bool)
      modifies this`quotes
      ensures World() == Next(old(World()), AddReplacement(id, hash, suggestedTip, baseFee, body))
      ensures added <==> !storageFault && |old(quotes)| < 256 && NewQuoteId(id) && Replaceable(Known(journal.State()), hash)
      ensures added ==>
        && id in quotes && quotes == old(quotes)[id := quotes[id]]
        && QuotesReplacement(quotes[id], id, hash, body, Known(journal.State()), suggestedTip, baseFee)
      ensures !added ==> quotes == old(quotes)
    {
      hide RawOf, ReplacementFees, Known, MinedNonces, Suffices, QuotesReplacement;
      if storageFault || |quotes| >= QUOTE_CAPACITY || !NewQuoteId(id) {
        return false;
      }
      var target := journal.FindByHash(hash);
      if target.None? {
        return false;
      }
      var mined := journal.NonceMined(target.value.nonce);
      if mined {
        return false;
      }
      var prior := journal.NonceRecords(target.value.nonce);
      var raws := RawOf(prior);
      var tip, fee := QuoteFees(raws, suggestedTip, baseFee);
      var quote := Quote(id, target.value.nonce, Fees(tip, fee), body, Some(Hashes(prior)));
      quotes := quotes[id := quote];
      added := true;
      LeastQuoted(quote, target.value, id, body, Known(journal.State()), suggestedTip, baseFee);
    }

    /** Whether what is on record lets a quote through. */
    method Clear(id: QuoteId, evidence: Option<Evidence>) returns (clear: bool)
      requires !storageFault && FindByQuoteId(journal.State(), id).None? && id in quotes && quotes[id].id == id
      modifies this`observed
      ensures var w := StepSendRecount(StepSendEvidence(StepSendBegin(old(World()), id), evidence));
        && w == World().(send := w.send)
        && if clear then w.send.Cleared? && w.send.quote == quotes[id] else w.send == Idle
      ensures clear <==> MaySend(Known(journal.State()), quotes[id], evidence)
    {
      hide InFlight, FindByQuoteId, MinedNonces, AtNonce, Known, StillOpen;
      var quote := quotes[id];
      if quote.basis.None? {
        var inFlight := journal.HasInFlightTx(None);
        if !inFlight {
          return true;
        }
        if evidence.Some? {
          observed := Max(observed, evidence.value.nonce);
        }
        var blocked := journal.HasInFlightTx(evidence);
        clear := !blocked && (evidence.Some? ==> quote.nonce >= evidence.value.nonce);
      } else {
        var there := journal.NonceRecords(quote.nonce);
        if |there| != |quote.basis.value| {
          return false;
        }
        var mined := journal.NonceMined(quote.nonce);
        clear := !mined;
      }
    }

    /** Everything Send does before it signs. */
    method Check(id: QuoteId, a: Attempt) returns (gate: Gate)
      modifies this`observed
      ensures var w := Checked(old(World()), id, a); w == World().(send := w.send) && GateOk(gate, w, id)
      ensures gate == Stop(Faulted) <==> storageFault
      ensures gate.Stop? && gate.result.Existing? <==> !storageFault && FindByQuoteId(journal.State(), id).Some?
      ensures gate.Go? <==>
        && !storageFault && FindByQuoteId(journal.State(), id).None?
        && Payable(Known(journal.State()), quotes, id, a.checksPass, a.evidence)
    {
      hide InFlight, FindByQuoteId, Known, MaySend;
      if storageFault {
        return Stop(Faulted);
      }
      var existing := journal.FindByQuoteID(id);
      if existing.Some? {
        return Stop(Existing(existing.value));
      }
      if id !in quotes || quotes[id].id != id {
        return Stop(Rejected);
      }
      var clear := Clear(id, a.evidence);
      gate := if clear && a.checksPass then Go(quotes[id]) else Stop(Rejected);
    }

    method SaveSigned(quote: Quote, a: Attempt) returns (saved: Result<Record>)
      requires a.hash !in Hashes(Known(journal.State())) && !storageFault
      modifies this`storageFault, this`sent, journal
      ensures forall c :: var w := Signed(old(World()).(send := Cleared(quote, c)), a);
        w == World().(send := if saved.Ok? then Saved(saved.value) else Idle)
      ensures saved.Ok? <==>
        |old(journal.State()).records| < 1000 && ValidQuoteId(quote.id) && a.displayOk && a.saveOutcome == Written
      ensures saved.Ok? ==> PaysQuote(saved.value, quote, a.hash, journal.chainId, account) && saved.value.state == Pending
      ensures saved.Ok? ==> saved.value.hash == a.hash && saved.value.quoteId == quote.id
      ensures saved.Ok? ==> saved.value.display == a.display && saved.value.createdAt == a.now && !saved.value.finalized
      ensures saved.Ok? ==> !storageFault && journal.State().records == old(journal.State()).records + [saved.value]
      ensures saved.Err? ==> journal.State().records == old(journal.State()).records
      ensures storageFault <==> saved.Err? && saved.error != JournalFull
      ensures journal.State().archived == old(journal.State()).archived
    {
      hide Known, Hashes;
      var record := Record(a.hash, quote.id, quote.nonce,
        Some(SignedTx(a.hash, journal.chainId, account, quote.nonce, quote.fees.tip, quote.fees.feeCap, quote.body)),
        a.display, a.displayOk, a.now, Pending, false, a.now, "", "", "", 1);
      var version := journal.AppendAtomic(record, a.saveOutcome);
      if version.Err? {
        if version.error != JournalFull {
          storageFault := true;
        }
        return Err(version.error);
      }
      sent := sent + [Sent(record, quote.basis.Some?)];
      saved := Ok(record);
    }

    /** Broadcast a record that is already saved, and store what came of it unless the record has
        changed meanwhile. */
    method Deliver(record: Record, retry: bool, accepted: bool, error: string, now: nat, outcome: Outcome)
      returns (result: SendResult)
      modifies this`storageFault, this`quotes, this`broadcast, journal
      ensures World() == StepSendRecord(
        StepBroadcast(old(World()).(send := if retry then RetryReady(record) else Saved(record))), accepted, error, now, outcome)
      ensures result.NotRecorded? || result.Answered?
      ensures broadcast == old(broadcast) + {(record.quoteId, record.hash)}
      ensures Hashes(journal.State().records) == Hashes(old(journal.State()).records)
      ensures result.Answered? ==> storageFault == old(storageFault) && (!retry ==> record.quoteId !in quotes)
      ensures retry ==> quotes == old(quotes)
      ensures result.NotRecorded? ==> storageFault && journal.State().records == old(journal.State()).records
      ensures Delivered(record, old(journal.State()).records, journal.State().records, accepted, error, outcome, result)
    {
      hide Known, UpdateIfVersion, Hashes, FirstByHash, Updated, Delivered, StepSendRecord, StepBroadcast;
      DeliverStep(World(), record, retry, accepted, error, now, outcome);
      DeliverStores(journal.State(), record, accepted, error, now, outcome);
      broadcast := broadcast + {(record.quoteId, record.hash)};
      var report := BroadcastReport(accepted, error);
      UpdateKeepsHashes(journal.State(), record.hash, record.version, report, now, outcome);
      var updated := journal.UpdateStateAtomicIfVersion(record.hash, record.version, report, now, outcome);
      if updated.Err? {
        storageFault := true;
        return NotRecorded;
      }
      if !retry {
        quotes := quotes - {record.quoteId};
      }
      if !updated.value {
        var latest := journal.FindByHash(record.hash);
        if latest.Some? {
          return Answered(latest.value, latest.value.state);
        }
      }
      result := Answered(record, report.state);
    }

    /** Sign, save, then broadcast. */
    method Pay(quote: Quote, a: Attempt) returns (result: SendResult)
      requires a.hash !in Hashes(Known(journal.State())) && !storageFault
      modifies this`storageFault, this`sent, this`quotes, this`broadcast, journal
      ensures forall c :: World() == Dispatched(Signed(old(World()).(send := Cleared(quote, c)), a), a)
      ensures result.NotSaved? || result.NotRecorded? || result.Answered?
      ensures result.NotSaved? <==>
        |old(journal.State()).records| >= 1000 || !ValidQuoteId(quote.id) || !a.displayOk || a.saveOutcome != Written
      ensures result.NotSaved? ==> broadcast == old(broadcast) && journal.State().records == old(journal.State()).records
      ensures !result.NotSaved? ==>
        broadcast == old(broadcast) + {(quote.id, a.hash)} && a.hash in Hashes(journal.State().records)
      ensures result.NotRecorded? ==> a.recordOutcome != Written && storageFault
      ensures result.Answered? ==>
        && quote.id !in quotes && !storageFault
        && Paid(journal.State().records, quote, a, journal.chainId, account, result.state)
    {
      hide Signed, StepBroadcast, StepSendRecord, Known, PaysQuote, Tells, ValidQuoteId, SamePayment, DeliveredAt, Paid, FirstAt;
      ghost var w, before := World(), journal.State();
      KnownHashes(before, a.hash);
      var saved := SaveSigned(quote, a);
      if saved.Err? {
        IdleDispatch(World(), a);
        return NotSaved(saved.error);
      }
      assert saved.value in journal.State().records;
      LastIsFirst(before.records, saved.value);
      result := Deliver(saved.value, false, a.accepted, a.error, a.now, a.recordOutcome);
      if result.Answered? {
        DeliveredPays(saved.value, journal.State().records, |before.records|, a, result.state, quote, journal.chainId, account);
      }
    }

    /** Checks the quote, and then pays it. */
    method Send(id: QuoteId, a: Attempt) returns (result: SendResult)
      requires a.hash !in Hashes(Known(journal.State()))
      modifies this, journal
      ensures World() == Run(old(World()), SendEvents(id, a))
      ensures WalletInvariant.Inv(old(World())) ==> WalletInvariant.Inv(World())
      ensures result.Faulted? <==> old(storageFault)
      ensures result.Existing? <==> !old(storageFault) && FindByQuoteId(old(journal.State()), id).Some?
      ensures result.Existing? ==> FindByQuoteId(journal.State(), id) == Some(result.record)
      ensures !result.Faulted? && !result.Existing? ==>
        (result.Rejected? <==> !Payable(Known(old(journal.State())), old(quotes), id, a.checksPass, a.evidence))
      ensures result.Rejected? || result.Existing? || result.Faulted? ==>
        journal.State() == old(journal.State()) && broadcast == old(broadcast) && storageFault == old(storageFault)
      ensures !result.Faulted? && !result.Existing? && !result.Rejected? ==>
        (result.NotSaved? <==>
          |old(journal.State()).records| >= 1000 || !ValidQuoteId(id) || !a.displayOk || a.saveOutcome != Written)
      ensures result.NotSaved? ==> broadcast == old(broadcast) && journal.State().records == old(journal.State()).records
      ensures result.NotRecorded? || result.Answered? ==>
        && broadcast == old(broadcast) + {(id, a.hash)}
        && a.hash in Hashes(journal.State().records)
      ensures result.NotRecorded? ==> a.recordOutcome != Written && storageFault
      ensures result.Answered? ==>
        && id in old(quotes) && id !in quotes && !storageFault
        && Paid(journal.State().records, old(quotes)[id], a, journal.chainId, account, result.state)
    {
      hide Run, SendEvents, Checked, Signed, Dispatched, Known, FindByQuoteId, WalletInvariant.Inv, Payable, Paid,
        ValidQuoteId, Hashes;
      SendRun(World(), id, a);
      Keeps(World(), SendEvents(id, a));
      ghost var w := Checked(World(), id, a);
      var gate := Check(id, a);
      if gate.Stop? {
        StoppedRun(w, a);
        return gate.result;
      }
      assert w.(send := Cleared(gate.quote, w.send.clearance)) == w;
      result := Pay(gate.quote, a);
    }

    /** Broadcast the stored bytes again, unless the nonce already has an included transaction.
        `decodes` says whether the stored bytes decode to this hash and chain. */
    method Retry(hash: Hash, decodes: bool, accepted: bool, error: string, now: nat, outcome: Outcome)
      returns (result: SendResult)
      modifies this, journal
      ensures World() == Run(old(World()), RetryEvents(hash, decodes, accepted, error, now, outcome))
      ensures WalletInvariant.Inv(old(World())) ==> WalletInvariant.Inv(World())
      ensures journal.State().records != old(journal.State()).records || broadcast != old(broadcast) ==>
        hash in Hashes(old(Known(journal.State()))) && (result.Answered? || result.NotRecorded?)
      ensures result.Faulted? <==> old(storageFault)
      ensures !result.Faulted? ==> RetryOutcome(Known(old(journal.State())), hash, decodes, result)
      ensures result.Answered? && hash !in Hashes(old(journal.State()).archived) ==>
        exists r :: r in journal.State().records && r.hash == hash && Tells(r, accepted, error) && result.state == r.state
      ensures outcome == Written && hash !in Hashes(old(journal.State()).archived) ==> !result.NotRecorded?
      ensures quotes == old(quotes)
    {
      hide Run, RetryEvents, Known, MinedNonces, UpdateIfVersion, WalletInvariant.Inv, StepRetryBegin, StepRetryCheck, StepSendRecord,
        StepBroadcast, Delivered, Tells, FirstByHash, Hashes;
      IdleRetry(World(), accepted, error, now, outcome);
      RetryRun(World(), hash, decodes, accepted, error, now, outcome);
      Keeps(World(), RetryEvents(hash, decodes, accepted, error, now, outcome));
      RetrySteps(World(), hash);
      if storageFault {
        return Faulted;
      }
      var record := journal.FindByHash(hash);
      if record.None? {
        return Rejected;
      }
      var mined := journal.NonceMined(record.value.nonce);
      if mined {
        return Existing(if IsMined(record.value.state) then record.value else record.value.(state := Replaced));
      }
      if !decodes {
        return Rejected;
      }
      ghost var before := journal.State();
      result := Deliver(record.value, true, accepted, error, now, outcome);
      RetryTells(before, journal.State().records, record.value, accepted, error, outcome, result);
    }

    /** What an answer says about a record: nothing, a report, or that an inclusion vanished. */
    method Judge(item: Record, answer: Answer) returns (report: Option<Report>)
      ensures report == ReportOf(World(), item, answer)
    {
      hide Known;
      match answer {
        case Found(said) =>
          report := if ChainReport(said) then Some(said) else None;
        case Missing =>
          var current := journal.FindByHash(item.hash);
          report := if current.Some? && IsMined(current.value.state) then Some(VANISHED) else None;
        case NoAnswer =>
          report := None;
      }
    }

    /** One refreshed record: the chain's answer is stored if the record is as it was listed. */
    method Refresh(item: Record, reply: Reply, ghost rest: seq<Record>, ghost p: nat) returns (ok: bool)
      requires p < |rest| && rest[p] == item
      modifies this`storageFault, this`demoted, journal
      ensures StepHistoryAnswer(old(World()).(history := Refreshing(rest)), p, reply.answer, reply.now, reply.outcome)
        == World().(history := if ok then Refreshing(Without(rest, p)) else Resting)
      ensures ok || storageFault
    {
      hide Known, UpdateIfVersion, Without, ReportOf;
      SameReport(World(), rest, item, reply.answer);
      var report := Judge(item, reply.answer);
      ok := true;
      if report.Some? {
        var updated := journal.UpdateStateAtomicIfVersion(item.hash, item.version, report.value, reply.now, reply.outcome);
        demoted := demoted || (IsMined(item.state) && !IsMined(report.value.state));
        if updated.Err? {
          storageFault := true;
          ok := false;
        }
      }
    }

    /** One turn of the loop of History. */
    method Visit(items: seq<Record>, index: nat, reply: Reply, ghost s: nat, ghost i: nat) returns (ok: bool, ghost e: Event)
      requires s < |items| && i < |items| && index == if s + i < |items| then s + i else s + i - |items|
      modifies this`storageFault, this`demoted, journal
      ensures e == HistoryAnswer(if s + i < |items| then s else 0, reply.answer, reply.now, reply.outcome)
      ensures Next(old(World()).(history := Refreshing(Rest(items, s, i))), e)
        == World().(history := if ok then Refreshing(Rest(items, s, i + 1)) else Resting)
      ensures ok || storageFault
    {
      hide Known, Rest, StepHistoryAnswer;
      RestStep(items, s, i);
      ghost var p := if s + i < |items| then s else 0;
      e := HistoryAnswer(p, reply.answer, reply.now, reply.outcome);
      ok := Refresh(items[index], reply, Rest(items, s, i), p);
    }

    /** The loop of History. */
    method RefreshAll(replies: nat -> Reply, limit: nat, late: bool)
      returns (ok: bool, ghost events: seq<Event>)
      modifies this`storageFault, this`historyOffset, this`demoted, journal
      ensures Crash !in events
      ensures Run(old(World()), events) == World().(history := if ok then Run(old(World()), events).history else Resting)
      ensures if ok then Run(old(World()), events).history.Refreshing? else storageFault
      ensures var n, v := |RefreshItems(old(journal.State()))|, Visits(|RefreshItems(old(journal.State()))|, limit, late);
        ok ==> historyOffset == if n == 0 || v == 0 then old(historyOffset) else Slot(n, old(historyOffset), v)
      ensures WalletInvariant.Inv(old(World())) && ok ==>
        AllAnswered(journal.State().records, RefreshItems(old(journal.State())), old(historyOffset), replies, limit)
      ensures WalletInvariant.Inv(old(World())) && (forall k :: replies(k).outcome == Written) ==> ok
    {
      hide Known, Run, Next, UpdateIfVersion, RefreshItems, Rest, Slot, AnsweredTo, WalletInvariant.Inv, AllAnswered, HasAnswer,
        Apiece, Visits;
      var items := journal.ToRefresh();
      var n, start, i := |items|, historyOffset, 0;
      ghost var w0 := World();
      ok := true;
      events := [] + [HistoryBegin];
      BeginHistory(w0);
      if n == 0 {
        NobodyAsked(journal.State().records, start, replies, limit);
        return;
      }
      SlotTurn(n, start, 0);
      RestAll(items, Slot(n, start, 0));
      ghost var answers := (k: nat) => replies(k).answer;
      ItemsListed(w0, items, start, answers);
      while i < n
        invariant i <= n && i <= limit
        invariant Slot(n, start, 0) < n
        invariant historyOffset == if i == 0 then start else Slot(n, start, i)
        invariant Run(w0, events) == World().(history := Refreshing(Rest(items, Slot(n, start, 0), i)))
        invariant Crash !in events && ok
        invariant WalletInvariant.Inv(w0) ==> AnsweredTo(journal.State().records, items, start, answers, i)
      {
        var index := Slot(n, start, i);
        if i == limit && !late {
          break;
        }
        historyOffset := Slot(n, index, 1);
        SlotTurn(n, start, i);
        if i == limit {
          break;
        }
        ghost var e;
        ok, e := Visit(items, index, replies(i), Slot(n, start, 0), i);
        VisitShown(w0, events, items, start, answers, i, e);
        RunNext(w0, events, e);
        events := events + [e];
        i := i + 1;
        if !ok {
          return;
        }
      }
      VisitsAre(n, limit, late, i);
      AnsweredAll(w0, journal.State().records, items, start, replies, answers, i, limit);
    }

    /** The end of a refresh: what is done is archived. */
    method Archive(ghost w0: World, ghost before: seq<Event>, fileOutcome: Outcome, activeOutcome: Outcome)
      returns (ok: bool, ghost events: seq<Event>)
      requires Run(w0, before).history.Refreshing? && Run(w0, before) == World().(history := Run(w0, before).history)
      requires Crash !in before
      modifies this`storageFault, journal
      ensures World() == Run(w0, events) && Crash !in events
      ensures journal.State() == J.ArchiveFinalized(old(journal.State()), fileOutcome, activeOutcome).journal
      ensures ok || storageFault
      ensures fileOutcome == Written && activeOutcome == Written ==> ok
    {
      hide Known, Run, Next, J.ArchiveFinalized, Archived;
      CutAndArchive(Run(w0, before), fileOutcome, activeOutcome);
      RunNext(w0, before, HistoryCut);
      RunNext(w0, before + [HistoryCut], HistoryArchive(fileOutcome, activeOutcome));
      events := before + [HistoryCut] + [HistoryArchive(fileOutcome, activeOutcome)];
      var archived := journal.ArchiveFinalized(fileOutcome, activeOutcome);
      ok := archived.Ok?;
      if !ok {
        storageFault := true;
      }
    }

    /** Whether a new payment may be quoted although something is in flight. */
    method CanCreate(ghost w0: World, ghost before: seq<Event>, evidence: Option<Evidence>)
      returns (can: bool, ghost events: seq<Event>)
      requires World() == Run(w0, before) && Crash !in before
      modifies this`observed
      ensures World() == Run(w0, events) && Crash !in events
      ensures can == (
        && !storageFault && evidence.Some?
        && InFlight(Known(journal.State()), None) && !InFlight(Known(journal.State()), evidence))
      ensures can <==> !storageFault && evidence.Some? && OpenButSettled(Known(journal.State()), evidence)
    {
      hide Known, Run, Next, InFlight, StillOpen;
      can, events := false, before;
      var inFlight := journal.HasInFlightTx(None);
      if inFlight && evidence.Some? {
        Observing(Run(w0, before), evidence.value.nonce);
        RunNext(w0, before, ObserveFinalized(evidence.value.nonce));
        events := before + [ObserveFinalized(evidence.value.nonce)];
        observed := Max(observed, evidence.value.nonce);
        var blocked := journal.HasInFlightTx(evidence);
        can := !blocked && !storageFault;
      }
    }

    /** Refreshes the listed records once around, starting where the last call stopped, then archives.
        `limit` is the visit at which the deadline passes, `late` whether it passes during the query.
        `events` is the run this amounts to. */
    method History(replies: nat -> Reply, limit: nat, late: bool, fileOutcome: Outcome, activeOutcome: Outcome,
      evidence: Option<Evidence>) returns (ok: bool, canCreate: bool, ghost events: seq<Event>)
      modifies this, journal
      ensures World() == Run(old(World()), events) && Crash !in events
      ensures WalletInvariant.Inv(old(World())) ==> WalletInvariant.Inv(World())
      ensures ok || storageFault
      ensures canCreate == (
        && ok && !storageFault && evidence.Some?
        && InFlight(Known(journal.State()), None) && !InFlight(Known(journal.State()), evidence))
      ensures canCreate <==> ok && !storageFault && evidence.Some? && OpenButSettled(Known(journal.State()), evidence)
      ensures var n, v := |RefreshItems(old(journal.State()))|, Visits(|RefreshItems(old(journal.State()))|, limit, late);
        ok ==> historyOffset == if n == 0 || v == 0 then old(historyOffset) else Slot(n, old(historyOffset), v)
      ensures WalletInvariant.Inv(old(World())) && ok ==>
        AnswersKept(Known(journal.State()), RefreshItems(old(journal.State())), old(historyOffset), replies, limit)
      ensures WalletInvariant.Inv(old(World())) && (forall k :: replies(k).outcome == Written) ==>
        (fileOutcome == Written && activeOutcome == Written ==> ok)
    {
      hide Known, Run, Next, J.ArchiveFinalized, InFlight, OpenButSettled, RefreshItems, Slot, WalletInvariant.Inv, AllAnswered,
        AnswersKept;
      canCreate := false;
      ghost var w0 := World();
      ok, events := RefreshAll(replies, limit, late);
      if !ok {
        Keeps(w0, events);
        return;
      }
      ghost var before := journal.State();
      ok, events := Archive(w0, events, fileOutcome, activeOutcome);
      AnswersStay(w0, before, fileOutcome, activeOutcome, RefreshItems(w0.journal), old(historyOffset), replies, limit);
      if ok {
        canCreate, events := CanCreate(w0, events, evidence);
      }
      Keeps(w0, events);
    }
  }
}
