/** What holds in every run of the wallet. */
module WalletTheorems {
  import opened Records
  import opened Journal
  import J = Journal
  import opened JournalContents
  import opened JournalInvariant
  import opened JournalArchiving
  import opened Replacement
  import opened WalletRuns
  import opened WalletInvariant
  import opened WalletSteps

  /** The world after any events in a new wallet directory. */
  function Reached(account: Address, chainId: int, events: seq<Event>): World {
    Run(Start(account, chainId), events)
  }

  lemma ReachedInv(account: Address, chainId: int, events: seq<Event>)
    ensures Inv(Reached(account, chainId, events))
  {
    StartInv(account, chainId);
    RunInv(Start(account, chainId), events);
  }

  // ---------------------------------------------------------------- durability

  ghost predicate OnDisk(disk: Disk, hash: Hash) {
    || hash in Hashes(Active(disk))
    || exists c :: CopyIn(disk.archives, c) && c.hash == hash
  }

  lemma KnownOnDisk(j: Journal, steady: bool, r: Record)
    requires Good(j) && Shape(j, steady) && r in Known(j)
    ensures OnDisk(j.disk, r.hash)
  {
    hide Shape, Base, FilesNamed, CopiesGood, FilesAged, AllSettled;
    BaseGood(j, steady);
    var b := Base(j);
    var p :| p in Known(b) && SamePayment(p, r);
    if p in b.archived {
      assert CopyIn(b.disk.archives, p);
    }
  }

  /** Whatever writes fail and wherever it crashes, a hash that was ever broadcast is in
      journal.json or in an archive file; being broadcast comes after being saved. */
  lemma BroadcastsStayOnDisk(account: Address, chainId: int, events: seq<Event>)
    ensures var w := Reached(account, chainId, events);
      forall p :: p in w.broadcast ==> OnDisk(w.journal.disk, p.1)
  {
    hide Good, Shape, QuotesOk, SendOk, HistoryOk, SentOk, OpenOk, Run, OnDisk;
    var w := Reached(account, chainId, events);
    ReachedInv(account, chainId, events);
    forall p | p in w.broadcast ensures OnDisk(w.journal.disk, p.1) {
      var r :| r in Known(w.journal) && r.quoteId == p.0 && r.hash == p.1;
      KnownOnDisk(w.journal, !w.demoted, r);
    }
  }

  /** Every restart succeeds, and while no storage fault is signalled journal.json is exactly what
      memory holds. */
  lemma RestartAlwaysLoads(account: Address, chainId: int, events: seq<Event>)
    ensures var w := Reached(account, chainId, events);
      && Load(w.journal.disk, w.journal.chainId).Ok?
      && (!w.fault ==> Active(w.journal.disk) == w.journal.records)
  {
    hide Good, Shape, QuotesOk, SendOk, HistoryOk, BroadcastOk, SentOk, OpenOk, Run, Load;
    var w := Reached(account, chainId, events);
    ReachedInv(account, chainId, events);
    CrashInv(w);
  }

  // ---------------------------------------------------------------- one payment per quote

  /** One journal record and one broadcast hash per quote ID, over retries, faults, archiving and
      restarts. */
  lemma OnePaymentPerQuote(account: Address, chainId: int, events: seq<Event>)
    ensures var w := Reached(account, chainId, events);
      && Unique(Known(w.journal))
      && forall p, q :: p in w.broadcast && q in w.broadcast && p.0 == q.0 ==> p == q
  {
    hide Shape, FilesNamed, CopiesGood, ArchivedStored, FilesAged, AllSettled, QuotesOk, SendOk, HistoryOk, SentOk, OpenOk, Run;
    var w := Reached(account, chainId, events);
    ReachedInv(account, chainId, events);
    forall p, q | p in w.broadcast && q in w.broadcast && p.0 == q.0 ensures p == q {
      var a :| a in Known(w.journal) && a.quoteId == p.0 && a.hash == p.1;
      var b :| b in Known(w.journal) && b.quoteId == q.0 && b.hash == q.1;
    }
  }

  // ---------------------------------------------------------------- one open nonce

  lemma AtMostOneSize(s: set<nat>)
    requires forall m, n :: m in s && n in s ==> m == n
    ensures |s| <= 1
  {
    if s != {} {
      var m :| m in s;
      assert s == {m};
    }
  }

  /** Unless the chain took back an inclusion, at most one recorded nonce at or above the highest
      finalized nonce observed has no included transaction, and so it is after a restart. */
  lemma OneOpenNonce(account: Address, chainId: int, events: seq<Event>)
    requires !Reached(account, chainId, events).demoted
    ensures var w := Reached(account, chainId, events);
      && |OpenNonces(Known(w.journal), w.observed)| <= 1
      && |OpenNonces(Known(Next(w, Crash).journal), w.observed)| <= 1
  {
    hide Good, Shape, QuotesOk, SendOk, HistoryOk, BroadcastOk, SentOk, OpenNonces, Run;
    var w := Reached(account, chainId, events);
    ReachedInv(account, chainId, events);
    AtMostOneSize(OpenNonces(Known(w.journal), w.observed));
    CrashInv(w);
    AtMostOneSize(OpenNonces(Known(Next(w, Crash).journal), w.observed));
  }

  // ---------------------------------------------------------------- writes of the running journal

  /** The steps that rewrite a record in place: recording a broadcast outcome or a chain answer. */
  predicate Rewrites(w: World, e: Event) {
    || (e.SendRecord? && w.send.Sending?)
    || (&& e.HistoryAnswer? && w.history.Refreshing? && e.item < |w.history.items|
        && ReportOf(w, w.history.items[e.item], e.answer).Some?)
  }

  /** The record as the operation about to write it read it. */
  function ReadBy(w: World, e: Event): Record
    requires Rewrites(w, e)
  {
    if e.SendRecord? then w.send.record else w.history.items[e.item]
  }

  function ReportBy(w: World, e: Event): Report
    requires Rewrites(w, e)
  {
    if e.SendRecord? then BroadcastReport(e.accepted, e.error) else ReportOf(w, w.history.items[e.item], e.answer).value
  }

  lemma RewriteJournal(w: World, e: Event)
    requires Rewrites(w, e)
    ensures var r := ReadBy(w, e);
      Next(w, e).journal == UpdateIfVersion(w.journal, r.hash, r.version, ReportBy(w, e), e.now, e.outcome).journal
  {
    hide UpdateIfVersion, ReportOf, Without;
  }

  lemma JournalUntouched(w: World, e: Event)
    requires !e.SendAppend? && !e.SendRecord? && !e.HistoryAnswer? && !e.HistoryArchive? && !e.Crash?
    ensures Next(w, e).journal == w.journal
  {
    hide InFlight, FindByQuoteId, MinedNonces;
  }

  lemma NotRewritten(w: World, e: Event)
    requires (e.SendRecord? || e.HistoryAnswer?) && !Rewrites(w, e)
    ensures Next(w, e).journal == w.journal
  {
    hide UpdateIfVersion, ReportOf, Without;
  }

  lemma ArchiveJournal(w: World, a: Outcome, b: Outcome)
    ensures Next(w, HistoryArchive(a, b)).journal
      == if w.history == Refreshing([]) then ArchiveFinalized(w.journal, a, b).journal else w.journal
  {
    hide ArchiveFinalized;
  }

  /** What a step that signs does to the journal: it appends a record with a new hash, or nothing. */
  lemma AppendJournal(w: World, e: Event) returns (r: Option<Record>)
    requires Inv(w) && e.SendAppend?
    ensures r.Some? ==> Appendable(w.journal, r.value)
    ensures Next(w, e).journal
      == if r.Some? then Save(w.journal, w.journal.records + [r.value], e.outcome) else w.journal
  {
    hide Inv, ClearanceHolds, QuoteSound, Known, ValidRecord, Appendable;
    var j := w.journal;
    r := None;
    if w.send.Cleared? && e.hash !in Hashes(Known(j)) && |j.records| < CAPACITY {
      ClearedOk(w);
      var signed := SignedRecord(w, w.send.quote, e.hash, e.display, e.displayOk, e.now);
      if ValidRecord(signed, j.chainId) {
        NewAppendable(j, signed);
        assert signed.(version := 1) == signed;
        r := Some(signed);
      }
    }
  }

  lemma RewriteFollows(w: World, e: Event)
    requires Inv(w) && Rewrites(w, e)
    ensures Follows(w.journal, Next(w, e).journal)
  {
    hide Good, Shape, Follows, Succeeds, QuotesOk, HistoryOk, BroadcastOk, SentOk, OpenOk, ReadOk, WriteSafe,
      UpdateIfVersion, Next, ReportOf;
    var j, r := w.journal, ReadBy(w, e);
    RewriteJournal(w, e);
    if e.SendRecord? {
      SafeWrite(j, r);
    } else {
      AnswerSafe(w, r);
      ReportSound(w, r, e.answer);
    }
    UpdateSucceeds(j, r, ReportBy(w, e), e.now, e.outcome, !w.demoted, false);
    SucceedsPreserves(j, Next(w, e).journal, false);
  }

  lemma NextFollows(w: World, e: Event)
    requires Inv(w) && e != Crash
    ensures Follows(w.journal, Next(w, e).journal)
  {
    hide Inv, Follows, Succeeds, Rewrites, Next, UpdateIfVersion, ArchiveFinalized, Appendable;
    var j := w.journal;
    FollowsSelf(j);
    InvParts(w);
    match e {
      case SendAppend(hash, display, displayOk, now, outcome) =>
        var r := AppendJournal(w, e);
        if r.Some? {
          AppendGood(j, r.value, outcome, !w.demoted);
        }
      case SendRecord(accepted, error, now, outcome) =>
        if Rewrites(w, e) { RewriteFollows(w, e); } else { NotRewritten(w, e); }
      case HistoryAnswer(i, answer, now, outcome) =>
        if Rewrites(w, e) { RewriteFollows(w, e); } else { NotRewritten(w, e); }
      case HistoryArchive(a, b) =>
        ArchiveJournal(w, a, b);
        ArchiveSucceeds(j, a, b, !w.demoted);
        SucceedsPreserves(j, ArchiveFinalized(j, a, b).journal, !w.demoted);
      case _ =>
        JournalUntouched(w, e);
    }
  }

  lemma ChangedRecord(j: Journal, k: Journal, m: Record, m': Record)
    requires GoodRecords(j) && Follows(j, k)
    requires m in j.records && m' in k.records && m.hash == m'.hash && m != m'
    ensures Updates(m, m')
  {
    hide Updates, SamePayment, ValidRecord, Carries, Represented, IsFinal, IsMined;
    assert m in Known(j);
    assert Descends(j, m');
    var p :| p in j.records && p.hash == m'.hash && (p == m' || Updates(p, m'));
    assert p in Known(j);
  }

  /** A step of the running wallet changes a record only where it was read: the outcome of a
      broadcast overwrites the record as it was before broadcasting, never an inclusion; a chain
      answer overwrites the record as it was listed; a finalized record is never overwritten. */
  lemma WritesMatchReads(w: World, e: Event, m: Record, m': Record)
    requires Inv(w) && e != Crash
    requires m in w.journal.records && m' in Next(w, e).journal.records && m.hash == m'.hash && m != m'
    ensures SamePayment(m, m') && !m.finalized && m'.version == m.version + 1
    ensures Rewrites(w, e) && m == ReadBy(w, e)
    ensures e.SendRecord? ==> !IsMined(m.state)
  {
    hide Follows, Shape, QuotesOk, HistoryOk, BroadcastOk, SentOk, OpenOk, SendOk, Next, Rewrites, FilesNamed, CopiesGood,
      ArchivedStored, FilesAged, AllSettled;
    NextFollows(w, e);
    ChangedRecord(w.journal, Next(w, e).journal, m, m');
    OthersOnlyAddOrDrop(w, e);
    assert forall r :: r in w.journal.records ==> r in Known(w.journal);
    assert Rewrites(w, e);
    ChangedBy(w, e, m, m');
  }

  lemma UpdatedOnly(j: Journal, hash: Hash, version: nat, report: Report, now: nat, outcome: Outcome, m: Record, m': Record)
    requires m in j.records && m' in UpdateIfVersion(j, hash, version, report, now, outcome).journal.records
    requires m.hash == m'.hash && m != m' && GoodRecords(j)
    ensures m.hash == hash && m.version == version
  {
    var i := IndexByHash(j.records, hash);
    var k := UpdateIfVersion(j, hash, version, report, now, outcome).journal;
    assert forall x :: 0 <= x < |j.records| ==> j.records[x] in Known(j);
    assert m in Known(j);
    var x :| 0 <= x < |k.records| && k.records[x] == m';
    assert j.records[x].hash == m.hash && j.records[x] == m;
    assert x == i;
  }

  lemma ArchiveDrops(j: Journal, a: Outcome, b: Outcome)
    ensures forall m :: m in ArchiveFinalized(j, a, b).journal.records ==> m in j.records
  {
    hide FinalNonces, PutFile, Retired;
    KeptExactly(j.records, Cut(j), FinalNonces(Known(j)));
  }

  lemma SaveAdds(j: Journal, r: Record, outcome: Outcome)
    requires Appendable(j, r)
    ensures forall m :: m in Save(j, j.records + [r], outcome).records ==> m in j.records || m.hash !in Hashes(Known(j))
  {
    assert r in [r];
  }

  /** Only the rewriting steps change records in place. */
  lemma OthersOnlyAddOrDrop(w: World, e: Event)
    requires Inv(w) && e != Crash
    ensures !Rewrites(w, e) ==> forall m :: m in Next(w, e).journal.records ==>
      m in w.journal.records || m.hash !in Hashes(Known(w.journal))
  {
    hide Inv, Rewrites, Next, Known, Hashes, ArchiveFinalized, Save, Appendable;
    match e {
      case HistoryArchive(a, b) =>
        ArchiveJournal(w, a, b);
        ArchiveDrops(w.journal, a, b);
      case SendAppend(hash, display, displayOk, now, outcome) =>
        var r := AppendJournal(w, e);
        if r.Some? {
          SaveAdds(w.journal, r.value, outcome);
        }
      case SendRecord(_, _, _, _) => if !Rewrites(w, e) { NotRewritten(w, e); }
      case HistoryAnswer(_, _, _, _) => if !Rewrites(w, e) { NotRewritten(w, e); }
      case _ => JournalUntouched(w, e);
    }
  }

  lemma ChangedBy(w: World, e: Event, m: Record, m': Record)
    requires Inv(w) && Rewrites(w, e)
    requires m in w.journal.records && m' in Next(w, e).journal.records && m.hash == m'.hash && m != m'
    ensures m == ReadBy(w, e)
    ensures e.SendRecord? ==> !IsMined(m.state)
  {
    hide Shape, QuotesOk, BroadcastOk, SentOk, OpenOk, UpdateIfVersion, FilesNamed, CopiesGood,
      ArchivedStored, FilesAged, AllSettled, Unique, Next, ReportOf, Represented, ValidRecord;
    var r := ReadBy(w, e);
    RewriteJournal(w, e);
    UpdatedOnly(w.journal, r.hash, r.version, ReportBy(w, e), e.now, e.outcome, m, m');
    if e.HistoryAnswer? {
      AnswerSafe(w, r);
    }
  }

  /** In the running wallet a finalized record never changes again: it stays active or is archived
      as it is. */
  lemma {:induction false} FinalizedStaysFrozen(w: World, events: seq<Event>, m: Record)
    requires Inv(w) && Crash !in events
    requires m in Known(w.journal) && IsFinal(m)
    ensures m in Known(Run(w, events).journal)
  {
    hide Inv, Next, IsFinal;
    if events != [] {
      var front, last := events[..|events|-1], events[|events|-1];
      assert events == front + [last];
      FinalizedStaysFrozen(w, front, m);
      RunInv(w, front);
      NextFollows(Run(w, front), last);
    }
  }

  // ---------------------------------------------------------------- replacements

  /** When a replacement is about to be signed, it outbids every transaction recorded at its nonce,
      however long ago its quote was made. */
  lemma ReplacementsOutbid(account: Address, chainId: int, events: seq<Event>)
    requires Reached(account, chainId, events).send.Cleared?
    requires Reached(account, chainId, events).send.quote.basis.Some?
    ensures var w := Reached(account, chainId, events);
      var q := w.send.quote;
      && q.fees.feeCap >= q.fees.tip
      && forall r :: r in Known(w.journal) && r.nonce == q.nonce ==> r.raw.Some? && Outbids(q.fees, r.raw.value)
  {
    hide Good, Shape, QuotesOk, HistoryOk, BroadcastOk, SentOk, OpenOk, Run, QuoteSound;
    var w := Reached(account, chainId, events);
    ReachedInv(account, chainId, events);
    ReplacingOnly(w.journal, w.send.quote, w.send.clearance, w.observed, w.demoted);
    ClearedOutbids(w.journal, w.send.quote, w.observed, w.demoted);
  }

  /** Transactions picked from those sent, in order, at one nonce, all but the first replacements. */
  predicate Chain(sent: seq<Sent>, picks: seq<nat>) {
    && picks != []
    && (forall i :: 0 <= i < |picks| ==> picks[i] < |sent|)
    && (forall i :: 0 < i < |picks| ==>
         && picks[i - 1] < picks[i]
         && sent[picks[i]].replacement
         && sent[picks[i - 1]].record.nonce == sent[picks[i]].record.nonce)
  }

  lemma ChainOutbids(j: Journal, sent: seq<Sent>, picks: seq<nat>, i: nat)
    requires SentOk(j, sent) && Chain(sent, picks) && 0 < i < |picks|
    ensures OutbidsSent(sent[picks[i]], sent[picks[i - 1]])
  {
    hide Represented, OutbidsSent;
  }

  lemma SentSigned(j: Journal, sent: seq<Sent>)
    requires SentOk(j, sent)
    ensures forall i :: 0 <= i < |sent| ==> sent[i].record.raw.Some?
  {
    hide Represented, OutbidsSent;
    assert forall i :: 0 <= i < |sent| ==> sent[i] in sent;
  }

  /** k successive replacements in any run raise the fee cap by at least (6/5)^k. */
  lemma ReplacementsClimb(account: Address, chainId: int, events: seq<Event>, picks: seq<nat>)
    requires Chain(Reached(account, chainId, events).sent, picks)
    ensures var sent := Reached(account, chainId, events).sent;
      var k := |picks| - 1;
      && sent[picks[0]].record.raw.Some? && sent[picks[k]].record.raw.Some?
      && Pow(5, k) * sent[picks[k]].record.raw.value.feeCap >= Pow(6, k) * sent[picks[0]].record.raw.value.feeCap
  {
    hide Good, Shape, QuotesOk, SendOk, HistoryOk, BroadcastOk, SentOk, OpenOk, Reached, Pow, Outbids;
    var w := Reached(account, chainId, events);
    ReachedInv(account, chainId, events);
    var sent := w.sent;
    SentSigned(w.journal, sent);
    var txs := seq(|picks|, i requires 0 <= i < |picks| => sent[picks[i]].record.raw.value);
    forall i | 0 < i < |txs| ensures Outbids(Fees(txs[i].tip, txs[i].feeCap), txs[i - 1]) {
      ChainOutbids(w.journal, sent, picks, i);
    }
    LadderGrowth(txs);
  }

  // ---------------------------------------------------------------- what the theorems speak of

  predicate Remembers(w: World, e: Event, after: World) {
    && after.broadcast == (
         if e.Broadcast? && (w.send.Saved? || w.send.RetryReady?) then
           w.broadcast + {(w.send.record.quoteId, w.send.record.hash)} else w.broadcast)
    && after.observed == (
         if e.ObserveFinalized? && e.nonce > w.observed then e.nonce
         else if e.SendEvidence? && w.send.Waiting? && e.evidence.Some? && e.evidence.value.nonce > w.observed then
           e.evidence.value.nonce
         else w.observed)
    && (if e.SendAppend? && w.send.Cleared? && after.send.Saved? then
          && after.sent == w.sent + [Sent(after.send.record, w.send.quote.basis.Some?)]
          && after.journal.records == w.journal.records + [after.send.record]
        else after.sent == w.sent)
    && (after.demoted && !w.demoted ==>
          && e.HistoryAnswer? && w.history.Refreshing? && e.item < |w.history.items|
          && IsMined(w.history.items[e.item].state)
          && (e.answer == Missing || (e.answer.Found? && !IsMined(e.answer.report.state))))
  }

  lemma RememberedAppend(w: World, e: Event)
    requires e.SendAppend?
    ensures Remembers(w, e, Next(w, e))
  {
    hide Known, ValidRecord, Hashes;
  }

  lemma RememberedAnswer(w: World, e: Event)
    requires e.HistoryAnswer?
    ensures Remembers(w, e, Next(w, e))
  {
    hide Known, UpdateIfVersion, Without, FirstByHash;
  }

  lemma RememberedSend(w: World, e: Event)
    requires e.SendEvidence? || e.Broadcast? || e.SendRecord? || e.SendBegin? || e.SendRecount?
    ensures Remembers(w, e, Next(w, e))
  {
    hide Known, UpdateIfVersion, InFlight, FindByQuoteId, MinedNonces;
  }

  lemma RememberedElse(w: World, e: Event)
    requires !e.SendAppend? && !e.HistoryAnswer?
    requires !e.SendEvidence? && !e.Broadcast? && !e.SendRecord? && !e.SendBegin? && !e.SendRecount?
    ensures Remembers(w, e, Next(w, e))
  {
    hide Known, J.ArchiveFinalized, MinedNonces, Load, RefreshItems, ReplacementFees, FirstByHash, NewQuoteId;
  }

  /** What a run remembers is what happened: a pair is broadcast when a saved or checked record is handed
      over; a record counts as sent when an append succeeds; the highest finalized nonce is the highest
      that came in; an inclusion counts as taken back only when a chain answer overwrites one. */
  lemma Remembered(w: World, e: Event)
    ensures Remembers(w, e, Next(w, e))
  {
    hide Next, Remembers;
    if e.SendAppend? {
      RememberedAppend(w, e);
    } else if e.HistoryAnswer? {
      RememberedAnswer(w, e);
    } else if e.SendEvidence? || e.Broadcast? || e.SendRecord? || e.SendBegin? || e.SendRecount? {
      RememberedSend(w, e);
    } else {
      RememberedElse(w, e);
    }
  }

  /** A storage fault is signalled only if a write failed, or for a record the journal does not take. */
  lemma FaultMeans(w: World, e: Event)
    requires Inv(w) && !w.fault && Next(w, e).fault
    ensures match e
      case SendAppend(_, _, displayOk, _, outcome) => outcome != Written || !displayOk
      case SendRecord(_, _, _, outcome) => outcome != Written
      case HistoryAnswer(_, _, _, outcome) => outcome != Written
      case HistoryArchive(fileOutcome, activeOutcome) => fileOutcome != Written || activeOutcome != Written
      case _ => false
  {
    hide InFlight, FindByQuoteId, MinedNonces, Known, ReplacementFees, Load, UpdateIfVersion, Good, Shape, QuotesOk, SentOk,
      BroadcastOk, OpenOk, InSync, ReportOf, Without, RefreshItems, Represented;
    match e
    case SendAppend(hash, display, displayOk, now, outcome) => FaultOnAppend(w, e);
    case SendRecord(accepted, error, now, outcome) =>
      UpdateTaken(w.journal, w.send.record, BroadcastReport(accepted, error), now, outcome);
    case HistoryAnswer(i, answer, now, outcome) =>
      var item := w.history.items[i];
      assert item in w.history.items;
      UpdateTaken(w.journal, item, ReportOf(w, item, answer).value, now, outcome);
    case HistoryArchive(_, _) =>
    case _ =>
  }

  lemma FaultOnAppend(w: World, e: Event)
    requires Inv(w) && !w.fault && e.SendAppend? && Next(w, e).fault
    ensures e.outcome != Written || !e.displayOk
  {
    hide Good, Shape, Known, QuotesOk, HistoryOk, SentOk, BroadcastOk, OpenOk, InSync, Unused, ClearanceHolds;
  }

  /** A record that is known is never missing when it is to be updated. */
  lemma UpdateTaken(j: Journal, r: Record, report: Report, now: nat, outcome: Outcome)
    requires Represented(Known(j), r)
    ensures UpdateIfVersion(j, r.hash, r.version, report, now, outcome).result.Err? ==> outcome != Written
  {
    hide UpdateIfVersion;
    UpdateStores(j, r.hash, r.version, report, now, outcome);
    var p :| p in Known(j) && SamePayment(p, r);
    assert p in j.records || p in j.archived;
  }
}
