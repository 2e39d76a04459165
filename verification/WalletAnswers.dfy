/** What an operation of the wallet says and leaves written, apart from how it gets there
    (internal/wallet/service.go). */
module WalletAnswers {
  import opened Records
  import opened Journal
  import opened JournalContents
  import opened JournalInvariant
  import opened JournalArchiving
  import opened Modular
  import opened Replacement
  import opened WalletRuns

  // ---------------------------------------------------------------- replacement quotes

  /** Fees that cover the suggestion and the base fee and outbid everything recorded at a nonce. */
  ghost predicate FeesSuffice(fees: Fees, known: seq<Record>, nonce: nat, suggestedTip: nat, baseFee: nat) {
    && fees.tip >= suggestedTip && fees.feeCap >= fees.tip + 2 * baseFee
    && forall r :: r in known && r.nonce == nonce && r.raw.Some? ==> Outbids(fees, r.raw.value)
  }

  /** A quote to replace what is recorded at the nonce of this hash, at the least fees that suffice. */
  ghost predicate QuotesReplacement(q: Quote, id: QuoteId, hash: Hash, body: string, known: seq<Record>, suggestedTip: nat,
    baseFee: nat)
  {
    && q.id == id && q.body == body && q.basis.Some?
    && (exists r :: r in known && r.hash == hash && r.nonce == q.nonce)
    && (forall h :: h in q.basis.value <==> exists r :: r in known && r.nonce == q.nonce && r.hash == h)
    && LeastFees(q.fees, known, q.nonce, suggestedTip, baseFee)
  }

  ghost predicate LeastFees(fees: Fees, known: seq<Record>, nonce: nat, suggestedTip: nat, baseFee: nat) {
    && FeesSuffice(fees, known, nonce, suggestedTip, baseFee)
    && forall other :: FeesSuffice(other, known, nonce, suggestedTip, baseFee) ==>
         fees.tip <= other.tip && fees.feeCap <= other.feeCap
  }

  lemma {:induction false} RawExactly(rs: seq<Record>)
    ensures forall tx :: tx in RawOf(rs) <==> exists r :: r in rs && r.raw == Some(tx)
  {
    if rs != [] {
      var front, last := rs[..|rs|-1], rs[|rs|-1];
      assert rs == front + [last];
      RawExactly(front);
      forall tx ensures tx in RawOf(rs) <==> exists r :: r in rs && r.raw == Some(tx) {
        if last.raw == Some(tx) {
          assert last in rs;
        }
      }
    }
  }

  lemma SufficesOnRecord(fees: Fees, known: seq<Record>, nonce: nat, suggestedTip: nat, baseFee: nat)
    ensures Suffices(fees, RawOf(AtNonce(known, nonce)), suggestedTip, baseFee)
      <==> FeesSuffice(fees, known, nonce, suggestedTip, baseFee)
  {
    hide Outbids;
    var prior := AtNonce(known, nonce);
    RawExactly(prior);
    if Suffices(fees, RawOf(prior), suggestedTip, baseFee) {
      forall r | r in known && r.nonce == nonce && r.raw.Some? ensures Outbids(fees, r.raw.value) {
        assert r in prior && r.raw == Some(r.raw.value);
      }
    }
  }

  lemma LeastOnRecord(fees: Fees, known: seq<Record>, nonce: nat, suggestedTip: nat, baseFee: nat)
    requires Suffices(fees, RawOf(AtNonce(known, nonce)), suggestedTip, baseFee)
    requires forall other :: Suffices(other, RawOf(AtNonce(known, nonce)), suggestedTip, baseFee) ==>
      fees.tip <= other.tip && fees.feeCap <= other.feeCap
    ensures LeastFees(fees, known, nonce, suggestedTip, baseFee)
  {
    hide Suffices, FeesSuffice, RawOf, AtNonce;
    SufficesOnRecord(fees, known, nonce, suggestedTip, baseFee);
    forall other | FeesSuffice(other, known, nonce, suggestedTip, baseFee)
      ensures fees.tip <= other.tip && fees.feeCap <= other.feeCap
    {
      SufficesOnRecord(other, known, nonce, suggestedTip, baseFee);
    }
  }

  lemma HashesOnRecord(known: seq<Record>, nonce: nat)
    ensures forall h :: h in Hashes(AtNonce(known, nonce)) <==> exists r :: r in known && r.nonce == nonce && r.hash == h
  {
  }

  lemma LeastQuoted(q: Quote, target: Record, id: QuoteId, body: string, known: seq<Record>, suggestedTip: nat, baseFee: nat)
    requires q.id == id && q.body == body && target in known && q.nonce == target.nonce
    requires q.basis == Some(Hashes(AtNonce(known, q.nonce)))
    requires Suffices(q.fees, RawOf(AtNonce(known, q.nonce)), suggestedTip, baseFee)
    requires forall other :: Suffices(other, RawOf(AtNonce(known, q.nonce)), suggestedTip, baseFee) ==>
      q.fees.tip <= other.tip && q.fees.feeCap <= other.feeCap
    ensures QuotesReplacement(q, id, target.hash, body, known, suggestedTip, baseFee)
  {
    hide Suffices, LeastFees, RawOf, AtNonce, Hashes;
    LeastOnRecord(q.fees, known, q.nonce, suggestedTip, baseFee);
    HashesOnRecord(known, q.nonce);
  }

  // ---------------------------------------------------------------- Send and Retry

  /** The record says what the node answered to the broadcast: submitted if it took the transaction, and
      otherwise that nobody knows, with the node's words. */
  predicate Tells(r: Record, accepted: bool, error: string) {
    && r.state == (if accepted then Submitted else BroadcastUnknown)
    && r.error == (if accepted then "" else error)
    && r.confirmations == "" && r.fee == "" && !r.finalized
  }

  /** The record is of the signed transaction that the quote promised. */
  predicate PaysQuote(r: Record, q: Quote, hash: Hash, chainId: int, account: Address) {
    && r.hash == hash && r.quoteId == q.id && r.nonce == q.nonce
    && r.raw == Some(SignedTx(hash, chainId, account, q.nonce, q.fees.tip, q.fees.feeCap, q.body))
  }

  /** Nothing on record stands in a quote's way. A payment must wait for everything open, unless the
      finalized account nonce is past all of that and not past its own; a replacement needs that nothing
      was added at its nonce since it was quoted, and nothing included there. */
  ghost predicate MaySend(known: seq<Record>, q: Quote, evidence: Option<Evidence>) {
    match q.basis
    case None =>
      || (forall r :: r in known ==> !StillOpen(known, None, r))
      || ((forall r :: r in known ==> !StillOpen(known, evidence, r)) && (evidence.Some? ==> evidence.value.nonce <= q.nonce))
    case Some(basis) =>
      && |AtNonce(known, q.nonce)| == |basis|
      && forall m :: m in known && m.nonce == q.nonce ==> m.state != Succeeded && m.state != Reverted
  }

  ghost predicate Payable(known: seq<Record>, quotes: map<QuoteId, Quote>, id: QuoteId, checksPass: bool,
    evidence: Option<Evidence>)
  {
    id in quotes && quotes[id].id == id && checksPass && MaySend(known, quotes[id], evidence)
  }

  /** Where nothing archived has the hash, the record found is the first active one. */
  lemma {:induction false} FirstActive(archived: seq<Record>, records: seq<Record>, hash: Hash) returns (i: nat)
    requires hash !in Hashes(archived) && FirstByHash(archived + records, hash).Some?
    ensures FirstAt(records, hash, i) && FirstByHash(archived + records, hash) == Some(records[i])
  {
    if archived != [] {
      assert archived[0] in archived && (archived + records)[1..] == archived[1..] + records;
      i := FirstActive(archived[1..], records, hash);
    } else {
      assert archived + records == records;
      i := FirstIn(records, hash);
    }
  }

  lemma {:induction false} FirstIn(records: seq<Record>, hash: Hash) returns (i: nat)
    requires FirstByHash(records, hash).Some?
    ensures FirstAt(records, hash, i) && FirstByHash(records, hash) == Some(records[i])
  {
    if records[0].hash == hash {
      i := 0;
    } else {
      i := FirstIn(records[1..], hash);
      i := i + 1;
    }
  }

  /** Something is open, but the finalized account nonce is past all of it. */
  ghost predicate OpenButSettled(known: seq<Record>, evidence: Option<Evidence>) {
    && (exists r :: r in known && StillOpen(known, None, r))
    && forall r :: r in known ==> !StillOpen(known, evidence, r)
  }

  // ---------------------------------------------------------------- History

  /** The record of a listed item once the chain has answered: it shows what was found; an inclusion the
      chain no longer knows of is unknown again; without news it is as it was. */
  predicate ShowsAnswer(r: Record, item: Record, answer: Answer) {
    && SamePayment(item, r)
    && match answer
       case Found(report) =>
         if ChainReport(report) then
           && r.state == report.state && r.finalized == report.finalized && r.error == report.error
           && r.confirmations == report.confirmations && r.fee == report.fee
         else r == item
       case Missing =>
         if item.state == Succeeded || item.state == Reverted then
           r.state == BroadcastUnknown && !r.finalized && r.confirmations == "" && r.fee == "" && r.error == ""
         else r == item
       case NoAnswer => r == item
  }

  lemma OnlyOne(known: seq<Record>, item: Record)
    requires Unique(known) && item in known
    ensures FirstByHash(known, item.hash) == Some(item)
    ensures forall r :: r in known && r.hash == item.hash ==> r == item
  {
  }

  lemma ReportShown(w: World, item: Record, answer: Answer, r: Record)
    requires Unique(Known(w.journal)) && item in Known(w.journal) && SamePayment(item, r)
    requires var report := ReportOf(w, item, answer);
      if report.None? then r == item
      else
        && r.state == report.value.state && r.finalized == report.value.finalized && r.error == report.value.error
        && r.confirmations == report.value.confirmations && r.fee == report.value.fee
    ensures ShowsAnswer(r, item, answer)
  {
    hide Unique, FirstByHash, ChainReport;
    OnlyOne(Known(w.journal), item);
  }

  lemma UpdateShown(j: Journal, item: Record, report: Report, now: nat, outcome: Outcome)
    requires Unique(Known(j)) && item in j.records
    ensures var after := UpdateIfVersion(j, item.hash, item.version, report, now, outcome);
      && (after.result.Ok? ==> exists r :: r in after.journal.records && Stores(item, r, report, now))
      && (outcome == Written ==> after.result.Ok?)
      && (forall r :: r in j.records && r.hash != item.hash ==> r in after.journal.records)
  {
    hide UpdateIfVersion, Updated, Stores, Unique, FirstByHash;
    var after := UpdateIfVersion(j, item.hash, item.version, report, now, outcome);
    UpdateStores(j, item.hash, item.version, report, now, outcome);
    OnlyOne(Known(j), item);
    assert forall x :: 0 <= x < |j.records| ==> j.records[x] in Known(j);
    var i := IndexByHash(j.records, item.hash);
    assert FirstAt(j.records, item.hash, i) && j.records[i] == item;
    UpdatedAt(j, item.hash, item.version, report, now, after.journal, after.result, i);
    if after.result == Ok(true) {
      assert after.journal.records[i] in after.journal.records;
      forall r | r in j.records && r.hash != item.hash ensures r in after.journal.records {
        var x :| 0 <= x < |j.records| && j.records[x] == r;
        assert after.journal.records[x] == r;
      }
    }
  }

  /** An answer about a record that is as it was listed is written down for it, and nobody else's record
      changes; if the write succeeds, the refresh goes on. */
  lemma AnswerShown(w: World, i: nat, answer: Answer, now: nat, outcome: Outcome)
    requires Unique(Known(w.journal)) && w.history.Refreshing? && i < |w.history.items|
    requires w.history.items[i] in w.journal.records
    ensures var item, after := w.history.items[i], Next(w, HistoryAnswer(i, answer, now, outcome));
      && (after.history.Refreshing? ==> exists r :: r in after.journal.records && ShowsAnswer(r, item, answer))
      && (outcome == Written ==> after.history.Refreshing?)
      && (forall r :: r in w.journal.records && r.hash != item.hash ==> r in after.journal.records)
  {
    hide UpdateIfVersion, ReportOf, ShowsAnswer, Unique, Without;
    var item, after := w.history.items[i], Next(w, HistoryAnswer(i, answer, now, outcome));
    var report := ReportOf(w, item, answer);
    if report.Some? {
      UpdateShown(w.journal, item, report.value, now, outcome);
      if after.history.Refreshing? {
        var r :| r in after.journal.records && Stores(item, r, report.value, now);
        ReportShown(w, item, answer, r);
      }
    } else {
      assert SamePayment(item, item);
      ReportShown(w, item, answer, item);
    }
  }

  /** The place `i` steps around from `start`. */
  function Slot(n: nat, start: nat, i: nat): nat
    requires n > 0
  {
    (start + i) % n
  }

  lemma SlotTurn(n: nat, start: nat, i: nat)
    requires i < n
    ensures var s := Slot(n, start, 0);
      s < n && Slot(n, start, i) == if s + i < n then s + i else s + i - n
    ensures Slot(n, Slot(n, start, i), 1) == Slot(n, start, i + 1)
  {
    Around(n, start, i);
  }

  /** The records of a listing are different ones. */
  predicate Apiece(items: seq<Record>) {
    forall j, k :: 0 <= j < k < |items| ==> items[j].hash != items[k].hash
  }

  lemma {:induction false} ListedApiece(rs: seq<Record>, settled: set<nat>)
    requires Unique(rs)
    ensures Apiece(Refreshable(rs, settled))
    ensures forall r :: r in Refreshable(rs, settled) ==> r in rs
  {
    if rs != [] {
      var front, last := rs[..|rs|-1], rs[|rs|-1];
      assert rs == front + [last];
      UniqueSplit(front, [last]);
      ListedApiece(front, settled);
      assert last in [last];
    }
  }

  lemma RecordsUnique(j: Journal)
    requires Unique(Known(j))
    ensures Unique(j.records)
  {
    UniqueSplit(j.archived, j.records);
  }

  /** The first i items, in turn from `start`, have their answers in the journal; the others are as they
      were listed. */
  ghost predicate AnsweredTo(records: seq<Record>, items: seq<Record>, start: nat, replies: nat -> Answer, i: nat)
    requires items != []
  {
    && (forall k :: 0 <= k < i && k < |items| ==> HasAnswer(records, items, Slot(|items|, start, k), replies(k)))
    && (forall k :: i <= k < |items| ==> Holds(records, items, Slot(|items|, start, k)))
  }

  ghost predicate HasAnswer(records: seq<Record>, items: seq<Record>, s: nat, answer: Answer) {
    s < |items| && exists r :: r in records && ShowsAnswer(r, items[s], answer)
  }

  predicate Holds(records: seq<Record>, items: seq<Record>, s: nat) {
    s < |items| && items[s] in records
  }

  lemma NothingAnswered(records: seq<Record>, items: seq<Record>, start: nat, replies: nat -> Answer)
    requires items != [] && forall r :: r in items ==> r in records
    ensures AnsweredTo(records, items, start, replies, 0)
  {
    hide Slot;
    forall k | 0 <= k < |items| ensures Holds(records, items, Slot(|items|, start, k)) {
      SlotTurn(|items|, start, k);
    }
  }

  lemma OneAnswered(records: seq<Record>, after: seq<Record>, items: seq<Record>, start: nat, replies: nat -> Answer, i: nat)
    requires i < |items| && Apiece(items) && AnsweredTo(records, items, start, replies, i)
    requires HasAnswer(after, items, Slot(|items|, start, i), replies(i))
    requires Slot(|items|, start, i) < |items|
    requires forall r :: r in records && r.hash != items[Slot(|items|, start, i)].hash ==> r in after
    ensures AnsweredTo(after, items, start, replies, i + 1)
  {
    hide Slot, ShowsAnswer;
    var n := |items|;
    SlotTurn(n, start, i);
    forall k | 0 <= k < n && k != i
      ensures Slot(n, start, k) < n && items[Slot(n, start, k)].hash != items[Slot(n, start, i)].hash
    {
      SlotTurn(n, start, k);
    }
    forall k | 0 <= k < i ensures HasAnswer(after, items, Slot(n, start, k), replies(k)) {
      var s := Slot(n, start, k);
      assert HasAnswer(records, items, s, replies(k));
      var r :| r in records && ShowsAnswer(r, items[s], replies(k));
      AnswerKeepsHash(r, items[s], replies(k));
    }
    forall k | i < k < n ensures Holds(after, items, Slot(n, start, k)) {
      assert Holds(records, items, Slot(n, start, k));
    }
  }

  lemma AnswerKeepsHash(r: Record, item: Record, answer: Answer)
    requires ShowsAnswer(r, item, answer)
    ensures r.hash == item.hash
  {
  }

  /** After archiving too: the record with the answer is active or archived, or was taken over as a
      replaced one because its nonce is somebody else's for good. */
  ghost predicate AnswerKept(known: seq<Record>, item: Record, answer: Answer) {
    || (exists r :: r in known && ShowsAnswer(r, item, answer))
    || (exists r :: ShowsAnswer(r, item, answer) && !r.finalized && r.(finalized := true, state := Replaced) in known)
  }

  lemma ArchivedAnswer(j: Journal, fileOutcome: Outcome, activeOutcome: Outcome, item: Record, answer: Answer, r: Record)
    requires r in j.records && ShowsAnswer(r, item, answer)
    ensures AnswerKept(Known(ArchiveFinalized(j, fileOutcome, activeOutcome).journal), item, answer)
  {
    hide ShowsAnswer, Retired, Kept, PutFile;
    hide FinalNonces;
    var k := ArchiveFinalized(j, fileOutcome, activeOutcome).journal;
    RetiredExactly(j.records, Cut(j), FinalNonces(Known(j)));
    KeptExactly(j.records, Cut(j), FinalNonces(Known(j)));
    if r !in k.records {
      var i :| 0 <= i < |j.records| && j.records[i] == r;
      assert Retires(j.records, Cut(j), FinalNonces(Known(j)), i);
      assert ArchiveCopy(r) in ToArchive(j);
      assert ArchiveCopy(r) in Known(k);
    } else {
      assert r in Known(k);
    }
  }
}
