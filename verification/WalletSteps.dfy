/** Every step of the wallet keeps the invariant. */
module WalletSteps {
  import opened Records
  import opened Journal
  import opened JournalInvariant
  import opened JournalArchiving
  import opened Replacement
  import opened WalletRuns
  import opened WalletInvariant

  // ---------------------------------------------------------------- what the journal's writes do

  /** `k` replaces `j` without adding a payment; if steady, no included nonce is lost, in memory or
      in what a restart would see. */
  ghost predicate Succeeds(j: Journal, k: Journal, steady: bool) {
    && Good(k)
    && Shape(k, steady)
    && Follows(j, k)
    && Carries(Known(k), Known(j))
    && (steady ==> MinedNonces(Known(j)) <= MinedNonces(Known(k)))
    && (steady ==> BaseFrom(j, k))
  }

  ghost predicate BaseFrom(j: Journal, k: Journal) {
    || Known(Base(k)) == Known(Base(j))
    || (Carries(Known(Base(k)), Known(j)) && MinedNonces(Known(j)) <= MinedNonces(Known(Base(k))))
  }

  lemma SucceedsSelf(j: Journal, steady: bool, steady': bool)
    requires Good(j) && Shape(j, steady) && (steady' ==> steady)
    ensures Succeeds(j, j, steady')
  {
    FollowsSelf(j);
    if AheadByUpdate(j, steady) {
      assert AheadByUpdate(j, steady');
    }
  }

  /** The invariant and the relations between journals do not look at journal.json. */
  lemma GoodFrame(j: Journal, k: Journal)
    requires Good(j)
    requires k.records == j.records && k.archived == j.archived && k.chainId == j.chainId
    requires k.disk.archives == j.disk.archives
    ensures Good(k)
  {
  }

  lemma FollowsFrame(j: Journal, k: Journal, k': Journal)
    requires Follows(j, k)
    ensures k'.records == k.records && k'.archived == k.archived ==> Follows(j, k')
  {
    if k'.records == k.records && k'.archived == k.archived {
      assert Known(k') == Known(k);
    }
  }

  /** An update whose write failed past its rename: memory is as it was. */
  lemma UpdateTorn(j: Journal, i: nat, u: Record, steady: bool)
    requires Good(j) && i < |j.records| && Updates(j.records[i], u)
    requires steady && IsMined(j.records[i].state) ==> IsMined(u.state)
    ensures Succeeds(j, j.(disk := j.disk.(active := Some(j.records[i := u]))), steady)
  {
    hide Good, Updates, Follows, Carries, MinedNonces, FinalNonces, IsMined;
    var next := j.records[i := u];
    var k := j.(disk := j.disk.(active := Some(next)));
    GoodFrame(j, k);
    FollowsSelf(j);
    FollowsFrame(j, j, k);
    CarriesSelf(Known(j));
    FollowsUpdate(j, i, u);
    if steady {
      MinedUpdated(j, i, u);
    }
    assert AheadByUpdate(k, steady);
    assert Known(k) == Known(j) && Known(Base(k)) == Known(j.(records := next));
  }

  lemma UpdateWritten(j: Journal, i: nat, u: Record, steady: bool)
    requires Good(j) && i < |j.records| && Updates(j.records[i], u)
    requires steady && IsMined(j.records[i].state) ==> IsMined(u.state)
    ensures var next := j.records[i := u];
      Succeeds(j, j.(records := next, disk := j.disk.(active := Some(next))), steady)
  {
    hide Good, Updates, Follows, Carries, MinedNonces, FinalNonces, IsMined;
    var next := j.records[i := u];
    var updated := j.(records := next);
    var k := updated.(disk := j.disk.(active := Some(next)));
    GoodUpdate(j, i, u);
    GoodFrame(updated, k);
    FollowsUpdate(j, i, u);
    FollowsFrame(j, updated, k);
    if steady {
      MinedUpdated(j, i, u);
    }
    assert Known(k) == Known(updated) && Base(k) == k;
  }

  lemma SaveUpdate(j: Journal, i: nat, u: Record, outcome: Outcome, steady: bool, steady': bool)
    requires Good(j) && Shape(j, steady) && i < |j.records| && Updates(j.records[i], u)
    requires steady' ==> steady && (IsMined(j.records[i].state) ==> IsMined(u.state))
    ensures Succeeds(j, Save(j, j.records[i := u], outcome), steady')
    ensures outcome == Written ==> InSync(Save(j, j.records[i := u], outcome))
  {
    hide Good, Shape, Succeeds, Updates;
    match outcome
    case FailedOld => SucceedsSelf(j, steady, steady');
    case FailedNew => UpdateTorn(j, i, u, steady');
    case Written => UpdateWritten(j, i, u, steady');
  }

  /** The version check lets through only a write to the record as it was read. */
  lemma UpdateSucceeds(j: Journal, r: Record, report: Report, now: nat, outcome: Outcome, steady: bool, steady': bool)
    requires Good(j) && Shape(j, steady) && ReadOk(j, r)
    requires report.finalized ==> IsMined(report.state)
    requires forall m :: m in j.records && m.hash == r.hash && m.version == r.version ==>
      !m.finalized && (steady' && IsMined(m.state) ==> IsMined(report.state))
    requires steady' ==> steady
    ensures var after := UpdateIfVersion(j, r.hash, r.version, report, now, outcome);
      && Succeeds(j, after.journal, steady')
      && (after.result.Ok? && InSync(j) ==> InSync(after.journal))
  {
    hide Good, Shape, Succeeds;
    var i := IndexByHash(j.records, r.hash);
    SucceedsSelf(j, steady, steady');
    if i < |j.records| && j.records[i].version == r.version && !Reported(j.records[i], report) {
      assert j.records[i] in j.records;
      SaveUpdate(j, i, Apply(j.records[i], report, now), outcome, steady, steady');
    }
  }

  lemma StoredShape(j: Journal, steady: bool)
    requires Good(j) && Shape(j, steady) && ToArchive(j) != []
    ensures ArchiveWritten(Stored(j))
    ensures Succeeds(j, Stored(j), steady) && Known(Base(Stored(j))) == Known(Base(j))
  {
    hide Good, Updates, Carries, Follows, FinalNonces, MinedNonces, Retired, Kept;
    var k := Stored(j);
    GoodStored(j);
    StoredFiles(j);
    FollowsSelf(j);
    FollowsFrame(j, j, k);
    CarriesSelf(Known(j));
    assert Known(k) == Known(j) && ToKeep(k) == ToKeep(j) && ToArchive(k) == ToArchive(j);
    assert FileOf(ToArchive(j)) in k.disk.archives;
    if AheadByUpdate(j, steady) {
      assert AheadByUpdate(k, steady);
    } else if AheadByAppend(j) {
      assert AheadByAppend(k);
    } else if AheadByArchive(j) {
      assert AheadByArchive(k);
    }
    assert Known(Base(k)) == Known(Base(j));
  }

  lemma ShortenWritten(j: Journal, k: Journal, steady: bool)
    requires Good(j) && ArchiveWritten(j)
    requires k == Shortened(j).(disk := j.disk.(active := Some(ToKeep(j))))
    ensures Succeeds(j, k, steady)
  {
    hide Good, ArchiveWritten, FinalNonces, MinedNonces, Carries;
    GoodShortened(j);
    GoodFrame(Shortened(j), k);
    ShortenedKnown(j);
    FollowsShortened(j);
    assert Known(k) == Known(Shortened(j)) && Base(k) == k;
  }

  lemma ShortenFailed(j: Journal, k: Journal, steady: bool)
    requires Good(j) && ArchiveWritten(j)
    requires k == j.(disk := j.disk.(active := Some(ToKeep(j))))
    ensures Succeeds(j, k, steady)
  {
    hide Good, FinalNonces, MinedNonces, Carries;
    GoodFrame(j, k);
    FollowsSelf(j);
    ShortenedKnown(j);
    SplitSizes(j.records, Cut(j), FinalNonces(Known(j)));
    assert Known(k) == Known(j) && ToArchive(k) == ToArchive(j) && ToKeep(k) == ToKeep(j);
    assert AheadByArchive(k);
    assert Known(Base(k)) == Known(Shortened(j));
    CarriesSelf(Known(j));
  }

  /** Journals with the same memory follow the same journals. */
  lemma SucceedsFrom(j: Journal, j': Journal, k: Journal, steady: bool)
    requires Succeeds(j', k, steady)
    requires j'.records == j.records && j'.archived == j.archived
    requires Known(Base(j')) == Known(Base(j))
    ensures Succeeds(j, k, steady)
  {
    hide Good, Shape, Base;
    assert Known(j) == Known(j');
    assert Follows(j, k) by {
      assert forall m :: Descends(j', m) ==> Descends(j, m);
    }
  }

  lemma ArchiveSucceeds(j: Journal, fileOutcome: Outcome, activeOutcome: Outcome, steady: bool)
    requires Good(j) && Shape(j, steady)
    ensures var after := ArchiveFinalized(j, fileOutcome, activeOutcome);
      && Succeeds(j, after.journal, steady)
      && (after.result.Ok? && InSync(j) ==> InSync(after.journal))
  {
    hide Good, Succeeds, Shape, FinalNonces, ArchiveWritten, Base, Retired, Kept;
    SucceedsSelf(j, steady, steady);
    var k := ArchiveFinalized(j, fileOutcome, activeOutcome).journal;
    if |j.records| >= ARCHIVE_THRESHOLD && ToArchive(j) != [] && fileOutcome != FailedOld {
      var stored := Stored(j);
      StoredShape(j, steady);
      if fileOutcome == Written {
        assert Known(stored) == Known(j) && ToKeep(stored) == ToKeep(j) && ToArchive(stored) == ToArchive(j);
        assert Good(stored) by {
          GoodStored(j);
        }
        if activeOutcome == Written {
          ShortenWritten(stored, k, steady);
          SucceedsFrom(j, stored, k, steady);
        } else if activeOutcome == FailedNew {
          ShortenFailed(stored, k, steady);
          SucceedsFrom(j, stored, k, steady);
        }
      }
    }
  }

  // ---------------------------------------------------------------- steps that add no payment

  ghost predicate Calm(w: World, w': World) {
    && w'.account == w.account
    && (forall id :: id in w'.quotes ==> id in w.quotes && w'.quotes[id] == w.quotes[id])
    && (w'.send == w.send || w'.send == Idle)
    && (w'.history.Refreshing? ==> w.history.Refreshing? && forall r :: r in w'.history.items ==> r in w.history.items)
    && w'.broadcast == w.broadcast && w'.sent == w.sent
    && w.observed <= w'.observed
    && (w.demoted ==> w'.demoted)
  }

  /** `k` adds no payment to `j`, and while steady loses no included nonce. */
  ghost predicate Preserves(j: Journal, k: Journal, steady: bool) {
    && Follows(j, k)
    && Carries(Known(k), Known(j))
    && (steady ==> MinedNonces(Known(j)) <= MinedNonces(Known(k)))
  }

  lemma ClearanceFollows(j: Journal, k: Journal, q: Quote, c: Clearance, observed: nat, observed': nat, demoted: bool, demoted': bool)
    requires ClearanceHolds(j, q, c, observed, demoted) && observed <= observed' && (demoted ==> demoted')
    requires Preserves(j, k, !demoted')
    ensures ClearanceHolds(k, q, c, observed', demoted')
  {
    hide Follows, MinedNonces;
    var a, b := Known(j), Known(k);
    assert Carries(a, b) by { PreservesCarries(j, k, !demoted'); }
    HashesAtCarries(a, b, q.nonce);
    HashesAtCarries(b, a, q.nonce);
    assert HashesAt(a, q.nonce) == HashesAt(b, q.nonce);
    if !demoted' && !c.Replacing? {
      forall r | r in b ensures r.nonce in MinedNonces(b) || (c.OpenBelow? && r.nonce < c.nonce) {
        var s :| s in a && SamePayment(s, r);
      }
    }
  }

  lemma PreservesCarries(j: Journal, k: Journal, steady: bool)
    requires Preserves(j, k, steady)
    ensures Carries(Known(j), Known(k))
  {
  }

  lemma UnusedFollows(j: Journal, k: Journal, id: QuoteId)
    requires Unused(j, id) && Carries(Known(k), Known(j))
    ensures Unused(k, id)
  {
    forall r | r in Known(k) ensures r.quoteId != id {
      var s :| s in Known(j) && SamePayment(s, r);
    }
  }

  lemma FreshFollows(j: Journal, k: Journal, q: Quote, steady: bool)
    requires FreshQuote(j, q) && Preserves(j, k, steady)
    ensures FreshQuote(k, q)
  {
    hide Follows, Unused, QuoteSound, Carries, MinedNonces;
    QuoteFollows(j, k, q);
    UnusedFollows(j, k, q.id);
  }

  lemma SendFollows(j: Journal, k: Journal, send: SendPc, observed: nat, observed': nat, demoted: bool, demoted': bool)
    requires SendOk(j, send, observed, demoted) && observed <= observed' && (demoted ==> demoted')
    requires Preserves(j, k, !demoted')
    ensures SendOk(k, send, observed', demoted')
  {
    hide FreshQuote, Follows, Carries, MinedNonces, ReadOk, WriteSafe, ClearanceHolds;
    match send {
      case Idle =>
      case Waiting(q) => FreshFollows(j, k, q, !demoted');
      case Recounting(q) => FreshFollows(j, k, q, !demoted');
      case Cleared(q, c) =>
        FreshFollows(j, k, q, !demoted');
        ClearanceFollows(j, k, q, c, observed, observed', demoted, demoted');
      case Saved(r) => ReadFollows(j, k, r);
      case RetryFound(r) => ReadFollows(j, k, r);
      case RetryReady(r) => ReadFollows(j, k, r);
      case Sending(r, _) => ReadFollows(j, k, r);
    }
  }

  lemma QuotesFollow(j: Journal, k: Journal, quotes: map<QuoteId, Quote>, quotes': map<QuoteId, Quote>)
    requires QuotesOk(j, quotes) && Follows(j, k)
    requires forall id :: id in quotes' ==> id in quotes && quotes'[id] == quotes[id]
    ensures QuotesOk(k, quotes')
  {
    hide Follows, QuoteSound;
    forall id | id in quotes' ensures QuoteSound(k, quotes'[id]) {
      QuoteFollows(j, k, quotes[id]);
    }
  }

  lemma HistoryFollows(j: Journal, k: Journal, history: HistoryPc, history': HistoryPc)
    requires HistoryOk(j, history) && Follows(j, k)
    requires history'.Refreshing? ==> history.Refreshing? && forall r :: r in history'.items ==> r in history.items
    ensures HistoryOk(k, history')
  {
    hide Follows, ReadOk;
    if history'.Refreshing? {
      forall r | r in history'.items ensures !r.finalized && ReadOk(k, r) {
        ReadFollows(j, k, r);
      }
    }
  }

  lemma BroadcastFollows(j: Journal, k: Journal, broadcast: set<(QuoteId, Hash)>)
    requires BroadcastOk(j, broadcast) && Carries(Known(j), Known(k))
    ensures BroadcastOk(k, broadcast)
  {
    forall p | p in broadcast ensures Recorded(k, p.0, p.1) {
      var r :| r in Known(j) && r.quoteId == p.0 && r.hash == p.1;
      var s :| s in Known(k) && SamePayment(s, r);
    }
  }

  lemma SentFollows(j: Journal, k: Journal, sent: seq<Sent>)
    requires SentOk(j, sent) && Carries(Known(j), Known(k))
    ensures SentOk(k, sent)
  {
    forall s | s in sent ensures Represented(Known(k), s.record) {
      CarriedTwice(Known(j), Known(k), s.record);
    }
  }

  lemma FollowsCarries(j: Journal, k: Journal)
    requires Follows(j, k)
    ensures Carries(Known(j), Known(k))
  {
  }

  /** The parts of the invariant that hold wherever payments are carried over. */
  lemma RestFollows(w: World, w': World)
    requires QuotesOk(w.journal, w.quotes) && HistoryOk(w.journal, w.history)
    requires BroadcastOk(w.journal, w.broadcast) && SentOk(w.journal, w.sent)
    requires Calm(w, w') && Follows(w.journal, w'.journal)
    ensures QuotesOk(w'.journal, w'.quotes) && HistoryOk(w'.journal, w'.history)
    ensures BroadcastOk(w'.journal, w'.broadcast) && SentOk(w'.journal, w'.sent)
  {
    hide Follows, QuotesOk, HistoryOk, BroadcastOk, SentOk;
    FollowsCarries(w.journal, w'.journal);
    QuotesFollow(w.journal, w'.journal, w.quotes, w'.quotes);
    HistoryFollows(w.journal, w'.journal, w.history, w'.history);
    BroadcastFollows(w.journal, w'.journal, w.broadcast);
    SentFollows(w.journal, w'.journal, w.sent);
  }

  lemma OpenFollows(j: Journal, k: Journal, observed: nat, observed': nat, demoted: bool, demoted': bool)
    requires OpenOk(j, observed, demoted) && observed <= observed' && (demoted ==> demoted')
    requires Succeeds(j, k, !demoted')
    ensures OpenOk(k, observed', demoted')
  {
    hide Good, Shape, Follows, AtMostOneOpen, MinedNonces, Carries, Base;
    if !demoted' {
      OpenCarries(Known(j), Known(k), observed, observed');
      if Known(Base(k)) == Known(Base(j)) {
        CarriesSelf(Known(Base(k)));
        OpenCarries(Known(Base(j)), Known(Base(k)), observed, observed');
      } else {
        OpenCarries(Known(j), Known(Base(k)), observed, observed');
      }
    }
  }

  lemma SucceedsPreserves(j: Journal, k: Journal, steady: bool)
    requires Succeeds(j, k, steady)
    ensures Preserves(j, k, steady) && Good(k) && Shape(k, steady) && Follows(j, k)
  {
    hide Good, Shape, Follows, Carries, BaseFrom;
  }

  lemma CalmStep(w: World, w': World)
    requires Inv(w) && Calm(w, w')
    requires Succeeds(w.journal, w'.journal, !w'.demoted)
    requires !w'.fault ==> InSync(w'.journal)
    ensures Inv(w')
  {
    hide Good, Shape, Succeeds, Preserves, Follows, SendOk, HistoryOk, BroadcastOk, SentOk, QuotesOk, OpenOk;
    SucceedsPreserves(w.journal, w'.journal, !w'.demoted);
    SendFollows(w.journal, w'.journal, w.send, w.observed, w'.observed, w.demoted, w'.demoted);
    IdleOk(w'.journal, w'.observed, w'.demoted);
    RestFollows(w, w');
    OpenFollows(w.journal, w'.journal, w.observed, w'.observed, w.demoted, w'.demoted);
  }

  lemma IdleOk(j: Journal, observed: nat, demoted: bool)
    ensures SendOk(j, Idle, observed, demoted)
  {
  }

  lemma SafeWrite(j: Journal, r: Record)
    requires Good(j) && WriteSafe(j, r)
    ensures forall m :: m in j.records && m.hash == r.hash && m.version == r.version ==>
      !m.finalized && !IsMined(m.state)
  {
  }

  lemma SendRecordInv(w: World, accepted: bool, error: string, now: nat, outcome: Outcome)
    requires Inv(w)
    ensures Inv(StepSendRecord(w, accepted, error, now, outcome))
  {
    hide Good, Shape, Succeeds, ReadOk, WriteSafe, HistoryOk, BroadcastOk, SentOk, OpenOk, QuotesOk, UpdateIfVersion;
    if w.send.Sending? {
      var r := w.send.record;
      SafeWrite(w.journal, r);
      UpdateSucceeds(w.journal, r, BroadcastReport(accepted, error), now, outcome, !w.demoted, !w.demoted);
      CalmStep(w, StepSendRecord(w, accepted, error, now, outcome));
    }
  }

  /** A chain answer is written only over the record that was listed for refresh. */
  lemma AnswerSafe(w: World, item: Record)
    requires Inv(w) && w.history.Refreshing? && item in w.history.items
    ensures ReadOk(w.journal, item)
    ensures forall m :: m in w.journal.records && m.hash == item.hash && m.version == item.version ==>
      m == item && !m.finalized
  {
    hide Good, Shape, SendOk, BroadcastOk, SentOk, OpenOk, QuotesOk;
  }

  lemma HistoryAnswerInv(w: World, i: nat, answer: Answer, now: nat, outcome: Outcome)
    requires Inv(w)
    ensures Inv(StepHistoryAnswer(w, i, answer, now, outcome))
  {
    hide Inv, Succeeds, ReadOk, UpdateIfVersion, ReportOf, Without, InSync;
    var w' := StepHistoryAnswer(w, i, answer, now, outcome);
    if w.history.Refreshing? && i < |w.history.items| {
      var item := w.history.items[i];
      WithoutOnly(w.history.items, i);
      InvParts(w);
      var report := ReportOf(w, item, answer);
      if report.Some? {
        AnswerSafe(w, item);
        ReportSound(w, item, answer);
        UpdateSucceeds(w.journal, item, report.value, now, outcome, !w.demoted, !w'.demoted);
      } else {
        SucceedsSelf(w.journal, !w.demoted, !w.demoted);
      }
      CalmStep(w, w');
    }
  }

  lemma InvParts(w: World)
    requires Inv(w)
    ensures Good(w.journal) && Shape(w.journal, !w.demoted) && (!w.fault ==> InSync(w.journal))
  {
  }

  lemma WithoutOnly<T>(s: seq<T>, i: nat)
    requires i < |s|
    ensures forall x :: x in Without(s, i) ==> x in s
  {
  }

  lemma ReportSound(w: World, item: Record, answer: Answer)
    ensures var report := ReportOf(w, item, answer);
      report.Some? && report.value.finalized ==> IsMined(report.value.state)
  {
    hide Known;
  }

  lemma HistoryArchiveInv(w: World, fileOutcome: Outcome, activeOutcome: Outcome)
    requires Inv(w)
    ensures Inv(StepHistoryArchive(w, fileOutcome, activeOutcome))
  {
    hide Good, Shape, Succeeds, SendOk, HistoryOk, BroadcastOk, SentOk, OpenOk, QuotesOk, ArchiveFinalized;
    ArchiveSucceeds(w.journal, fileOutcome, activeOutcome, !w.demoted);
    if w.history == Refreshing([]) {
      CalmStep(w, StepHistoryArchive(w, fileOutcome, activeOutcome));
    }
  }

  lemma QuietInv(w: World, w': World)
    requires Inv(w) && Calm(w, w') && w'.journal == w.journal && w'.fault == w.fault && w'.demoted == w.demoted
    ensures Inv(w')
  {
    hide Good, Shape, Succeeds, SendOk, HistoryOk, BroadcastOk, SentOk, OpenOk, QuotesOk;
    SucceedsSelf(w.journal, !w.demoted, !w'.demoted);
    CalmStep(w, w');
  }

  // ---------------------------------------------------------------- append

  lemma AppendGood(j: Journal, r: Record, outcome: Outcome, steady: bool)
    requires Good(j) && Shape(j, steady) && Appendable(j, r)
    ensures var k := Save(j, j.records + [r], outcome);
      && Good(k) && Shape(k, steady) && Follows(j, k)
      && (outcome == Written ==> InSync(k) && k.records == j.records + [r])
      && (outcome == FailedOld ==> k == j)
      && (outcome != FailedOld ==> Known(Base(k)) == Known(j) + [r])
      && Known(k) == (if outcome == Written then Known(j) + [r] else Known(j))
  {
    hide FilesNamed, CopiesGood, ArchivedStored, FilesAged, AllSettled, Follows;
    var k := Save(j, j.records + [r], outcome);
    GoodAppend(j, r);
    KnownAppended(j, r);
    assert r in [r];
    FollowsAppend(j, r);
    FollowsSelf(j);
    FollowsFrame(j, j.(records := j.records + [r]), k);
    FollowsFrame(j, j, k);
    if outcome == FailedNew {
      assert Appendable(k, r);
      assert AheadByAppend(k);
    }
  }

  /** The clearance leaves room for one more open nonce. */
  lemma AppendOpen(j: Journal, q: Quote, c: Clearance, r: Record, observed: nat)
    requires ClearanceHolds(j, q, c, observed, false) && FreshQuote(j, q) && r.nonce == q.nonce && !IsMined(r.state)
    requires AtMostOneOpen(Known(j), observed)
    ensures AtMostOneOpen(Known(j) + [r], observed)
  {
    var a := Known(j);
    var b := a + [r];
    assert forall m :: m in b <==> m in a || m == r;
    assert MinedNonces(b) == MinedNonces(a);
    if c.Replacing? {
      var h :| h in q.basis.value;
      assert h in HashesAt(a, q.nonce);
      var p :| p in AtNonce(a, q.nonce) && p.hash == h;
      assert OpenNonces(b, observed) == OpenNonces(a, observed);
    } else {
      forall n | n in OpenNonces(b, observed) ensures n == r.nonce {
        var m :| m in b && m.nonce == n && n >= observed && n !in MinedNonces(b);
      }
    }
  }

  /** A cleared replacement outbids everything at its nonce: the count has not changed, so the
      hashes have not. */
  lemma ClearedOutbids(j: Journal, q: Quote, observed: nat, demoted: bool)
    requires QuoteSound(j, q) && ClearanceHolds(j, q, Replacing, observed, demoted)
    ensures forall r :: r in Known(j) && r.nonce == q.nonce ==> OutbidsRecord(q.fees, r)
    ensures q.fees.feeCap >= q.fees.tip
  {
    SameSize(q.basis.value, HashesAt(Known(j), q.nonce));
    forall r | r in Known(j) && r.nonce == q.nonce ensures OutbidsRecord(q.fees, r) {
      assert r in AtNonce(Known(j), q.nonce);
      assert r.hash in q.basis.value;
    }
  }

  lemma AppendSent(j: Journal, k: Journal, q: Quote, r: Record, sent: seq<Sent>)
    requires SentOk(j, sent) && Follows(j, k) && r in Known(k)
    requires r.nonce == q.nonce && r.raw.Some? && r.raw.value.tip == q.fees.tip && r.raw.value.feeCap == q.fees.feeCap
    requires q.basis.Some? ==> q.fees.feeCap >= q.fees.tip
    requires q.basis.Some? ==> forall p :: p in Known(j) && p.nonce == q.nonce ==> OutbidsRecord(q.fees, p)
    ensures SentOk(k, sent + [Sent(r, q.basis.Some?)])
  {
    hide Follows;
    var sent' := sent + [Sent(r, q.basis.Some?)];
    FollowsCarries(j, k);
    SentFollows(j, k, sent);
    assert SamePayment(r, r);
    forall i, n | 0 <= i < n < |sent'| && sent'[n].replacement && sent'[i].record.nonce == sent'[n].record.nonce
      ensures OutbidsSent(sent'[n], sent'[i])
    {
      if n == |sent| {
        var before := sent[i];
        assert before in sent;
        var p :| p in Known(j) && SamePayment(p, before.record);
        assert OutbidsRecord(q.fees, p);
      }
    }
  }

  lemma NewReadOk(j: Journal, k: Journal, r: Record)
    requires Good(k) && k.records == j.records + [r] && !IsMined(r.state)
    ensures ReadOk(k, r) && WriteSafe(k, r)
  {
    assert r in k.records && r in Known(k) && SamePayment(r, r);
    assert forall m :: m in k.records ==> m in Known(k);
  }

  lemma NewAppendable(j: Journal, r: Record)
    requires |j.records| < CAPACITY && ValidRecord(r, j.chainId) && r.version == 1 && !r.finalized
    requires r.hash !in Hashes(Known(j)) && Unused(j, r.quoteId)
    ensures Appendable(j, r)
  {
    forall x, y | x in Known(j) && y in [r] ensures x.hash != y.hash && x.quoteId != y.quoteId {
      assert y == r;
    }
  }

  /** A torn append, taken apart from the rest of the world. */
  lemma AppendTorn(w: World, q: Quote, c: Clearance, r: Record, outcome: Outcome)
    requires Inv(w) && FreshQuote(w.journal, q) && ClearanceHolds(w.journal, q, c, w.observed, w.demoted)
    requires Appendable(w.journal, r) && r.nonce == q.nonce && r.state == Pending
    requires outcome != Written
    ensures Inv(w.(journal := Save(w.journal, w.journal.records + [r], outcome), send := Idle, fault := true))
  {
    hide Good, Shape, Follows, Appendable, QuotesOk, HistoryOk, BroadcastOk, SentOk, AtMostOneOpen, ClearanceHolds,
      QuoteSound, Unused, ReadOk, WriteSafe;
    var j := w.journal;
    AppendGood(j, r, outcome, !w.demoted);
    RestFollows(w, w.(journal := Save(j, j.records + [r], outcome), send := Idle));
    if !w.demoted {
      AppendOpen(j, q, c, r, w.observed);
    }
  }

  /** A successful one. */
  lemma AppendInv(w: World, q: Quote, c: Clearance, r: Record)
    requires Inv(w) && FreshQuote(w.journal, q) && ClearanceHolds(w.journal, q, c, w.observed, w.demoted)
    requires Appendable(w.journal, r) && r.nonce == q.nonce && r.state == Pending
    requires r.raw.Some? && r.raw.value.tip == q.fees.tip && r.raw.value.feeCap == q.fees.feeCap
    ensures Inv(w.(journal := Save(w.journal, w.journal.records + [r], Written), send := Saved(r),
      sent := w.sent + [Sent(r, q.basis.Some?)]))
  {
    hide Good, Shape, Follows, Appendable, QuotesOk, HistoryOk, BroadcastOk, SentOk, AtMostOneOpen, ClearanceHolds,
      QuoteSound, Unused, ReadOk, WriteSafe;
    var j := w.journal;
    var k := Save(j, j.records + [r], Written);
    AppendGood(j, r, Written, !w.demoted);
    RestFollows(w, w.(journal := k, send := Idle));
    if !w.demoted {
      AppendOpen(j, q, c, r, w.observed);
    }
    assert Known(Base(k)) == Known(k) && r in Known(k);
    if q.basis.Some? {
      ReplacingOnly(j, q, c, w.observed, w.demoted);
      ClearedOutbids(j, q, w.observed, w.demoted);
    }
    AppendSent(j, k, q, r, w.sent);
    NewReadOk(j, k, r);
  }

  lemma ReplacingOnly(j: Journal, q: Quote, c: Clearance, observed: nat, demoted: bool)
    requires ClearanceHolds(j, q, c, observed, demoted) && q.basis.Some?
    ensures c == Replacing
  {
  }

  lemma FaultInv(w: World)
    requires Inv(w)
    ensures Inv(w.(fault := true))
  {
    hide Good, Shape, QuotesOk, SendOk, HistoryOk, BroadcastOk, SentOk, OpenOk;
  }

  lemma ClearedOk(w: World)
    requires Inv(w) && w.send.Cleared?
    ensures FreshQuote(w.journal, w.send.quote)
    ensures ClearanceHolds(w.journal, w.send.quote, w.send.clearance, w.observed, w.demoted)
  {
  }

  lemma SendAppendInv(w: World, hash: Hash, display: string, displayOk: bool, now: nat, outcome: Outcome)
    requires Inv(w)
    ensures Inv(StepSendAppend(w, hash, display, displayOk, now, outcome))
  {
    hide Inv, ClearanceHolds, QuoteSound, Unused, Known, ValidRecord;
    var w' := StepSendAppend(w, hash, display, displayOk, now, outcome);
    if w.send.Cleared? && hash !in Hashes(Known(w.journal)) {
      ClearedOk(w);
      var j := w.journal;
      var q, c := w.send.quote, w.send.clearance;
      var r := SignedRecord(w, q, hash, display, displayOk, now);
      if |j.records| >= CAPACITY {
        QuietInv(w, w');
      } else if !ValidRecord(r, j.chainId) {
        QuietInv(w, w'.(fault := w.fault));
        FaultInv(w'.(fault := w.fault));
      } else {
        NewAppendable(j, r);
        assert r.(version := 1) == r;
        if outcome == Written {
          AppendInv(w, q, c, r);
        } else {
          AppendTorn(w, q, c, r, outcome);
        }
      }
    }
  }

  // ---------------------------------------------------------------- restart

  lemma CrashInv(w: World)
    requires Inv(w)
    ensures Load(w.journal.disk, w.journal.chainId) == Ok(Reload(Base(w.journal)))
    ensures Inv(StepCrash(w))
    ensures InSync(StepCrash(w).journal)
  {
    hide Good, Shape, Base, BroadcastOk, SentOk, AtMostOneOpen, Load, Carries, FinalNonces, MinedNonces, QuotesOk, HistoryOk, FirstSeen;
    var j := w.journal;
    BaseGood(j, !w.demoted);
    var base := Base(j);
    assert base.(disk := j.disk) == base;
    LoadSucceeds(base, j.disk);
    GoodReload(base);
    ReloadKnown(base);
    var k := Reload(base);
    var w' := StepCrash(w);
    assert w'.journal == k && InSync(k);
    BaseInSync(k);
    BroadcastFollows(j, base, w.broadcast);
    BroadcastFollows(base, k, w.broadcast);
    SentFollows(j, base, w.sent);
    SentFollows(base, k, w.sent);
    SyncShape(k, !w.demoted);
    NoQuotes(k);
    if !w.demoted {
      OpenCarries(Known(base), Known(k), w.observed, w.observed);
    }
  }

  lemma BaseInSync(j: Journal)
    requires InSync(j)
    ensures Base(j) == j
  {
  }

  lemma SyncShape(j: Journal, steady: bool)
    requires InSync(j)
    ensures Shape(j, steady)
  {
  }

  lemma NoQuotes(j: Journal)
    ensures QuotesOk(j, map[]) && HistoryOk(j, Resting)
  {
  }

  // ---------------------------------------------------------------- the remaining steps

  lemma RawMember(rs: seq<Record>, r: Record)
    requires r in rs && r.raw.Some?
    ensures r.raw.value in RawOf(rs)
  {
    if r != rs[|rs|-1] {
      assert rs == rs[..|rs|-1] + [rs[|rs|-1]];
      RawMember(rs[..|rs|-1], r);
    }
  }

  lemma QuoteAdded(j: Journal, quotes: map<QuoteId, Quote>, q: Quote)
    requires QuotesOk(j, quotes) && QuoteSound(j, q)
    ensures QuotesOk(j, quotes[q.id := q])
  {
    hide QuoteSound;
  }

  lemma ReplacementSound(j: Journal, id: QuoteId, target: Record, suggestedTip: nat, baseFee: nat, body: string)
    requires Good(j) && NewQuoteId(id) && target in Known(j)
    ensures var prior := AtNonce(Known(j), target.nonce);
      QuoteSound(j, Quote(id, target.nonce, ReplacementFees(RawOf(prior), suggestedTip, baseFee), body,
        Some(Hashes(prior))))
  {
    hide FilesNamed, CopiesGood, ArchivedStored, FilesAged, AllSettled, Unique, ReplacementFees, RawOf;
    var known := Known(j);
    var prior := AtNonce(known, target.nonce);
    ReplacementOutbids(RawOf(prior), suggestedTip, baseFee);
    assert target in prior && target.hash in Hashes(prior);
    forall r | r in known && r.nonce == target.nonce
      ensures OutbidsRecord(ReplacementFees(RawOf(prior), suggestedTip, baseFee), r)
    {
      assert r in prior;
      RawMember(prior, r);
    }
  }

  lemma AddReplacementInv(w: World, id: QuoteId, hash: Hash, suggestedTip: nat, baseFee: nat, body: string)
    requires Inv(w)
    ensures Inv(StepAddReplacement(w, id, hash, suggestedTip, baseFee, body))
  {
    hide Good, Shape, QuotesOk, QuoteSound, SendOk, HistoryOk, BroadcastOk, SentOk, OpenOk, ReplacementFees;
    var target := FirstByHash(Known(w.journal), hash);
    if StepAddReplacement(w, id, hash, suggestedTip, baseFee, body) != w {
      ReplacementSound(w.journal, id, target.value, suggestedTip, baseFee, body);
      QuoteAdded(w.journal, w.quotes, StepAddReplacement(w, id, hash, suggestedTip, baseFee, body).quotes[id]);
    }
  }

  lemma AddQuoteInv(w: World, q: Quote)
    requires Inv(w)
    ensures Inv(StepAddQuote(w, q))
  {
    hide Good, Shape, QuotesOk, SendOk, HistoryOk, BroadcastOk, SentOk, OpenOk;
    if CanQuote(w, q.id) && q.basis.None? {
      QuoteAdded(w.journal, w.quotes, q);
    }
  }

  lemma QuoteFound(w: World, id: QuoteId)
    requires QuotesOk(w.journal, w.quotes) && id in w.quotes && w.quotes[id].id == id
    requires FindByQuoteId(w.journal, id).None?
    ensures FreshQuote(w.journal, w.quotes[id])
  {
  }

  lemma NothingInFlight(j: Journal, evidence: Option<Evidence>)
    requires !InFlight(Known(j), evidence)
    ensures forall r :: r in Known(j) ==>
      r.nonce in MinedNonces(Known(j)) || (evidence.Some? && r.nonce < evidence.value.nonce)
  {
    hide MinedNonces;
    forall r | r in Known(j)
      ensures r.nonce in MinedNonces(Known(j)) || (evidence.Some? && r.nonce < evidence.value.nonce)
    {
      assert r.nonce in MinedNonces(Known(j)) || Consumes(evidence, r);
    }
  }

  lemma SendBeginInv(w: World, id: QuoteId)
    requires Inv(w)
    ensures Inv(StepSendBegin(w, id))
  {
    hide Good, Shape, QuotesOk, HistoryOk, BroadcastOk, SentOk, OpenOk, FreshQuote, InFlight, MinedNonces, FindByQuoteId;
    if StepSendBegin(w, id) != w {
      QuoteFound(w, id);
      if !InFlight(Known(w.journal), None) {
        NothingInFlight(w.journal, None);
      }
    }
  }

  lemma SendEvidenceInv(w: World, evidence: Option<Evidence>)
    requires Inv(w)
    ensures Inv(StepSendEvidence(w, evidence))
  {
    hide Good, Shape, QuotesOk, HistoryOk, BroadcastOk, SentOk, OpenOk, FreshQuote, InFlight, MinedNonces;
    if w.send.Waiting? {
      QuietInv(w, StepSendEvidence(w, evidence).(send := Idle));
      if !InFlight(Known(w.journal), evidence) {
        NothingInFlight(w.journal, evidence);
      }
    }
  }

  lemma SendRecountInv(w: World)
    requires Inv(w)
    ensures Inv(StepSendRecount(w))
  {
    hide Shape, QuotesOk, HistoryOk, BroadcastOk, SentOk, OpenOk, FreshQuote, MinedNonces, HashesAt,
      FilesNamed, CopiesGood, ArchivedStored, FilesAged, AllSettled, Unique;
    if w.send.Recounting? {
      CountAt(Known(w.journal), w.send.quote.nonce);
    }
  }

  /** A record just read is unchanged, being the only one with its hash. */
  lemma JustRead(j: Journal, r: Record)
    requires GoodRecords(j) && r in Known(j)
    ensures ReadOk(j, r)
  {
    assert SamePayment(r, r);
    forall m | m in j.records && m.hash == r.hash ensures m == r {
      assert m in Known(j);
    }
  }

  lemma UnminedSafe(j: Journal, r: Record)
    requires ReadOk(j, r) && r.nonce !in MinedNonces(Known(j))
    ensures WriteSafe(j, r)
  {
    forall m | m in j.records && m.hash == r.hash && m.version == r.version ensures !IsMined(m.state) {
      assert m in Known(j);
    }
  }

  lemma RetryInv(w: World, hash: Hash)
    requires Inv(w)
    ensures Inv(StepRetryBegin(w, hash)) && Inv(StepRetryCheck(w))
  {
    hide Shape, QuotesOk, HistoryOk, BroadcastOk, SentOk, OpenOk, FreshQuote, MinedNonces, ReadOk, WriteSafe, GoodRecords,
      FilesNamed, CopiesGood, ArchivedStored, FilesAged, AllSettled;
    var found := FirstByHash(Known(w.journal), hash);
    if found.Some? {
      JustRead(w.journal, found.value);
    }
    if w.send.RetryFound? && w.send.record.nonce !in MinedNonces(Known(w.journal)) {
      UnminedSafe(w.journal, w.send.record);
    }
  }

  lemma BroadcastInv(w: World)
    requires Inv(w)
    ensures Inv(StepBroadcast(w))
  {
    hide Good, Shape, QuotesOk, HistoryOk, SentOk, OpenOk, WriteSafe;
    if w.send.Saved? || w.send.RetryReady? {
      var r := w.send.record;
      var p :| p in Known(w.journal) && SamePayment(p, r);
      assert Recorded(w.journal, r.quoteId, r.hash);
    }
  }

  lemma {:induction false} RefreshableFrom(rs: seq<Record>, settled: set<nat>)
    ensures forall r :: r in Refreshable(rs, settled) ==> r in rs && !r.finalized && r.nonce !in settled
  {
    if rs != [] {
      assert rs == rs[..|rs|-1] + [rs[|rs|-1]];
      RefreshableFrom(rs[..|rs|-1], settled);
    }
  }

  lemma HistoryBeginInv(w: World)
    requires Inv(w) && w.history == Resting
    ensures Inv(w.(history := Refreshing(RefreshItems(w.journal))))
  {
    hide Shape, QuotesOk, SendOk, BroadcastOk, SentOk, OpenOk, ReadOk, GoodRecords,
      FilesNamed, CopiesGood, ArchivedStored, FilesAged, AllSettled, FinalNonces;
    RefreshableFrom(w.journal.records, FinalNonces(Known(w.journal)));
    forall r | r in RefreshItems(w.journal) ensures ReadOk(w.journal, r) {
      JustRead(w.journal, r);
    }
  }

  lemma NextInv(w: World, e: Event)
    requires Inv(w)
    ensures Inv(Next(w, e))
  {
    hide Inv, StepAddQuote, StepAddReplacement, StepSendBegin, StepSendEvidence, StepSendRecount, StepSendAppend,
      StepRetryBegin, StepRetryCheck, StepBroadcast, StepSendRecord, StepHistoryAnswer, StepHistoryArchive, StepCrash,
      RefreshItems;
    match e
    case AddQuote(q) => AddQuoteInv(w, q);
    case AddReplacement(id, hash, tip, baseFee, body) => AddReplacementInv(w, id, hash, tip, baseFee, body);
    case DropQuote(id) => QuietInv(w, Next(w, e));
    case SendBegin(id) => SendBeginInv(w, id);
    case SendEvidence(evidence) => SendEvidenceInv(w, evidence);
    case SendRecount => SendRecountInv(w);
    case SendRefuse => QuietInv(w, Next(w, e));
    case SendAppend(hash, display, ok, now, outcome) => SendAppendInv(w, hash, display, ok, now, outcome);
    case RetryBegin(hash) => RetryInv(w, hash);
    case RetryCheck => RetryInv(w, 0);
    case Broadcast => BroadcastInv(w);
    case SendRecord(accepted, error, now, outcome) => SendRecordInv(w, accepted, error, now, outcome);
    case HistoryBegin => if w.history == Resting { HistoryBeginInv(w); }
    case HistoryAnswer(i, answer, now, outcome) => HistoryAnswerInv(w, i, answer, now, outcome);
    case HistoryCut => QuietInv(w, Next(w, e));
    case HistoryArchive(a, b) => HistoryArchiveInv(w, a, b);
    case ObserveFinalized(n) => QuietInv(w, Next(w, e));
    case Crash => CrashInv(w);
  }

  lemma {:induction false} RunInv(w: World, events: seq<Event>)
    requires Inv(w)
    ensures Inv(Run(w, events))
  {
    hide Inv, Next;
    if events != [] {
      RunInv(w, events[..|events|-1]);
      NextInv(Run(w, events[..|events|-1]), events[|events|-1]);
    }
  }
}
