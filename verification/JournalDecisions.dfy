/** Archiving is invisible to every decision the wallet takes. */
module JournalDecisions {
  import opened Records
  import opened Journal
  import opened JournalInvariant
  import opened JournalArchiving
  import opened WalletInvariant
  import opened WalletSteps
  import opened WalletRuns
  import opened WalletTheorems

  /** Two journals answer every question the same way: which nonces are included or final, whether
      a transaction is in flight given any finality evidence, which payment a hash or quote ID
      belongs to, and what is to be refreshed. */
  ghost predicate SameDecisions(j: Journal, k: Journal) {
    && MinedNonces(Known(j)) == MinedNonces(Known(k))
    && FinalNonces(Known(j)) == FinalNonces(Known(k))
    && (forall evidence :: InFlight(Known(j), evidence) == InFlight(Known(k), evidence))
    && (forall hash :: SameAnswer(FirstByHash(Known(j), hash), FirstByHash(Known(k), hash)))
    && (forall id :: SameAnswer(FindByQuoteId(j, id), FindByQuoteId(k, id)))
    && RefreshItems(j) == RefreshItems(k)
  }

  predicate SameAnswer(a: Option<Record>, b: Option<Record>) {
    && (a.Some? <==> b.Some?)
    && (a.Some? ==> SamePayment(a.value, b.value))
  }

  lemma InFlightCarried(a: seq<Record>, b: seq<Record>, evidence: Option<Evidence>)
    requires Carries(a, b) && MinedNonces(a) == MinedNonces(b) && InFlight(a, evidence)
    ensures InFlight(b, evidence)
  {
    hide MinedNonces;
    var r :| r in a && r.nonce !in MinedNonces(a) && !Consumes(evidence, r);
    var s :| s in b && SamePayment(s, r);
  }

  lemma HashAnswer(a: seq<Record>, b: seq<Record>, hash: Hash)
    requires Unique(a) && Unique(b) && Carries(a, b) && Carries(b, a)
    ensures SameAnswer(FirstByHash(a, hash), FirstByHash(b, hash))
  {
    var x, y := FirstByHash(a, hash), FirstByHash(b, hash);
    if x.Some? {
      var s :| s in b && SamePayment(s, x.value);
    }
    if y.Some? {
      var s :| s in a && SamePayment(s, y.value);
    }
  }

  lemma QuoteAnswer(a: seq<Record>, b: seq<Record>, id: QuoteId)
    requires Unique(a) && Unique(b) && Carries(a, b) && Carries(b, a)
    ensures SameAnswer(FirstByQuote(a, id), FirstByQuote(b, id))
  {
    var x, y := FirstByQuote(a, id), FirstByQuote(b, id);
    if x.Some? {
      var s :| s in b && SamePayment(s, x.value);
    }
    if y.Some? {
      var s :| s in a && SamePayment(s, y.value);
    }
  }

  lemma DecisionsFrom(j: Journal, k: Journal)
    requires Unique(Known(j)) && Unique(Known(k))
    requires Carries(Known(j), Known(k)) && Carries(Known(k), Known(j))
    requires MinedNonces(Known(j)) == MinedNonces(Known(k)) && FinalNonces(Known(j)) == FinalNonces(Known(k))
    requires RefreshItems(j) == RefreshItems(k)
    ensures SameDecisions(j, k)
  {
    hide Unique, Carries, MinedNonces, FinalNonces, InFlight, SameAnswer, RefreshItems;
    forall evidence ensures InFlight(Known(j), evidence) == InFlight(Known(k), evidence) {
      if InFlight(Known(j), evidence) {
        InFlightCarried(Known(j), Known(k), evidence);
      }
      if InFlight(Known(k), evidence) {
        InFlightCarried(Known(k), Known(j), evidence);
      }
    }
    forall hash ensures SameAnswer(FirstByHash(Known(j), hash), FirstByHash(Known(k), hash)) {
      HashAnswer(Known(j), Known(k), hash);
    }
    forall id ensures SameAnswer(FindByQuoteId(j, id), FindByQuoteId(k, id)) {
      if ValidQuoteId(id) {
        QuoteAnswer(Known(j), Known(k), id);
      } else {
        NoAnswer();
      }
    }
  }

  lemma NoAnswer()
    ensures SameAnswer(None, None)
  {
  }

  /** Archived records were not going to be refreshed. */
  lemma {:induction false} KeptRefreshable(rs: seq<Record>, cut: int, settled: set<nat>)
    ensures Refreshable(Kept(rs, cut, settled), settled) == Refreshable(rs, settled)
  {
    if rs != [] {
      var front, last := rs[..|rs|-1], rs[|rs|-1];
      KeptRefreshable(front, cut, settled);
      if |rs| - 1 < cut && Archivable(last, settled) {
        assert Kept(rs, cut, settled) == Kept(front, cut, settled);
        assert Refreshable(rs, settled) == Refreshable(front, settled);
      } else {
        var kept := Kept(rs, cut, settled);
        assert kept == Kept(front, cut, settled) + [last];
        assert kept[..|kept|-1] == Kept(front, cut, settled) && kept[|kept|-1] == last;
      }
    }
  }

  lemma SelfDecisions(j: Journal, k: Journal)
    requires k.records == j.records && k.archived == j.archived && Good(j)
    ensures SameDecisions(j, k)
  {
    hide Carries, MinedNonces, FinalNonces, FilesNamed, CopiesGood, ArchivedStored, FilesAged, AllSettled;
    assert Known(k) == Known(j);
    CarriesSelf(Known(j));
    DecisionsFrom(j, k);
  }

  lemma ShortenedDecisions(j: Journal)
    requires Good(j)
    ensures SameDecisions(j, Shortened(j))
  {
    hide Carries, MinedNonces, FinalNonces, FilesNamed, CopiesGood, ArchivedStored, FilesAged, AllSettled;
    ShortenedUnique(j);
    ShortenedKnown(j);
    KeptRefreshable(j.records, Cut(j), FinalNonces(Known(j)));
    DecisionsFrom(j, Shortened(j));
  }

  lemma ReloadDecisions(j: Journal)
    requires Good(j)
    ensures SameDecisions(j, Reload(j))
  {
    hide Carries, MinedNonces, FinalNonces, FilesNamed, CopiesGood, ArchivedStored, FilesAged, AllSettled;
    ReloadUnique(j);
    ReloadKnown(j);
    DecisionsFrom(j, Reload(j));
  }

  lemma DecisionsTransitive(a: Journal, b: Journal, c: Journal)
    requires SameDecisions(a, b) && SameDecisions(b, c)
    ensures SameDecisions(a, c)
  {
    hide MinedNonces, FinalNonces, InFlight, RefreshItems, FindByQuoteId, FirstByHash;
    forall hash ensures SameAnswer(FirstByHash(Known(a), hash), FirstByHash(Known(c), hash)) {
      assert SameAnswer(FirstByHash(Known(b), hash), FirstByHash(Known(c), hash));
    }
    forall id ensures SameAnswer(FindByQuoteId(a, id), FindByQuoteId(c, id)) {
      assert SameAnswer(FindByQuoteId(b, id), FindByQuoteId(c, id));
    }
    forall evidence ensures InFlight(Known(a), evidence) == InFlight(Known(c), evidence) {
      assert InFlight(Known(b), evidence) == InFlight(Known(c), evidence);
    }
  }

  /** The running wallet decides the same before and after archiving, whichever write fails. */
  lemma ArchivingInvisible(j: Journal, fileOutcome: Outcome, activeOutcome: Outcome)
    requires Good(j)
    ensures SameDecisions(j, ArchiveFinalized(j, fileOutcome, activeOutcome).journal)
  {
    hide Good, SameDecisions, FinalNonces;
    var k := ArchiveFinalized(j, fileOutcome, activeOutcome).journal;
    if k.records == j.records && k.archived == j.archived {
      SelfDecisions(j, k);
    } else {
      ShortenedDecisions(j);
      FrameDecisions(j, Shortened(j), k);
    }
  }

  lemma FrameDecisions(j: Journal, k: Journal, k': Journal)
    requires SameDecisions(j, k) && k'.records == k.records && k'.archived == k.archived
    ensures SameDecisions(j, k')
  {
    hide MinedNonces, FinalNonces, InFlight;
    assert Known(k') == Known(k);
    forall id ensures SameAnswer(FindByQuoteId(j, id), FindByQuoteId(k', id)) {
      assert SameAnswer(FindByQuoteId(j, id), FindByQuoteId(k, id));
    }
  }

  /** Archiving goes through to journal.json. */
  predicate Shortens(j: Journal, fileOutcome: Outcome, activeOutcome: Outcome) {
    |j.records| >= ARCHIVE_THRESHOLD && ToArchive(j) != [] && fileOutcome == Written && activeOutcome != FailedOld
  }

  lemma ArchiveLeaves(j: Journal, fileOutcome: Outcome, activeOutcome: Outcome)
    ensures var after := ArchiveFinalized(j, fileOutcome, activeOutcome).journal;
      if Shortens(j, fileOutcome, activeOutcome) then
        Active(after.disk) == ToKeep(j) && after.disk.archives == Stored(j).disk.archives
      else after == j || (ToArchive(j) != [] && after == Stored(j))
  {
    hide Retired, Kept, FinalNonces;
  }

  /** If it does, a restart after it, or in the middle of it, decides as memory did. */
  lemma ShortenedRestart(j: Journal, fileOutcome: Outcome, activeOutcome: Outcome)
    requires Good(j) && Shortens(j, fileOutcome, activeOutcome)
    ensures var after := ArchiveFinalized(j, fileOutcome, activeOutcome).journal;
      Load(after.disk, j.chainId).Ok? && SameDecisions(j, Load(after.disk, j.chainId).value)
  {
    hide Good, SameDecisions, FinalNonces, Load, Retired, Kept, FirstSeen, ArchiveFinalized;
    var after := ArchiveFinalized(j, fileOutcome, activeOutcome).journal;
    ArchiveLeaves(j, fileOutcome, activeOutcome);
    var stored := Stored(j);
    GoodStored(j);
    StoredWritten(j);
    SelfDecisions(j, stored);
    assert ToKeep(stored) == ToKeep(j) && ToArchive(stored) == ToArchive(j);
    GoodShortened(stored);
    ShortenedDecisions(stored);
    RestartDecides(Shortened(stored), after);
    DecisionsTransitive(j, stored, Shortened(stored));
    DecisionsTransitive(j, Shortened(stored), Load(after.disk, j.chainId).value);
  }

  /** If it does not, a restart decides as one before archiving would have. */
  lemma UnshortenedRestart(j: Journal, after: Journal, steady: bool)
    requires Good(j) && Shape(j, steady)
    requires after == j || (ToArchive(j) != [] && after == Stored(j))
    ensures Load(j.disk, j.chainId).Ok? && Load(after.disk, j.chainId).Ok?
    ensures SameDecisions(Load(j.disk, j.chainId).value, Load(after.disk, j.chainId).value)
    ensures InSync(j) ==> SameDecisions(j, Load(after.disk, j.chainId).value)
  {
    hide Good, Shape, SameDecisions, Load, Retired, Kept, FirstSeen, FinalNonces, Carries, MinedNonces;
    if after != j {
      StoredShape(j, steady);
    }
    BaseGood(j, steady);
    BaseGood(after, steady);
    SameBase(j, after);
    var before, later := Load(j.disk, j.chainId), Load(after.disk, j.chainId);
    RestartDecides(Base(j), j);
    RestartDecides(Base(after), after);
    SelfDecisions(Base(j), Base(after));
    DecisionsTransitive(Base(j), Base(after), later.value);
    DecisionsSymmetric(Base(j), before.value);
    DecisionsTransitive(before.value, Base(j), later.value);
    if InSync(j) {
      BaseInSync(j);
    }
  }

  lemma SameBase(j: Journal, after: Journal)
    requires after == j || (ToArchive(j) != [] && after == Stored(j))
    ensures Base(after).records == Base(j).records && Base(after).archived == Base(j).archived
  {
    hide Retired, Kept, FinalNonces;
    if after != j {
      assert Known(after) == Known(j);
      assert ToKeep(after) == ToKeep(j) && ToArchive(after) == ToArchive(j);
    }
  }

  lemma DecisionsSymmetric(a: Journal, b: Journal)
    requires SameDecisions(a, b)
    ensures SameDecisions(b, a)
  {
    hide MinedNonces, FinalNonces, InFlight, RefreshItems, FindByQuoteId, FirstByHash;
    forall hash ensures SameAnswer(FirstByHash(Known(b), hash), FirstByHash(Known(a), hash)) {
      assert SameAnswer(FirstByHash(Known(a), hash), FirstByHash(Known(b), hash));
    }
    forall id ensures SameAnswer(FindByQuoteId(b, id), FindByQuoteId(a, id)) {
      assert SameAnswer(FindByQuoteId(a, id), FindByQuoteId(b, id));
    }
    forall evidence ensures InFlight(Known(b), evidence) == InFlight(Known(a), evidence) {
      assert InFlight(Known(a), evidence) == InFlight(Known(b), evidence);
    }
  }

  /** A restart in the middle of archiving or after it loads every file written. It decides as memory
      did, if the files were in step with it or archiving went through, and otherwise as a restart
      before archiving would have. */
  lemma ArchivingInvisibleAfterRestart(j: Journal, fileOutcome: Outcome, activeOutcome: Outcome, steady: bool)
    requires Good(j) && Shape(j, steady)
    ensures var after := ArchiveFinalized(j, fileOutcome, activeOutcome).journal;
      && Load(after.disk, j.chainId).Ok?
      && var restarted := Load(after.disk, j.chainId).value;
         if InSync(j) || Shortens(j, fileOutcome, activeOutcome) then SameDecisions(j, restarted)
         else Load(j.disk, j.chainId).Ok? && SameDecisions(Load(j.disk, j.chainId).value, restarted)
  {
    hide Good, Shape, SameDecisions, FinalNonces, Load, Retired, Kept, FirstSeen;
    if Shortens(j, fileOutcome, activeOutcome) {
      ShortenedRestart(j, fileOutcome, activeOutcome);
    } else {
      ArchiveLeaves(j, fileOutcome, activeOutcome);
      UnshortenedRestart(j, ArchiveFinalized(j, fileOutcome, activeOutcome).journal, steady);
    }
  }

  lemma StoredWritten(j: Journal)
    requires Good(j) && ToArchive(j) != []
    ensures ArchiveWritten(Stored(j))
  {
    assert ToArchive(Stored(j)) == ToArchive(j) by {
      assert Known(Stored(j)) == Known(j);
    }
  }

  lemma RestartDecides(base: Journal, after: Journal)
    requires Good(base) && Active(after.disk) == base.records && after.disk.archives == base.disk.archives
    ensures Load(after.disk, base.chainId).Ok?
    ensures SameDecisions(base, Load(after.disk, base.chainId).value)
  {
    hide Good, SameDecisions, Load, FirstSeen;
    LoadSucceeds(base, after.disk);
    ReloadDecisions(base);
    FrameDecisions(base, Reload(base), Reload(base.(disk := after.disk)));
  }

  /** In every run, after storage faults too: archiving, whichever of its writes fails, and a restart
      in the middle of it or after it, change no decision. */
  lemma ArchivingInvisibleInRuns(account: Address, chainId: int, events: seq<Event>, fileOutcome: Outcome, activeOutcome: Outcome)
    ensures var w := Reached(account, chainId, events);
      var j := w.journal;
      var after := ArchiveFinalized(j, fileOutcome, activeOutcome).journal;
      && SameDecisions(j, after)
      && Load(j.disk, j.chainId).Ok? && Load(after.disk, j.chainId).Ok?
      && (!w.fault ==> InSync(j))
      && var restarted := Load(after.disk, j.chainId).value;
         if InSync(j) || Shortens(j, fileOutcome, activeOutcome) then SameDecisions(j, restarted)
         else SameDecisions(Load(j.disk, j.chainId).value, restarted)
  {
    hide Good, SameDecisions, Load, Run, QuotesOk, SendOk, HistoryOk, BroadcastOk, SentOk, OpenOk, Shape, FirstSeen;
    ReachedInv(account, chainId, events);
    var w := Reached(account, chainId, events);
    ArchivingInvisible(w.journal, fileOutcome, activeOutcome);
    UnshortenedRestart(w.journal, w.journal, !w.demoted);
    ArchivingInvisibleAfterRestart(w.journal, fileOutcome, activeOutcome, !w.demoted);
  }
}
