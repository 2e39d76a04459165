/** What every reachable state of the wallet satisfies. */
module WalletInvariant {
  import opened Records
  import opened Journal
  import opened JournalInvariant
  import opened JournalArchiving
  import opened Replacement
  import opened WalletRuns

  // ---------------------------------------------------------------- memory and files

  predicate InSync(j: Journal) {
    Active(j.disk) == j.records
  }

  /** After a write that failed past its rename, journal.json holds what memory would have become. */
  ghost predicate AheadByUpdate(j: Journal, steady: bool) {
    exists i, u :: 0 <= i < |j.records| && Updates(j.records[i], u)
      && (steady && IsMined(j.records[i].state) ==> IsMined(u.state))
      && Active(j.disk) == j.records[i := u]
  }

  ghost predicate AheadByAppend(j: Journal) {
    exists r :: Appendable(j, r) && Active(j.disk) == j.records + [r]
  }

  ghost predicate AheadByArchive(j: Journal) {
    ArchiveWritten(j) && Active(j.disk) == ToKeep(j)
  }

  ghost predicate Shape(j: Journal, steady: bool) {
    InSync(j) || AheadByUpdate(j, steady) || AheadByAppend(j) || AheadByArchive(j)
  }

  /** The journal that journal.json stands for. */
  function Base(j: Journal): Journal {
    if |Active(j.disk)| < |j.records| then Shortened(j) else j.(records := Active(j.disk))
  }

  lemma {:induction false} SplitSizes(rs: seq<Record>, cut: int, settled: set<nat>)
    ensures |Retired(rs, cut, settled)| + |Kept(rs, cut, settled)| == |rs|
  {
    if rs != [] {
      SplitSizes(rs[..|rs|-1], cut, settled);
    }
  }

  lemma BaseGood(j: Journal, steady: bool)
    requires Good(j) && Shape(j, steady)
    ensures Good(Base(j)) && Base(j).records == Active(j.disk)
    ensures Base(j).disk == j.disk && Base(j).chainId == j.chainId
    ensures Carries(Known(j), Known(Base(j)))
    ensures FinalNonces(Known(j)) <= FinalNonces(Known(Base(j)))
    ensures steady ==> MinedNonces(Known(j)) <= MinedNonces(Known(Base(j)))
  {
    SplitSizes(j.records, Cut(j), FinalNonces(Known(j)));
    CarriesSelf(Known(j));
    if InSync(j) {
      assert Base(j) == j;
    } else if AheadByUpdate(j, steady) {
      var i, u :| 0 <= i < |j.records| && Updates(j.records[i], u)
        && (steady && IsMined(j.records[i].state) ==> IsMined(u.state))
        && Active(j.disk) == j.records[i := u];
      GoodUpdate(j, i, u);
      KnownUpdated(j, i, u);
      if steady {
        MinedUpdated(j, i, u);
      }
    } else if AheadByAppend(j) {
      var r :| Appendable(j, r) && Active(j.disk) == j.records + [r];
      GoodAppend(j, r);
      KnownAppended(j, r);
    } else {
      GoodShortened(j);
      ShortenedKnown(j);
    }
  }

  lemma MinedUpdated(j: Journal, i: nat, u: Record)
    requires i < |j.records| && Updates(j.records[i], u)
    requires IsMined(j.records[i].state) ==> IsMined(u.state)
    ensures MinedNonces(Known(j)) <= MinedNonces(Known(j.(records := j.records[i := u])))
  {
    hide FinalNonces, Carries;
    KnownUpdated(j, i, u);
    var before, after := Known(j), Known(j.(records := j.records[i := u]));
    forall m | m in before && IsMined(m.state) ensures m.nonce in MinedNonces(after) {
      var k :| 0 <= k < |before| && before[k] == m;
      assert after[k] in after;
    }
  }

  lemma KnownAppended(j: Journal, r: Record)
    ensures var before, after := Known(j), Known(j.(records := j.records + [r]));
      && after == before + [r] && Carries(before, after)
      && (forall m :: m in after <==> m in before || m == r)
      && MinedNonces(before) <= MinedNonces(after) && FinalNonces(before) <= FinalNonces(after)
  {
    assert Known(j.(records := j.records + [r])) == Known(j) + [r];
    assert forall m :: m in Known(j) ==> SamePayment(m, m);
  }

  // ---------------------------------------------------------------- one step of the running journal

  /** `k` comes from `j` by one write of the running wallet: no payment is lost, one active record
      may have been updated, and new records have new hashes. */
  ghost predicate Follows(j: Journal, k: Journal) {
    && Carries(Known(j), Known(k))
    && (forall m :: m in k.records && m.hash in Hashes(Known(j)) ==> Descends(j, m))
    && (forall m :: m in Known(k) ==> Represented(Known(j), m) || m.hash !in Hashes(Known(j)))
    && (forall m :: m in Known(j) && IsFinal(m) ==> m in Known(k))
  }

  ghost predicate Descends(j: Journal, m: Record) {
    exists p :: p in j.records && p.hash == m.hash && (p == m || Updates(p, m))
  }

  /** A record read earlier: it is unchanged as long as its version is. */
  ghost predicate ReadOk(j: Journal, r: Record) {
    && Represented(Known(j), r)
    && forall m :: m in j.records && m.hash == r.hash ==>
         m.version >= r.version && (m.version == r.version ==> m == r)
  }

  /** Writing at this version overwrites no inclusion. */
  ghost predicate WriteSafe(j: Journal, r: Record) {
    forall m :: m in j.records && m.hash == r.hash && m.version == r.version ==> !IsMined(m.state)
  }

  lemma DescendantRead(j: Journal, m: Record, r: Record)
    requires Descends(j, m) && ReadOk(j, r) && m.hash == r.hash
    ensures m.version >= r.version && (m.version == r.version ==> m == r && m in j.records)
  {
  }

  lemma CarriedTwice(a: seq<Record>, b: seq<Record>, r: Record)
    requires Carries(a, b) && Represented(a, r)
    ensures Represented(b, r) && r.hash in Hashes(a)
  {
    var p :| p in a && SamePayment(p, r);
    var q :| q in b && SamePayment(q, p);
  }

  lemma ReadFollows(j: Journal, k: Journal, r: Record)
    requires Follows(j, k) && ReadOk(j, r)
    ensures ReadOk(k, r)
    ensures WriteSafe(j, r) ==> WriteSafe(k, r)
  {
    CarriedTwice(Known(j), Known(k), r);
    forall m | m in k.records && m.hash == r.hash
      ensures m.version >= r.version && (m.version == r.version ==> m == r && m in j.records)
    {
      DescendantRead(j, m, r);
    }
  }

  lemma FollowsSelf(j: Journal)
    ensures Follows(j, j)
  {
    CarriesSelf(Known(j));
  }

  lemma FollowsUpdate(j: Journal, i: nat, u: Record)
    requires Good(j) && i < |j.records| && Updates(j.records[i], u)
    ensures Follows(j, j.(records := j.records[i := u]))
    ensures Carries(Known(j.(records := j.records[i := u])), Known(j))
  {
    var k := j.(records := j.records[i := u]);
    KnownUpdated(j, i, u);
    forall m | m in k.records ensures Descends(j, m) {
      var x :| 0 <= x < |k.records| && k.records[x] == m;
      assert j.records[x] in j.records;
    }
    forall m | m in Known(k) ensures Represented(Known(j), m) {
      if m == u {
        assert j.records[i] in Known(j) && SamePayment(j.records[i], u);
      }
    }
  }

  lemma FollowsAppend(j: Journal, r: Record)
    requires r.hash !in Hashes(Known(j))
    ensures Follows(j, j.(records := j.records + [r]))
  {
    var k := j.(records := j.records + [r]);
    KnownAppended(j, r);
    forall m | m in k.records && m.hash in Hashes(Known(j)) ensures Descends(j, m) {
      assert m in j.records;
    }
    forall m | m in Known(k) ensures Represented(Known(j), m) || m.hash !in Hashes(Known(j)) {
      assert SamePayment(m, m);
    }
  }

  lemma FollowsShortened(j: Journal)
    requires Good(j)
    ensures Follows(j, Shortened(j))
    ensures Carries(Known(Shortened(j)), Known(j))
  {
    ShortenedKnown(j);
    KeptExactly(j.records, Cut(j), FinalNonces(Known(j)));
    assert forall m :: m in ToKeep(j) ==> m in j.records;
  }

  // ---------------------------------------------------------------- quotes and fees

  /** The quote outbids every transaction that was recorded at its nonce when it was made. */
  ghost predicate QuoteSound(j: Journal, q: Quote) {
    && NewQuoteId(q.id)
    && (q.basis.Some? ==>
         && q.fees.feeCap >= q.fees.tip
         && q.basis.value != {}
         && q.basis.value <= HashesAt(Known(j), q.nonce)
         && forall r :: r in Known(j) && r.nonce == q.nonce && r.hash in q.basis.value ==> OutbidsRecord(q.fees, r))
  }

  predicate OutbidsRecord(fees: Fees, r: Record) {
    r.raw.Some? && Outbids(fees, r.raw.value)
  }

  lemma HashesAtCarries(a: seq<Record>, b: seq<Record>, nonce: nat)
    requires Carries(a, b)
    ensures HashesAt(a, nonce) <= HashesAt(b, nonce)
  {
    forall h | h in HashesAt(a, nonce) ensures h in HashesAt(b, nonce) {
      var r :| r in AtNonce(a, nonce) && r.hash == h;
      var s :| s in b && SamePayment(s, r);
      assert s in AtNonce(b, nonce);
    }
  }

  lemma QuoteFollows(j: Journal, k: Journal, q: Quote)
    requires Follows(j, k) && QuoteSound(j, q)
    ensures QuoteSound(k, q)
  {
    if q.basis.Some? {
      HashesAtCarries(Known(j), Known(k), q.nonce);
      forall r | r in Known(k) && r.nonce == q.nonce && r.hash in q.basis.value ensures OutbidsRecord(q.fees, r) {
        assert r.hash in HashesAt(Known(j), q.nonce);
        var p :| p in AtNonce(Known(j), q.nonce) && p.hash == r.hash;
        assert p in Known(j) && r.hash in Hashes(Known(j));
        assert Represented(Known(j), r);
        var s :| s in Known(j) && SamePayment(s, r);
      }
    }
  }

  lemma {:induction false} SameSize<T>(a: set<T>, b: set<T>)
    requires a <= b && |a| == |b|
    ensures a == b
  {
    forall x | x in b ensures x in a {
      if x !in a {
        SubsetSize(a, b - {x});
      }
    }
  }

  lemma {:induction false} SubsetSize<T>(a: set<T>, b: set<T>)
    requires a <= b
    ensures |a| <= |b|
    decreases a
  {
    if a != {} {
      var x :| x in a;
      SubsetSize(a - {x}, b - {x});
    }
  }

  /** With unique hashes, counting the records at a nonce counts its hashes. */
  lemma {:induction false} CountAt(rs: seq<Record>, nonce: nat)
    requires Unique(rs)
    ensures |AtNonce(rs, nonce)| == |HashesAt(rs, nonce)|
  {
    hide Unique, Hashes, Apart;
    if rs == [] {
      NoHashes();
    } else {
      var front, last := rs[..|rs|-1], rs[|rs|-1];
      assert rs == front + [last];
      UniqueSplit(front, [last]);
      CountAt(front, nonce);
      if last.nonce == nonce {
        assert AtNonce(rs, nonce) == AtNonce(front, nonce) + [last];
        HashesSnoc(AtNonce(front, nonce), last);
        ApartHash(front, last, AtNonce(front, nonce));
      }
    }
  }

  lemma NoHashes()
    ensures Hashes([]) == {}
  {
  }

  lemma HashesSnoc(rs: seq<Record>, r: Record)
    ensures Hashes(rs + [r]) == Hashes(rs) + {r.hash}
  {
  }

  lemma ApartHash(rs: seq<Record>, r: Record, part: seq<Record>)
    requires Apart(rs, [r]) && forall x :: x in part ==> x in rs
    ensures r.hash !in Hashes(part)
  {
    assert r in [r];
  }

  // ---------------------------------------------------------------- open nonces

  /** Recorded nonces from `floor` up that have no included transaction in the journal. */
  function OpenNonces(rs: seq<Record>, floor: nat): set<nat> {
    set r | r in rs && r.nonce >= floor && r.nonce !in MinedNonces(rs) :: r.nonce
  }

  ghost predicate AtMostOneOpen(rs: seq<Record>, floor: nat) {
    forall m, n :: m in OpenNonces(rs, floor) && n in OpenNonces(rs, floor) ==> m == n
  }

  lemma OpenCarries(a: seq<Record>, b: seq<Record>, floor: nat, floor': nat)
    requires AtMostOneOpen(a, floor) && floor <= floor'
    requires Carries(b, a) && MinedNonces(a) <= MinedNonces(b)
    ensures AtMostOneOpen(b, floor')
  {
    forall n | n in OpenNonces(b, floor') ensures n in OpenNonces(a, floor) {
      var r :| r in b && r.nonce == n && n >= floor' && n !in MinedNonces(b);
      var s :| s in a && SamePayment(s, r);
    }
  }

  ghost predicate ClearanceHolds(j: Journal, q: Quote, c: Clearance, observed: nat, demoted: bool) {
    var known := Known(j);
    match c
    case NothingOpen =>
      q.basis.None? && (!demoted ==> forall r :: r in known ==> r.nonce in MinedNonces(known))
    case OpenBelow(f) =>
      && q.basis.None? && f <= observed && f <= q.nonce
      && (!demoted ==> forall r :: r in known ==> r.nonce in MinedNonces(known) || r.nonce < f)
    case Replacing =>
      q.basis.Some? && |HashesAt(known, q.nonce)| == |q.basis.value|
  }

  // ---------------------------------------------------------------- the invariant

  ghost predicate Unused(j: Journal, id: QuoteId) {
    forall r :: r in Known(j) ==> r.quoteId != id
  }

  ghost predicate FreshQuote(j: Journal, q: Quote) {
    QuoteSound(j, q) && Unused(j, q.id)
  }

  ghost predicate SendOk(j: Journal, send: SendPc, observed: nat, demoted: bool) {
    match send
    case Idle => true
    case Waiting(q) => FreshQuote(j, q) && q.basis.None?
    case Recounting(q) => FreshQuote(j, q) && q.basis.Some?
    case Cleared(q, c) => FreshQuote(j, q) && ClearanceHolds(j, q, c, observed, demoted)
    case RetryFound(r) => ReadOk(j, r)
    case Saved(r) => ReadOk(j, r) && WriteSafe(j, r)
    case RetryReady(r) => ReadOk(j, r) && WriteSafe(j, r)
    case Sending(r, _) => ReadOk(j, r) && WriteSafe(j, r)
  }

  ghost predicate HistoryOk(j: Journal, history: HistoryPc) {
    history.Refreshing? ==> forall r :: r in history.items ==> !r.finalized && ReadOk(j, r)
  }

  ghost predicate Recorded(j: Journal, id: QuoteId, hash: Hash) {
    exists r :: r in Known(j) && r.quoteId == id && r.hash == hash
  }

  ghost predicate BroadcastOk(j: Journal, broadcast: set<(QuoteId, Hash)>) {
    forall p :: p in broadcast ==> Recorded(j, p.0, p.1)
  }

  ghost predicate QuotesOk(j: Journal, quotes: map<QuoteId, Quote>) {
    forall id :: id in quotes ==> QuoteSound(j, quotes[id])
  }

  /** Every replacement outbids all that was sent before it at its nonce. */
  ghost predicate SentOk(j: Journal, sent: seq<Sent>) {
    && (forall s :: s in sent ==> s.record.raw.Some? && Represented(Known(j), s.record))
    && (forall i, k :: 0 <= i < k < |sent| && sent[k].replacement && sent[i].record.nonce == sent[k].record.nonce
         ==> OutbidsSent(sent[k], sent[i]))
  }

  predicate OutbidsSent(later: Sent, earlier: Sent) {
    && later.record.raw.Some? && earlier.record.raw.Some?
    && Outbids(Fees(later.record.raw.value.tip, later.record.raw.value.feeCap), earlier.record.raw.value)
    && later.record.raw.value.feeCap >= later.record.raw.value.tip
  }

  ghost predicate OpenOk(j: Journal, observed: nat, demoted: bool) {
    !demoted ==> AtMostOneOpen(Known(j), observed) && AtMostOneOpen(Known(Base(j)), observed)
  }

  ghost predicate Inv(w: World) {
    && Good(w.journal)
    && Shape(w.journal, !w.demoted)
    && (!w.fault ==> InSync(w.journal))
    && QuotesOk(w.journal, w.quotes)
    && SendOk(w.journal, w.send, w.observed, w.demoted)
    && HistoryOk(w.journal, w.history)
    && BroadcastOk(w.journal, w.broadcast)
    && SentOk(w.journal, w.sent)
    && OpenOk(w.journal, w.observed, w.demoted)
  }

  lemma StartInv(account: Address, chainId: int)
    ensures Inv(Start(account, chainId))
  {
    var w := Start(account, chainId);
    assert Known(w.journal) == [];
    assert Base(w.journal) == w.journal;
  }
}
