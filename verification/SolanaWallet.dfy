/** The Solana journal: records kept in memory and rewritten as one file, refreshed in batches
    (internal/wallet/solana.go, crosschain_journal.go). */
module SolanaWallet {
  import opened Records
  import opened Rotation
  import opened Sequences

  /** Whether stored bytes are a transaction with exactly this, valid, signature. */
  type Verifier = (string, string) -> bool

  datatype SolanaRecord = SolanaRecord(
    signature: string, quoteId: QuoteId, lastValid: nat, signedRaw: string, state: string, finalized: bool)

  datatype SolanaQuote = SolanaQuote(lastValid: nat, raw: string)

  const CAPACITY: nat := 1000
  const QUOTE_LIMIT: nat := 64
  const UNKNOWN := "broadcast_unknown"
  const SUBMITTED := "submitted"
  const FINALIZED := "finalized"
  const FAILED := "execution_failed"
  const EXPIRED := "expired_unconfirmed"

  /** The states a stored record may have. */
  predicate KnownState(state: string) {
    state in {UNKNOWN, SUBMITTED, "processed", "confirmed", FINALIZED, FAILED, EXPIRED, "reverted"}
  }

  /** What the chain says of one signature. */
  datatype Status = Status(confirmation: string, failed: bool)

  /** A record after a refresh: `status` is None for an unknown signature, `height` None if the block
      height could not be read. */
  function Refreshed(r: SolanaRecord, status: Option<Status>, height: Option<nat>): SolanaRecord {
    match status
    case Some(s) => r.(state := if s.failed then FAILED else s.confirmation, finalized := s.confirmation == FINALIZED)
    case None =>
      r.(state := if height.Some? && height.value > r.lastValid then EXPIRED else r.state, finalized := false)
  }

  predicate IsOpen(r: SolanaRecord) {
    !r.finalized && r.state != EXPIRED
  }

  // ---------------------------------------------------------------- a refresh, as a function of the replies

  /** What a refresh learns about one record. */
  datatype Reply = NotAsked | Replied(status: Option<Status>)

  function AfterReply(r: SolanaRecord, reply: Reply, height: Option<nat>): SolanaRecord {
    match reply
    case NotAsked => r
    case Replied(status) => Refreshed(r, status, height)
  }

  function AfterReplies(before: seq<SolanaRecord>, replies: seq<Reply>, height: Option<nat>): (next: seq<SolanaRecord>)
    requires |replies| == |before|
    ensures |next| == |before| && forall i :: 0 <= i < |before| ==> next[i] == AfterReply(before[i], replies[i], height)
  {
    seq(|before|, i requires 0 <= i < |before| => AfterReply(before[i], replies[i], height))
  }

  function ReplyTo(asked: seq<nat>, statuses: seq<Option<Status>>, i: nat): Reply
    requires |statuses| == |asked|
  {
    if asked == [] then NotAsked
    else if asked[|asked|-1] == i then Replied(statuses[|asked|-1])
    else ReplyTo(asked[..|asked|-1], statuses[..|asked|-1], i)
  }

  /** Each status goes to the record asked about at its place, and nobody else hears anything. */
  lemma {:induction false} RepliesAt(asked: seq<nat>, statuses: seq<Option<Status>>)
    requires |statuses| == |asked| && forall j, k :: 0 <= j < k < |asked| ==> asked[j] != asked[k]
    ensures forall j :: 0 <= j < |asked| ==> ReplyTo(asked, statuses, asked[j]) == Replied(statuses[j])
    ensures forall i: nat :: i !in asked ==> ReplyTo(asked, statuses, i) == NotAsked
  {
    if asked != [] {
      RepliesAt(asked[..|asked|-1], statuses[..|asked|-1]);
    }
  }

  /** The replies of one refresh of n records. A query that failed, or answered out of step, tells nothing. */
  function Replies(n: nat, asked: seq<nat>, statuses: Option<seq<Option<Status>>>): (replies: seq<Reply>)
    ensures |replies| == n
  {
    seq(n, i requires 0 <= i < n =>
      if statuses.Some? && |statuses.value| == |asked| then ReplyTo(asked, statuses.value, i) else NotAsked)
  }

  function Unfinalized(records: seq<SolanaRecord>): (flags: seq<bool>)
    ensures |flags| == |records| && forall i :: 0 <= i < |flags| ==> flags[i] == !records[i].finalized
  {
    Flags(records, (r: SolanaRecord) => !r.finalized)
  }

  /** Finalized records are not asked about. */
  predicate Fitting(before: seq<SolanaRecord>, replies: seq<Reply>) {
    |replies| == |before| && forall i :: 0 <= i < |before| ==> replies[i].Replied? ==> !before[i].finalized
  }

  /** The record shows what the chain said of it: its level and whether that is final, or that it failed;
      of an unknown signature only that it is past its height, if it is. */
  predicate ShowsStatus(before: SolanaRecord, after: SolanaRecord, status: Option<Status>, height: Option<nat>) {
    && after.signature == before.signature && after.quoteId == before.quoteId
    && after.lastValid == before.lastValid && after.signedRaw == before.signedRaw
    && match status
       case Some(s) =>
         && after.state == (if s.failed then "execution_failed" else s.confirmation)
         && (after.finalized <==> s.confirmation == "finalized")
       case None =>
         && after.state == (if height.Some? && height.value > before.lastValid then "expired_unconfirmed" else before.state)
         && !after.finalized
  }

  /** After a refresh every record asked about shows the status at its place, and the others are as they
      were; if the query failed or was answered out of step, all are. */
  predicate AllShown(before: seq<SolanaRecord>, after: seq<SolanaRecord>, asked: seq<nat>,
    statuses: Option<seq<Option<Status>>>, height: Option<nat>)
  {
    if statuses.Some? && |statuses.value| == |asked| then
      && |after| == |before|
      && (forall j :: 0 <= j < |asked| ==>
           && asked[j] < |before| && !before[asked[j]].finalized
           && ShowsStatus(before[asked[j]], after[asked[j]], statuses.value[j], height))
      && (forall i :: 0 <= i < |before| && i !in asked ==> after[i] == before[i])
    else after == before
  }

  lemma RepliesShown(before: seq<SolanaRecord>, asked: seq<nat>, statuses: Option<seq<Option<Status>>>, height: Option<nat>)
    requires forall i :: i in asked ==> i < |before| && !before[i].finalized
    requires forall j, k :: 0 <= j < k < |asked| ==> asked[j] != asked[k]
    ensures AllShown(before, AfterReplies(before, Replies(|before|, asked, statuses), height), asked, statuses, height)
  {
    if statuses.Some? && |statuses.value| == |asked| {
      RepliesAt(asked, statuses.value);
      var replies := Replies(|before|, asked, statuses);
      var next := AfterReplies(before, replies, height);
      forall j | 0 <= j < |asked|
        ensures asked[j] < |before| && !before[asked[j]].finalized
        ensures ShowsStatus(before[asked[j]], next[asked[j]], statuses.value[j], height)
      {
        assert asked[j] in asked && replies[asked[j]] == Replied(statuses.value[j]);
      }
    } else {
      NothingHeard(before, asked, statuses, height);
    }
  }

  // ---------------------------------------------------------------- when two records are open

  predicate OneOpen(records: seq<SolanaRecord>) {
    forall i, j :: 0 <= i < j < |records| ==> !(IsOpen(records[i]) && IsOpen(records[j]))
  }

  /** An expired record that the chain knows after all, but not as finalized. */
  predicate TurnsUp(r: SolanaRecord, reply: Reply) {
    && r.state == EXPIRED && reply.Replied? && reply.status.Some?
    && reply.status.value.confirmation != FINALIZED
    && (reply.status.value.failed || reply.status.value.confirmation != EXPIRED)
  }

  /** An open record that is neither finalized nor found to have expired. */
  predicate StaysOpen(r: SolanaRecord, reply: Reply, height: Option<nat>) {
    && IsOpen(r)
    && match reply
       case NotAsked => true
       case Replied(None) => height.None? || height.value <= r.lastValid
       case Replied(Some(s)) => s.confirmation != FINALIZED && (s.failed || s.confirmation != EXPIRED)
  }

  /** A refresh opens a closed record exactly if that one turns up. */
  lemma ReopensExactly(r: SolanaRecord, reply: Reply, height: Option<nat>)
    requires reply.Replied? ==> !r.finalized
    ensures IsOpen(AfterReply(r, reply, height)) <==> TurnsUp(r, reply) || StaysOpen(r, reply, height)
    ensures TurnsUp(r, reply) ==> !IsOpen(r)
  {
  }

  /** An expired record turns up while another one is open, or turns up too. */
  ghost predicate Collide(before: seq<SolanaRecord>, replies: seq<Reply>, height: Option<nat>)
    requires |replies| == |before|
  {
    exists i, j :: 0 <= i < |before| && 0 <= j < |before| && i != j && TurnsUp(before[i], replies[i])
      && (TurnsUp(before[j], replies[j]) || StaysOpen(before[j], replies[j], height))
  }

  /** With one record open at most, a refresh leaves two open exactly if records collide. */
  lemma OneOpenExactly(before: seq<SolanaRecord>, replies: seq<Reply>, height: Option<nat>)
    requires OneOpen(before) && Fitting(before, replies)
    ensures OneOpen(AfterReplies(before, replies, height)) <==> !Collide(before, replies, height)
  {
    hide TurnsUp, StaysOpen, AfterReply, IsOpen, AfterReplies;
    var next := AfterReplies(before, replies, height);
    forall i | 0 <= i < |before|
      ensures IsOpen(next[i]) <==> TurnsUp(before[i], replies[i]) || StaysOpen(before[i], replies[i], height)
      ensures StaysOpen(before[i], replies[i], height) ==> IsOpen(before[i])
    {
      ReopensExactly(before[i], replies[i], height);
      StayersOpen(before[i], replies[i], height);
    }
    if Collide(before, replies, height) {
      var i, j :| 0 <= i < |before| && 0 <= j < |before| && i != j && TurnsUp(before[i], replies[i])
        && (TurnsUp(before[j], replies[j]) || StaysOpen(before[j], replies[j], height));
      assert IsOpen(next[i]) && IsOpen(next[j]);
    }
  }

  lemma StayersOpen(r: SolanaRecord, reply: Reply, height: Option<nat>)
    ensures StaysOpen(r, reply, height) ==> IsOpen(r)
  {
  }

  // ---------------------------------------------------------------- when the next start refuses the file

  /** The check a stored record must pass at start-up. */
  predicate Accepted(verify: Verifier, r: SolanaRecord) {
    KnownState(r.state) && verify(r.signedRaw, r.signature)
  }

  predicate Loadable(verify: Verifier, records: seq<SolanaRecord>) {
    |records| <= CAPACITY && forall r :: r in records ==> Accepted(verify, r)
  }

  predicate Same(a: SolanaRecord, b: SolanaRecord) {
    a == b.(state := a.state, finalized := a.finalized)
  }

  /** Signed records, one per quote. */
  predicate Signed(verify: Verifier, records: seq<SolanaRecord>) {
    && |records| <= CAPACITY
    && (forall i :: 0 <= i < |records| ==> verify(records[i].signedRaw, records[i].signature))
    && (forall i, j :: 0 <= i < j < |records| ==> records[i].quoteId != records[j].quoteId)
  }

  /** The file holds the first records of memory, perhaps in an earlier state, and all that were sent. */
  predicate Backs(file: seq<SolanaRecord>, records: seq<SolanaRecord>, sent: set<string>) {
    && |file| <= |records|
    && (forall i :: 0 <= i < |file| ==> Same(file[i], records[i]))
    && InFile(file, sent)
  }

  /** Every signature handed to the network is that of a record in the file. */
  predicate InFile(file: seq<SolanaRecord>, sent: set<string>) {
    forall s :: s in sent ==> exists i :: 0 <= i < |file| && file[i].signature == s
  }

  lemma BackedInFile(file: seq<SolanaRecord>, records: seq<SolanaRecord>, sent: set<string>)
    requires Backs(file, records, sent)
    ensures InFile(file, sent)
  {
  }

  lemma BacksItself(file: seq<SolanaRecord>, records: seq<SolanaRecord>, sent: set<string>)
    requires Backs(file, records, sent)
    ensures Backs(records, records, sent)
  {
    forall s | s in sent ensures exists i :: 0 <= i < |records| && records[i].signature == s {
      var i :| 0 <= i < |file| && file[i].signature == s;
      assert records[i].signature == s;
    }
  }

  predicate AllKnown(records: seq<SolanaRecord>) {
    forall i :: 0 <= i < |records| ==> KnownState(records[i].state)
  }

  /** Start-up refuses a file exactly if a record's state is not one of the known ones. */
  lemma RestartExactly(verify: Verifier, file: seq<SolanaRecord>)
    requires Signed(verify, file)
    ensures Loadable(verify, file) <==> AllKnown(file)
  {
    assert forall i :: 0 <= i < |file| ==> file[i] in file;
  }

  /** Nothing that would be stored is of an unknown confirmation level. */
  predicate LevelKnown(reply: Reply) {
    reply.Replied? && reply.status.Some? ==> reply.status.value.failed || KnownState(reply.status.value.confirmation)
  }

  predicate LevelsKnown(replies: seq<Reply>) {
    forall i :: 0 <= i < |replies| ==> LevelKnown(replies[i])
  }

  lemma StateKnown(r: SolanaRecord, reply: Reply, height: Option<nat>)
    requires KnownState(r.state)
    ensures KnownState(AfterReply(r, reply, height).state) <==> LevelKnown(reply)
  {
  }

  /** A status of an unknown level is stored as it is, and the next start then refuses the whole file:
      a refresh keeps a file acceptable exactly if every level it heard was known, or came with a failure. */
  lemma UnknownLevelLocksOut(verify: Verifier, before: seq<SolanaRecord>, replies: seq<Reply>, height: Option<nat>)
    requires Signed(verify, before) && AllKnown(before) && Fitting(before, replies)
    ensures var next := AfterReplies(before, replies, height);
      && (AllKnown(next) <==> LevelsKnown(replies))
      && (Loadable(verify, next) <==> LevelsKnown(replies))
  {
    hide KnownState, LevelKnown, AfterReplies, IsOpen;
    var next := AfterReplies(before, replies, height);
    forall i | 0 <= i < |before| ensures KnownState(next[i].state) <==> LevelKnown(replies[i]) {
      StateKnown(before[i], replies[i], height);
    }
    RefreshSigned(verify, before, replies, height);
    RestartExactly(verify, next);
  }

  lemma RefreshSigned(verify: Verifier, before: seq<SolanaRecord>, replies: seq<Reply>, height: Option<nat>)
    requires Signed(verify, before) && |replies| == |before|
    ensures var next := AfterReplies(before, replies, height);
      && Signed(verify, next)
      && forall i :: 0 <= i < |before| ==> Same(next[i], before[i])
  {
  }

  // ---------------------------------------------------------------- the service

  datatype SendResult = Existing(record: SolanaRecord) | Refused | NotSaved | Sent | NotRecorded

  predicate HasOpen(records: seq<SolanaRecord>) {
    exists r :: r in records && IsOpen(r)
  }

  /** The list never got longer than it is. */
  lemma LogBounded(log: seq<Refresh>, flags: seq<bool>, offset: nat, k: nat)
    requires Logged(log, flags, offset) && k < |log|
    ensures |log[k].unfinalized| <= |flags|
    decreases |log| - k
  {
    hide Asked, NextOffset;
    assert LoggedAt(log, flags, offset, k);
    if k + 1 < |log| {
      LogBounded(log, flags, offset, k + 1);
    }
  }

  class SolanaWallet {
    const verify: Verifier
    var records: seq<SolanaRecord>
    var file: Option<seq<SolanaRecord>>
    var fault: bool
    var quotes: map<QuoteId, SolanaQuote>
    var historyOffset: nat

    /** Signatures handed to the network. */
    ghost var sent: set<string>

    /** Whether records ever collided, and whether two were ever open. */
    ghost var collided: bool
    ghost var twoOpened: bool

    /** Whether an unknown level was ever heard, and whether an unknown state was ever held. */
    ghost var strayed: bool
    ghost var unknownHeld: bool

    /** The refreshes of this process. */
    ghost var log: seq<Refresh>

    function Stored(): seq<SolanaRecord>
      reads this`file
    {
      if file.Some? then file.value else []
    }

    /** In every run two records come to be open exactly if some records collide, and a state comes to
        be unknown exactly if an unknown level is heard. Until then the next start accepts the file. */
    ghost predicate Safe()
      reads this`records, this`file, this`fault, this`sent, this`collided, this`twoOpened, this`strayed, this`unknownHeld
    {
      && Signed(verify, records)
      && Backs(Stored(), records, sent)
      && (!fault ==> Stored() == records)
      && (!collided ==> OneOpen(records) && OneOpen(Stored()))
      && (!strayed ==> AllKnown(records) && AllKnown(Stored()))
      && (twoOpened <==> collided)
      && (unknownHeld <==> strayed)
    }

    /** And every refresh takes up the rotation where the one before left it. */
    ghost predicate Valid()
      reads this`records, this`file, this`fault, this`sent, this`collided, this`twoOpened, this`strayed, this`unknownHeld
      reads this`log, this`historyOffset
    {
      Safe() && Logged(log, Unfinalized(records), historyOffset)
    }

    /** Of the last eight refreshes, one asked about every record that was there for all of them and is
        still unfinalized. */
    lemma AskedWithinEight(i: nat)
      requires Valid() && |log| >= 8 && i < |log[|log| - 8].unfinalized|
      requires i < |records| && !records[i].finalized
      ensures exists k :: |log| - 8 <= k < |log| && i in log[k].asked
    {
      hide Logged, Asked, NextOffset, Backs, OneOpen, AllKnown;
      LogBounded(log, Unfinalized(records), historyOffset, |log| - 1);
      AskedSince(log, Unfinalized(records), historyOffset, |log| - 8, i);
    }

    constructor (verify: Verifier, file: Option<seq<SolanaRecord>>, ghost sent: set<string>, ghost collided: bool,
      ghost strayed: bool)
      ensures this.verify == verify && this.file == file && records == Stored() && !fault
      ensures quotes == map[] && historyOffset == 0 && log == []
      ensures this.sent == sent && this.collided == this.twoOpened == collided && this.strayed == this.unknownHeld == strayed
    {
      this.verify, this.file, this.sent, this.collided, this.strayed := verify, file, sent, collided, strayed;
      twoOpened, unknownHeld := collided, strayed;
      records := if file.Some? then file.value else [];
      fault, quotes, historyOffset, log := false, map[], 0, [];
    }

    /** A restart on the file this wallet left: it succeeds exactly if every stored state is known, so
        always if no level heard was unknown, and then still holds everything that was sent. */
    method Restart() returns (w: Option<SolanaWallet>)
      requires Valid()
      ensures w.Some? <==> AllKnown(Stored())
      ensures !strayed ==> w.Some?
      ensures w.Some? ==> fresh(w.value) && w.value.Valid() && w.value.records == Stored() && !w.value.fault
      ensures w.Some? ==> w.value.verify == verify && w.value.file == file && w.value.sent == sent
      ensures w.Some? ==> w.value.collided == collided && w.value.strayed == strayed && InFile(w.value.Stored(), sent)
    {
      var stored := if file.Some? then file.value else [];
      for i := 0 to |stored|
        invariant AllKnown(stored[..i])
      {
        if !Accepted(verify, stored[i]) {
          return None;
        }
        PrefixStep(stored, i);
      }
      assert stored[..|stored|] == stored;
      BacksItself(stored, records, sent);
      var wallet := new SolanaWallet(verify, file, sent, collided, strayed);
      w := Some(wallet);
    }

    /** `checksPass` stands for the remote checks, `expired` for the quotes that have timed out. */
    method Quote(id: QuoteId, quote: SolanaQuote, checksPass: bool, expired: set<QuoteId>) returns (ok: bool)
      requires Valid()
      modifies this`quotes
      ensures Valid()
      ensures fault || HasOpen(records) || !checksPass ==> !ok && quotes == old(quotes)
      ensures !fault && !HasOpen(records) && checksPass ==>
        && ok == (|old(quotes) - expired| < QUOTE_LIMIT)
        && quotes == if ok then (old(quotes) - expired)[id := quote] else old(quotes) - expired
    {
      if fault || (exists r :: r in records && IsOpen(r)) || !checksPass {
        return false;
      }
      quotes := quotes - expired;
      if |quotes| >= QUOTE_LIMIT {
        return false;
      }
      quotes := quotes[id := quote];
      ok := true;
    }

    /** Memory is already changed when the file is written; a failed write is signalled. */
    method Persist(outcome: Outcome) returns (ok: bool)
      requires Signed(verify, records) && Backs(Stored(), records, sent)
      requires (twoOpened <==> collided) && (unknownHeld <==> strayed)
      requires !collided ==> OneOpen(records) && OneOpen(Stored())
      requires !strayed ==> AllKnown(records) && AllKnown(Stored())
      modifies this`file, this`fault
      ensures Safe() && ok == (outcome == Written)
      ensures file == AfterWrite(old(file), Some(records), outcome)
      ensures fault == (old(fault) || !ok)
    {
      BacksItself(Stored(), records, sent);
      if outcome != FailedOld {
        file := Some(records);
      }
      ok := outcome == Written;
      if !ok {
        fault := true;
      }
    }

    /** Hands a stored transaction to the network; only success is recorded. */
    method Transmit(index: nat, accepted: bool, outcome: Outcome) returns (ok: bool)
      requires Safe() && index < |Stored()| && IsOpen(records[index])
      modifies this`records, this`file, this`fault, this`sent
      ensures Safe() && sent == old(sent) + {old(records[index].signature)}
      ensures records == if accepted then old(records)[index := old(records)[index].(state := SUBMITTED)] else old(records)
      ensures file == if accepted then AfterWrite(old(file), Some(records), outcome) else old(file)
      ensures ok == (!accepted || outcome == Written) && fault == (old(fault) || !ok)
      ensures (OneOpen(old(records)) ==> OneOpen(records)) && (AllKnown(old(records)) ==> AllKnown(records))
    {
      hide OneOpen, AllKnown, Signed, Backs;
      Transmitted(Stored(), records, index, sent);
      sent := sent + {records[index].signature};
      ok := true;
      if accepted {
        Resubmitted(verify, Stored(), records, index, sent);
        records := records[index := records[index].(state := SUBMITTED)];
        ok := Persist(outcome);
      }
    }

    /** `checksPass` stands for the remote checks; `raw` are the signed bytes and `signature` is theirs.
        The record is in the file before the network sees it. */
    method Send(id: QuoteId, checksPass: bool, raw: string, signature: string, accepted: bool,
      saveOutcome: Outcome, recordOutcome: Outcome) returns (result: SendResult)
      requires Valid()
      requires id in quotes && checksPass ==> verify(raw, signature)
      modifies this`records, this`file, this`fault, this`sent
      ensures Valid() && InFile(Stored(), sent)
      ensures result.Existing? <==> exists r :: r in old(records) && r.quoteId == id
      ensures result.Existing? ==> result.record in old(records) && result.record.quoteId == id
      ensures !result.Existing? ==> (result.Refused? <==>
        old(fault) || HasOpen(old(records)) || |old(records)| >= CAPACITY || id !in quotes || !checksPass)
      ensures result.Existing? || result.Refused? ==> Untouched()
      ensures !result.Existing? && !result.Refused? ==>
        && Submitted(SolanaRecord(signature, id, quotes[id].lastValid, raw, UNKNOWN, false), accepted, saveOutcome, recordOutcome)
        && result == if saveOutcome != Written then NotSaved else if accepted && recordOutcome != Written then NotRecorded else Sent
      ensures OneOpen(old(records)) ==> OneOpen(records)
      ensures AllKnown(old(records)) ==> AllKnown(records)
    {
      hide Backs, Logged, InFile, Signed, OneOpen, AllKnown, Settles, Unfinalized;
      BackedInFile(Stored(), records, sent);
      for i := 0 to |records|
        invariant forall k :: 0 <= k < i ==> records[k].quoteId != id
      {
        if records[i].quoteId == id {
          return Existing(records[i]);
        }
      }
      if fault || (exists r :: r in records && IsOpen(r)) || |records| >= CAPACITY || id !in quotes || !checksPass {
        return Refused;
      }
      var record := SolanaRecord(signature, id, quotes[id].lastValid, raw, UNKNOWN, false);
      result := Submit(record, accepted, saveOutcome, recordOutcome);
      BackedInFile(Stored(), records, sent);
      StillUnfinalized(old(records), records);
      StillLogged(log, Unfinalized(old(records)), historyOffset, Unfinalized(records));
    }

    /** Stores a signed transaction, and then hands it over. */
    method Submit(record: SolanaRecord, accepted: bool, saveOutcome: Outcome, recordOutcome: Outcome) returns (result: SendResult)
      requires Safe() && !fault && |records| < CAPACITY && !HasOpen(records)
      requires record.state == UNKNOWN && !record.finalized && verify(record.signedRaw, record.signature)
      requires forall k :: 0 <= k < |records| ==> records[k].quoteId != record.quoteId
      modifies this`records, this`file, this`fault, this`sent
      ensures Safe() && Submitted(record, accepted, saveOutcome, recordOutcome)
      ensures result == if saveOutcome != Written then NotSaved else if accepted && recordOutcome != Written then NotRecorded else Sent
      ensures OneOpen(records) && (AllKnown(old(records)) ==> AllKnown(records))
    {
      hide Backs, OneOpen, AllKnown, Signed;
      Appended(verify, Stored(), records, record, sent);
      LastReplaced(records, record, record.(state := SUBMITTED));
      records := records + [record];
      var ok := Persist(saveOutcome);
      if !ok {
        return NotSaved;
      }
      ok := Transmit(|records| - 1, accepted, recordOutcome);
      result := if ok then Sent else NotRecorded;
    }

    /** A new record was saved; if that worked, the network got it, and success was recorded. */
    twostate predicate Submitted(record: SolanaRecord, accepted: bool, saveOutcome: Outcome, recordOutcome: Outcome)
      reads this
    {
      var all, next := old(records) + [record], old(records) + [record.(state := SUBMITTED)];
      if saveOutcome != Written then
        fault && records == all && sent == old(sent) && file == AfterWrite(old(file), Some(all), saveOutcome)
      else
        && sent == old(sent) + {record.signature}
        && records == (if accepted then next else all)
        && file == (if accepted then AfterWrite(Some(all), Some(next), recordOutcome) else Some(all))
        && fault == (accepted && recordOutcome != Written)
    }

    /** `networkOk` says that the network is the right one. */
    method Retry(signature: string, networkOk: bool, height: Option<nat>, delivered: bool, accepted: bool, outcome: Outcome)
      returns (result: SendResult)
      requires Valid()
      modifies this`records, this`file, this`fault, this`sent
      ensures Valid() && InFile(Stored(), sent)
      ensures var found := FirstIndex(old(records), (r: SolanaRecord) => r.signature == signature);
        if old(fault) || !networkOk || found == |old(records)| then result == Refused && Untouched()
        else
          var r := old(records)[found];
          if r.finalized then result == Existing(r) && Untouched()
          else if r.state == EXPIRED || height.None? || height.value > r.lastValid then result == Refused && Untouched()
          else
            && sent == old(sent) + {signature}
            && records == (if delivered && accepted then old(records)[found := r.(state := SUBMITTED)] else old(records))
            && file == (if delivered && accepted then AfterWrite(old(file), Some(records), outcome) else old(file))
            && fault == (delivered && accepted && outcome != Written)
            && result == (if fault then NotRecorded else if delivered then Sent else Refused)
      ensures OneOpen(old(records)) ==> OneOpen(records)
      ensures AllKnown(old(records)) ==> AllKnown(records)
    {
      hide Logged, InFile, Signed, OneOpen, AllKnown, Settles, Unfinalized, Same;
      BackedInFile(Stored(), records, sent);
      if fault || !networkOk {
        return Refused;
      }
      var found := 0;
      while found < |records| && records[found].signature != signature
        invariant found <= |records|
        invariant forall k :: 0 <= k < found ==> records[k].signature != signature
      {
        found := found + 1;
      }
      assert found == FirstIndex(records, (r: SolanaRecord) => r.signature == signature);
      if found == |records| {
        return Refused;
      }
      var r := records[found];
      if r.finalized {
        return Existing(r);
      }
      if r.state == EXPIRED || height.None? || height.value > r.lastValid {
        return Refused;
      }
      var ok := Transmit(found, delivered && accepted, outcome);
      BackedInFile(Stored(), records, sent);
      StillUnfinalized(old(records), records);
      StillLogged(log, Unfinalized(old(records)), historyOffset, Unfinalized(records));
      result := if !ok then NotRecorded else if delivered then Sent else Refused;
    }

    twostate predicate Untouched()
      reads this
    {
      records == old(records) && file == old(file) && fault == old(fault) && sent == old(sent)
    }

    /** Takes over what a refresh found out, and writes it if anything changed. */
    method Take(next: seq<SolanaRecord>, ghost replies: seq<Reply>, ghost height: Option<nat>, outcome: Outcome) returns (ok: bool)
      requires Safe() && Fitting(records, replies) && next == AfterReplies(records, replies, height)
      modifies this`records, this`file, this`fault, this`collided, this`twoOpened, this`strayed, this`unknownHeld
      ensures Safe() && records == next
      ensures twoOpened == (old(twoOpened) || !OneOpen(next)) && unknownHeld == (old(unknownHeld) || !AllKnown(next))
      ensures file == if next == old(records) then old(file) else AfterWrite(old(file), Some(next), outcome)
      ensures ok == (next == old(records) || outcome == Written) && fault == (old(fault) || !ok)
      ensures collided == (old(collided) || Collide(old(records), replies, height))
      ensures strayed == (old(strayed) || !LevelsKnown(replies))
      ensures OneOpen(old(records)) ==> (OneOpen(next) <==> !Collide(old(records), replies, height))
      ensures AllKnown(old(records)) ==> (AllKnown(next) <==> LevelsKnown(replies))
    {
      hide Backs, Signed, OneOpen, AllKnown, Collide, LevelsKnown, AfterReplies;
      RefreshKeeps(verify, Stored(), records, replies, sent, height);
      ok := true;
      var changed := next != records;
      collided := collided || Collide(records, replies, height);
      strayed := strayed || !LevelsKnown(replies);
      records := next;
      twoOpened, unknownHeld := twoOpened || !OneOpen(next), unknownHeld || !AllKnown(next);
      if changed {
        ok := Persist(outcome);
      }
    }

    /** One bounded batch. `statuses` is None if the query failed. With one record open at most, two are
        open afterwards exactly if records collide; with known states only, one is unknown afterwards
        exactly if an unknown level was heard. */
    method History(networkOk: bool, height: Option<nat>, statuses: Option<seq<Option<Status>>>, outcome: Outcome)
      returns (ok: bool, ghost asked: seq<nat>, ghost replies: seq<Reply>)
      requires Valid()
      modifies this
      ensures Valid() && sent == old(sent) && quotes == old(quotes)
      ensures asked == if networkOk then Asked(Unfinalized(old(records)), old(historyOffset)) else []
      ensures historyOffset == if networkOk then NextOffset(Unfinalized(old(records)), old(historyOffset)) else old(historyOffset)
      ensures log == if networkOk then old(log) + [Refresh(Unfinalized(old(records)), old(historyOffset), asked)] else old(log)
      ensures replies == Replies(|old(records)|, asked, if networkOk then statuses else None)
      ensures records == AfterReplies(old(records), replies, height)
      ensures if networkOk then AllShown(old(records), records, asked, statuses, height) else records == old(records)
      ensures file == if records == old(records) then old(file) else AfterWrite(old(file), Some(records), outcome)
      ensures ok == (networkOk && (records == old(records) || outcome == Written))
      ensures fault == (old(fault) || (networkOk && !ok))
      ensures collided == (old(collided) || Collide(old(records), replies, height))
      ensures strayed == (old(strayed) || !LevelsKnown(replies))
      ensures twoOpened == (old(twoOpened) || !OneOpen(records)) && unknownHeld == (old(unknownHeld) || !AllKnown(records))
      ensures OneOpen(old(records)) ==> (OneOpen(records) <==> !Collide(old(records), replies, height))
      ensures AllKnown(old(records)) ==> (AllKnown(records) <==> LevelsKnown(replies))
    {
      hide NextOffset, Asked, OneOpen, AllKnown, Collide, LevelsKnown, Fitting, Replies, AfterReplies, Unfinalized, Logged, Settles,
        AllShown;
      hide SolanaWallet.Safe;
      asked, replies := [], Replies(|records|, [], None);
      NothingHeard(records, [], None, height);
      var next := records;
      if networkOk {
        log := log + [Refresh(Unfinalized(records), historyOffset, Asked(Unfinalized(records), historyOffset))];
        next, historyOffset, asked, replies := Learn(records, historyOffset, statuses, height);
        RefreshSettles(records, replies, height);
        LoggedMore(old(log), Unfinalized(records), old(historyOffset), Unfinalized(next));
      }
      ok := Take(next, replies, height, outcome);
      ok := ok && networkOk;
    }
  }

  lemma NothingHeard(before: seq<SolanaRecord>, asked: seq<nat>, statuses: Option<seq<Option<Status>>>, height: Option<nat>)
    requires statuses.None? || |statuses.value| != |asked|
    ensures AfterReplies(before, Replies(|before|, asked, statuses), height) == before
    ensures Fitting(before, Replies(|before|, asked, statuses))
  {
  }

  lemma RepliesFit(before: seq<SolanaRecord>, asked: seq<nat>, statuses: Option<seq<Option<Status>>>)
    requires forall i :: i in asked ==> i < |before| && !before[i].finalized
    requires forall j, k :: 0 <= j < k < |asked| ==> asked[j] != asked[k]
    ensures Fitting(before, Replies(|before|, asked, statuses))
  {
    if statuses.Some? && |statuses.value| == |asked| {
      RepliesAt(asked, statuses.value);
    }
  }

  method Learn(before: seq<SolanaRecord>, offset: nat, statuses: Option<seq<Option<Status>>>, height: Option<nat>)
    returns (next: seq<SolanaRecord>, after: nat, ghost asked: seq<nat>, ghost replies: seq<Reply>)
    ensures asked == Asked(Unfinalized(before), offset) && after == NextOffset(Unfinalized(before), offset)
    ensures replies == Replies(|before|, asked, statuses) && Fitting(before, replies)
    ensures next == AfterReplies(before, replies, height) && AllShown(before, next, asked, statuses, height)
  {
    hide Replies, AfterReplies, Asked, NextOffset, Fitting, AllShown;
    var indices;
    indices, after := NextBatch(Unfinalized(before), offset);
    asked, replies := indices, Replies(|before|, indices, statuses);
    RepliesFit(before, indices, statuses);
    RepliesShown(before, indices, statuses, height);
    if statuses.None? || |statuses.value| != |indices| {
      NothingHeard(before, indices, statuses, height);
      next := before;
    } else {
      next := Apply(before, indices, statuses.value, height);
    }
  }

  lemma RefreshSettles(before: seq<SolanaRecord>, replies: seq<Reply>, height: Option<nat>)
    requires Fitting(before, replies)
    ensures Settles(Unfinalized(before), Unfinalized(AfterReplies(before, replies, height)))
  {
  }

  lemma StillUnfinalized(before: seq<SolanaRecord>, after: seq<SolanaRecord>)
    requires |before| <= |after| && forall i :: 0 <= i < |before| ==> after[i].finalized == before[i].finalized
    ensures Settles(Unfinalized(before), Unfinalized(after))
  {
  }

  lemma RefreshKeeps(verify: Verifier, file: seq<SolanaRecord>, before: seq<SolanaRecord>, replies: seq<Reply>,
    sent: set<string>, height: Option<nat>)
    requires Signed(verify, before) && Backs(file, before, sent) && Fitting(before, replies)
    ensures var next := AfterReplies(before, replies, height);
      && Signed(verify, next) && Backs(file, next, sent)
      && (OneOpen(before) ==> (OneOpen(next) <==> !Collide(before, replies, height)))
      && (AllKnown(before) ==> (AllKnown(next) <==> LevelsKnown(replies)))
  {
    hide Signed, OneOpen, AllKnown, Collide, LevelsKnown;
    RefreshSigned(verify, before, replies, height);
    Rewritten(file, before, AfterReplies(before, replies, height), sent);
    if OneOpen(before) {
      OneOpenExactly(before, replies, height);
    }
    if AllKnown(before) {
      UnknownLevelLocksOut(verify, before, replies, height);
    }
  }

  method Apply(before: seq<SolanaRecord>, indices: seq<nat>, statuses: seq<Option<Status>>, height: Option<nat>)
    returns (next: seq<SolanaRecord>)
    requires |statuses| == |indices| && forall i :: i in indices ==> i < |before|
    requires forall j, k :: 0 <= j < k < |indices| ==> indices[j] != indices[k]
    ensures next == AfterReplies(before, Replies(|before|, indices, Some(statuses)), height)
  {
    next := before;
    for j := 0 to |indices|
      invariant next == AfterReplies(before, Replies(|before|, indices[..j], Some(statuses[..j])), height)
    {
      var i := indices[j];
      assert i in indices && i !in indices[..j];
      PrefixStep(indices, j);
      PrefixStep(statuses, j);
      RepliesAt(indices[..j], statuses[..j]);
      next := next[i := Refreshed(next[i], statuses[j], height)];
    }
    assert indices[..|indices|] == indices && statuses[..|statuses|] == statuses;
  }

  // ---------------------------------------------------------------- two runs

  lemma BatchStep(flags: seq<bool>, visit: nat)
    requires flags != []
    ensures visit == 0 ==> BatchAfter(flags, 0, visit) == Batch([], 0)
    ensures var before, i := BatchAfter(flags, 0, visit), IndexAt(|flags|, 0, visit);
      before.visited == visit && visit < 256 ==>
        BatchAfter(flags, 0, visit + 1) == Batch(before.indices + (if flags[i] then [i] else []), visit + 1)
  {
    hide IndexAt;
  }

  lemma FirstPlaces(n: nat)
    ensures n == 1 ==> IndexAt(n, 0, 0) == 0
    ensures n == 2 ==> IndexAt(n, 0, 0) == 1 && IndexAt(n, 0, 1) == 0
  {
  }

  lemma FirstBatches(flags: seq<bool>)
    requires flags != [] && forall i :: 0 <= i < |flags| ==> flags[i]
    ensures |flags| == 1 ==> BatchAfter(flags, 0, 1) == Batch([0], 1)
    ensures |flags| == 2 ==> BatchAfter(flags, 0, 2) == Batch([1, 0], 2)
  {
    hide *;
    FirstPlaces(|flags|);
    BatchStep(flags, 0);
    if |flags| == 2 {
      assert BatchAfter(flags, 0, 1) == Batch([1], 1);
      BatchStep(flags, 1);
    }
  }

  /** The first refreshes of a short list. */
  lemma FirstAsked(records: seq<SolanaRecord>)
    requires records != [] && forall i :: 0 <= i < |records| ==> !records[i].finalized
    ensures |records| == 1 ==> Asked(Unfinalized(records), 0) == [0] && NextOffset(Unfinalized(records), 0) == 0
    ensures |records| == 2 ==> Asked(Unfinalized(records), 0) == [1, 0]
  {
    hide BatchAfter;
    FirstBatches(Unfinalized(records));
  }

  lemma Heard(n: nat, asked: seq<nat>, statuses: seq<Option<Status>>, j: nat)
    requires |statuses| == |asked| && forall j, k :: 0 <= j < k < |asked| ==> asked[j] != asked[k]
    requires j < |asked| && asked[j] < n
    ensures Replies(n, asked, Some(statuses))[asked[j]] == Replied(statuses[j])
  {
    RepliesAt(asked, statuses);
  }

  /** A sent transaction is past its height, and the chain does not know it. */
  method Expire(w: SolanaWallet, r: SolanaRecord)
    requires w.Valid() && !w.fault && w.records == [r] && w.historyOffset == 0 && !r.finalized
    modifies w
    ensures w.Valid() && !w.fault && w.records == [r.(state := EXPIRED)] && w.historyOffset == 0 && w.quotes == old(w.quotes)
  {
    hide SolanaWallet.Valid, Asked, NextOffset, Unfinalized, Replies, OneOpen, AllKnown, Collide, LevelsKnown;
    FirstAsked(w.records);
    Heard(1, [0], [None], 0);
    var _, _, _ := w.History(true, Some(r.lastValid + 1), Some([None]), Written);
    assert w.records[0] == r.(state := EXPIRED);
  }

  /** An expired transaction turns up after all, while the one after it is still unknown. */
  method TurnUp(w: SolanaWallet, expired: SolanaRecord, open: SolanaRecord)
    requires w.Valid() && !w.fault && w.records == [expired, open] && w.historyOffset == 0
    requires !expired.finalized && !open.finalized
    modifies w
    ensures w.Valid() && !w.fault && w.records == [expired.(state := "processed"), open]
  {
    hide SolanaWallet.Valid, Asked, NextOffset, Unfinalized, Replies, OneOpen, AllKnown, Collide, LevelsKnown;
    FirstAsked(w.records);
    var late := [None, Some(Status("processed", false))];
    Heard(2, [1, 0], late, 0);
    Heard(2, [1, 0], late, 1);
    var _, _, _ := w.History(true, None, Some(late), Written);
    assert w.records[0] == expired.(state := "processed") && w.records[1] == open;
  }

  /** A transaction expires, another is sent, and then the first turns up after all: two are open. */
  method TwoOpenAfterReopening() returns (w: SolanaWallet)
    ensures fresh(w) && w.Valid() && !w.fault
    ensures |w.records| == 2 && IsOpen(w.records[0]) && IsOpen(w.records[1]) && !OneOpen(w.records)
  {
    hide SolanaWallet.Valid, OneOpen;
    var first := SolanaRecord("one", "first", 10, "raw", SUBMITTED, false);
    var second := SolanaRecord("two", "second", 20, "raw", SUBMITTED, false);
    w := NewWallet();
    SendOne(w, first);
    Expire(w, first);
    SendOne(w, second);
    TurnUp(w, first.(state := EXPIRED), second);
    BothOpen(w.records);
  }

  lemma BothOpen(records: seq<SolanaRecord>)
    requires |records| == 2 && IsOpen(records[0]) && IsOpen(records[1])
    ensures !OneOpen(records)
  {
  }

  method NewWallet() returns (w: SolanaWallet)
    ensures fresh(w) && w.Valid() && !w.fault && w.records == [] && w.historyOffset == 0 && w.quotes == map[]
    ensures forall raw, signature :: w.verify(raw, signature)
  {
    w := new SolanaWallet((raw, signature) => true, None, {}, false, false);
  }

  /** Quotes and sends a payment that the network accepts, with no write failing. */
  method SendOne(w: SolanaWallet, r: SolanaRecord)
    requires w.Valid() && !w.fault && !HasOpen(w.records) && |w.records| < CAPACITY && |w.quotes| < QUOTE_LIMIT
    requires r.state == SUBMITTED && !r.finalized && w.verify(r.signedRaw, r.signature)
    requires forall x :: x in w.records ==> x.quoteId != r.quoteId
    modifies w
    ensures w.Valid() && !w.fault && w.records == old(w.records) + [r] && |w.quotes| <= |old(w.quotes)| + 1
    ensures w.historyOffset == old(w.historyOffset) && w.sent == old(w.sent) + {r.signature}
  {
    hide SolanaWallet.Valid, OneOpen, AllKnown;
    var ok := w.Quote(r.quoteId, SolanaQuote(r.lastValid, r.signedRaw), true, {});
    var result := w.Send(r.quoteId, true, r.signedRaw, r.signature, true, Written, Written);
  }

  /** A transaction is sent, the chain answers with no level, and the next start refuses the file. */
  method LockedOutByEmptyLevel() returns (w: SolanaWallet, restarted: Option<SolanaWallet>)
    ensures fresh(w) && w.Valid() && !w.fault && "one" in w.sent
    ensures restarted.None?
  {
    hide SolanaWallet.Valid, Asked, NextOffset, Unfinalized, Replies, OneOpen, AllKnown, Collide, LevelsKnown;
    w := NewWallet();
    SendOne(w, SolanaRecord("one", "first", 10, "raw", SUBMITTED, false));
    FirstAsked(w.records);
    Heard(1, [0], [Some(Status("", false))], 0);
    var _, _, replies := w.History(true, Some(5), Some([Some(Status("", false))]), Written);
    EmptyLevel(w.records);
    restarted := w.Restart();
  }

  lemma EmptyLevel(records: seq<SolanaRecord>)
    requires records != [] && records[0].state == ""
    ensures !AllKnown(records)
  {
  }

  // ---------------------------------------------------------------- file and memory

  lemma Transmitted(file: seq<SolanaRecord>, records: seq<SolanaRecord>, index: nat, sent: set<string>)
    requires Backs(file, records, sent) && index < |file|
    ensures Backs(file, records, sent + {records[index].signature})
  {
    assert file[index].signature == records[index].signature;
  }

  lemma Resubmitted(verify: Verifier, file: seq<SolanaRecord>, records: seq<SolanaRecord>, index: nat, sent: set<string>)
    requires Signed(verify, records) && Backs(file, records, sent) && index < |records| && IsOpen(records[index])
    ensures var next := records[index := records[index].(state := SUBMITTED)];
      && Signed(verify, next) && Backs(file, next, sent)
      && (OneOpen(records) ==> OneOpen(next)) && (AllKnown(records) ==> AllKnown(next))
  {
  }

  lemma Appended(verify: Verifier, file: seq<SolanaRecord>, records: seq<SolanaRecord>, r: SolanaRecord, sent: set<string>)
    requires Signed(verify, records) && Backs(file, records, sent) && |records| < CAPACITY && !HasOpen(records)
    requires r.state == UNKNOWN && verify(r.signedRaw, r.signature)
    requires forall k :: 0 <= k < |records| ==> records[k].quoteId != r.quoteId
    ensures var next := records + [r];
      && Signed(verify, next) && Backs(file, next, sent) && OneOpen(next) && (AllKnown(records) ==> AllKnown(next))
  {
    assert forall i :: 0 <= i < |records| ==> records[i] in records && !IsOpen(records[i]);
  }

  lemma Rewritten(file: seq<SolanaRecord>, before: seq<SolanaRecord>, next: seq<SolanaRecord>, sent: set<string>)
    requires Backs(file, before, sent) && |next| == |before|
    requires forall i :: 0 <= i < |before| ==> Same(next[i], before[i])
    ensures Backs(file, next, sent)
  {
  }
}
