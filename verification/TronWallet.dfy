/** The TRON journal: what Send stores, what a restart demands of it, and that the two agree
    whatever writes fail (internal/wallet/tron.go). */
module TronWallet {
  import opened Records
  import opened ByteStrings
  import opened ProtoWire
  import opened TronTransfer
  import opened Rotation
  import opened Sequences

  /** SHA-256, and the address a signature of a hash recovers to. */
  datatype Signing = Signing(hash: Bytes -> Bytes, recover: (Bytes, Bytes) -> Option<Bytes>)

  datatype TronState = BroadcastUnknown | Submitted | ExpiredUnconfirmed | Finalized | ExecutionFailed

  datatype TronRecord = TronRecord(
    id: Bytes, quoteId: QuoteId, sender: Bytes, raw: Bytes, signed: Bytes, finalized: bool, state: TronState)

  datatype TronQuote = TronQuote(sender: Bytes, raw: Bytes)

  const CAPACITY: nat := 1000

  /** A body and its signature as one message. */
  function SignedBytes(raw: Bytes, signature: Bytes): Bytes {
    TronBytes(TronBytes([], 1, raw), 2, signature)
  }

  /** The bandwidth a quote sets aside: the signed size and the receipt's overhead. */
  function Bandwidth(raw: Bytes): nat {
    |SignedBytes(raw, seq(65, _ => 0))| + 64
  }

  /** The length reserved before signing is the length of what is sent, plus 64. */
  lemma BandwidthCovers(raw: Bytes, signature: Bytes)
    requires |signature| == 65
    ensures Bandwidth(raw) == |SignedBytes(raw, signature)| + 64
  {
  }

  // ---------------------------------------------------------------- the restart check

  /** The check a stored record must pass at start-up. */
  predicate Accepted(s: Signing, r: TronRecord) {
    var hash, prefix := s.hash(r.raw), TronBytes([], 1, r.raw);
    && hash == r.id
    && |r.signed| == |prefix| + 67
    && var signature := r.signed[|r.signed| - 65..];
       && s.recover(hash, signature) == Some(r.sender)
       && TronBytes(prefix, 2, signature) == r.signed
  }

  predicate SignedBy(s: Signing, r: TronRecord, signature: Bytes) {
    |signature| == 65 && r.signed == SignedBytes(r.raw, signature) && s.recover(r.id, signature) == Some(r.sender)
  }

  /** It passes exactly if the stored bytes are the body with a signature of its hash by the sender. */
  lemma AcceptedExactly(s: Signing, r: TronRecord)
    ensures Accepted(s, r) <==> s.hash(r.raw) == r.id && exists signature :: SignedBy(s, r, signature)
  {
    if Accepted(s, r) {
      assert SignedBy(s, r, r.signed[|r.signed| - 65..]);
    }
    if s.hash(r.raw) == r.id && exists signature :: SignedBy(s, r, signature) {
      var signature :| SignedBy(s, r, signature);
      assert Varint(65) == [65] && Varint(18) == [18];
      assert r.signed[|r.signed| - 65..] == signature;
    }
  }

  predicate Loadable(s: Signing, records: seq<TronRecord>) {
    |records| <= CAPACITY && forall r :: r in records ==> Accepted(s, r)
  }

  predicate IsOpen(r: TronRecord) {
    !r.finalized && r.state != ExpiredUnconfirmed
  }

  /** One record per quote, and at most one whose outcome is open. */
  predicate Separate(records: seq<TronRecord>) {
    forall i, j :: 0 <= i < j < |records| ==>
      records[i].quoteId != records[j].quoteId && !(IsOpen(records[i]) && IsOpen(records[j]))
  }

  predicate Sound(s: Signing, records: seq<TronRecord>, broadcast: set<Bytes>) {
    && Loadable(s, records)
    && Separate(records)
    && forall b :: b in broadcast ==> exists i :: 0 <= i < |records| && records[i].signed == b
  }

  /** What a refresh finds out about a record. */
  datatype Verdict = NoNews | Expired | Included(failed: bool)

  function Judged(r: TronRecord, verdict: Verdict): TronRecord {
    if r.finalized then r
    else match verdict
      case NoNews => r
      case Expired => r.(state := ExpiredUnconfirmed)
      case Included(failed) => r.(finalized := true, state := if failed then ExecutionFailed else Finalized)
  }

  /** What a try that found this out makes of a record. */
  predicate ShowsVerdict(before: TronRecord, after: TronRecord, verdict: Option<Verdict>) {
    match verdict
    case None => after == before
    case Some(NoNews) => after == before
    case Some(Expired) => after == before.(state := ExpiredUnconfirmed)
    case Some(Included(failed)) => after == before.(finalized := true, state := if failed then ExecutionFailed else Finalized)
  }

  /** A refresh tries unfinalized records, each at most once; whoever is tried shows what was found out,
      and the others are as before; only if the deadline cut it short was somebody left out. */
  ghost predicate EachTried(before: seq<TronRecord>, next: seq<TronRecord>, tried: seq<nat>,
    verdict: (nat, TronRecord) -> Option<Verdict>, limit: nat)
    requires before != []
  {
    var n := |before|;
    && |next| == n && Differ(tried, n) && |tried| <= limit
    && (forall k :: 0 <= k < |tried| ==>
         var i := Place(n, tried[k]);
         !before[i].finalized && ShowsVerdict(before[i], next[i], verdict(k, before[i])))
    && (forall i :: 0 <= i < n && next[i] != before[i] ==> exists k :: 0 <= k < |tried| && Place(n, tried[k]) == i)
    && (|tried| < limit ==>
         forall i :: 0 <= i < n && !before[i].finalized ==> exists k :: 0 <= k < |tried| && Place(n, tried[k]) == i)
  }

  /** Replacing records by later versions of themselves that are not newly pending. */
  predicate Later(old_: seq<TronRecord>, new_: seq<TronRecord>) {
    && |new_| == |old_|
    && forall i :: 0 <= i < |old_| ==>
      && new_[i] == old_[i].(finalized := new_[i].finalized, state := new_[i].state)
      && (IsOpen(new_[i]) ==> IsOpen(old_[i]))
  }

  function Judgement(verdict: (nat, TronRecord) -> Option<Verdict>): (nat, TronRecord) -> Option<TronRecord> {
    (k: nat, r: TronRecord) => if verdict(k, r).Some? then Some(Judged(r, verdict(k, r).value)) else None
  }

  function FinalFlags(records: seq<TronRecord>): (flags: seq<bool>)
    ensures |flags| == |records| && forall i :: 0 <= i < |flags| ==> flags[i] == records[i].finalized
  {
    Flags(records, (r: TronRecord) => r.finalized)
  }

  lemma JudgedLater(before: seq<TronRecord>, next: seq<TronRecord>, answer: (nat, TronRecord) -> Option<TronRecord>)
    requires AllImproved(before, next, (r: TronRecord) => r.finalized, answer)
    requires forall k, r :: answer(k, r).Some? ==> exists v :: answer(k, r).value == Judged(r, v)
    ensures Later(before, next)
    ensures forall i :: 0 <= i < |before| ==> next[i] == before[i] || exists v :: next[i] == Judged(before[i], v)
  {
    forall i | 0 <= i < |before|
      ensures next[i] == before[i].(finalized := next[i].finalized, state := next[i].state)
      ensures IsOpen(next[i]) ==> IsOpen(before[i])
      ensures next[i] == before[i] || exists v :: next[i] == Judged(before[i], v)
    {
      if next[i] != before[i] {
        var k: nat :| answer(k, before[i]) == Some(next[i]);
        var v :| answer(k, before[i]).value == Judged(before[i], v);
      }
    }
  }

  lemma AllTried(before: seq<TronRecord>, tried: seq<nat>, verdict: (nat, TronRecord) -> Option<Verdict>, limit: nat, at: nat)
    requires before != [] && tried == Tries(FinalFlags(before), at, |before|, limit)
    ensures EachTried(before, AfterTries(before, tried, Judgement(verdict)), tried, verdict, limit)
  {
    hide Place, Tries, AfterTries, Differ;
    var n, next := |before|, AfterTries(before, tried, Judgement(verdict));
    TriesEnough(FinalFlags(before), at, n, limit);
    WindowDiffers(tried, at, n);
    AfterEachTry(before, tried, Judgement(verdict));
    forall k | 0 <= k < |tried|
      ensures var i := Place(n, tried[k]); !before[i].finalized && ShowsVerdict(before[i], next[i], verdict(k, before[i]))
    {
      assert tried[k] in tried;
    }
    if |tried| < limit {
      forall i | 0 <= i < n && !before[i].finalized ensures exists k :: 0 <= k < |tried| && Place(n, tried[k]) == i {
        var p := TurnMeets(n, at, i);
        assert p in tried;
      }
    }
  }

  lemma LaterSound(s: Signing, old_: seq<TronRecord>, new_: seq<TronRecord>, broadcast: set<Bytes>)
    requires Sound(s, old_, broadcast) && Later(old_, new_)
    ensures Sound(s, new_, broadcast)
  {
    forall r | r in new_ ensures Accepted(s, r) {
      var i :| 0 <= i < |new_| && new_[i] == r;
      assert old_[i] in old_;
    }
    forall b | b in broadcast ensures exists i :: 0 <= i < |new_| && new_[i].signed == b {
      var i :| 0 <= i < |old_| && old_[i].signed == b;
      assert new_[i].signed == b;
    }
  }

  lemma AppendSound(s: Signing, records: seq<TronRecord>, r: TronRecord, broadcast: set<Bytes>)
    requires Sound(s, records, broadcast) && Accepted(s, r) && |records| < CAPACITY
    requires forall x :: x in records ==> x.quoteId != r.quoteId && !IsOpen(x)
    ensures Sound(s, records + [r], broadcast)
  {
    var next := records + [r];
    forall b | b in broadcast ensures exists i :: 0 <= i < |next| && next[i].signed == b {
      var i :| 0 <= i < |records| && records[i].signed == b;
      assert next[i].signed == b;
    }
    assert forall i :: 0 <= i < |records| ==> records[i] in records;
  }

  datatype TronResult =
    | Existing(record: TronRecord)
    | Refused
    | NotSaved
    | Unsent
    | NotRecorded
    | Sent(accepted: bool)

  lemma NewAccepted(s: Signing, id: QuoteId, q: TronQuote, signature: Bytes, r: TronRecord)
    requires |signature| == 65 && s.recover(s.hash(q.raw), signature) == Some(q.sender)
    requires r == TronRecord(s.hash(q.raw), id, q.sender, q.raw, SignedBytes(q.raw, signature), false, TronState.BroadcastUnknown)
    ensures Accepted(s, r) && IsOpen(r) && r.quoteId == id && Bandwidth(q.raw) == |r.signed| + 64
  {
    hide Accepted, SignedBytes, Bandwidth;
    assert SignedBy(s, r, signature);
    AcceptedExactly(s, r);
    BandwidthCovers(q.raw, signature);
  }

  predicate HasOpen(records: seq<TronRecord>) {
    exists r :: r in records && IsOpen(r)
  }

  class TronWallet {
    const signing: Signing
    var records: seq<TronRecord>
    var file: Option<seq<TronRecord>>
    var fault: bool
    var quotes: map<QuoteId, TronQuote>
    var historyNext: nat

    /** The signed bytes handed to the network so far. */
    ghost var broadcast: set<Bytes>

    /** The refreshes of this process since the list last grew, and their tries counted on from `from`. */
    ghost var calls: seq<Call>
    ghost var trace: seq<nat>
    ghost var from: nat

    function Stored(): seq<TronRecord>
      reads this`file
    {
      if file.Some? then file.value else []
    }

    /** Memory and file are both sound, and the same unless a fault is signalled. */
    ghost predicate Safe()
      reads this`records, this`file, this`fault, this`broadcast
    {
      && Sound(signing, records, broadcast)
      && Sound(signing, Stored(), broadcast)
      && (!fault ==> Stored() == records)
    }

    /** And every refresh goes on with the turn where the one before stopped. */
    ghost predicate Valid()
      reads this`records, this`file, this`fault, this`broadcast, this`calls, this`trace, this`from, this`historyNext
    {
      Safe() && Traced(calls, trace, from, FinalFlags(records), historyNext)
    }

    /** However deadlines cut the refreshes since the list last grew, none of its records was tried
        twice before every other one that is still unfinalized. */
    lemma NoTurnRepeated(m: nat, a: nat, b: nat)
      requires Valid() && m < |records| && !records[m].finalized
      requires a < b < |trace| && Place(|records|, trace[a]) == Place(|records|, trace[b]) != m
      ensures exists k :: a < k < b && Place(|records|, trace[k]) == m
    {
      hide Traced, Sound, Place;
      TracedFair(calls, trace, from, FinalFlags(records), historyNext, m, a, b);
    }

    constructor (signing: Signing, file: Option<seq<TronRecord>>, ghost broadcast: set<Bytes>)
      ensures !fault && this.file == file && records == Stored()
      ensures this.broadcast == broadcast && this.signing == signing
      ensures calls == [] && trace == [] && from == historyNext == 0
    {
      this.signing, this.file, this.broadcast := signing, file, broadcast;
      records := if file.Some? then file.value else [];
      fault, quotes, historyNext := false, map[], 0;
      calls, trace, from := [], [], 0;
    }

    /** Start-up: every stored record is checked. A file that the wallet itself left is accepted. */
    static method Open(signing: Signing, file: Option<seq<TronRecord>>, ghost broadcast: set<Bytes>)
      returns (w: Option<TronWallet>)
      ensures w.Some? <==> Loadable(signing, if file.Some? then file.value else [])
      ensures w.Some? ==> fresh(w.value) && w.value.file == file && w.value.broadcast == broadcast
      ensures Sound(signing, if file.Some? then file.value else [], broadcast) ==> w.Some? && w.value.Valid()
    {
      var stored := if file.Some? then file.value else [];
      if |stored| > CAPACITY {
        return None;
      }
      for i := 0 to |stored|
        invariant forall k :: 0 <= k < i ==> Accepted(signing, stored[k])
      {
        if !Accepted(signing, stored[i]) {
          assert stored[i] in stored;
          return None;
        }
      }
      var wallet := new TronWallet(signing, file, broadcast);
      NothingTraced(FinalFlags(wallet.records), 0);
      w := Some(wallet);
    }

    method Save(next: seq<TronRecord>, outcome: Outcome) returns (ok: bool)
      requires Safe() && Sound(signing, next, broadcast)
      modifies this`records, this`file, this`fault
      ensures Safe() && ok == (outcome == Written)
      ensures file == AfterWrite(old(file), Some(next), outcome)
      ensures if ok then records == next && fault == old(fault) else records == old(records) && fault
    {
      if outcome != FailedOld {
        file := Some(next);
      }
      ok := outcome == Written;
      if ok {
        records := next;
      } else {
        fault := true;
      }
    }

    /** Transmits an already stored transaction and stores what came of it. `reachable` says whether
        the network check passes, `expired` whether the transaction is past its time. */
    method Broadcast(index: nat, reachable: bool, expired: bool, accepted: bool, outcome: Outcome) returns (result: TronResult)
      requires Safe() && !fault && index < |records|
      requires !records[index].finalized && records[index].state != ExpiredUnconfirmed
      modifies this`records, this`file, this`fault, this`broadcast
      ensures Safe()
      ensures !reachable || expired ==> result == Unsent && Untouched()
      ensures reachable && !expired ==> Recorded(index, accepted, outcome)
      ensures reachable && !expired ==> result == if outcome == Written then Sent(accepted) else NotRecorded
    {
      hide Accepted;
      if !reachable || expired {
        return Unsent;
      }
      broadcast := broadcast + {records[index].signed};
      var state := if accepted then TronState.Submitted else TronState.BroadcastUnknown;
      var next := records[index := records[index].(state := state)];
      LaterSound(signing, records, next, broadcast);
      var ok := Save(next, outcome);
      result := if ok then Sent(accepted) else NotRecorded;
    }

    /** The stored bytes were handed over, and what came of it was written. */
    twostate predicate Recorded(index: nat, accepted: bool, outcome: Outcome)
      requires index < |old(records)|
      reads this
    {
      var state := if accepted then TronState.Submitted else TronState.BroadcastUnknown;
      var next := old(records)[index := old(records)[index].(state := state)];
      && broadcast == old(broadcast) + {old(records)[index].signed}
      && records == (if outcome == Written then next else old(records))
      && file == AfterWrite(old(file), Some(next), outcome)
      && fault == (outcome != Written)
    }

    /** A new record was saved; if that worked and `handedOver`, the network got it and the outcome
        was written. */
    twostate predicate Submitted(record: TronRecord, handedOver: bool, accepted: bool, saveOutcome: Outcome, recordOutcome: Outcome)
      reads this`records, this`file, this`fault, this`broadcast
    {
      var state := if accepted then TronState.Submitted else TronState.BroadcastUnknown;
      var all, next := old(records) + [record], old(records) + [record.(state := state)];
      if saveOutcome != Written then
        && fault && records == old(records) && broadcast == old(broadcast)
        && file == AfterWrite(old(file), Some(all), saveOutcome)
      else if !handedOver then
        !fault && records == all && file == Some(all) && broadcast == old(broadcast)
      else
        && broadcast == old(broadcast) + {record.signed}
        && records == (if recordOutcome == Written then next else all)
        && file == AfterWrite(Some(all), Some(next), recordOutcome)
        && fault == (recordOutcome != Written)
    }

    twostate predicate Untouched()
      reads this`records, this`file, this`fault, this`broadcast
    {
      records == old(records) && file == old(file) && fault == old(fault) && broadcast == old(broadcast)
    }

    /** `checksPass` stands for the remote checks, `signature` for the key's signature of the body. The
        record is in the file before the network sees it. */
    method Send(id: QuoteId, checksPass: bool, signature: Bytes, reachable: bool, expired: bool, accepted: bool,
      saveOutcome: Outcome, recordOutcome: Outcome) returns (result: TronResult)
      requires Valid()
      requires id in quotes ==>
        |signature| == 65 && signing.recover(signing.hash(quotes[id].raw), signature) == Some(quotes[id].sender)
      modifies this`records, this`file, this`fault, this`broadcast, this`quotes, this`calls, this`trace, this`from
      ensures Valid()
      ensures result.Existing? <==> exists r :: r in old(records) && r.quoteId == id
      ensures result.Existing? ==> result.record in old(records) && result.record.quoteId == id
      ensures !result.Existing? ==> (result.Refused? <==>
        old(fault) || HasOpen(old(records)) || |old(records)| >= CAPACITY || id !in old(quotes) || !checksPass)
      ensures result.Existing? || result.Refused? ==> Untouched() && quotes == old(quotes)
      ensures !result.Existing? && !result.Refused? ==>
        var q := old(quotes)[id];
        var record := TronRecord(signing.hash(q.raw), id, q.sender, q.raw, SignedBytes(q.raw, signature), false,
          TronState.BroadcastUnknown);
        && Bandwidth(q.raw) == |record.signed| + 64
        && Submitted(record, reachable && !expired, accepted, saveOutcome, recordOutcome)
        && quotes == (if saveOutcome == Written then old(quotes) - {id} else old(quotes))
        && result == if saveOutcome != Written then NotSaved else if !reachable || expired then Unsent
                     else if recordOutcome == Written then Sent(accepted) else NotRecorded
    {
      hide Accepted, Sound, Traced, FinalFlags, Bandwidth, SignedBytes, TronWallet.Submitted, TronWallet.Safe;
      for i := 0 to |records|
        invariant forall k :: 0 <= k < i ==> records[k].quoteId != id
      {
        if records[i].quoteId == id {
          return Existing(records[i]);
        }
      }
      if fault || (exists r :: r in records && IsOpen(r)) || |records| >= CAPACITY || id !in quotes || !checksPass {
        return Refused;
      }
      var q := quotes[id];
      var record := TronRecord(signing.hash(q.raw), id, q.sender, q.raw, SignedBytes(q.raw, signature), false,
        TronState.BroadcastUnknown);
      NewAccepted(signing, id, q, signature, record);
      result := Submit(record, reachable, expired, accepted, saveOutcome, recordOutcome);
      if !result.NotSaved? {
        quotes := quotes - {id};
        calls, trace, from := [], [], historyNext;
        NothingTraced(FinalFlags(records), historyNext);
      }
    }

    /** Stores a signed transaction, and then hands it over. */
    method Submit(record: TronRecord, reachable: bool, expired: bool, accepted: bool, saveOutcome: Outcome, recordOutcome: Outcome)
      returns (result: TronResult)
      requires Safe() && !fault && |records| < CAPACITY && Accepted(signing, record) && IsOpen(record)
      requires forall x :: x in records ==> x.quoteId != record.quoteId && !IsOpen(x)
      modifies this`records, this`file, this`fault, this`broadcast
      ensures Safe() && Submitted(record, reachable && !expired, accepted, saveOutcome, recordOutcome)
      ensures saveOutcome != Written ==> records == old(records)
      ensures result == if saveOutcome != Written then NotSaved else if !reachable || expired then Unsent
        else if recordOutcome == Written then Sent(accepted) else NotRecorded
    {
      hide Accepted, Sound;
      AppendSound(signing, records, record, broadcast);
      LastReplaced(records, record, record.(state := if accepted then TronState.Submitted else TronState.BroadcastUnknown));
      var ok := Save(records + [record], saveOutcome);
      if !ok {
        return NotSaved;
      }
      result := Broadcast(|records| - 1, reachable, expired, accepted, recordOutcome);
    }

    method Retry(id: Bytes, reachable: bool, expired: bool, accepted: bool, outcome: Outcome) returns (result: TronResult)
      requires Valid()
      modifies this`records, this`file, this`fault, this`broadcast
      ensures Valid()
      ensures var found := FirstIndex(old(records), (r: TronRecord) => r.id == id);
        if old(fault) || found == |old(records)| then result == Refused && Untouched()
        else if !IsOpen(old(records)[found]) then result == Existing(old(records)[found]) && Untouched()
        else if !reachable || expired then result == Unsent && Untouched()
        else Recorded(found, accepted, outcome) && result == if outcome == Written then Sent(accepted) else NotRecorded
    {
      hide Accepted, Sound, Traced, Settled, FinalFlags;
      if fault {
        return Refused;
      }
      for i := 0 to |records|
        invariant Valid() && !fault && Untouched()
        invariant forall k :: 0 <= k < i ==> records[k].id != id
      {
        if records[i].id == id {
          assert i == FirstIndex(records, (r: TronRecord) => r.id == id);
          if records[i].finalized || records[i].state == ExpiredUnconfirmed {
            return Existing(records[i]);
          }
          result := Broadcast(i, reachable, expired, accepted, outcome);
          StillFinalized(old(records), records);
          StillTraced(calls, trace, from, FinalFlags(old(records)), historyNext, FinalFlags(records));
          return;
        }
      }
      assert |records| == FirstIndex(records, (r: TronRecord) => r.id == id);
      result := Refused;
    }

    /** Asks about each unfinalized record in turn until the deadline, and stores what was found out in
        one write, if anything. `verdict(k, r)` is what the k-th try says of record r, None if it
        fails. Nothing is tried on the wrong network. */
    method History(networkOk: bool, verdict: (nat, TronRecord) -> Option<Verdict>, limit: nat, outcome: Outcome)
      returns (ok: bool, ghost tried: seq<nat>)
      requires Valid()
      modifies this`records, this`file, this`fault, this`historyNext, this`calls, this`trace
      ensures Valid() && trace == old(trace) + tried
      ensures !networkOk || old(records) == [] ==> tried == [] && Untouched() && historyNext == old(historyNext)
      ensures networkOk && old(records) != [] ==>
        && calls == old(calls) + [Call(FinalFlags(old(records)), limit)]
        && tried == Tries(FinalFlags(old(records)), After(from, old(trace)), |old(records)|, limit)
        && historyNext == (if tried == [] then old(historyNext) else Place(|old(records)|, tried[|tried|-1] + 1))
        && var next := AfterTries(old(records), tried, Judgement(verdict));
           && EachTried(old(records), next, tried, verdict, limit)
           && records == (if ok then next else old(records))
           && file == (if next == old(records) then old(file) else AfterWrite(old(file), Some(next), outcome))
           && ok == (next == old(records) || outcome == Written)
           && fault == (old(fault) || !ok)
      ensures |records| == |old(records)|
      ensures forall i :: 0 <= i < |records| ==>
        records[i] == old(records)[i] || exists v :: records[i] == Judged(old(records)[i], v)
    {
      hide Accepted, Sound, Tries, Place, AfterTries, Traced, FinalFlags, EachTried;
      ok, tried := true, [];
      if !networkOk || records == [] {
        return;
      }
      var next;
      ghost var at := After(from, trace);
      next, historyNext, tried := Ask(records, historyNext, verdict, limit, calls, trace, from);
      AllTried(records, tried, verdict, limit, at);
      calls, trace := calls + [Call(FinalFlags(records), limit)], trace + tried;
      if next != records {
        LaterSound(signing, records, next, broadcast);
        ok := Save(next, outcome);
      }
    }
  }

  /** What a refresh finds out, going on with the turn. */
  method Ask(records: seq<TronRecord>, start: nat, verdict: (nat, TronRecord) -> Option<Verdict>, limit: nat,
    ghost calls: seq<Call>, ghost trace: seq<nat>, ghost from: nat)
    returns (next: seq<TronRecord>, stop: nat, ghost tried: seq<nat>)
    requires records != [] && Traced(calls, trace, from, FinalFlags(records), start)
    ensures next == AfterTries(records, tried, Judgement(verdict)) && Later(records, next)
    ensures tried == Tries(FinalFlags(records), After(from, trace), |records|, limit)
    ensures stop == if tried == [] then start else Place(|records|, tried[|tried|-1] + 1)
    ensures var calls', trace' := calls + [Call(FinalFlags(records), limit)], trace + tried;
      Traced(calls', trace', from, FinalFlags(next), stop) && Traced(calls', trace', from, FinalFlags(records), stop)
    ensures forall i :: 0 <= i < |records| == |next| ==> next[i] == records[i] || exists v :: next[i] == Judged(records[i], v)
  {
    hide Tries, Place, AfterTries, Traced, Settled;
    TracedPlace(calls, trace, from, FinalFlags(records), start);
    next, stop, tried := TryInTurn(records, (r: TronRecord) => r.finalized, start, Judgement(verdict), limit, After(from, trace));
    JudgedLater(records, next, Judgement(verdict));
    JudgedSettled(records, next);
    TracedMore(calls, trace, from, FinalFlags(records), start, limit, FinalFlags(next));
    StillFinalized(records, records);
    TracedMore(calls, trace, from, FinalFlags(records), start, limit, FinalFlags(records));
  }

  lemma JudgedSettled(records: seq<TronRecord>, next: seq<TronRecord>)
    requires |next| == |records|
    requires forall i :: 0 <= i < |records| ==> next[i] == records[i] || exists v :: next[i] == Judged(records[i], v)
    ensures Settled(FinalFlags(records), FinalFlags(next))
  {
  }

  lemma StillFinalized(before: seq<TronRecord>, after: seq<TronRecord>)
    requires |before| == |after| && forall i :: 0 <= i < |before| ==> after[i].finalized == before[i].finalized
    ensures Settled(FinalFlags(before), FinalFlags(after))
  {
  }

  lemma NothingTraced(finalized: seq<bool>, next: nat)
    ensures Traced([], [], next, finalized, next)
  {
  }
}
