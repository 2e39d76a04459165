/** Which records a refresh asks the chain about (internal/wallet/solana.go, tron.go). */
module Rotation {
  import opened Modular
  import opened Records

  const BATCH: nat := 256

  // ---------------------------------------------------------------- Solana: bounded batches
  // `asked[i]` says that record i is not finalized and its signature parses.

  /** Positions are counted from the newest record down, starting at `offset`. */
  function IndexAt(n: nat, offset: nat, visit: nat): (i: nat)
    requires n > 0
    ensures i < n
  {
    n - 1 - (offset + visit) % n
  }

  datatype Batch = Batch(indices: seq<nat>, visited: nat)

  /** The batch after at most `visit` visits. */
  function BatchAfter(asked: seq<bool>, offset: nat, visit: nat): (b: Batch)
    requires asked != []
    ensures b.visited <= visit
    ensures |b.indices| <= b.visited && |b.indices| <= BATCH
    ensures b.visited < visit ==> |b.indices| == BATCH
  {
    if visit == 0 then Batch([], 0)
    else
      var before := BatchAfter(asked, offset, visit - 1);
      var i := IndexAt(|asked|, offset, visit - 1);
      if before.visited < visit - 1 || |before.indices| >= BATCH then before
      else Batch(before.indices + (if asked[i] then [i] else []), visit)
  }

  function Batched(asked: seq<bool>, offset: nat): Batch
    requires asked != []
  {
    BatchAfter(asked, offset, |asked|)
  }

  /** Whom one refresh asks about. */
  function Asked(asked: seq<bool>, offset: nat): seq<nat> {
    if asked == [] then [] else Batched(asked, offset % |asked|).indices
  }

  /** Where the rotation stands after a refresh. */
  function NextOffset(asked: seq<bool>, offset: nat): nat {
    if asked == [] then offset
    else (offset % |asked| + Batched(asked, offset % |asked|).visited) % |asked|
  }

  /** The batch of one refresh; the offset moves on whether or not the query then succeeds. */
  method NextBatch(asked: seq<bool>, historyOffset: nat) returns (indices: seq<nat>, offset: nat)
    ensures indices == Asked(asked, historyOffset)
    ensures offset == NextOffset(asked, historyOffset)
    ensures forall i :: i in indices ==> i < |asked| && asked[i]
    ensures forall j, k :: 0 <= j < k < |indices| ==> indices[j] != indices[k]
  {
    hide IndexAt;
    indices, offset := [], historyOffset;
    var count := |asked|;
    if count > 0 {
      var start := historyOffset % count;
      var visited := 0;
      while visited < count && |indices| < BATCH
        invariant visited <= count
        invariant Batch(indices, visited) == BatchAfter(asked, start, visited)
      {
        var i := IndexAt(count, start, visited);
        visited := visited + 1;
        if asked[i] {
          indices := indices + [i];
        }
      }
      BatchStops(asked, start, visited, count);
      BatchMembers(asked, start, count);
      offset := (start + visited) % count;
    }
  }

  lemma NewIndex(n: nat, offset: nat, v: nat)
    requires offset < n && v < n
    ensures forall u :: 0 <= u < v ==> IndexAt(n, offset, u) != IndexAt(n, offset, v)
  {
    Around(n, offset, v);
    forall u | 0 <= u < v ensures IndexAt(n, offset, u) != IndexAt(n, offset, v) {
      Around(n, offset, u);
    }
  }

  /** A batch asks about each record once, and only about records to be asked about. */
  lemma {:induction false} BatchMembers(asked: seq<bool>, offset: nat, visit: nat)
    requires offset < |asked| && visit <= |asked|
    ensures var b := BatchAfter(asked, offset, visit);
      && (forall i :: i in b.indices ==> i < |asked| && asked[i])
      && (forall i :: i in b.indices ==> exists v :: 0 <= v < visit && i == IndexAt(|asked|, offset, v))
      && (forall j, k :: 0 <= j < k < |b.indices| ==> b.indices[j] != b.indices[k])
  {
    hide IndexAt;
    if visit > 0 {
      BatchMembers(asked, offset, visit - 1);
      NewIndex(|asked|, offset, visit - 1);
      var before, b := BatchAfter(asked, offset, visit - 1), BatchAfter(asked, offset, visit);
      forall j | 0 <= j < |before.indices| ensures before.indices[j] != IndexAt(|asked|, offset, visit - 1) {
        assert before.indices[j] in before.indices;
        var v :| 0 <= v < visit - 1 && before.indices[j] == IndexAt(|asked|, offset, v);
      }
      forall i | i in b.indices ensures exists v :: 0 <= v < visit && i == IndexAt(|asked|, offset, v) {
        if i in before.indices {
          var v :| 0 <= v < visit - 1 && i == IndexAt(|asked|, offset, v);
        } else {
          assert i == IndexAt(|asked|, offset, visit - 1);
        }
      }
    }
  }

  lemma {:induction false} BatchStops(asked: seq<bool>, offset: nat, visited: nat, visit: nat)
    requires asked != [] && visited <= visit
    requires BatchAfter(asked, offset, visited).visited == visited
    requires visited == visit || |BatchAfter(asked, offset, visited).indices| == BATCH
    ensures BatchAfter(asked, offset, visit) == BatchAfter(asked, offset, visited)
  {
    if visited < visit {
      BatchStops(asked, offset, visited, visit - 1);
    }
  }

  lemma {:induction false} VisitedAsked(asked: seq<bool>, offset: nat, visit: nat, v: nat)
    requires asked != [] && v < BatchAfter(asked, offset, visit).visited
    requires asked[IndexAt(|asked|, offset, v)]
    ensures IndexAt(|asked|, offset, v) in BatchAfter(asked, offset, visit).indices
  {
    var before := BatchAfter(asked, offset, visit - 1);
    if v < before.visited {
      VisitedAsked(asked, offset, visit - 1, v);
    }
  }

  /** How many visits come before record i. */
  function Wait(n: nat, offset: nat, i: nat): nat
    requires offset < n && i < n
  {
    if n - 1 - i >= offset then n - 1 - i - offset else 2 * n - 1 - i - offset
  }

  lemma WaitOver(n: nat, offset: nat, i: nat, visited: nat)
    requires offset < n && i < n && visited <= n
    ensures Wait(n, offset, i) < n && IndexAt(n, offset, Wait(n, offset, i)) == i
    ensures (offset + visited) % n < n
    ensures Wait(n, offset, i) >= visited ==> Wait(n, (offset + visited) % n, i) == Wait(n, offset, i) - visited
  {
    if n - 1 - i >= offset {
      RemainderIs(n, 0, n - 1 - i);
    } else {
      RemainderIs(n, 1, n - 1 - i);
    }
    if offset + visited < n {
      RemainderIs(n, 0, offset + visited);
    } else if offset + visited < 2 * n {
      RemainderIs(n, 1, offset + visited - n);
    }
  }

  /** Whom successive refreshes ask about; between them records may become finalized, and others
      be appended. */
  function Batches(journals: seq<seq<bool>>, offset: nat): (bs: seq<seq<nat>>)
    ensures |bs| == |journals|
  {
    if journals == [] then []
    else [Asked(journals[0], offset)] + Batches(journals[1..], NextOffset(journals[0], offset))
  }

  /** Record i stays unfinalized while the list grows. */
  predicate StillAsked(journals: seq<seq<bool>>, i: nat) {
    && (forall k :: 0 <= k < |journals| ==> i < |journals[k]| && journals[k][i])
    && (forall k :: 0 <= k < |journals| - 1 ==> |journals[k]| <= |journals[k + 1]|)
  }

  /** Every append puts a record off by at most two visits. */
  lemma AppendsWait(n: nat, more: nat, offset: nat, i: nat)
    requires offset < n <= more && i < n
    ensures Wait(more, offset, i) <= Wait(n, offset, i) + 2 * (more - n)
  {
  }

  lemma {:induction false} ReachedWithin(journals: seq<seq<bool>>, offset: nat, i: nat)
    requires journals != [] && StillAsked(journals, i)
    requires var n := |journals[0]|;
      Wait(n, offset % n, i) + 2 * (|journals[|journals|-1]| - n) < BATCH * |journals|
    ensures exists k :: 0 <= k < |journals| && i in Batches(journals, offset)[k]
  {
    hide IndexAt, BatchAfter;
    var n, rest := |journals[0]|, journals[1..];
    var at := offset % n;
    var b := Batched(journals[0], at);
    WaitOver(n, at, i, b.visited);
    LastGrown(journals, i);
    if Wait(n, at, i) < b.visited {
      VisitedAsked(journals[0], at, n, Wait(n, at, i));
      assert i in Batches(journals, offset)[0];
    } else {
      assert b.visited >= BATCH;
      assert rest != [];
      var next := NextOffset(journals[0], offset);
      assert rest[0] == journals[1];
      RemainderIs(|rest[0]|, 0, next);
      AppendsWait(n, |rest[0]|, next, i);
      ReachedWithin(rest, next, i);
      var k :| 0 <= k < |rest| && i in Batches(rest, next)[k];
      assert Batches(journals, offset)[k + 1] == Batches(rest, next)[k];
    }
  }

  lemma {:induction false} LastGrown(journals: seq<seq<bool>>, i: nat)
    requires journals != [] && StillAsked(journals, i)
    ensures |journals[0]| <= |journals[|journals|-1]|
    ensures StillAsked(journals[1..], i)
  {
    if |journals| > 1 {
      assert journals[1..][0] == journals[1];
      LastGrown(journals[1..], i);
    }
  }

  /** While a list grows from n to m records, ceil((2m - n) / 256) refreshes ask about every record
      that stays unfinalized, wherever the rotation stands: without appends, ceil(n / 256). */
  lemma RefreshesCover(journals: seq<seq<bool>>, offset: nat, i: nat)
    requires journals != [] && StillAsked(journals, i)
    requires |journals| >= (2 * |journals[|journals|-1]| - |journals[0]| + BATCH - 1) / BATCH
    ensures exists k :: 0 <= k < |journals| && i in Batches(journals, offset)[k]
  {
    var n := |journals[0]|;
    WaitOver(n, offset % n, i, 0);
    ReachedWithin(journals, offset, i);
  }

  /** One refresh that was made: the flags and the offset it found, and whom it asked. */
  datatype Refresh = Refresh(unfinalized: seq<bool>, offset: nat, asked: seq<nat>)

  /** Records are only added, and a finalized one stays so. */
  predicate Settles(before: seq<bool>, after: seq<bool>) {
    |before| <= |after| && forall i :: 0 <= i < |before| && after[i] ==> before[i]
  }

  function FlagsAt(log: seq<Refresh>, flags: seq<bool>, k: nat): seq<bool> {
    if k < |log| then log[k].unfinalized else flags
  }

  function OffsetAt(log: seq<Refresh>, offset: nat, k: nat): nat {
    if k < |log| then log[k].offset else offset
  }

  predicate LoggedAt(log: seq<Refresh>, flags: seq<bool>, offset: nat, k: nat)
    requires k < |log|
  {
    && log[k].asked == Asked(log[k].unfinalized, log[k].offset)
    && OffsetAt(log, offset, k + 1) == NextOffset(log[k].unfinalized, log[k].offset)
    && Settles(log[k].unfinalized, FlagsAt(log, flags, k + 1))
  }

  /** The refreshes of one service so far, each taking up the rotation where the one before left it;
      `flags` and `offset` are what it stands at now. */
  predicate Logged(log: seq<Refresh>, flags: seq<bool>, offset: nat) {
    forall k :: 0 <= k < |log| ==> LoggedAt(log, flags, offset, k)
  }

  lemma LoggedMore(log: seq<Refresh>, flags: seq<bool>, offset: nat, after: seq<bool>)
    requires Logged(log, flags, offset) && Settles(flags, after)
    ensures Logged(log + [Refresh(flags, offset, Asked(flags, offset))], after, NextOffset(flags, offset))
  {
    hide Asked, NextOffset, Settles;
    var more := log + [Refresh(flags, offset, Asked(flags, offset))];
    forall k | 0 <= k < |more| ensures LoggedAt(more, after, NextOffset(flags, offset), k) {
      if k < |log| {
        assert LoggedAt(log, flags, offset, k);
      }
    }
  }

  lemma StillLogged(log: seq<Refresh>, flags: seq<bool>, offset: nat, after: seq<bool>)
    requires Logged(log, flags, offset) && Settles(flags, after)
    ensures Logged(log, after, offset)
  {
    hide Asked, NextOffset;
    forall k | 0 <= k < |log| ensures LoggedAt(log, after, offset, k) {
      assert LoggedAt(log, flags, offset, k);
    }
  }

  lemma LoggedRest(log: seq<Refresh>, flags: seq<bool>, offset: nat, from: nat)
    requires Logged(log, flags, offset) && from <= |log|
    ensures Logged(log[from..], flags, offset)
  {
    hide Asked, NextOffset, Settles;
    forall k | 0 <= k < |log[from..]| ensures LoggedAt(log[from..], flags, offset, k) {
      assert LoggedAt(log, flags, offset, from + k);
    }
  }

  function Journals(log: seq<Refresh>): (journals: seq<seq<bool>>)
    ensures |journals| == |log| && forall k :: 0 <= k < |log| ==> journals[k] == log[k].unfinalized
  {
    seq(|log|, k requires 0 <= k < |log| => log[k].unfinalized)
  }

  lemma {:induction false} LoggedBatches(log: seq<Refresh>, flags: seq<bool>, offset: nat)
    requires Logged(log, flags, offset)
    ensures forall k :: 0 <= k < |log| ==> Batches(Journals(log), OffsetAt(log, offset, 0))[k] == log[k].asked
  {
    hide Asked, NextOffset, Settles;
    if log != [] {
      LoggedRest(log, flags, offset, 1);
      LoggedBatches(log[1..], flags, offset);
      assert LoggedAt(log, flags, offset, 0);
      assert Journals(log)[1..] == Journals(log[1..]);
    }
  }

  lemma {:induction false} LoggedStillAsked(log: seq<Refresh>, flags: seq<bool>, offset: nat, i: nat)
    requires Logged(log, flags, offset) && i < |FlagsAt(log, flags, 0)| && i < |flags| && flags[i]
    ensures FlagsAt(log, flags, 0)[i] && StillAsked(Journals(log), i)
  {
    hide Asked, NextOffset;
    if log != [] {
      assert LoggedAt(log, flags, offset, 0);
      LoggedRest(log, flags, offset, 1);
      LoggedStillAsked(log[1..], flags, offset, i);
      forall k | 0 < k < |log| ensures i < |log[k].unfinalized| && log[k].unfinalized[i] {
        assert Journals(log[1..])[k - 1] == log[k].unfinalized;
      }
      forall k | 0 <= k < |log| - 1 ensures |log[k].unfinalized| <= |log[k + 1].unfinalized| {
        assert LoggedAt(log, flags, offset, k);
      }
    }
  }

  /** A record that was there at some refresh and is unfinalized now was asked about since, if there
      were ceil((2m - n) / 256) refreshes from then on, over n records at first and m at last. */
  lemma AskedSince(log: seq<Refresh>, flags: seq<bool>, offset: nat, from: nat, i: nat)
    requires Logged(log, flags, offset) && from < |log|
    requires i < |log[from].unfinalized| && i < |flags| && flags[i]
    requires |log| - from >= (2 * |log[|log|-1].unfinalized| - |log[from].unfinalized| + BATCH - 1) / BATCH
    ensures exists k :: from <= k < |log| && i in log[k].asked
  {
    hide Batches, StillAsked, Logged;
    var rest := log[from..];
    LoggedRest(log, flags, offset, from);
    LoggedStillAsked(rest, flags, offset, i);
    LoggedBatches(rest, flags, offset);
    RefreshesCover(Journals(rest), rest[0].offset, i);
    var k :| 0 <= k < |rest| && i in Batches(Journals(rest), rest[0].offset)[k];
    assert log[from + k] == rest[k];
  }

  /** The order in which the records come up. */
  function Queue(n: nat, offset: nat): (q: seq<nat>)
    ensures |q| == n
  {
    seq(n, v requires 0 <= v < n => IndexAt(n, offset, v))
  }

  /** An append skips nobody: the records still to come keep their order, the new one comes after
      the oldest of them, and the one that would have come up last comes up first. */
  lemma AppendKeepsQueue(n: nat, offset: nat)
    requires offset < n
    ensures var q := Queue(n, offset);
      Queue(n + 1, offset) == if offset == 0 then [n] + q
        else [q[n - 1]] + q[..n - offset] + [n] + q[n - offset..n - 1]
  {
    var q := Queue(n, offset);
    var expected := if offset == 0 then [n] + q else [q[n - 1]] + q[..n - offset] + [n] + q[n - offset..n - 1];
    forall v | 0 <= v < n ensures q[v] == if offset + v < n then n - 1 - offset - v else 2 * n - 1 - offset - v {
      if offset + v < n {
        RemainderIs(n, 0, offset + v);
      } else {
        RemainderIs(n, 1, offset + v - n);
      }
    }
    forall v | 0 <= v <= n ensures Queue(n + 1, offset)[v] == expected[v] {
      if offset + v <= n {
        RemainderIs(n + 1, 0, offset + v);
      } else {
        RemainderIs(n + 1, 1, offset + v - n - 1);
      }
    }
  }

  // ---------------------------------------------------------------- TRON: one record at a time

  /** The record at a place. */
  function Place(n: nat, at: nat): (i: nat)
    requires n > 0
    ensures i < n
  {
    at % n
  }

  /** The tries of one refresh, counted on without wrapping: place t is record Place(n, t). Finalized
      records are passed over; the deadline stops before the try numbered `limit`. */
  function Tries(finalized: seq<bool>, at: nat, left: nat, limit: nat): seq<nat>
    requires finalized != []
    decreases left
  {
    if left == 0 then []
    else if finalized[Place(|finalized|, at)] then Tries(finalized, at + 1, left - 1, limit)
    else if limit == 0 then []
    else [at] + Tries(finalized, at + 1, left - 1, limit - 1)
  }

  function Flags<T>(records: seq<T>, finalized: T -> bool): (f: seq<bool>)
    ensures |f| == |records| && forall i :: 0 <= i < |f| ==> f[i] == finalized(records[i])
  {
    seq(|records|, i requires 0 <= i < |records| => finalized(records[i]))
  }

  lemma SamePlace(n: nat, base: nat, s: nat, k: nat)
    requires n > 0 && Place(n, base) == Place(n, s)
    ensures Place(n, base + k) == Place(n, s + k)
  {
    AddRemainder(n, base, k);
    AddRemainder(n, s, k);
  }

  lemma PlaceAround(n: nat, start: nat, k: nat)
    requires k < n
    ensures Place(n, start + k) == if Place(n, start) + k < n then Place(n, start) + k else Place(n, start) + k - n
    ensures Place(n, Place(n, start + k) + 1) == Place(n, start + k + 1)
  {
    Around(n, start, k);
  }

  /** The k-th record of one turn. */
  function Turn(n: nat, start: nat, k: nat): (i: nat)
    requires n > 0
    ensures i < n
  {
    Place(n, start + k)
  }

  lemma TurnIs(n: nat, base: nat, start: nat, k: nat)
    requires k < n && Place(n, base) == Place(n, start)
    ensures Turn(n, start, k) == Place(n, base + k)
    ensures Place(n, Turn(n, start, k) + 1) == Place(n, base + k + 1)
  {
    SamePlace(n, base, start, k);
    PlaceAround(n, base, k);
  }

  /** Within one turn no record comes up twice. */
  lemma Elsewhere(n: nat, start: nat, offset: nat)
    requires offset < n
    ensures forall k :: offset < k < n ==> Turn(n, start, k) != Turn(n, start, offset)
  {
    hide Place;
    PlaceAround(n, start, offset);
    forall k | offset < k < n ensures Turn(n, start, k) != Turn(n, start, offset) {
      PlaceAround(n, start, k);
    }
  }

  lemma TriesStep(f: seq<bool>, at: nat, left: nat, limit: nat, tried: seq<nat>)
    requires f != [] && left > 0
    ensures tried + Tries(f, at, left, limit)
      == if f[Place(|f|, at)] then tried + Tries(f, at + 1, left - 1, limit)
         else if limit == 0 then tried
         else tried + [at] + Tries(f, at + 1, left - 1, limit - 1)
  {
    hide Place;
  }

  lemma TriesNone(f: seq<bool>, at: nat, limit: nat)
    requires f != []
    ensures Tries(f, at, 0, limit) == []
  {
  }

  /** A record is left alone, or was not finalized and became what some try found out. */
  ghost predicate Improved<T>(before: T, after: T, finalized: T -> bool, answer: (nat, T) -> Option<T>) {
    after == before || (!finalized(before) && exists k: nat :: answer(k, before) == Some(after))
  }

  lemma Answers<T>(r: T, finalized: T -> bool, answer: (nat, T) -> Option<T>, k: nat)
    ensures !finalized(r) && answer(k, r).Some? ==> Improved(r, answer(k, r).value, finalized, answer)
  {
  }

  /** The records once all tries are answered, each at its place. */
  function AfterTries<T>(records: seq<T>, tried: seq<nat>, answer: (nat, T) -> Option<T>): (next: seq<T>)
    requires records != []
    ensures |next| == |records|
  {
    if tried == [] then records
    else
      var k := |tried| - 1;
      var before := AfterTries(records, tried[..k], answer);
      var i := Place(|records|, tried[k]);
      var found := answer(k, before[i]);
      if found.Some? then before[i := found.value] else before
  }

  lemma OneMoreTry<T>(records: seq<T>, tried: seq<nat>, at: nat, answer: (nat, T) -> Option<T>)
    requires records != []
    ensures var before, i := AfterTries(records, tried, answer), Place(|records|, at);
      var found := answer(|tried|, before[i]);
      AfterTries(records, tried + [at], answer) == if found.Some? then before[i := found.value] else before
  {
    hide Place;
    assert (tried + [at])[..|tried|] == tried;
  }

  /** One refresh: `answer(k, r)` is what record r becomes if the k-th try is at it, None if the try
      fails. `tried` counts places on from `base`, any number standing for the record to start with. */
  method TryInTurn<T>(records: seq<T>, finalized: T -> bool, start: nat, answer: (nat, T) -> Option<T>, limit: nat, ghost base: nat)
    returns (next: seq<T>, stop: nat, ghost tried: seq<nat>)
    requires records != [] && Place(|records|, base) == Place(|records|, start)
    ensures next == AfterTries(records, tried, answer)
    ensures AllImproved(records, next, finalized, answer)
    ensures tried == Tries(Flags(records, finalized), base, |records|, limit)
    ensures stop == if tried == [] then start else Place(|records|, tried[|tried|-1] + 1)
  {
    hide Place, Tries, Turn, Flags, AllImproved, AfterTries, Pending;
    tried := [];
    NoTries(records, start, finalized, answer);
    var n, count := |records|, 0;
    next, stop := records, start;
    ghost var flags := Flags(records, finalized);
    for offset := 0 to n
      invariant next == AfterTries(records, tried, answer) && count == |tried| <= limit
      invariant Pending(records, next, start, offset) && AllImproved(records, next, finalized, answer)
      invariant Tries(flags, base, n, limit) == tried + Tries(flags, base + offset, n - offset, limit - count)
      invariant stop == if tried == [] then start else Place(n, tried[|tried|-1] + 1)
    {
      var i := Turn(n, start, offset);
      TurnIs(n, base, start, offset);
      TriesStep(flags, base + offset, n - offset, limit - count, tried);
      PendingNext(records, next, start, offset);
      if finalized(next[i]) {
        continue;
      }
      if count == limit {
        return;
      }
      stop := Place(n, i + 1);
      OneMoreTry(records, tried, base + offset, answer);
      tried := tried + [base + offset];
      next := Tried(records, next, start, offset, finalized, answer, count, i);
      count := count + 1;
    }
    TriesNone(flags, base + n, limit - count);
  }

  ghost predicate AllImproved<T>(records: seq<T>, next: seq<T>, finalized: T -> bool, answer: (nat, T) -> Option<T>) {
    |next| == |records| && forall i :: 0 <= i < |records| ==> Improved(records[i], next[i], finalized, answer)
  }

  /** The records of the rest of the turn are as they were. */
  ghost predicate Pending<T>(records: seq<T>, next: seq<T>, start: nat, offset: nat)
    requires records != []
  {
    |next| == |records| && forall k :: offset <= k < |records| ==> next[Turn(|records|, start, k)] == records[Turn(|records|, start, k)]
  }

  lemma PendingNext<T>(records: seq<T>, next: seq<T>, start: nat, offset: nat)
    requires offset < |records| && Pending(records, next, start, offset)
    ensures |next| == |records| && next[Turn(|records|, start, offset)] == records[Turn(|records|, start, offset)]
    ensures Pending(records, next, start, offset + 1)
  {
    hide Turn;
  }

  lemma PendingAfter<T>(records: seq<T>, next: seq<T>, start: nat, offset: nat, r: T)
    requires offset < |records| && Pending(records, next, start, offset)
    ensures Pending(records, next[Turn(|records|, start, offset) := r], start, offset + 1)
  {
    hide Turn;
    Elsewhere(|records|, start, offset);
  }

  lemma ImprovedAt<T>(records: seq<T>, next: seq<T>, i: nat, r: T, finalized: T -> bool, answer: (nat, T) -> Option<T>)
    requires AllImproved(records, next, finalized, answer) && i < |records| && Improved(records[i], r, finalized, answer)
    ensures AllImproved(records, next[i := r], finalized, answer)
  {
    hide Improved;
  }

  lemma NoTries<T>(records: seq<T>, start: nat, finalized: T -> bool, answer: (nat, T) -> Option<T>)
    requires records != []
    ensures AfterTries(records, [], answer) == records
    ensures Pending(records, records, start, 0) && AllImproved(records, records, finalized, answer)
  {
    hide Turn;
  }

  /** One try at a record that has not been tried yet. */
  method Tried<T>(records: seq<T>, next: seq<T>, ghost start: nat, ghost offset: nat, finalized: T -> bool,
    answer: (nat, T) -> Option<T>, count: nat, i: nat) returns (after: seq<T>)
    requires offset < |records| && Pending(records, next, start, offset) && i == Turn(|records|, start, offset)
    requires next[i] == records[i] && !finalized(records[i]) && AllImproved(records, next, finalized, answer)
    ensures var found := answer(count, next[i]); after == if found.Some? then next[i := found.value] else next
    ensures Pending(records, after, start, offset + 1) && AllImproved(records, after, finalized, answer)
  {
    hide Turn, Improved, AllImproved, Pending;
    PendingNext(records, next, start, offset);
    Answers(records[i], finalized, answer, count);
    var found := answer(count, next[i]);
    after := next;
    if found.Some? {
      PendingAfter(records, next, start, offset, found.value);
      ImprovedAt(records, next, i, found.value, finalized, answer);
      after := next[i := found.value];
    }
  }

  /** Numbers from a window of `left` from `at`, rising. */
  predicate Window(s: seq<nat>, at: nat, left: nat) {
    && (forall t :: t in s ==> at <= t < at + left)
    && (forall j, k :: 0 <= j < k < |s| ==> s[j] < s[k])
  }

  /** None of these is a try at a finalized record, and there are not more than the deadline allows; if
      fewer, nobody in the window was left out. */
  predicate Enough(tries: seq<nat>, f: seq<bool>, at: nat, left: nat, limit: nat)
    requires f != []
  {
    && |tries| <= limit && Window(tries, at, left)
    && (forall t :: t in tries ==> !f[Place(|f|, t)])
    && (|tries| == limit || forall p :: at <= p < at + left && !f[Place(|f|, p)] ==> p in tries)
  }

  lemma EnoughPassing(tries: seq<nat>, f: seq<bool>, at: nat, left: nat, limit: nat)
    requires f != [] && left > 0 && f[Place(|f|, at)] && Enough(tries, f, at + 1, left - 1, limit)
    ensures Enough(tries, f, at, left, limit)
  {
    hide Place;
  }

  lemma EnoughTrying(tries: seq<nat>, f: seq<bool>, at: nat, left: nat, limit: nat)
    requires f != [] && left > 0 && limit > 0 && !f[Place(|f|, at)] && Enough(tries, f, at + 1, left - 1, limit - 1)
    ensures Enough([at] + tries, f, at, left, limit)
  {
    hide Place;
    var all := [at] + tries;
    assert forall k :: 0 < k < |all| ==> all[k] == tries[k - 1] && tries[k - 1] in tries;
    assert forall t :: t in all <==> t == at || t in tries;
  }

  lemma NothingEnough(f: seq<bool>, at: nat, left: nat, limit: nat)
    requires f != [] && (left == 0 || limit == 0)
    ensures Enough([], f, at, left, limit)
  {
  }

  lemma {:induction false} TriesEnough(f: seq<bool>, at: nat, left: nat, limit: nat)
    requires f != []
    ensures Enough(Tries(f, at, left, limit), f, at, left, limit)
    decreases left
  {
    hide Place, Enough;
    if left == 0 {
      NothingEnough(f, at, left, limit);
    } else if f[Place(|f|, at)] {
      TriesEnough(f, at + 1, left - 1, limit);
      EnoughPassing(Tries(f, at + 1, left - 1, limit), f, at, left, limit);
    } else if limit == 0 {
      NothingEnough(f, at, left, limit);
    } else {
      TriesEnough(f, at + 1, left - 1, limit - 1);
      EnoughTrying(Tries(f, at + 1, left - 1, limit - 1), f, at, left, limit);
    }
  }

  /** No two of these are of the same record. */
  predicate Differ(tries: seq<nat>, n: nat)
    requires n > 0
  {
    forall j, k :: 0 <= j < k < |tries| ==> Place(n, tries[j]) != Place(n, tries[k])
  }

  lemma WindowDiffers(tries: seq<nat>, at: nat, n: nat)
    requires n > 0 && Window(tries, at, n)
    ensures Differ(tries, n)
  {
    hide Place;
    forall j, k | 0 <= j < k < |tries| ensures Place(n, tries[j]) != Place(n, tries[k]) {
      assert tries[j] in tries && tries[k] in tries;
      PlaceAround(n, tries[j], tries[k] - tries[j]);
    }
  }

  /** A full turn is at a record somewhere. */
  lemma TurnMeets(n: nat, at: nat, m: nat) returns (p: nat)
    requires m < n
    ensures at <= p < at + n && Place(n, p) == m
  {
    var r := Place(n, at);
    var d := if m >= r then m - r else m + n - r;
    PlaceAround(n, at, d);
    p := at + d;
  }

  /** Whoever was tried is what the try found out, and everybody else is as before. */
  lemma {:induction false} AfterEachTry<T>(records: seq<T>, tried: seq<nat>, answer: (nat, T) -> Option<T>)
    requires records != [] && Differ(tried, |records|)
    ensures var next := AfterTries(records, tried, answer);
      && (forall k :: 0 <= k < |tried| ==>
           var i := Place(|records|, tried[k]);
           next[i] == if answer(k, records[i]).Some? then answer(k, records[i]).value else records[i])
      && (forall i :: 0 <= i < |records| && (forall k :: 0 <= k < |tried| ==> Place(|records|, tried[k]) != i) ==>
           next[i] == records[i])
  {
    hide Place;
    if tried != [] {
      var k := |tried| - 1;
      AfterEachTry(records, tried[..k], answer);
      assert tried == tried[..k] + [tried[k]];
      OneMoreTry(records, tried[..k], tried[k], answer);
    }
  }

  datatype Call = Call(finalized: seq<bool>, limit: nat)

  function After(at: nat, tries: seq<nat>): nat {
    if tries == [] then at else tries[|tries|-1] + 1
  }

  /** The tries of successive refreshes of one list. */
  function Trace(calls: seq<Call>, at: nat, n: nat): seq<nat>
    requires n > 0 && forall c :: c in calls ==> |c.finalized| == n
  {
    if calls == [] then []
    else
      var tries := Tries(calls[0].finalized, at, n, calls[0].limit);
      tries + Trace(calls[1..], After(at, tries), n)
  }

  predicate Increasing(s: seq<nat>, from: nat) {
    && (forall a :: 0 <= a < |s| ==> s[a] >= from)
    && (forall a, b :: 0 <= a < b < |s| ==> s[a] < s[b])
  }

  /** Every place of record m that the tries went past is among them. */
  predicate Covers(s: seq<nat>, from: nat, n: nat, m: nat)
    requires n > 0
  {
    forall p :: from <= p < After(from, s) && Place(n, p) == m ==> p in s
  }

  lemma ForwardConcat(s: seq<nat>, t: seq<nat>, from: nat, n: nat, m: nat)
    requires n > 0 && Increasing(s, from) && Increasing(t, After(from, s))
    requires Covers(s, from, n, m) && Covers(t, After(from, s), n, m)
    ensures Increasing(s + t, from) && Covers(s + t, from, n, m)
  {
    hide Place;
    assert After(from, s + t) == After(After(from, s), t);
  }

  /** Tries go forward, and pass over finalized records only. */
  lemma {:induction false} TriesForward(f: seq<bool>, at: nat, left: nat, limit: nat, m: nat)
    requires m < |f| && !f[m]
    ensures Increasing(Tries(f, at, left, limit), at) && Covers(Tries(f, at, left, limit), at, |f|, m)
    decreases left
  {
    hide Place, Increasing, Covers;
    NothingTried(at, |f|, m);
    if left > 0 {
      if f[Place(|f|, at)] {
        TriesForward(f, at + 1, left - 1, limit, m);
        PassedOver(Tries(f, at + 1, left - 1, limit), at, |f|, m);
      } else if limit > 0 {
        TriesForward(f, at + 1, left - 1, limit - 1, m);
        OneTried(at, |f|, m);
        ForwardConcat([at], Tries(f, at + 1, left - 1, limit - 1), at, |f|, m);
      }
    }
  }

  lemma PassedOver(s: seq<nat>, at: nat, n: nat, m: nat)
    requires n > 0 && Place(n, at) != m && Increasing(s, at + 1) && Covers(s, at + 1, n, m)
    ensures Increasing(s, at) && Covers(s, at, n, m)
  {
    hide Place;
  }

  lemma OneTried(at: nat, n: nat, m: nat)
    requires n > 0
    ensures Increasing([at], at) && Covers([at], at, n, m) && After(at, [at]) == at + 1
  {
    hide Place;
  }

  lemma {:induction false} TraceForward(calls: seq<Call>, at: nat, n: nat, m: nat)
    requires n > 0 && m < n && forall c :: c in calls ==> |c.finalized| == n && !c.finalized[m]
    ensures Increasing(Trace(calls, at, n), at) && Covers(Trace(calls, at, n), at, n, m)
  {
    hide Place, Tries, Increasing, Covers;
    if calls == [] {
      NothingTried(at, n, m);
    } else {
      assert calls[0] in calls && forall c :: c in calls[1..] ==> c in calls;
      var tries := Tries(calls[0].finalized, at, n, calls[0].limit);
      TriesForward(calls[0].finalized, at, n, calls[0].limit, m);
      TraceForward(calls[1..], After(at, tries), n, m);
      ForwardConcat(tries, Trace(calls[1..], After(at, tries), n), at, n, m);
    }
  }

  lemma NothingTried(at: nat, n: nat, m: nat)
    requires n > 0
    ensures Increasing([], at) && Covers([], at, n, m)
  {
  }

  /** Between two places of one record lies a place of every other. */
  lemma PlaceBetween(n: nat, p: nat, q: nat, m: nat) returns (t: nat)
    requires n > 0 && m < n && p < q && Place(n, p) == Place(n, q) != m
    ensures p < t < q && Place(n, t) == m
  {
    var r := Place(n, p);
    var d := if m > r then m - r else m + n - r;
    t := p + d;
    PlaceAround(n, p, d);
    if q - p < n {
      PlaceAround(n, p, q - p);
    }
  }

  /** However deadlines cut the refreshes of a list, and whichever records become finalized on the
      way, no record is tried twice before every other record that stays unfinalized is tried. */
  lemma NoTurnTwice(calls: seq<Call>, at: nat, n: nat, m: nat, a: nat, b: nat)
    requires n > 0 && m < n && forall c :: c in calls ==> |c.finalized| == n && !c.finalized[m]
    requires a < b < |Trace(calls, at, n)|
    requires Place(n, Trace(calls, at, n)[a]) == Place(n, Trace(calls, at, n)[b]) != m
    ensures exists k :: a < k < b && Place(n, Trace(calls, at, n)[k]) == m
  {
    hide Place;
    var t := Trace(calls, at, n);
    TraceForward(calls, at, n, m);
    var p := PlaceBetween(n, t[a], t[b], m);
    assert p in t;
    var k :| 0 <= k < |t| && t[k] == p;
    assert k > a && k < b;
  }

  /** The refreshes of one service since its list last grew: their tries so far, counted on from place
      `from`; `finalized` and `next` are what it stands at now. */
  predicate Traced(calls: seq<Call>, trace: seq<nat>, from: nat, finalized: seq<bool>, next: nat) {
    && (forall c :: c in calls ==> Settled(c.finalized, finalized))
    && if finalized == [] then trace == []
       else trace == Trace(calls, from, |finalized|) && Place(|finalized|, After(from, trace)) == Place(|finalized|, next)
  }

  /** A finalized record stays so. */
  predicate Settled(before: seq<bool>, after: seq<bool>) {
    |before| == |after| && forall i :: 0 <= i < |before| && before[i] ==> after[i]
  }

  lemma StillTraced(calls: seq<Call>, trace: seq<nat>, from: nat, finalized: seq<bool>, next: nat, after: seq<bool>)
    requires Traced(calls, trace, from, finalized, next) && Settled(finalized, after)
    ensures Traced(calls, trace, from, after, next)
  {
    hide Place, Trace;
  }

  lemma TracedPlace(calls: seq<Call>, trace: seq<nat>, from: nat, finalized: seq<bool>, next: nat)
    requires Traced(calls, trace, from, finalized, next) && finalized != []
    ensures Place(|finalized|, After(from, trace)) == Place(|finalized|, next)
  {
    hide Place, Trace;
  }

  lemma {:induction false} TraceSnoc(calls: seq<Call>, at: nat, n: nat, c: Call)
    requires n > 0 && |c.finalized| == n && forall d :: d in calls ==> |d.finalized| == n
    ensures Trace(calls + [c], at, n)
      == Trace(calls, at, n) + Tries(c.finalized, After(at, Trace(calls, at, n)), n, c.limit)
  {
    hide Tries;
    var more := calls + [c];
    if calls == [] {
      assert more == [c] && [c][1..] == [];
    } else {
      assert more[0] == calls[0] && more[1..] == calls[1..] + [c];
      assert calls[0] in calls && forall d :: d in calls[1..] ==> d in calls;
      var tries := Tries(calls[0].finalized, at, n, calls[0].limit);
      var rest := Trace(calls[1..], After(at, tries), n);
      TraceSnoc(calls[1..], After(at, tries), n, c);
      AfterBoth(at, tries, rest);
    }
  }

  lemma AfterBoth(at: nat, s: seq<nat>, t: seq<nat>)
    ensures After(at, s + t) == After(After(at, s), t)
  {
  }

  lemma TracedMore(calls: seq<Call>, trace: seq<nat>, from: nat, finalized: seq<bool>, next: nat, limit: nat, after: seq<bool>)
    requires Traced(calls, trace, from, finalized, next) && finalized != [] && Settled(finalized, after)
    ensures var n := |finalized|;
      var tries := Tries(finalized, After(from, trace), n, limit);
      Traced(calls + [Call(finalized, limit)], trace + tries, from, after, if tries == [] then next else Place(n, tries[|tries|-1] + 1))
  {
    hide Place, Tries, Trace;
    var n := |finalized|;
    TraceSnoc(calls, from, n, Call(finalized, limit));
    var tries := Tries(finalized, After(from, trace), n, limit);
    AfterBoth(from, trace, tries);
    if tries != [] {
      PlaceTwice(n, tries[|tries|-1] + 1);
    }
  }

  lemma PlaceTwice(n: nat, at: nat)
    requires n > 0
    ensures Place(n, Place(n, at)) == Place(n, at)
  {
    RemainderIs(n, 0, at % n);
  }

  /** In the tries a service made, no record comes twice before every other one that is unfinalized now. */
  lemma TracedFair(calls: seq<Call>, trace: seq<nat>, from: nat, finalized: seq<bool>, next: nat, m: nat, a: nat, b: nat)
    requires Traced(calls, trace, from, finalized, next) && m < |finalized| && !finalized[m]
    requires a < b < |trace| && Place(|finalized|, trace[a]) == Place(|finalized|, trace[b]) != m
    ensures exists k :: a < k < b && Place(|finalized|, trace[k]) == m
  {
    hide Place, Trace;
    NoTurnTwice(calls, from, |finalized|, m, a, b);
  }
}
