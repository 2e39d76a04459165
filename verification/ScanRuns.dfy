/** The finalized-block scanner: its cursor file, the durable activity index, and settings changed
    while a scan is under way (internal/wallet/scanner.go).

    A scan takes the scan lock twice: to read the cursor, and to record what it found. Between the
    two it talks to the chain, and settings may change. */
module ScanRuns {
  import opened Records
  import opened ActivityFiles
  import opened ActivityCompaction

  type Token = nat

  const MAX_TOKENS: nat := 200
  const RECENT: nat := 19

  datatype Progress = Progress(
    explicitStart: bool, enabled: bool, start: nat, next: nat, finalized: nat,
    tokens: seq<Token>, error: string, updatedAt: nat)

  /** What a missing scan.json stands for. */
  const NOT_CONFIGURED := Progress(false, false, 0, 0, 0, [], "", 0)

  /** What the chain said: the finalized height, and the tokens of the block asked for, each None if
      it does not parse as an address. No block when it was not asked for or the query failed. */
  datatype Answer = Answer(finalized: Option<nat>, tokens: Option<seq<Option<Token>>>)

  datatype ScanPc =
    | Idle
    | Querying(read: Progress, generation: nat)
    | Answered(read: Progress, generation: nat, answer: Answer)
    | Recording(state: Progress, block: Option<seq<Option<Token>>>)  // scan lock held
    | Recorded(state: Progress)                                      // scan lock held

  /** `chain` gives the related hashes of each block once it is finalized; `index` is the activity
      index as rebuilt from its files; `file` is scan.json. */
  datatype World = World(
    chain: nat -> seq<Id>, index: seq<Id>, file: Option<Progress>, generation: nat, scan: ScanPc)

  datatype Event =
    | Configure(enabled: bool, start: Option<nat>, outcome: Outcome)
    | ScanBegin
    | ScanAnswer(answer: Answer)
    | ScanResume
    | ScanSaveHashes(kept: nat, ok: bool)
    | ScanSaveCursor(error: string, now: nat, outcome: Outcome)
    | AddOther(ids: seq<Id>, kept: nat)
    | Crash

  function Current(w: World): Progress {
    if w.file.Some? then w.file.value else NOT_CONFIGURED
  }

  predicate LockHeld(w: World) {
    w.scan.Recording? || w.scan.Recorded?
  }

  function Configured(p: Progress, enabled: bool, start: Option<nat>): Progress {
    var moved := if start.Some? then p.(explicitStart := true, start := start.value, next := start.value) else p;
    moved.(enabled := enabled, error := "")
  }

  function StepConfigure(w: World, enabled: bool, start: Option<nat>, outcome: Outcome): World {
    if LockHeld(w) then w
    else w.(generation := w.generation + 1,
            file := AfterWrite(w.file, Some(Configured(Current(w), enabled, start)), outcome))
  }

  function StepScanBegin(w: World): World {
    if w.scan != Idle || !Current(w).enabled then w
    else w.(scan := Querying(Current(w), w.generation))
  }

  /** Where scanning begins if nobody chose: RECENT blocks back, or on a short chain at the finalized
      block itself. */
  function RecentStart(finalized: nat): (start: nat)
    ensures start <= finalized <= start + RECENT
  {
    if finalized > RECENT then finalized - RECENT else finalized
  }

  /** The cursor once the finalized height is known. */
  function Seen(p: Progress, finalized: nat): Progress {
    var next := RecentStart(finalized);
    if p.next == 0 && !p.explicitStart then p.(finalized := finalized, next := next, start := next)
    else p.(finalized := finalized)
  }

  function StepScanResume(w: World): World {
    if !w.scan.Answered? then w
    else if w.scan.generation != w.generation then w.(scan := Idle)
    else
      var answer := w.scan.answer;
      if answer.finalized.None? then w.(scan := Recorded(w.scan.read))
      else
        var state := Seen(w.scan.read, answer.finalized.value);
        if state.next <= answer.finalized.value && answer.tokens.Some? then w.(scan := Recording(state, answer.tokens))
        else w.(scan := Recorded(state))
  }

  /** New tokens at the end, up to the limit. */
  function WithTokens(tokens: seq<Token>, found: seq<Token>): seq<Token> {
    if found == [] then tokens
    else
      var front, last := WithTokens(tokens, found[..|found|-1]), found[|found|-1];
      if last in front || |front| >= MAX_TOKENS then front else front + [last]
  }

  /** No listed token is lost, and a found one is listed unless the list is full. */
  lemma {:induction false} TokensKept(tokens: seq<Token>, found: seq<Token>)
    ensures var all := WithTokens(tokens, found);
      && tokens <= all
      && (|tokens| <= MAX_TOKENS ==> |all| <= MAX_TOKENS)
      && (forall t :: t in all ==> t in tokens || t in found)
      && (forall t :: t in found ==> t in all || |all| >= MAX_TOKENS)
  {
    if found != [] {
      TokensKept(tokens, found[..|found|-1]);
    }
  }

  function Parsed(found: seq<Option<Token>>): Option<seq<Token>> {
    if found == [] then Some([])
    else
      var front := Parsed(found[..|found|-1]);
      if front.None? || found[|found|-1].None? then None else Some(front.value + [found[|found|-1].value])
  }

  function Extended(index: seq<Id>, ids: seq<Id>, kept: nat): seq<Id> {
    var added := Fresh(ids, Elems(index));
    index + added[..if kept < |added| then kept else |added|]
  }

  /** The hashes of the block go to the index first; a failed write may keep some of them. */
  function StepScanSaveHashes(w: World, kept: nat, ok: bool): World {
    if !w.scan.Recording? || w.scan.block.None? then w
    else
      var state := w.scan.state;
      var ids := w.chain(state.next);
      if !ok then w.(index := Extended(w.index, ids, kept), scan := Recorded(state))
      else
        var tokens := Parsed(w.scan.block.value);
        w.(index := w.index + Fresh(ids, Elems(w.index)),
           scan := if tokens.None? then Idle
                   else Recorded(state.(tokens := WithTokens(state.tokens, tokens.value), next := state.next + 1)))
  }

  function StepScanSaveCursor(w: World, error: string, now: nat, outcome: Outcome): World {
    if !w.scan.Recorded? then w
    else
      var next := w.scan.state.(error := error, updatedAt := now);
      w.(file := AfterWrite(w.file, Some(next), outcome), scan := Idle)
  }

  function Next(w: World, e: Event): World {
    match e
    case Configure(enabled, start, outcome) => StepConfigure(w, enabled, start, outcome)
    case ScanBegin => StepScanBegin(w)
    case ScanAnswer(answer) =>
      if w.scan.Querying? then w.(scan := Answered(w.scan.read, w.scan.generation, answer)) else w
    case ScanResume => StepScanResume(w)
    case ScanSaveHashes(kept, ok) => StepScanSaveHashes(w, kept, ok)
    case ScanSaveCursor(error, now, outcome) => StepScanSaveCursor(w, error, now, outcome)
    case AddOther(ids, kept) => w.(index := Extended(w.index, ids, kept))
    case Crash => w.(generation := 0, scan := Idle)
  }

  function Run(w: World, events: seq<Event>): World {
    if events == [] then w else Next(Run(w, events[..|events|-1]), events[|events|-1])
  }

  function Start(chain: nat -> seq<Id>): World {
    World(chain, [], None, 0, Idle)
  }

  // ---------------------------------------------------------------- no gaps

  /** Every related hash of every block in [start, next) is in the index. */
  predicate Covered(chain: nat -> seq<Id>, index: seq<Id>, p: Progress) {
    && p.start <= p.next
    && forall b, id :: p.start <= b < p.next && id in chain(b) ==> id in index
  }

  /** A cursor in hand is covered too, and while the settings have not changed it is the one on disk. */
  predicate ScanOk(w: World) {
    match w.scan
    case Idle => true
    case Querying(read, generation) => ReadOk(w, read, generation)
    case Answered(read, generation, answer) => ReadOk(w, read, generation)
    case Recording(state, block) =>
      block.Some? && Covered(w.chain, w.index, state) && state == Seen(Current(w), state.finalized)
      && state.next <= state.finalized
    case Recorded(state) =>
      Covered(w.chain, w.index, state) && Moves(Current(w), state) && state.explicitStart == Current(w).explicitStart
  }

  predicate ReadOk(w: World, read: Progress, generation: nat) {
    Covered(w.chain, w.index, read) && generation <= w.generation && (generation == w.generation ==> read == Current(w))
  }

  predicate Inv(w: World) {
    Covered(w.chain, w.index, Current(w)) && ScanOk(w)
  }

  /** How a scan may move the cursor: not at all, one block on over a finalized block, or, from a
      cursor nobody chose, to an empty range at recent blocks and then at most one block on. */
  predicate Moves(p: Progress, q: Progress) {
    || (q.start == p.start && q.next == p.next)
    || (q.start == p.start && q.next == p.next + 1 && p.next <= q.finalized)
    || (&& p.next == 0 && !p.explicitStart
        && q.start == RecentStart(q.finalized)
        && (q.next == q.start || q.next == q.start + 1))
  }

  lemma CoveredMore(chain: nat -> seq<Id>, index: seq<Id>, more: seq<Id>, p: Progress)
    requires Covered(chain, index, p)
    ensures Covered(chain, index + more, p)
  {
  }

  lemma ExtendedMore(w: World, more: seq<Id>)
    requires Inv(w)
    ensures Inv(w.(index := w.index + more))
  {
    hide Seen, Moves;
    CoveredMore(w.chain, w.index, more, Current(w));
    match w.scan
    case Idle =>
    case Querying(read, _) => CoveredMore(w.chain, w.index, more, read);
    case Answered(read, _, _) => CoveredMore(w.chain, w.index, more, read);
    case Recording(state, _) => CoveredMore(w.chain, w.index, more, state);
    case Recorded(state) => CoveredMore(w.chain, w.index, more, state);
  }

  lemma SaveHashesInv(w: World, kept: nat, ok: bool)
    requires Inv(w)
    ensures Inv(StepScanSaveHashes(w, kept, ok))
  {
    hide Fresh, WithTokens, Parsed;
    if w.scan.Recording? {
      var state := w.scan.state;
      var ids := w.chain(state.next);
      var added := Fresh(ids, Elems(w.index));
      if !ok {
        ExtendedMore(w, added[..if kept < |added| then kept else |added|]);
      } else {
        ExtendedMore(w, added);
        FreshMembers(ids, Elems(w.index));
      }
    }
  }

  lemma OtherInv(w: World, ids: seq<Id>, kept: nat)
    requires Inv(w)
    ensures Inv(w.(index := Extended(w.index, ids, kept)))
  {
    var added := Fresh(ids, Elems(w.index));
    ExtendedMore(w, added[..if kept < |added| then kept else |added|]);
  }

  lemma StartInv(chain: nat -> seq<Id>)
    ensures Inv(Start(chain))
  {
  }

  lemma NextInv(w: World, e: Event)
    requires Inv(w)
    ensures Inv(Next(w, e))
  {
    hide Fresh, WithTokens, Parsed, Extended;
    match e {
      case ScanSaveHashes(kept, ok) => SaveHashesInv(w, kept, ok);
      case AddOther(ids, kept) => OtherInv(w, ids, kept);
      case _ =>
    }
  }

  lemma {:induction false} RunInv(w: World, events: seq<Event>)
    requires Inv(w)
    ensures Inv(Run(w, events))
  {
    hide Inv, Next;
    if events != [] {
      RunInv(w, events[..|events|-1]);
      NextInv(Run(w, events[..|events|-1]), events[|events|-1]);
    }
  }

  lemma {:induction false} ChainStays(w: World, events: seq<Event>)
    ensures Run(w, events).chain == w.chain
  {
    if events != [] {
      ChainStays(w, events[..|events|-1]);
    }
  }

  /** Whatever fails, crashes or is reconfigured, the files never claim a block whose related
      hashes are not in the durable index. */
  lemma NoGaps(chain: nat -> seq<Id>, events: seq<Event>)
    ensures var w := Run(Start(chain), events);
      forall b, id :: Current(w).start <= b < Current(w).next && id in chain(b) ==> id in w.index
  {
    hide Run, Next;
    StartInv(chain);
    RunInv(Start(chain), events);
    ChainStays(Start(chain), events);
  }

  /** The cursor on disk moves only as the settings say, to an empty range, or as a scan may move it;
      a scan that was overtaken by new settings moves nothing. */
  lemma CursorMoves(chain: nat -> seq<Id>, events: seq<Event>, e: Event)
    ensures var w := Run(Start(chain), events);
      var p, q := Current(w), Current(Next(w, e));
      q != p ==>
        || (&& e.Configure? && q.enabled == e.enabled
            && if e.start.Some? then q.start == q.next == e.start.value && q.explicitStart
               else q.start == p.start && q.next == p.next)
        || (e.ScanSaveCursor? && Moves(p, q) && q.explicitStart == p.explicitStart)
  {
    hide Run, Covered;
    StartInv(chain);
    RunInv(Start(chain), events);
  }

  // ---------------------------------------------------------------- progress

  /** Where a scan goes on once the finalized height is known: at the stored cursor, or if nobody chose
      one and none is stored yet, 19 blocks back, on a short chain at the finalized block. */
  function GoesOnAt(p: Progress, finalized: nat): nat {
    if p.next > 0 || p.explicitStart then p.next else if finalized >= 20 then finalized - 19 else finalized
  }

  /** The found tokens are listed after the old ones, none of them left out unless the list is full. */
  predicate Listing(before: seq<Token>, found: seq<Option<Token>>, after: seq<Token>) {
    && before <= after
    && forall i :: 0 <= i < |found| ==> found[i].Some? && (found[i].value in after || |after| >= 200)
  }

  lemma {:induction false} ParsedEach(found: seq<Option<Token>>)
    ensures Parsed(found).Some? <==> forall i :: 0 <= i < |found| ==> found[i].Some?
    ensures Parsed(found).Some? ==>
      && |Parsed(found).value| == |found|
      && forall i :: 0 <= i < |found| ==> found[i] == Some(Parsed(found).value[i])
  {
    if found != [] {
      ParsedEach(found[..|found|-1]);
    }
  }

  lemma TokensListed(tokens: seq<Token>, found: seq<Option<Token>>)
    requires Parsed(found).Some?
    ensures Listing(tokens, found, WithTokens(tokens, Parsed(found).value))
  {
    ParsedEach(found);
    TokensKept(tokens, Parsed(found).value);
    assert forall i :: 0 <= i < |found| ==> Parsed(found).value[i] in Parsed(found).value;
  }

  /** What a scan that began at cursor `p` and went through leaves: the block it went on at is done if it
      is final, and otherwise nothing moved. */
  predicate Advanced(p: Progress, answer: Answer, q: Progress, index: seq<Id>, chain: nat -> seq<Id>) {
    && answer.finalized.Some?
    && q.finalized == answer.finalized.value && q.enabled == p.enabled && q.explicitStart == p.explicitStart
    && var n := GoesOnAt(p, answer.finalized.value);
       && q.start == (if p.next > 0 || p.explicitStart then p.start else n)
       && if n > answer.finalized.value then q.next == n && q.tokens == p.tokens
          else
            && q.next == n + 1 && answer.tokens.Some? && Listing(p.tokens, answer.tokens.value, q.tokens)
            && forall id :: id in chain(n) ==> id in index
  }

  /** The steps of one scan that nothing disturbs. */
  datatype Round = Round(answer: Answer, now: nat)

  function RoundEvents(round: Round): seq<Event> {
    [ScanBegin, ScanAnswer(round.answer), ScanResume, ScanSaveHashes(0, true), ScanSaveCursor("", round.now, Written)]
  }

  function AllRounds(rounds: seq<Round>): seq<Event> {
    if rounds == [] then [] else AllRounds(rounds[..|rounds|-1]) + RoundEvents(rounds[|rounds|-1])
  }

  /** The chain has block n final, and the tokens found there are addresses. */
  predicate Answers(round: Round, n: nat) {
    && round.answer.finalized.Some? && round.answer.finalized.value >= n
    && round.answer.tokens.Some? && forall t :: t in round.answer.tokens.value ==> t.Some?
  }

  lemma RunMore(w: World, events: seq<Event>, e: Event)
    ensures Run(w, events + [e]) == Next(Run(w, events), e)
  {
    hide Next;
    assert (events + [e])[..|events|] == events;
  }

  lemma RunFive(w: World, a: Event, b: Event, c: Event, d: Event, e: Event)
    ensures Run(w, [a, b, c, d, e]) == Next(Next(Next(Next(Next(w, a), b), c), d), e)
  {
    RunEmpty(w);
    hide Next, Run;
    RunMore(w, [], a);
    RunMore(w, [a], b);
    RunMore(w, [a, b], c);
    RunMore(w, [a, b, c], d);
    RunMore(w, [a, b, c, d], e);
    assert [] + [a] == [a] && [a] + [b] == [a, b] && [a, b] + [c] == [a, b, c];
    assert [a, b, c] + [d] == [a, b, c, d] && [a, b, c, d] + [e] == [a, b, c, d, e];
  }

  lemma {:induction false} RunConcat(w: World, a: seq<Event>, b: seq<Event>)
    ensures Run(w, a + b) == Run(Run(w, a), b)
  {
    hide Next;
    if b == [] {
      assert a + b == a;
    } else {
      assert (a + b)[..|a + b|-1] == a + b[..|b|-1];
      RunConcat(w, a, b[..|b|-1]);
    }
  }

  lemma RoundAdvances(w: World, round: Round)
    requires w.scan == Idle && Current(w).enabled && Answers(round, Current(w).next)
    requires Current(w).next > 0 || Current(w).explicitStart
    ensures var after := Run(w, RoundEvents(round));
      var p, q := Current(w), Current(after);
      && after.scan == Idle && after.chain == w.chain && q.enabled
      && q.next == p.next + 1 && q.start == p.start && q.explicitStart == p.explicitStart
      && Listing(p.tokens, round.answer.tokens.value, q.tokens)
      && after.index == w.index + Fresh(w.chain(p.next), Elems(w.index))
  {
    hide Run, WithTokens, Parsed, Fresh, Listing;
    RunFive(w, ScanBegin, ScanAnswer(round.answer), ScanResume, ScanSaveHashes(0, true), ScanSaveCursor("", round.now, Written));
    ParsedEach(round.answer.tokens.value);
    TokensListed(Current(w).tokens, round.answer.tokens.value);
  }

  /** As many undisturbed scans as there are final blocks take the cursor over all of them, and leave
      their hashes in the index. */
  lemma {:induction false} ScansAdvance(w: World, rounds: seq<Round>)
    requires w.scan == Idle && Current(w).enabled && (Current(w).next > 0 || Current(w).explicitStart)
    requires forall i :: 0 <= i < |rounds| ==> Answers(rounds[i], Current(w).next + i)
    ensures var after := Run(w, AllRounds(rounds));
      var n := Current(w).next;
      && after.scan == Idle && after.chain == w.chain && Current(after).enabled
      && Current(after).next == n + |rounds| && Current(after).start == Current(w).start
      && Current(after).explicitStart == Current(w).explicitStart
      && w.index <= after.index
      && forall b, id :: n <= b < n + |rounds| && id in w.chain(b) ==> id in after.index
  {
    hide Run, RoundEvents, Answers, Fresh, Listing;
    if rounds == [] {
      RunEmpty(w);
    } else {
      var front, last := rounds[..|rounds|-1], rounds[|rounds|-1];
      ScansAdvance(w, front);
      var before := Run(w, AllRounds(front));
      RunConcat(w, AllRounds(front), RoundEvents(last));
      RoundAdvances(before, last);
      FreshMembers(w.chain(Current(w).next + |front|), Elems(before.index));
    }
  }

  lemma RunEmpty(w: World)
    ensures Run(w, []) == w
  {
  }
}
