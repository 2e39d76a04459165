/** The scanner's two critical sections and the settings call, as the service runs them
    (internal/wallet/scanner.go). */
module Scanner {
  import opened Records
  import opened ActivityFiles
  import opened ActivityCompaction
  import opened ActivityStore
  import opened ScanRuns
  import opened Sequences

  lemma RunOne(w: World, a: Event)
    ensures Run(w, [a]) == Next(w, a)
  {
    hide Next;
    assert [a][..0] == [];
    assert Run(w, []) == w;
  }

  lemma RunThree(w: World, a: Event, b: Event, c: Event)
    ensures Run(w, [a, b, c]) == Next(Next(Next(w, a), b), c)
  {
    hide Next;
    RunOne(w, a);
    assert [a, b, c][..2] == [a, b] && [a, b][..1] == [a];
    assert Run(w, [a, b]) == Next(Run(w, [a]), b);
  }

  /** Nothing on the chain's side stands in the way: the finalized height is known, and the block to be
      recorded, if one is, was read with every token an address. */
  predicate Succeeds(read: Progress, answer: Answer) {
    && answer.finalized.Some?
    && (GoesOnAt(read, answer.finalized.value) <= answer.finalized.value ==>
         answer.tokens.Some? && forall i :: 0 <= i < |answer.tokens.value| ==> answer.tokens.value[i].Some?)
  }

  lemma AllIndexed(dir: Dir, ids: seq<Id>)
    ensures forall id :: id in ids ==> id in Index(dir) + Added(dir, ids)
  {
    hide Index;
    FreshMembers(ids, Elems(Index(dir)));
  }

  class Scanner {
    const blocks: nat -> seq<Id>
    const store: ActivityStore
    var scanFile: Option<Progress>
    var scanGeneration: nat

    ghost function World(): World
      reads this, store
    {
      ScanRuns.World(blocks, Index(store.Files()), scanFile, scanGeneration, Idle)
    }

    constructor (blocks: nat -> seq<Id>, store: ActivityStore, file: Option<Progress>)
      ensures World() == ScanRuns.World(blocks, Index(store.Files()), file, 0, Idle)
      ensures this.store == store
    {
      this.blocks, this.store, scanFile, scanGeneration := blocks, store, file, 0;
    }

    method ScanProgress() returns (state: Progress)
      ensures state == Current(World())
    {
      state := if scanFile.Some? then scanFile.value else NOT_CONFIGURED;
    }

    method SaveProgress(state: Progress, outcome: Outcome) returns (ok: bool)
      modifies this`scanFile
      ensures scanFile == AfterWrite(old(scanFile), Some(state), outcome) && ok == (outcome == Written)
    {
      if outcome != FailedOld {
        scanFile := Some(state);
      }
      ok := outcome == Written;
    }

    method ConfigureScan(enabled: bool, start: Option<nat>, outcome: Outcome) returns (ok: bool)
      modifies this
      ensures World() == Next(old(World()), Configure(enabled, start, outcome))
      ensures scanGeneration == old(scanGeneration) + 1 && ok == (outcome == Written)
      ensures ok ==>
        var before := Current(old(World()));
        && scanFile.Some? && scanFile.value.enabled == enabled && scanFile.value.error == ""
        && scanFile.value.tokens == before.tokens && scanFile.value.finalized == before.finalized
        && if start.Some? then scanFile.value.next == scanFile.value.start == start.value && scanFile.value.explicitStart
           else scanFile.value.next == before.next && scanFile.value.start == before.start
    {
      scanGeneration := scanGeneration + 1;
      var state := ScanProgress();
      if start.Some? {
        state := state.(explicitStart := true, start := start.value, next := start.value);
      }
      state := state.(enabled := enabled, error := "");
      ok := SaveProgress(state, outcome);
    }

    /** The first critical section of a scan. */
    method BeginScan() returns (begun: Option<(Progress, nat)>)
      ensures Next(World(), ScanBegin)
        == if begun.Some? then World().(scan := Querying(begun.value.0, begun.value.1)) else World()
      ensures begun == if scanFile.Some? && scanFile.value.enabled then Some((scanFile.value, scanGeneration)) else None
    {
      var state := ScanProgress();
      begun := if state.enabled then Some((state, scanGeneration)) else None;
    }

    method ParseTokens(found: seq<Option<Token>>) returns (tokens: Option<seq<Token>>)
      ensures tokens == Parsed(found)
    {
      tokens := Some([]);
      for i := 0 to |found|
        invariant tokens == Parsed(found[..i])
      {
        PrefixStep(found, i);
        tokens := if tokens.Some? && found[i].Some? then Some(tokens.value + [found[i].value]) else None;
      }
      assert found[..|found|] == found;
    }

    method AppendTokens(tokens: seq<Token>, found: seq<Token>) returns (all: seq<Token>)
      ensures all == WithTokens(tokens, found)
      ensures tokens <= all
    {
      all := tokens;
      var known := set t | t in tokens;
      for i := 0 to |found|
        invariant all == WithTokens(tokens, found[..i])
        invariant known == set t | t in all
        invariant tokens <= all
      {
        PrefixStep(found, i);
        if found[i] !in known && |all| < MAX_TOKENS {
          all, known := all + [found[i]], known + {found[i]};
        }
      }
      assert found[..|found|] == found;
    }

    /** What the answer says is to be done: the block to record, if any, and from where on. */
    method Resume(read: Progress, answer: Answer) returns (state: Progress, found: Option<seq<Option<Token>>>, failed: bool)
      ensures Next(World().(scan := Answered(read, scanGeneration, answer)), ScanResume)
        == World().(scan := if found.Some? then Recording(state, found) else Recorded(state))
      ensures state.tokens == read.tokens && (failed ==> found.None?)
      ensures failed <==>
        answer.finalized.None? || (GoesOnAt(read, answer.finalized.value) <= answer.finalized.value && answer.tokens.None?)
      ensures !failed ==> state.next == GoesOnAt(read, answer.finalized.value) && state.finalized == answer.finalized.value
      ensures state.start == (if read.next > 0 || read.explicitStart || answer.finalized.None? then read.start else state.next)
      ensures state.enabled == read.enabled && state.explicitStart == read.explicitStart
      ensures !failed ==> found == if state.next <= answer.finalized.value then answer.tokens else None
    {
      hide Index;
      state, found, failed := read, None, answer.finalized.None?;
      if failed {
        return;
      }
      var finalized := answer.finalized.value;
      state := state.(finalized := finalized);
      if state.next == 0 && !state.explicitStart {
        state := state.(next := finalized);
        if finalized > RECENT {
          state := state.(next := finalized - RECENT);
        }
        state := state.(start := state.next);
      }
      if state.next <= finalized {
        found := answer.tokens;
        failed := found.None?;
      }
    }

    /** The second critical section: hashes first, then the cursor. Nothing is written when the
        settings have changed since the first. */
    method FinishScan(read: Progress, generation: nat, answer: Answer, error: string, now: nat,
      clock: nat -> nat, writes: nat -> Outcome, outcome: Outcome) returns (ok: bool, ghost events: seq<Event>)
      requires store.Valid()
      requires forall n :: ValidIds(blocks(n))
      modifies this, store
      ensures store.Valid()
      ensures World() == Run(old(World()).(scan := Answered(read, generation, answer)), events)
      ensures generation != old(scanGeneration) ==> World() == old(World())
      ensures generation == old(scanGeneration) && ok ==>
        && scanFile.Some? && scanFile.value.error == "" && scanFile.value.updatedAt == now
        && Advanced(read, answer, scanFile.value, Index(store.Files()), blocks)
      ensures generation == old(scanGeneration) && ok ==> outcome == Written
      ensures Succeeds(read, answer) && ReadableDir(old(store.Files())) && (forall i :: writes(i) == Written) ==>
        (outcome == Written ==> ok)
    {
      hide Index, Added, Fresh, Parsed, WithTokens, Run, Listing, ReadableDir;
      ghost var w := World().(scan := Answered(read, generation, answer));
      events := [ScanResume];
      RunOne(w, ScanResume);
      if generation != scanGeneration {
        return true, events;
      }
      var state, found, failed := Resume(read, answer);
      ghost var kept := 0;
      var unreadable := false;
      if found.Some? {
        failed, unreadable, state, kept := RecordBlock(state, found.value, clock, writes);
      }
      ghost var saved := ScanSaveHashes(kept, !failed);
      ghost var middle := if unreadable then Idle else Recorded(state);
      assert Next(Next(w, ScanResume), saved) == World().(scan := middle);
      ghost var cursor := ScanSaveCursor(if failed then error else "", now, outcome);
      events := [ScanResume, saved, cursor];
      RunThree(w, ScanResume, saved, cursor);
      if unreadable {
        return false, events;
      }
      state := state.(error := if failed then error else "", updatedAt := now);
      ok := SaveProgress(state, outcome);
      ok := ok && !failed;
    }

    /** The hashes of one block, and if they are safely stored its tokens and the step to the next. */
    method RecordBlock(state: Progress, found: seq<Option<Token>>, clock: nat -> nat, writes: nat -> Outcome)
      returns (failed: bool, unreadable: bool, after: Progress, ghost kept: nat)
      requires store.Valid() && ValidIds(blocks(state.next))
      modifies store
      ensures store.Valid()
      ensures Next(old(World()).(scan := Recording(state, Some(found))), ScanSaveHashes(kept, !failed))
        == World().(scan := if unreadable then Idle else Recorded(after))
      ensures !failed && !unreadable ==>
        && after == state.(next := state.next + 1, tokens := after.tokens) && Listing(state.tokens, found, after.tokens)
        && forall id :: id in blocks(state.next) ==> id in Index(store.Files())
      ensures unreadable ==> exists i :: 0 <= i < |found| && found[i].None?
      ensures ReadableDir(old(store.Files())) && (forall i :: writes(i) == Written) ==> !failed
    {
      hide Index, Fresh, Parsed, WithTokens, Listing, ReadableDir;
      after, unreadable := state, false;
      var added;
      added, kept := store.AddActivityHashes(blocks(state.next), clock, writes);
      failed := added.Err?;
      ParsedEach(found);
      if !failed {
        var tokens := ParseTokens(found);
        if tokens.None? {
          return false, true, state, kept;
        }
        var all := AppendTokens(state.tokens, tokens.value);
        after := state.(tokens := all, next := state.next + 1);
        TokensListed(state.tokens, found);
        AllIndexed(old(store.Files()), blocks(state.next));
      }
    }
  }
}
