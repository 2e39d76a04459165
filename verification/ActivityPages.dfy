/** Pages of the activity list: the index in reverse, journal-only hashes first
    (internal/wallet/activity.go). */
module ActivityPages {
  import opened Records
  import opened ActivityFiles
  import opened ActivityCompaction
  import opened Sequences

  const PAGE_SIZE: nat := 20

  function Reverse(s: seq<Id>): (r: seq<Id>)
    ensures |r| == |s| && forall i :: 0 <= i < |s| ==> r[i] == s[|s| - 1 - i]
  {
    seq(|s|, i requires 0 <= i < |s| => s[|s| - 1 - i])
  }

  /** Hashes in insertion order: the index, then what only the journal knows. `history` is the
      journal's list, newest first. */
  function Listing(ids: seq<Id>, history: seq<Id>): seq<Id> {
    ids + Fresh(Reverse(history), Elems(ids))
  }

  function PageCount(total: nat): nat {
    if total == 0 then 1 else (total + PAGE_SIZE - 1) / PAGE_SIZE
  }

  function PageOf(all: seq<Id>, page: int): Result<seq<Id>> {
    if page < 1 || page > PageCount(|all|) then Err(RecordNotFound)
    else
      var begin := (page - 1) * PAGE_SIZE;
      Ok(Reverse(all)[begin..if begin + PAGE_SIZE < |all| then begin + PAGE_SIZE else |all|])
  }

  lemma NoneFresh(known: set<Id>)
    ensures Fresh([], known) == [] && Elems([]) == {}
  {
  }

  lemma FreshStep(ids: seq<Id>, k: nat, known: set<Id>)
    requires k < |ids|
    ensures Elems(ids[..k + 1]) == Elems(ids[..k]) + {ids[k]}
    ensures Fresh(ids[..k + 1], known)
      == Fresh(ids[..k], known) + (if ids[k] in known || ids[k] in Elems(ids[..k]) then [] else [ids[k]])
  {
    PrefixStep(ids, k);
  }

  /** Journal hashes that are not in the index, oldest first. */
  method JournalOnly(known: set<Id>, history: seq<Id>) returns (extra: seq<Id>)
    ensures extra == Fresh(Reverse(history), known)
  {
    hide Fresh, Elems;
    NoneFresh(known);
    var seen: set<Id> := {};
    extra := [];
    ghost var oldest := Reverse(history);
    var i := |history|;
    while i > 0
      invariant 0 <= i <= |history|
      invariant extra == Fresh(oldest[..|history| - i], known)
      invariant seen == Elems(oldest[..|history| - i]) - known
    {
      i := i - 1;
      ghost var k := |history| - i - 1;
      assert oldest[k] == history[i];
      FreshStep(oldest, k, known);
      if history[i] !in known && history[i] !in seen {
        seen := seen + {history[i]};
        extra := extra + [history[i]];
      }
    }
    assert oldest[..|history|] == oldest;
  }

  method Activity(ids: seq<Id>, history: seq<Id>, page: int) returns (r: Result<seq<Id>>, pages: nat, total: nat)
    ensures r == PageOf(Listing(ids, history), page)
    ensures r.Ok? ==> pages == PageCount(total) && total == |Listing(ids, history)|
  {
    hide Fresh;
    pages, total := 0, 0;
    if page < 1 {
      return Err(RecordNotFound), 0, 0;
    }
    var extra := JournalOnly(Elems(ids), history);
    ghost var all := ids + extra;
    assert all == Listing(ids, history);
    total := |ids| + |extra|;
    pages := (total + 19) / 20;
    if pages == 0 {
      pages := 1;
    }
    if page > pages {
      return Err(RecordNotFound), pages, total;
    }
    var begin := (page - 1) * 20;
    var end := if begin + 20 < total then begin + 20 else total;
    var out: seq<Id> := [];
    for n := begin to end
      invariant |out| == n - begin
      invariant forall k :: 0 <= k < |out| ==> out[k] == all[total - 1 - (begin + k)]
    {
      var position := total - 1 - n;
      out := out + [if position < |ids| then ids[position] else extra[position - |ids|]];
    }
    assert out == Reverse(all)[begin..end];
    r := Ok(out);
  }

  /** The first k pages one after the other. */
  function Pages(all: seq<Id>, k: nat): seq<Id>
    requires k <= PageCount(|all|)
  {
    if k == 0 then [] else Pages(all, k - 1) + PageOf(all, k).value
  }

  lemma {:induction false} PagesPrefix(all: seq<Id>, k: nat)
    requires k <= PageCount(|all|)
    ensures Pages(all, k) == Reverse(all)[..if k * PAGE_SIZE < |all| then k * PAGE_SIZE else |all|]
  {
    if k > 0 {
      PagesPrefix(all, k - 1);
      var r, begin := Reverse(all), (k - 1) * PAGE_SIZE;
      var end := if begin + PAGE_SIZE < |all| then begin + PAGE_SIZE else |all|;
      assert r[..begin] + r[begin..end] == r[..end];
    }
  }

  /** Going through all pages shows the whole list backwards: every hash of the index and of the
      journal, each once. */
  lemma AllPages(ids: seq<Id>, history: seq<Id>)
    requires Distinct(ids)
    ensures var all := Listing(ids, history);
      && Pages(all, PageCount(|all|)) == Reverse(all)
      && Distinct(all)
      && forall id :: id in all <==> id in ids || id in history
  {
    var all := Listing(ids, history);
    PagesPrefix(all, PageCount(|all|));
    FreshMembers(Reverse(history), Elems(ids));
    assert forall id :: id in Reverse(history) <==> id in history by {
      assert forall i :: 0 <= i < |history| ==> history[i] == Reverse(history)[|history| - 1 - i];
    }
    var extra := Fresh(Reverse(history), Elems(ids));
    assert forall i, j :: 0 <= i < |ids| && 0 <= j < |extra| ==> ids[i] != extra[j] by {
      forall i, j | 0 <= i < |ids| && 0 <= j < |extra| ensures ids[i] != extra[j] {
        assert ids[i] in Elems(ids) && extra[j] in extra;
      }
    }
  }
}
