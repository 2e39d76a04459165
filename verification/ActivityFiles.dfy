/** The activity index: hashes in activity.json and in an ordered list of archive files, and how a
    write compacts them (internal/wallet/activity.go). */
module ActivityFiles {
  import opened Records

  /** A transaction hash as stored: the index compares the text. */
  type Id = string

  const MAX_HASHES: nat := 1000
  const MAX_BYTES: nat := 128 * 1024
  const KEEP: nat := 200

  predicate IsHex(c: char) {
    '0' <= c <= '9' || 'a' <= c <= 'f' || 'A' <= c <= 'F'
  }

  predicate ValidId(id: Id) {
    |id| == 66 && id[..2] == "0x" && forall c :: c in id[2..] ==> IsHex(c)
  }

  predicate ValidIds(ids: seq<Id>) {
    forall id :: id in ids ==> ValidId(id)
  }

  /** The length of the JSON text of a list of hashes: each quoted, separated by commas. */
  function JsonSize(ids: seq<Id>): nat {
    if ids == [] then 2
    else if |ids| == 1 then |ids[0]| + 4
    else JsonSize(ids[..|ids|-1]) + |ids[|ids|-1]| + 3
  }

  predicate Readable(ids: seq<Id>) {
    JsonSize(ids) <= MAX_BYTES && |ids| <= MAX_HASHES && ValidIds(ids)
  }

  /** `stamp` is the number in the file's name, printed with twenty digits. */
  datatype Archive = Archive(stamp: nat, ids: seq<Id>)

  /** Archives in directory order. */
  datatype Dir = Dir(active: Option<seq<Id>>, archives: seq<Archive>)

  predicate Ordered(archives: seq<Archive>) {
    forall i, j :: 0 <= i < j < |archives| ==> archives[i].stamp < archives[j].stamp
  }

  function ActiveIds(dir: Dir): seq<Id> {
    if dir.active.Some? then dir.active.value else []
  }

  predicate ReadableDir(dir: Dir) {
    && Readable(ActiveIds(dir))
    && forall i :: 0 <= i < |dir.archives| ==> Readable(dir.archives[i].ids)
  }

  function Flatten(archives: seq<Archive>): seq<Id> {
    if archives == [] then [] else Flatten(archives[..|archives|-1]) + archives[|archives|-1].ids
  }

  function Elems(s: seq<Id>): set<Id> {
    set x | x in s
  }

  /** The first occurrence of every id that is not in `seen`. */
  function Fresh(s: seq<Id>, seen: set<Id>): seq<Id> {
    if s == [] then []
    else
      var front, last := s[..|s|-1], s[|s|-1];
      Fresh(front, seen) + (if last in seen || last in front then [] else [last])
  }

  /** The index as rebuilt from the files. */
  function Index(dir: Dir): seq<Id> {
    Fresh(Flatten(dir.archives) + ActiveIds(dir), {})
  }

  // ---------------------------------------------------------------- what a write does to the files

  /** The hashes a call adds. */
  function Added(dir: Dir, ids: seq<Id>): seq<Id> {
    Fresh(ids, Elems(Index(dir)))
  }

  function Combined(dir: Dir, ids: seq<Id>): seq<Id> {
    Fresh(ActiveIds(dir) + ids, Elems(Flatten(dir.archives)))
  }

  function Chunks(s: seq<Id>): seq<seq<Id>> {
    if s == [] then []
    else
      var n := if |s| < MAX_HASHES then |s| else MAX_HASHES;
      [s[..n]] + Chunks(s[n..])
  }

  /** The chunks to archive, then what stays in activity.json. */
  datatype Plan = Plan(chunks: seq<seq<Id>>, keep: seq<Id>)

  function PlanOf(combined: seq<Id>): Plan {
    if |combined| <= MAX_HASHES then Plan([], combined)
    else Plan(Chunks(combined[..|combined| - KEEP]), combined[|combined| - KEEP..])
  }

  function Stamped(chunks: seq<seq<Id>>, stamps: seq<nat>): seq<Archive>
    requires |stamps| <= |chunks|
  {
    seq(|stamps|, i requires 0 <= i < |stamps| => Archive(stamps[i], chunks[i]))
  }

  /** The files after the first |stamps| chunks were written and, if `done`, activity.json too. */
  function Stored(dir: Dir, plan: Plan, stamps: seq<nat>, done: bool): Dir
    requires |stamps| <= |plan.chunks|
  {
    Dir(if done then Some(plan.keep) else dir.active, dir.archives + Stamped(plan.chunks, stamps))
  }

  /** New archive names sort after every existing one. */
  predicate Rising(archives: seq<Archive>, stamps: seq<nat>) {
    && (forall i, a :: 0 <= i < |stamps| && a in archives ==> a.stamp < stamps[i])
    && (forall i, j :: 0 <= i < j < |stamps| ==> stamps[i] < stamps[j])
  }

  // ---------------------------------------------------------------- first occurrences

  lemma {:induction false} FreshMembers(s: seq<Id>, seen: set<Id>)
    ensures forall x :: x in Fresh(s, seen) <==> x in s && x !in seen
    ensures forall i, j :: 0 <= i < j < |Fresh(s, seen)| ==> Fresh(s, seen)[i] != Fresh(s, seen)[j]
  {
    if s != [] {
      FreshMembers(s[..|s|-1], seen);
    }
  }

  lemma {:induction false} FreshConcat(a: seq<Id>, b: seq<Id>, seen: set<Id>)
    ensures Fresh(a + b, seen) == Fresh(a, seen) + Fresh(b, seen + Elems(a))
  {
    if b == [] {
      assert a + b == a;
    } else {
      var front := b[..|b|-1];
      assert (a + b)[..|a + b|-1] == a + front;
      FreshConcat(a, front, seen);
    }
  }

  lemma {:induction false} FreshOfSeen(s: seq<Id>, seen: set<Id>)
    requires forall x :: x in s ==> x in seen
    ensures Fresh(s, seen) == []
  {
    if s != [] {
      FreshOfSeen(s[..|s|-1], seen);
    }
  }

  predicate Distinct(s: seq<Id>) {
    forall i, j :: 0 <= i < j < |s| ==> s[i] != s[j]
  }

  lemma {:induction false} FreshOfNew(s: seq<Id>, seen: set<Id>)
    requires Distinct(s) && forall x :: x in s ==> x !in seen
    ensures Fresh(s, seen) == s
  {
    if s != [] {
      FreshOfNew(s[..|s|-1], seen);
      assert s == s[..|s|-1] + [s[|s|-1]];
    }
  }

  /** Once a prefix of the fresh hashes is known, what is fresh is the rest of them. */
  lemma {:induction false} FreshTail(s: seq<Id>, seen: set<Id>, m: nat)
    requires m <= |Fresh(s, seen)|
    ensures Fresh(s, seen + Elems(Fresh(s, seen)[..m])) == Fresh(s, seen)[m..]
  {
    if s != [] {
      var front, last := s[..|s|-1], s[|s|-1];
      var before := Fresh(front, seen);
      FreshMembers(front, seen);
      if m <= |before| {
        assert Fresh(s, seen)[..m] == before[..m];
        FreshTail(front, seen, m);
      } else {
        FreshTail(front, seen, |before|);
        assert before[..|before|] == before && Fresh(s, seen)[..m] == Fresh(s, seen) == before + [last];
        FreshOfSeen(front, seen + Elems(Fresh(s, seen)));
      }
    }
  }
}
