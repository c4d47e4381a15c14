/**
 `parseGitStatusPorcelain` of `src/cli-land.ts`: the NUL-separated form of `git status`,
 where spaces and newlines are part of a path.
 */
module PorcelainStatus {
  import opened Wrappers
  import opened Splitting
  import opened Sequences

  const NUL := '\0'

  /** A tracked change; renames and copies carry the path they come from. */
  datatype Change = Change(code: string, path: string, original: Option<string>)

  datatype Status = Status(tracked: seq<Change>, untracked: seq<string>)

  datatype Entry = Tracked(change: Change) | Untracked(path: string) | Ignored(path: string)

  // ----- Orders

  /** Code units, as `Array.prototype.sort` compares strings. */
  predicate UnitsLe(a: string, b: string) {
    a == "" || (b != "" && (a[0] < b[0] || (a[0] == b[0] && UnitsLe(a[1..], b[1..]))))
  }

  lemma {:induction false} UnitsAreOrdered(a: string, b: string, c: string)
    ensures UnitsLe(a, b) || UnitsLe(b, a)
    ensures UnitsLe(a, b) && UnitsLe(b, c) ==> UnitsLe(a, c)
  {
    if a != "" && b != "" && a[0] == b[0] {
      UnitsAreOrdered(a[1..], b[1..], if c == "" then "" else c[1..]);
    }
  }

  lemma {:induction false} UnitsArePreorder()
    ensures TotalPreorder(UnitsLe)
  {
    forall a: string, b: string, c: string
      ensures (UnitsLe(a, b) || UnitsLe(b, a)) && (UnitsLe(a, b) && UnitsLe(b, c) ==> UnitsLe(a, c))
    {
      UnitsAreOrdered(a, b, c);
    }
  }

  /** Members without repetition, first occurrences first. */
  function Deduplicated(xs: seq<string>): seq<string> {
    if xs == [] then []
    else
      var rest := Deduplicated(xs[..|xs| - 1]);
      if xs[|xs| - 1] in rest then rest else rest + [xs[|xs| - 1]]
  }

  lemma {:induction false} DistinctKeeps(xs: seq<string>)
    ensures forall x :: x in Deduplicated(xs) <==> x in xs
    ensures Distinct(Deduplicated(xs))
  {
    if xs != [] {
      DistinctKeeps(xs[..|xs| - 1]);
      assert xs == xs[..|xs| - 1] + [xs[|xs| - 1]];
    }
  }

  // ----- Parsing

  function Records(raw: string): seq<string> {
    Split(raw, NUL)
  }

  predicate IsRename(code: string) {
    'R' in code || 'C' in code
  }

  function Joined(first: Status, rest: Option<Status>): Option<Status> {
    match rest
    case None => None
    case Some(s) => Some(Status(first.tracked + s.tracked, first.untracked + s.untracked))
  }

  lemma {:induction false} JoinedTwice(a: Status, b: Status, rest: Option<Status>)
    ensures Joined(a, Joined(b, rest)) == Joined(Status(a.tracked + b.tracked, a.untracked + b.untracked), rest)
    ensures Joined(Status([], []), rest) == rest
  {
    if rest.Some? {
      assert a.tracked + (b.tracked + rest.value.tracked) == (a.tracked + b.tracked) + rest.value.tracked;
      assert a.untracked + (b.untracked + rest.value.untracked) == (a.untracked + b.untracked) + rest.value.untracked;
      assert [] + rest.value.tracked == rest.value.tracked && [] + rest.value.untracked == rest.value.untracked;
    }
  }

  /** The entries of the records, in order; none where the source throws. */
  function Collect(records: seq<string>): Option<Status> {
    if records == [] then Some(Status([], []))
    else if records[0] == "" then Collect(records[1..])
    else if |records[0]| < 4 || records[0][2] != ' ' then None
    else
      var code, path := records[0][..2], records[0][3..];
      if code == "??" then Joined(Status([], [path]), Collect(records[1..]))
      else if code == "!!" then Collect(records[1..])
      else if !IsRename(code) then Joined(Status([Change(code, path, None)], []), Collect(records[1..]))
      else if |records| < 2 || records[1] == "" then None
      else Joined(Status([Change(code, path, Some(records[1]))], []), Collect(records[2..]))
  }

  function ByPath(le: Order<string>): Order<Change> {
    (a: Change, b: Change) => le(a.path, b.path)
  }

  function Arranged(s: Status, le: Order<string>): Status {
    Status(Sort(s.tracked, ByPath(le)), Sort(Deduplicated(s.untracked), UnitsLe))
  }

  /** `le` is the comparison of the locale. */
  method ParseGitStatusPorcelain(raw: string, le: Order<string>) returns (status: Option<Status>)
    ensures status == match Collect(Records(raw)) case None => None case Some(s) => Some(Arranged(s, le))
  {
    var records := Records(raw);
    var tracked, untracked, index := [], [], 0;
    assert records[0..] == records;
    JoinedTwice(Status([], []), Status([], []), Collect(records));
    while index < |records|
      invariant 0 <= index <= |records|
      invariant Collect(records) == Joined(Status(tracked, untracked), Collect(records[index..]))
    {
      ghost var read, at := Status(tracked, untracked), index;
      var record := records[index];
      assert records[at..][1..] == records[at + 1..] && records[at..][0] == record;
      if record == "" {
        index := index + 1;
        continue;
      }
      if |record| < 4 || record[2] != ' ' { return None; }
      var code, path := record[..2], record[3..];
      if code == "??" {
        untracked := untracked + [path];
        JoinedTwice(read, Status([], [path]), Collect(records[at + 1..]));
      } else if code != "!!" {
        var original := None;
        if IsRename(code) {
          if index + 1 == |records| || records[index + 1] == "" { return None; }
          assert records[at..][1] == records[at + 1] && records[at..][2..] == records[at + 2..];
          original := Some(records[index + 1]);
          index := index + 1;
        }
        tracked := tracked + [Change(code, path, original)];
        JoinedTwice(read, Status([Change(code, path, original)], []), Collect(records[index + 1..]));
      }
      index := index + 1;
      assert read.untracked + [] == read.untracked && read.tracked + [] == read.tracked;
    }
    assert records[index..] == [] && tracked + [] == tracked && untracked + [] == untracked;
    return Some(Arranged(Status(tracked, untracked), le));
  }

  // ----- Printing

  predicate IsPath(p: string) {
    p != "" && NUL !in p
  }

  predicate IsEntry(e: Entry) {
    match e
    case Untracked(path) => IsPath(path)
    case Ignored(path) => IsPath(path)
    case Tracked(Change(code, path, original)) =>
      && |code| == 2 && NUL !in code && code != "??" && code != "!!" && IsPath(path)
      && (IsRename(code) <==> original.Some?) && (original.Some? ==> IsPath(original.value))
  }

  /** What `git status --porcelain -z` prints. */
  function Print(entries: seq<Entry>): string {
    if entries == [] then "" else PrintEntry(entries[0]) + Print(entries[1..])
  }

  function PrintEntry(e: Entry): string {
    Record(e) + [NUL] + if Renames(e) then e.change.original.value + [NUL] else ""
  }

  function Record(e: Entry): string {
    match e
    case Untracked(path) => "?? " + path
    case Ignored(path) => "!! " + path
    case Tracked(change) => change.code + " " + change.path
  }

  predicate Renames(e: Entry) {
    e.Tracked? && e.change.original.Some?
  }

  function TrackedOf(entries: seq<Entry>): seq<Change> {
    if entries == [] then []
    else (if entries[0].Tracked? then [entries[0].change] else []) + TrackedOf(entries[1..])
  }

  function UntrackedOf(entries: seq<Entry>): seq<string> {
    if entries == [] then []
    else (if entries[0].Untracked? then [entries[0].path] else []) + UntrackedOf(entries[1..])
  }

  lemma {:induction false} SplitAtNul(a: string, b: string)
    requires NUL !in a
    ensures Records(a + [NUL] + b) == [a] + Records(b)
  {
    SplitAt(a, b, NUL);
    Unsplit(a, NUL);
  }

  lemma {:induction false} RecordIsRead(e: Entry, tail: seq<string>)
    requires IsEntry(e)
    ensures Collect([Record(e)] + (if Renames(e) then [e.change.original.value] else []) + tail)
            == Joined(Status(if e.Tracked? then [e.change] else [], if e.Untracked? then [e.path] else []),
                      Collect(tail))
  {
    var records := [Record(e)] + (if Renames(e) then [e.change.original.value] else []) + tail;
    assert Record(e)[2] == ' ';
    JoinedTwice(Status([], []), Status([], []), Collect(tail));
    match e
    case Untracked(path) =>
      assert Record(e)[..2] == "??" && Record(e)[3..] == path && records[1..] == tail;
    case Ignored(path) =>
      assert Record(e)[..2] == "!!" && Record(e)[3..] == path && records[1..] == tail;
    case Tracked(c) =>
      assert Record(e)[..2] == c.code && Record(e)[3..] == c.path;
      if Renames(e) {
        assert records[1] == c.original.value && records[2..] == tail;
      } else {
        assert records[1..] == tail;
      }
  }

  /** One printed entry is read back, and nothing of what follows it. */
  lemma {:induction false} EntryIsRead(e: Entry, rest: string)
    requires IsEntry(e)
    ensures Collect(Records(PrintEntry(e) + rest))
            == Joined(Status(if e.Tracked? then [e.change] else [], if e.Untracked? then [e.path] else []),
                      Collect(Records(rest)))
  {
    hide Collect, Split, Records;
    assert NUL !in Record(e);
    RecordIsRead(e, Records(rest));
    if Renames(e) {
      var original := e.change.original.value;
      assert PrintEntry(e) + rest == Record(e) + [NUL] + (original + [NUL] + rest);
      SplitAtNul(Record(e), original + [NUL] + rest);
      SplitAtNul(original, rest);
      assert [Record(e)] + [original] + Records(rest) == [Record(e)] + ([original] + Records(rest));
    } else {
      assert PrintEntry(e) + rest == Record(e) + [NUL] + rest;
      SplitAtNul(Record(e), rest);
      assert [Record(e)] + [] + Records(rest) == [Record(e)] + Records(rest);
    }
  }

  lemma {:induction false} PrintedIsRead(entries: seq<Entry>)
    requires forall e | e in entries :: IsEntry(e)
    ensures Collect(Records(Print(entries))) == Some(Status(TrackedOf(entries), UntrackedOf(entries)))
  {
    if entries != [] {
      EntryIsRead(entries[0], Print(entries[1..]));
      PrintedIsRead(entries[1..]);
    } else {
      assert Records("")[1..] == [];
    }
  }

  /**
   Whatever the paths contain, parsing the printed list gives back its tracked changes with their
   original paths, sorted by path, and its untracked paths, each once and sorted.
   */
  lemma {:induction false} PorcelainRoundTrip(entries: seq<Entry>, le: Order<string>)
    requires (forall e | e in entries :: IsEntry(e)) && TotalPreorder(le)
    ensures var read := Collect(Records(Print(entries)));
            && read.Some?
            && var status := Arranged(read.value, le);
            && multiset(status.tracked) == multiset(TrackedOf(entries)) && Sorted(status.tracked, ByPath(le))
            && (forall p :: p in status.untracked <==> Untracked(p) in entries)
            && Sorted(status.untracked, UnitsLe) && Distinct(status.untracked)
  {
    PrintedIsRead(entries);
    var tracked, untracked := TrackedOf(entries), UntrackedOf(entries);
    ByPathIsPreorder(le);
    SortKeeps(tracked, ByPath(le));
    SortSorts(tracked, ByPath(le));
    UnitsArePreorder();
    SortSorts(Deduplicated(untracked), UnitsLe);
    SameMembers(Deduplicated(untracked), UnitsLe);
    DistinctKeeps(untracked);
    UntrackedMembers(entries);
    SortKeepsDistinct(Deduplicated(untracked), UnitsLe);
  }

  lemma {:induction false} ByPathIsPreorder(le: Order<string>)
    requires TotalPreorder(le)
    ensures TotalPreorder(ByPath(le))
  {
    forall a: Change, b: Change ensures ByPath(le)(a, b) || ByPath(le)(b, a) {
      assert le(a.path, b.path) || le(b.path, a.path);
    }
    forall a: Change, b: Change, c: Change | ByPath(le)(a, b) && ByPath(le)(b, c) ensures ByPath(le)(a, c) {
      assert le(a.path, b.path) && le(b.path, c.path);
    }
  }

  lemma {:induction false} UntrackedMembers(entries: seq<Entry>)
    ensures forall p :: p in UntrackedOf(entries) <==> Untracked(p) in entries
  {
    if entries != [] {
      UntrackedMembers(entries[1..]);
      assert entries == [entries[0]] + entries[1..];
    }
  }
}
