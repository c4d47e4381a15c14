/**
 `gradeInventoryPaths` and `createLandOutputCapture` of `src/cli-land.ts`: what a worktree
 still holds, before it may be removed.
 */
module LandInventory {
  import opened Wrappers
  import opened Sequences

  datatype Origin = FromUntracked | FromIgnored

  datatype Kind = File | Directory | Symlink | Other | Missing

  datatype Grade = Source | DataOrState | Link | Unknown | BuildOutput | InstalledDependency

  datatype Item = Item(origin: Origin, path: string)

  /**
   What the file system and the path patterns say of an item: its kind if it can be read, where
   its link leads if that can be read, and where among its `depth` parts a dependency root is.
   */
  datatype Facts = Facts(inProject: bool, kind: Option<Kind>, link: Option<string>, dataOrState: bool, sourceLike: bool,
                         dependencyRoot: Option<nat>, depth: nat, buildOutput: bool)

  datatype Listed = Listed(item: Item, grade: Grade, kind: Kind, link: Option<string>)

  datatype Tally = Tally(untracked: nat, ignored: nat)

  datatype Inventory = Inventory(enumerated: seq<Listed>, builds: nat, buildOrigins: Tally,
                                 dependencies: nat, dependencyOrigins: Tally,
                                 grades: map<Grade, nat>, raw: Tally)

  function Add(t: Tally, o: Origin): Tally {
    if o.FromUntracked? then t.(untracked := t.untracked + 1) else t.(ignored := t.ignored + 1)
  }

  function Of(t: Tally, o: Origin): nat {
    if o.FromUntracked? then t.untracked else t.ignored
  }

  function AddGrade(grades: map<Grade, nat>, g: Grade): map<Grade, nat> {
    grades[g := (if g in grades then grades[g] else 0) + 1]
  }

  // ----- What each item is

  ghost predicate Unreadable(f: Facts) {
    !f.inProject || f.kind.None? || (f.kind == Some(Symlink) && f.link.None?)
  }

  /**
   Only material that can be made again may go uncounted by name: readable, no link, not data, and
   in a dependency root or a proven build output.
   */
  ghost predicate Regenerable(i: Item, f: Facts) {
    && !Unreadable(f) && f.kind != Some(Symlink) && !f.dataOrState
    && (if f.dependencyRoot.Some? then !(f.sourceLike
                                         && (i.origin.FromUntracked? || f.dependencyRoot.value == f.depth - 2))
        else f.buildOutput)
  }

  ghost function Entry(i: Item, f: Facts): Listed {
    if !f.inProject || f.kind.None? then Listed(i, Unknown, Missing, None)
    else if f.kind == Some(Symlink) then if f.link.Some? then Listed(i, Link, Symlink, f.link)
              else Listed(i, Unknown, Symlink, None)
    else Listed(i, if f.dataOrState then DataOrState else if f.sourceLike then Source else Unknown, f.kind.value, None)
  }

  // ----- Counting

  ghost function Listing(paths: seq<Item>, facts: Item -> Facts): seq<Listed> {
    if paths == [] then []
    else
      var i := paths[|paths| - 1];
      Listing(paths[..|paths| - 1], facts) + if Regenerable(i, facts(i)) then [] else [Entry(i, facts(i))]
  }

  ghost function ItemFrom(o: Origin): Item -> bool {
    (i: Item) => i.origin == o
  }

  ghost function ListedFrom(o: Origin): Listed -> bool {
    (l: Listed) => l.item.origin == o
  }

  ghost function GradedAs(g: Grade): Listed -> bool {
    (l: Listed) => l.grade == g
  }

  function GradeCount(inventory: Inventory, g: Grade): nat {
    if g in inventory.grades then inventory.grades[g] else 0
  }

  /** Every path of an origin is in the inventory once: listed by name, or in one regenerable count. */
  ghost predicate OriginConserved(paths: seq<Item>, inventory: Inventory, o: Origin) {
    && Of(inventory.raw, o) == Count(paths, ItemFrom(o))
    && Of(inventory.raw, o) == Count(inventory.enumerated, ListedFrom(o)) + Of(inventory.buildOrigins, o)
       + Of(inventory.dependencyOrigins, o)
  }

  ghost predicate GradeConserved(inventory: Inventory, g: Grade) {
    GradeCount(inventory, g) ==
      match g
      case BuildOutput => inventory.builds
      case InstalledDependency => inventory.dependencies
      case _ => Count(inventory.enumerated, GradedAs(g))
  }

  ghost predicate Conserves(paths: seq<Item>, inventory: Inventory) {
    && (forall o: Origin :: OriginConserved(paths, inventory, o))
    && (forall g: Grade :: GradeConserved(inventory, g))
    && inventory.builds == Of(inventory.buildOrigins, FromUntracked) + Of(inventory.buildOrigins, FromIgnored)
    && inventory.dependencies == Of(inventory.dependencyOrigins, FromUntracked)
       + Of(inventory.dependencyOrigins, FromIgnored)
  }

  const EMPTY := Inventory([], 0, Tally(0, 0), 0, Tally(0, 0), map[], Tally(0, 0))

  function Named(inventory: Inventory, l: Listed): Inventory {
    inventory.(enumerated := inventory.enumerated + [l], grades := AddGrade(inventory.grades, l.grade),
               raw := Add(inventory.raw, l.item.origin))
  }

  function Built(inventory: Inventory, o: Origin): Inventory {
    inventory.(builds := inventory.builds + 1, buildOrigins := Add(inventory.buildOrigins, o),
               grades := AddGrade(inventory.grades, BuildOutput), raw := Add(inventory.raw, o))
  }

  function Installed(inventory: Inventory, o: Origin): Inventory {
    inventory.(dependencies := inventory.dependencies + 1, dependencyOrigins := Add(inventory.dependencyOrigins, o),
               grades := AddGrade(inventory.grades, InstalledDependency), raw := Add(inventory.raw, o))
  }

  lemma {:induction false} OneMorePath(paths: seq<Item>, i: Item, inventory: Inventory, l: Listed)
    requires Conserves(paths, inventory) && l.item == i && l.grade != BuildOutput && l.grade != InstalledDependency
    ensures Conserves(paths + [i], Named(inventory, l))
    ensures Conserves(paths + [i], Built(inventory, i.origin))
    ensures Conserves(paths + [i], Installed(inventory, i.origin))
  {
    hide Count;
    forall o: Origin
      ensures OriginConserved(paths + [i], Named(inventory, l), o)
      ensures OriginConserved(paths + [i], Built(inventory, i.origin), o)
      ensures OriginConserved(paths + [i], Installed(inventory, i.origin), o)
    {
      assert OriginConserved(paths, inventory, o);
      CountOfOneMore(paths, i, ItemFrom(o));
      CountOfOneMore(inventory.enumerated, l, ListedFrom(o));
    }
    hide OriginConserved;
    forall g: Grade
      ensures GradeConserved(Named(inventory, l), g)
      ensures GradeConserved(Built(inventory, i.origin), g)
      ensures GradeConserved(Installed(inventory, i.origin), g)
    {
      assert GradeConserved(inventory, g);
      CountOfOneMore(inventory.enumerated, l, GradedAs(g));
    }
  }

  function ByPathThenOrigin(le: Order<string>): Order<Listed> {
    (a: Listed, b: Listed) =>
      if le(a.item.path, b.item.path) && le(b.item.path, a.item.path) then a.item.origin == b.item.origin
           || a.item.origin.FromIgnored?
      else le(a.item.path, b.item.path)
  }

  /** One item: where it goes, and whether its inspection is incomplete. */
  method GradePath(i: Item, f: Facts, inventory: Inventory) returns (next: Inventory, issue: bool)
    ensures issue <==> Unreadable(f)
    ensures if Regenerable(i, f) then next == Built(inventory, i.origin) || next == Installed(inventory, i.origin)
            else next == Named(inventory, Entry(i, f))
    ensures next.enumerated == inventory.enumerated + if Regenerable(i, f) then [] else [Entry(i, f)]
    ensures Regenerable(i, f) && f.dependencyRoot.None? ==> next == Built(inventory, i.origin)
    ensures Regenerable(i, f) && f.dependencyRoot.Some? ==> next == Installed(inventory, i.origin)
  {
    if !f.inProject || f.kind.None? {
      return Named(inventory, Listed(i, Unknown, Missing, None)), true;
    }
    var kind := f.kind.value;
    if kind == Symlink {
      if f.link.Some? { return Named(inventory, Listed(i, Link, kind, f.link)), false; }
      return Named(inventory, Listed(i, Unknown, kind, None)), true;
    }
    if f.dataOrState {
      return Named(inventory, Listed(i, DataOrState, kind, None)), false;
    }
    var inDependency := f.dependencyRoot.Some?;
    var directlyUnder := (if inDependency then f.dependencyRoot.value else -1) == f.depth - 2;
    if inDependency && f.sourceLike && (i.origin.FromUntracked? || directlyUnder) {
      return Named(inventory, Listed(i, Source, kind, None)), false;
    }
    if inDependency {
      return Installed(inventory, i.origin), false;
    }
    if f.buildOutput {
      return Built(inventory, i.origin), false;
    }
    return Named(inventory, Listed(i, if f.sourceLike then Source else Unknown, kind, None)), false;
  }

  method GradeInventoryPaths(paths: seq<Item>, facts: Item -> Facts, le: Order<string>)
    returns (inventory: Inventory, issues: seq<Item>)
    ensures Conserves(paths, inventory)
    ensures inventory.enumerated == Sort(Listing(paths, facts), ByPathThenOrigin(le))
    ensures forall i :: i in issues <==> i in paths && Unreadable(facts(i))
  {
    hide Regenerable, Unreadable, Entry, ByPathThenOrigin, Sort, Conserves, Named, Built, Installed, Listing;
    inventory, issues := EMPTY, [];
    NothingCounted();
    ListingGrows(paths, 0, facts);
    for n := 0 to |paths|
      invariant Conserves(paths[..n], inventory)
      invariant inventory.enumerated == Listing(paths[..n], facts)
      invariant forall i :: i in issues <==> i in paths[..n] && Unreadable(facts(i))
    {
      var i := paths[n];
      ghost var before := inventory;
      var incomplete;
      inventory, incomplete := GradePath(i, facts(i), inventory);
      if incomplete { issues := issues + [i]; }
      assert paths[..n + 1] == paths[..n] + [i];
      ListingGrows(paths, n, facts);
      EntryIsListed(i, facts(i));
      OneMorePath(paths[..n], i, before, Entry(i, facts(i)));
    }
    assert paths[..|paths|] == paths;
    SortedConserves(paths, inventory, ByPathThenOrigin(le));
    inventory := inventory.(enumerated := Sort(inventory.enumerated, ByPathThenOrigin(le)));
  }

  lemma {:induction false} ListingGrows(paths: seq<Item>, n: nat, facts: Item -> Facts)
    requires n <= |paths|
    ensures Listing(paths[..0], facts) == []
    ensures n < |paths| ==>
              Listing(paths[..n + 1], facts) ==
                Listing(paths[..n], facts) + if Regenerable(paths[n], facts(paths[n])) then []
                  else [Entry(paths[n], facts(paths[n]))]
  {
    if n < |paths| { assert paths[..n + 1][..n] == paths[..n]; }
  }

  lemma {:induction false} EntryIsListed(i: Item, f: Facts)
    ensures Entry(i, f).item == i && Entry(i, f).grade != BuildOutput && Entry(i, f).grade != InstalledDependency
  {
  }

  lemma {:induction false} NothingCounted()
    ensures Conserves([], EMPTY)
  {
    forall o: Origin ensures OriginConserved([], EMPTY, o) {
    }
  }

  lemma {:induction false} SortedConserves(paths: seq<Item>, inventory: Inventory, le: Order<Listed>)
    requires Conserves(paths, inventory)
    ensures Conserves(paths, inventory.(enumerated := Sort(inventory.enumerated, le)))
  {
    hide Count, Sort;
    var sorted := inventory.(enumerated := Sort(inventory.enumerated, le));
    forall o: Origin ensures OriginConserved(paths, sorted, o) {
      assert OriginConserved(paths, inventory, o);
      CountOfSort(inventory.enumerated, le, ListedFrom(o));
    }
    forall g: Grade ensures GradeConserved(sorted, g) {
      assert GradeConserved(inventory, g);
      CountOfSort(inventory.enumerated, le, GradedAs(g));
    }
  }

  /** Nothing from `o` is listed exactly when every path from there is regenerable. */
  lemma {:induction false} UnlistedIsRegenerable(paths: seq<Item>, facts: Item -> Facts, o: Origin)
    ensures Count(Listing(paths, facts), ListedFrom(o)) == 0 <==>
              forall i | i in paths && i.origin == o :: Regenerable(i, facts(i))
  {
    if paths != [] {
      var rest, i := paths[..|paths| - 1], paths[|paths| - 1];
      UnlistedIsRegenerable(rest, facts, o);
      assert paths == rest + [i];
      hide Count, Regenerable;
      EntryIsListed(i, facts(i));
      CountOfOneMore(Listing(rest, facts), Entry(i, facts(i)), ListedFrom(o));
      assert Listing(rest, facts) + [] == Listing(rest, facts);
      assert forall x :: x in paths <==> x in rest || x == i;
    }
  }

  ghost function IsRegenerable(facts: Item -> Facts): Item -> bool {
    (i: Item) => Regenerable(i, facts(i))
  }

  lemma {:induction false} ListedOrRegenerable(paths: seq<Item>, facts: Item -> Facts)
    ensures |Listing(paths, facts)| + Count(paths, IsRegenerable(facts)) == |paths|
  {
    if paths != [] {
      var rest, i := paths[..|paths| - 1], paths[|paths| - 1];
      ListedOrRegenerable(rest, facts);
      assert paths == rest + [i];
      CountOfOneMore(rest, i, IsRegenerable(facts));
    }
  }

  /** The two counts together are the number of regenerable paths. */
  lemma {:induction false} EverythingIsCounted(paths: seq<Item>, facts: Item -> Facts, inventory: Inventory,
                                               le: Order<string>)
    requires Conserves(paths, inventory)
    requires inventory.enumerated == Sort(Listing(paths, facts), ByPathThenOrigin(le))
    ensures inventory.builds + inventory.dependencies == Count(paths, IsRegenerable(facts))
  {
    hide Count, Sort, Listing;
    ListedOrRegenerable(paths, facts);
    SameMembers(Listing(paths, facts), ByPathThenOrigin(le));
    CountOfTwo(paths, ItemFrom(FromUntracked), ItemFrom(FromIgnored));
    CountOfTwo(inventory.enumerated, ListedFrom(FromUntracked), ListedFrom(FromIgnored));
    assert OriginConserved(paths, inventory, FromUntracked) && OriginConserved(paths, inventory, FromIgnored);
  }

  // ----- Command output

  type Bytes = seq<int>

  function Flat(chunks: seq<Bytes>): Bytes {
    if chunks == [] then [] else Flat(chunks[..|chunks| - 1]) + chunks[|chunks| - 1]
  }

  class OutputCapture {
    const maximum: nat
    var chunks: seq<Bytes>
    var length: nat
    var complete: bool
    /** Everything the command has written. */
    ghost var written: Bytes

    constructor (maximum: nat)
      requires maximum > 0
      ensures Valid() && written == [] && this.maximum == maximum
    {
      this.maximum := maximum;
      chunks, length, complete, written := [], 0, true, [];
    }

    ghost predicate Valid()
      reads this
    {
      && (complete <==> |written| <= maximum)
      && (complete ==> Flat(chunks) == written && length == |written|)
    }

    method Append(chunk: Bytes)
      requires Valid()
      modifies this
      ensures Valid() && written == old(written) + chunk
    {
      written := written + chunk;
      if !complete { return; }
      if length + |chunk| > maximum {
        complete, chunks, length := false, [], 0;
        return;
      }
      assert (chunks + [chunk])[..|chunks|] == chunks;
      chunks, length := chunks + [chunk], length + |chunk|;
    }

    /** The whole output, or nothing and a mark that it was too long: never a part of it. */
    method Finish() returns (value: Bytes, whole: bool)
      requires Valid()
      ensures whole <==> |written| <= maximum
      ensures value == if whole then written else []
    {
      whole := complete;
      value := if complete then Flat(chunks) else [];
    }
  }
}
