/**
 The file system seen by the input reconciliation of `src/cli-ship-setup.ts`:
 absolute paths, symbolic links, and the operations that create entries.
 */
module WorktreeFiles {
  import opened Wrappers
  import opened Paths

  /** A link is given by the absolute path it names. */
  datatype Node = Directory | File(bytes: seq<int>) | Link(destination: Path)

  type Files = map<Path, Node>

  /** Links followed before the system gives up. */
  const MAX_LINKS: nat := 40

  ghost predicate WellFormed(fs: Files) {
    && [] in fs && fs[[]].Directory?
    && forall p | p in fs && p != [] :: Parent(p) in fs && fs[Parent(p)].Directory?
  }

  // ----- Resolution

  /** `realpath`, following at most `n` links in a row. */
  function RealWithin(fs: Files, p: Path, n: nat): Option<Path>
    decreases n, |p|
  {
    if p == [] then Some([])
    else match RealWithin(fs, Parent(p), n)
      case None => None
      case Some(d) => FollowEntry(fs, d + [Last(p)], n)
  }

  function FollowEntry(fs: Files, q: Path, n: nat): Option<Path>
    decreases n, 0
  {
    if q !in fs then None
    else if fs[q].Link? then if n == 0 then None else RealWithin(fs, fs[q].destination, n - 1)
    else Some(q)
  }

  function Real(fs: Files, p: Path): Option<Path> {
    RealWithin(fs, p, MAX_LINKS)
  }

  predicate Exists(fs: Files, p: Path) {
    Real(fs, p).Some?
  }

  /** Where the entry named `p` is, or would be: only the directories on the way are followed. */
  function Entry(fs: Files, p: Path): Option<Path> {
    if p == [] then Some([])
    else match Real(fs, Parent(p))
      case None => None
      case Some(d) => Some(d + [Last(p)])
  }

  /** `lstat` succeeds: the entry itself, whatever a link leads to. */
  predicate EntryExists(fs: Files, p: Path) {
    p == [] || (Entry(fs, p).Some? && Entry(fs, p).value in fs)
  }

  predicate IsLink(fs: Files, p: Path) {
    p != [] && EntryExists(fs, p) && fs[Entry(fs, p).value].Link?
  }

  lemma {:induction false} RealIsEntry(fs: Files, p: Path, n: nat)
    requires WellFormed(fs)
    ensures RealWithin(fs, p, n).Some? ==> RealWithin(fs, p, n).value in fs && !fs[RealWithin(fs, p, n).value].Link?
    decreases n, |p|
  {
    if p != [] && RealWithin(fs, Parent(p), n).Some? {
      var q := RealWithin(fs, Parent(p), n).value + [Last(p)];
      if q in fs && fs[q].Link? && n > 0 {
        RealIsEntry(fs, fs[q].destination, n - 1);
      }
    }
  }

  /** Without links on the way, a path is its own real path. */
  lemma {:induction false} PhysicalIsReal(fs: Files, p: Path, n: nat)
    requires WellFormed(fs) && p in fs && !fs[p].Link?
    ensures RealWithin(fs, p, n) == Some(p)
    decreases |p|
  {
    if p != [] {
      PhysicalIsReal(fs, Parent(p), n);
      assert Parent(p) + [Last(p)] == p;
    }
  }

  lemma {:induction false} TopIsReal(fs: Files, n: nat)
    ensures RealWithin(fs, [], n) == Some([])
  {
  }

  lemma {:induction false} StepInto(fs: Files, d: Path, name: string, n: nat)
    requires RealWithin(fs, d, n) == Some(d) && d + [name] in fs && !fs[d + [name]].Link?
    ensures RealWithin(fs, d + [name], n) == Some(d + [name])
  {
    assert Parent(d + [name]) == d;
  }

  /** A link is followed. */
  lemma {:induction false} StepOver(fs: Files, p: Path, d: Path, name: string, x: Path, n: nat)
    requires n > 0 && RealWithin(fs, p, n) == Some(d) && d + [name] in fs && fs[d + [name]].Link?
    requires RealWithin(fs, fs[d + [name]].destination, n - 1) == Some(x)
    ensures RealWithin(fs, p + [name], n) == Some(x)
  {
    assert Parent(p + [name]) == p;
  }

  lemma {:induction false} ExistsIsEntry(fs: Files, p: Path)
    requires WellFormed(fs) && Exists(fs, p)
    ensures EntryExists(fs, p)
  {
    RealIsEntry(fs, p, MAX_LINKS);
    if p != [] {
      assert Real(fs, Parent(p)).Some?;
      assert Real(fs, p) == FollowEntry(fs, Entry(fs, p).value, MAX_LINKS);
    }
  }

  // ----- Growth

  /** New entries only, all of them below `root`. */
  ghost predicate Grows(before: Files, after: Files, root: Path) {
    && (forall p | p in before :: p in after && after[p] == before[p])
    && (forall p | p in after && p !in before :: root <= p)
  }

  lemma {:induction false} RealIsStable(before: Files, after: Files, root: Path, p: Path, n: nat)
    requires Grows(before, after, root) && RealWithin(before, p, n).Some?
    ensures RealWithin(after, p, n) == RealWithin(before, p, n)
    decreases n, |p|
  {
    if p != [] {
      RealIsStable(before, after, root, Parent(p), n);
      var q := RealWithin(before, Parent(p), n).value + [Last(p)];
      if before[q].Link? {
        RealIsStable(before, after, root, before[q].destination, n - 1);
      }
    }
  }

  lemma {:induction false} EntriesAreStable(before: Files, after: Files, root: Path, p: Path)
    requires Grows(before, after, root) && EntryExists(before, p)
    ensures EntryExists(after, p) && Entry(after, p) == Entry(before, p)
  {
    if p != [] { RealIsStable(before, after, root, Parent(p), MAX_LINKS); }
  }

  /** A new entry in an existing directory. */
  lemma {:induction false} AddEntry(fs: Files, p: Path, node: Node, root: Path)
    requires WellFormed(fs) && p != [] && Real(fs, Parent(p)).Some?
    requires var d := Real(fs, Parent(p)).value; d in fs && fs[d].Directory? && d + [Last(p)] !in fs && root <= d
    ensures var q := Real(fs, Parent(p)).value + [Last(p)];
            && WellFormed(fs[q := node]) && Grows(fs, fs[q := node], root) && EntryExists(fs[q := node], p)
            && (!node.Link? ==> Real(fs[q := node], p) == Some(q))
  {
    var d := Real(fs, Parent(p)).value;
    var q := d + [Last(p)];
    var after := fs[q := node];
    assert Parent(q) == d;
    forall r | r in after && r != [] ensures Parent(r) in after && after[Parent(r)].Directory? {
      if r != q { assert Parent(r) in fs; }
    }
    assert root <= q;
    RealIsStable(fs, after, root, Parent(p), MAX_LINKS);
    assert Real(after, p) == FollowEntry(after, q, MAX_LINKS);
  }

  // ----- Trees

  ghost predicate LinkFree(fs: Files, root: Path) {
    root in fs && forall p | p in fs && root <= p :: !fs[p].Link?
  }

  lemma {:induction false} AncestorExists(fs: Files, p: Path, q: Path)
    requires WellFormed(fs) && q in fs && p <= q
    ensures p in fs && (p != q ==> fs[p].Directory?)
    decreases |q|
  {
    if p != q {
      assert p <= Parent(q);
      AncestorExists(fs, p, Parent(q));
    }
  }

  lemma {:induction false} InsideLinkFree(fs: Files, root: Path, p: Path)
    requires WellFormed(fs) && LinkFree(fs, root) && root <= p && Real(fs, p).Some?
    ensures Real(fs, p) == Some(p) && p in fs
    decreases |p|
  {
    if p == root {
      PhysicalIsReal(fs, root, MAX_LINKS);
    } else {
      assert root <= Parent(p);
      InsideLinkFree(fs, root, Parent(p));
      assert Parent(p) + [Last(p)] == p;
      assert Real(fs, p) == FollowEntry(fs, p, MAX_LINKS);
      assert p in fs && !fs[p].Link?;
    }
  }

  lemma {:induction false} FileIsReal(fs: Files, p: Path, q: Path)
    requires Entry(fs, p) == Some(q) && q in fs && fs[q].File? && WellFormed(fs)
    ensures Real(fs, p) == Some(q)
  {
    if p != [] {
      assert Real(fs, p) == FollowEntry(fs, q, MAX_LINKS);
    }
  }

  /** On the way to what a path resolves to there are directories. */
  lemma {:induction false} AncestorResolves(fs: Files, p: Path, k: nat)
    requires WellFormed(fs) && Exists(fs, p) && k <= |p|
    ensures Exists(fs, p[..k]) && Real(fs, p[..k]).value in fs
    ensures k < |p| ==> fs[Real(fs, p[..k]).value].Directory?
    decreases |p|
  {
    RealIsEntry(fs, p, MAX_LINKS);
    if k < |p| {
      AncestorResolves(fs, Parent(p), k);
      assert Parent(p)[..k] == p[..k];
      if k == |p| - 1 {
        var d := Real(fs, Parent(p)).value;
        assert d + [Last(p)] in fs && Parent(d + [Last(p)]) == d;
      }
    } else {
      assert p[..k] == p;
    }
  }

  /** Where resolving `p` breaks off, growth below `root` adds nothing. */
  ghost predicate BreaksOff(fs: Files, p: Path, root: Path, n: nat)
    decreases n, |p|
  {
    p != [] &&
    match RealWithin(fs, Parent(p), n)
    case None => BreaksOff(fs, Parent(p), root, n)
    case Some(d) =>
      var q := d + [Last(p)];
      if q !in fs then !(root <= q) else fs[q].Link? && (n > 0 ==> BreaksOff(fs, fs[q].destination, root, n - 1))
  }

  lemma {:induction false} MissingIsStable(before: Files, after: Files, root: Path, p: Path, n: nat)
    requires Grows(before, after, root) && BreaksOff(before, p, root, n)
    ensures RealWithin(after, p, n).None? && BreaksOff(after, p, root, n)
    decreases n, |p|
  {
    if RealWithin(before, Parent(p), n).None? {
      MissingIsStable(before, after, root, Parent(p), n);
    } else {
      RealIsStable(before, after, root, Parent(p), n);
      var q := RealWithin(before, Parent(p), n).value + [Last(p)];
      if q in before && n > 0 { MissingIsStable(before, after, root, before[q].destination, n - 1); }
    }
  }

  // ----- Where a name is, or would be

  /** `realpath` that lets names be missing: where `p` is, or would be created. It depends on the links only. */
  ghost function PlaceWithin(fs: Files, p: Path, n: nat): Option<Path>
    decreases n, |p|, 1
  {
    if p == [] then Some([])
    else match PlaceWithin(fs, Parent(p), n)
      case None => None
      case Some(d) =>
        var q := d + [Last(p)];
        if q in fs && fs[q].Link? then if n == 0 then None else PlaceWithin(fs, fs[q].destination, n - 1)
        else Some(q)
  }

  ghost function Place(fs: Files, p: Path): Option<Path> {
    PlaceWithin(fs, p, MAX_LINKS)
  }

  lemma {:induction false} RealIsPlace(fs: Files, p: Path, n: nat)
    requires RealWithin(fs, p, n).Some?
    ensures PlaceWithin(fs, p, n) == RealWithin(fs, p, n)
    decreases n, |p|
  {
    if p != [] {
      RealIsPlace(fs, Parent(p), n);
      var q := RealWithin(fs, Parent(p), n).value + [Last(p)];
      if fs[q].Link? { RealIsPlace(fs, fs[q].destination, n - 1); }
    }
  }

  /** A place that is taken is a real path. */
  lemma {:induction false} PlaceIsReal(fs: Files, p: Path, n: nat)
    requires WellFormed(fs) && PlaceWithin(fs, p, n).Some? && PlaceWithin(fs, p, n).value in fs
    ensures RealWithin(fs, p, n) == PlaceWithin(fs, p, n)
    decreases n, |p|
  {
    if p != [] {
      var d := PlaceWithin(fs, Parent(p), n).value;
      var q := d + [Last(p)];
      hide WellFormed;
      if q in fs {
        DirectoryOf(fs, d, Last(p));
        PlaceIsReal(fs, Parent(p), n);
        if fs[q].Link? { PlaceIsReal(fs, fs[q].destination, n - 1); }
      }
    }
  }

  lemma {:induction false} DirectoryOf(fs: Files, d: Path, name: string)
    requires WellFormed(fs) && d + [name] in fs
    ensures d in fs
  {
    assert Parent(d + [name]) == d;
  }

  lemma {:induction false} PlaceIsStable(before: Files, after: Files, root: Path, p: Path, n: nat)
    requires Grows(before, after, root) && forall q | q in after && q !in before :: !after[q].Link?
    ensures PlaceWithin(after, p, n) == PlaceWithin(before, p, n)
    decreases n, |p|
  {
    if p != [] {
      PlaceIsStable(before, after, root, Parent(p), n);
      if PlaceWithin(before, Parent(p), n).Some? {
        var q := PlaceWithin(before, Parent(p), n).value + [Last(p)];
        if q in before && before[q].Link? && n > 0 { PlaceIsStable(before, after, root, before[q].destination, n - 1); }
      }
    }
  }

  // ----- Plain entries

  /** An entry without links in or below it, reached through directories above it. */
  ghost predicate Plain(fs: Files, p: Path, ancestors: set<Path>) {
    LinkFree(fs, p) && forall a | a in ancestors :: |a| < |p|
  }

  lemma {:induction false} PlainIsReal(fs: Files, p: Path, ancestors: set<Path>)
    requires WellFormed(fs) && Plain(fs, p, ancestors)
    ensures Real(fs, p) == Some(p) && !IsLink(fs, p) && p !in ancestors
  {
    hide RealWithin;
    PhysicalIsReal(fs, p, MAX_LINKS);
    if p != [] {
      PhysicalIsReal(fs, Parent(p), MAX_LINKS);
      hide WellFormed;
      assert Parent(p) + [Last(p)] == p;
      assert Entry(fs, p) == Some(p);
    }
  }

  lemma {:induction false} PlainChild(fs: Files, p: Path, name: string, ancestors: set<Path>)
    requires Plain(fs, p, ancestors - {p}) && p + [name] in fs
    ensures Plain(fs, p + [name], ancestors)
  {
    forall q | q in fs && p + [name] <= q ensures !fs[q].Link? {
      assert p <= q;
    }
  }

  /** Everything below a directory is at or below one of its entries. */
  lemma {:induction false} BelowAnEntry(fs: Files, p: Path, q: Path)
    requires WellFormed(fs) && p < q && q in fs
    ensures q[|p|] in Names(fs, p) && p + [q[|p|]] <= q
  {
    hide RealWithin;
    AncestorExists(fs, p + [q[|p|]], q);
  }
}
