/**
 `reconcileInputs` of `src/cli-ship-setup.ts`: declared inputs of a project are
 mirrored into a worktree that may already hold entries of its own.

 A path below is relative, and stands for two places: in the project, and in the
 target. Every entry is taken to be readable.
 */
module InputReconciliation {
  import opened Wrappers
  import opened Paths
  import opened WorktreeFiles
  import opened RelativeLinks

  /** `onlyOnBase`: Git materializes it; `escapes`: its path leaves the project. */
  datatype Input = Input(path: Path, onlyOnBase: bool, escapes: bool)

  /** An entry created in the target: its path, and the physical place it got. */
  datatype Made = Copied(path: Path, place: Path) | Linked(path: Path, place: Path, input: Path)

  function CopiedPaths(made: seq<Made>): seq<Path> {
    if made == [] then []
    else CopiedPaths(made[..|made| - 1]) + if made[|made| - 1].Copied? then [made[|made| - 1].path] else []
  }

  function LinkedPaths(made: seq<Made>): seq<Path> {
    if made == [] then []
    else LinkedPaths(made[..|made| - 1]) + if made[|made| - 1].Linked? then [made[|made| - 1].path] else []
  }

  ghost predicate OnlyCopies(made: seq<Made>) {
    forall m | m in made :: m.Copied?
  }

  ghost predicate Apart(a: Path, b: Path) {
    !(a <= b) && !(b <= a)
  }

  lemma {:induction false} PrefixesOfOne(a: Path, b: Path, p: Path)
    requires a <= p && b <= p
    ensures a <= b || b <= a
  {
    assert a == p[..|a|] && b == p[..|b|];
  }

  /** Canonical directories at or below `root`. */
  function Directories(fs: Files, root: Path): set<Path> {
    set d | d in fs.Keys && root <= d && fs[d].Directory?
  }

  lemma {:induction false} ApartIsUntouched(before: Files, after: Files, root: Path, target: Path)
    requires Grows(before, after, target) && Apart(root, target)
    ensures forall p | root <= p :: p in after <==> p in before
    ensures Directories(after, root) == Directories(before, root)
  {
  }

  lemma {:induction false} LengthBound(paths: set<Path>) returns (n: nat)
    ensures forall p | p in paths :: |p| < n
  {
    n := 0;
    if paths != {} {
      var p :| p in paths;
      n := LengthBound(paths - {p});
      if |p| >= n { n := |p| + 1; }
    }
  }

  class Reconciliation {
    const projectDir: Path
    const targetDir: Path
    const targetCanonical: Path
    var fs: Files
    var links: seq<Path>
    var copies: seq<Path>
    var blockers: seq<Path>
    /** Every file and link created so far. */
    ghost var made: seq<Made>

    constructor (fs: Files, projectDir: Path, targetDir: Path)
      requires WellFormed(fs) && Exists(fs, targetDir)
      ensures Valid() && this.fs == fs && this.projectDir == projectDir && this.targetDir == targetDir
      ensures made == [] && blockers == []
    {
      this.fs, this.projectDir, this.targetDir := fs, projectDir, targetDir;
      this.targetCanonical := Real(fs, targetDir).value;
      links, copies, blockers, made := [], [], [], [];
    }

    ghost predicate Valid()
      reads this
    {
      && WellFormed(fs) && Real(fs, targetDir) == Some(targetCanonical)
      && copies == CopiedPaths(made) && links == LinkedPaths(made)
    }

    function Source(r: Path): Path {
      projectDir + r
    }

    function Target(r: Path): Path {
      targetDir + r
    }

    /** `r` reads in the target as it reads in the project, and the entry is the target's own. */
    ghost predicate MirroredAt(fs: Files, r: Path) {
      && Real(fs, Target(r)).Some? && Source(r) in fs
      && var x := Real(fs, Target(r)).value;
      && targetCanonical <= x && x in fs
      && if fs[Source(r)].File? then fs[x] == fs[Source(r)] else fs[x].Directory?
    }

    ghost predicate MirroredBelow(fs: Files, r: Path) {
      forall s | r <= s && Source(s) in fs :: MirroredAt(fs, s)
    }

    lemma {:induction false} MirroredAtIsStable(before: Files, after: Files, r: Path)
      requires Grows(before, after, targetCanonical) && MirroredAt(before, r)
      ensures MirroredAt(after, r)
    {
      RealIsStable(before, after, targetCanonical, Target(r), MAX_LINKS);
    }

    lemma {:induction false} MirroredIsStable(before: Files, after: Files, r: Path)
      requires Grows(before, after, targetCanonical) && Apart(Source(r), targetCanonical) && MirroredBelow(before, r)
      ensures MirroredBelow(after, r)
    {
      forall s | r <= s && Source(s) in after ensures MirroredAt(after, s) {
        assert Source(r) <= Source(s);
        ApartIsUntouched(before, after, Source(r), targetCanonical);
        MirroredAtIsStable(before, after, s);
      }
    }

    // ----- Creating entries

    method AddBlocker(r: Path)
      modifies this`blockers
      ensures blockers == old(blockers) + [r]
    {
      blockers := blockers + [r];
    }

    /** Is the nearest existing ancestor of `p` physically inside the target? */
    ghost predicate Anchored(fs: Files, p: Path) {
      if EntryExists(fs, p) || p == [] then Real(fs, p).Some? && targetCanonical <= Real(fs, p).value
      else Anchored(fs, Parent(p))
    }

    /** Can directories be made down to `p`: what exists of it ends with a directory inside the target. */
    ghost predicate CanMake(fs: Files, p: Path) {
      if EntryExists(fs, p) || p == [] then IsOwnDirectory(fs, p) else CanMake(fs, Parent(p))
    }

    /** `p` leads to a directory that is really inside the target. */
    ghost predicate IsOwnDirectory(fs: Files, p: Path) {
      Exists(fs, p) && var x := Real(fs, p).value; targetCanonical <= x && x in fs && fs[x].Directory?
    }

    /** Where its parent was there, nothing but `p` itself is new. */
    ghost predicate OnlyLast(before: Files, fs: Files, p: Path) {
      p != [] && (Exists(before, Parent(p)) ==>
        Entry(before, p).Some? && Real(fs, p) == Entry(before, p) && fs == before[Entry(before, p).value := Directory])
    }

    /** A directory just made. */
    ghost predicate IsEmptyDirectory(before: Files, fs: Files, p: Path) {
      Exists(fs, p) && Real(fs, p).value !in before && forall name :: Real(fs, p).value + [name] !in fs
    }

    /** The target is where it is named, and without links. */
    ghost predicate Unlinked(fs: Files) {
      targetDir == targetCanonical && LinkFree(fs, targetDir)
    }

    lemma {:induction false} InUnlinked(fs: Files, p: Path)
      requires WellFormed(fs) && Unlinked(fs) && targetDir <= p
      ensures Real(fs, p) == if p in fs then Some(p) else None
      ensures EntryExists(fs, p) <==> p in fs
    {
      hide RealWithin;
      InUnlinkedReal(fs, p);
      if p != [] && p != targetDir {
        InUnlinkedReal(fs, Parent(p));
        assert Parent(p) + [Last(p)] == p;
      } else if p != [] {
        PhysicalIsReal(fs, Parent(p), MAX_LINKS);
        assert Parent(p) + [Last(p)] == p;
      }
    }

    lemma {:induction false} InUnlinkedReal(fs: Files, p: Path)
      requires WellFormed(fs) && Unlinked(fs) && targetDir <= p
      ensures Real(fs, p) == if p in fs then Some(p) else None
    {
      if p in fs { PhysicalIsReal(fs, p, MAX_LINKS); }
      if Real(fs, p).Some? { InsideLinkFree(fs, targetDir, p); }
    }

    /** Nothing on the way to `p`, nor at `p`, keeps a directory from being made there. */
    ghost predicate Roomy(fs: Files, p: Path) {
      Unlinked(fs) && targetDir <= p && forall q | q <= p && q in fs :: fs[q].Directory?
    }

    /** New directories only, each at a path that leads to `p`. */
    ghost predicate OnTheWay(before: Files, after: Files, p: Path) {
      forall d | d in after && d !in before :: LeadsTo(after, d, p)
    }

    ghost predicate LeadsTo(fs: Files, d: Path, p: Path) {
      d in fs && fs[d].Directory? && exists k: nat :: k <= |p| && Real(fs, p[..k]) == Some(d)
    }

    lemma {:induction false} OnTheWayFurther(before: Files, middle: Files, after: Files, p: Path, q: Path)
      requires WellFormed(after) && Grows(middle, after, targetCanonical) && p != []
               && OnTheWay(before, middle, Parent(p))
      requires after == middle[q := Directory] && Real(after, p) == Some(q)
      ensures OnTheWay(before, after, p)
    {
      forall d | d in after && d !in before ensures LeadsTo(after, d, p) {
        if d == q {
          assert p[..|p|] == p;
        } else {
          var k: nat :| k <= |Parent(p)| && Real(middle, Parent(p)[..k]) == Some(d);
          RealIsStable(middle, after, targetCanonical, Parent(p)[..k], MAX_LINKS);
          assert Parent(p)[..k] == p[..k];
        }
      }
    }

    /** `mkdirSync(p, { recursive: true })` */
    method MakeDirectories(p: Path) returns (ok: bool)
      requires Valid() && Anchored(fs, p)
      modifies this`fs
      ensures Valid() && Grows(old(fs), fs, targetCanonical)
      ensures ok <==> CanMake(old(fs), p)
      ensures ok ==> IsOwnDirectory(fs, p) && OnTheWay(old(fs), fs, p)
      ensures ok ==> if Exists(old(fs), p) then fs == old(fs) else IsEmptyDirectory(old(fs), fs, p)
      ensures ok && !Exists(old(fs), p) ==> OnlyLast(old(fs), fs, p)
      ensures !ok ==> fs == old(fs)
      ensures Roomy(old(fs), p) ==> ok && Unlinked(fs) && forall d | d in fs && d !in old(fs) :: d <= p
      decreases |p|
    {
      hide RealWithin, Roomy, OnTheWay, Unlinked, CanMake, IsEmptyDirectory;
      RealIsEntry(fs, p, MAX_LINKS);
      ghost var before, roomy := fs, Roomy(fs, p);
      AnchoredIsThere(fs, p);
      if Exists(fs, p) {
        if roomy { RoomyExists(fs, p); }
        NothingOnTheWay(fs, p);
        return fs[Real(fs, p).value].Directory?;
      }
      if roomy { RoomyParent(fs, p); }
      ok := MakeDirectories(Parent(p));
      if !ok { return; }
      if roomy { RoomyNext(before, fs, p); }
      var q := Real(fs, Parent(p)).value + [Last(p)];
      PlaceIsFree(before, fs, p);
      AddEntry(fs, p, Directory, targetCanonical);
      ghost var middle := fs;
      fs := fs[q := Directory];
      RealIsStable(middle, fs, targetCanonical, targetDir, MAX_LINKS);
      OnTheWayFurther(before, middle, fs, p, q);
      NewIsEmpty(before, middle, p, q);
    }

    /** What exists of an anchored path is there for its own end too. */
    lemma {:induction false} AnchoredIsThere(fs: Files, p: Path)
      requires WellFormed(fs) && Anchored(fs, p)
      ensures Exists(fs, p) ==> targetCanonical <= Real(fs, p).value && (CanMake(fs, p) <==> IsOwnDirectory(fs, p))
      ensures !Exists(fs, p) ==>
                p != [] && !EntryExists(fs, p) && Anchored(fs, Parent(p))
                && (CanMake(fs, p) <==> CanMake(fs, Parent(p)))
    {
      if Exists(fs, p) { ExistsIsEntry(fs, p); }
    }

    /** The next name is free in a directory that was just made, or that had no such entry. */
    lemma {:induction false} PlaceIsFree(before: Files, fs: Files, p: Path)
      requires p != [] && !EntryExists(before, p) && IsOwnDirectory(fs, Parent(p))
      requires if Exists(before, Parent(p)) then fs == before else IsEmptyDirectory(before, fs, Parent(p))
      ensures Real(fs, Parent(p)).value + [Last(p)] !in fs
    {
    }

    lemma {:induction false} NewIsEmpty(before: Files, middle: Files, p: Path, q: Path)
      requires WellFormed(middle) && q !in middle && q !in before && Real(middle[q := Directory], p) == Some(q)
      ensures IsEmptyDirectory(before, middle[q := Directory], p)
    {
      assert forall name :: Parent(q + [name]) == q;
    }

    lemma {:induction false} NothingOnTheWay(fs: Files, p: Path)
      ensures OnTheWay(fs, fs, p)
    {
    }

    lemma {:induction false} RoomyExists(fs: Files, p: Path)
      requires WellFormed(fs) && Roomy(fs, p) && Exists(fs, p)
      ensures Unlinked(fs) && p in fs && Real(fs, p) == Some(p) && fs[p].Directory?
    {
      InUnlinked(fs, p);
    }

    /** Once its parent is there, there is room for `p` itself. */
    lemma {:induction false} RoomyNext(before: Files, fs: Files, p: Path)
      requires p != [] && WellFormed(fs) && Unlinked(fs) && Real(fs, Parent(p)).Some?
      requires targetDir <= Parent(p) && p !in before && forall d | d in fs && d !in before :: d <= Parent(p)
      ensures Real(fs, Parent(p)).value + [Last(p)] == p && p !in fs && Unlinked(fs[p := Directory])
    {
      hide RealWithin, Real, Unlinked, WellFormed;
      InUnlinkedReal(fs, Parent(p));
      assert Parent(p) + [Last(p)] == p;
      assert p !in fs by { assert !(p <= Parent(p)); }
      UnlinkedDirectory(fs, p);
    }

    lemma {:induction false} UnlinkedDirectory(fs: Files, p: Path)
      requires Unlinked(fs)
      ensures Unlinked(fs[p := Directory])
    {
    }

    lemma {:induction false} RoomyParent(fs: Files, p: Path)
      requires WellFormed(fs) && Roomy(fs, p) && !Exists(fs, p) && p != []
      ensures Roomy(fs, Parent(p)) && p !in fs && targetDir <= Parent(p)
    {
      InUnlinked(fs, p);
      assert targetDir in fs && targetDir != p && targetDir <= Parent(p);
      assert Parent(p) <= p;
    }

    /** `createTargetDirectory`: only below an ancestor that is really inside the target. */
    method CreateTargetDirectory(p: Path) returns (ok: bool)
      requires Valid()
      modifies this`fs
      ensures Valid() && Grows(old(fs), fs, targetCanonical)
      ensures ok <==> CanMake(old(fs), p)
      ensures ok ==> IsOwnDirectory(fs, p) && OnTheWay(old(fs), fs, p)
      ensures ok ==> if Exists(old(fs), p) then fs == old(fs) else IsEmptyDirectory(old(fs), fs, p)
      ensures ok && !Exists(old(fs), p) ==> OnlyLast(old(fs), fs, p)
      ensures !ok ==> fs == old(fs)
      ensures Roomy(old(fs), p) ==> ok && Unlinked(fs) && forall d | d in fs && d !in old(fs) :: d <= p
    {
      var ancestor := p;
      while !EntryExists(fs, ancestor) && ancestor != []
        invariant Valid() && (Anchored(fs, ancestor) <==> Anchored(fs, p))
                  && (CanMake(fs, ancestor) <==> CanMake(fs, p))
        invariant fs == old(fs)
        decreases |ancestor|
      {
        ancestor := Parent(ancestor);
      }
      if Roomy(fs, p) { RoomyCanBeMade(fs, p); }
      if !Exists(fs, ancestor) || !(targetCanonical <= Real(fs, ancestor).value) {
        return false;
      }
      ok := MakeDirectories(p);
    }

    lemma {:induction false} RoomyCanBeMade(fs: Files, p: Path)
      requires WellFormed(fs) && Roomy(fs, p)
      ensures CanMake(fs, p)
      decreases |p|
    {
      hide RealWithin;
      InUnlinked(fs, p);
      if p !in fs {
        RoomyParent(fs, p);
        RoomyCanBeMade(fs, Parent(p));
      }
    }

    // ----- What one step may do

    /** The counterpart, in the target of `input`, of what the source of `r` leads to. */
    ghost function Counterpart(fs: Files, r: Path, input: Path): Path
      requires Real(fs, Source(r)).Some? && Real(fs, Source(input)).Some?
      requires Real(fs, Source(input)).value <= Real(fs, Source(r)).value
    {
      Target(input) + Real(fs, Source(r)).value[|Real(fs, Source(input)).value|..]
    }

    /**
     A copy holds the bytes its source reads as; a link holds the relative text to its counterpart,
     as computed on the spelled path.
     */
    ghost predicate MadeFrom(fs: Files, m: Made) {
      && m.place in fs && Entry(fs, Target(m.path)) == Some(m.place)
      && Real(fs, Source(m.path)).Some?
      && var x := Real(fs, Source(m.path)).value;
      match m
      case Copied(_, place) => x in fs && fs[x].File? && fs[place] == fs[x]
      case Linked(r, place, input) =>
        && Real(fs, Source(input)).Some? && Real(fs, Source(input)).value <= x
        && Target(r) != [] && place != [] && fs[place] == LinkFor(fs, r, place, input)
    }

    ghost predicate Accounted(p: Path, made: seq<Made>) {
      exists m :: m in made && m.place == p
    }

    /** A directory that is the target's counterpart of one on the way to `r`, or below it. */
    ghost predicate Founded(fs: Files, p: Path, r: Path) {
      p in fs && fs[p].Directory? && exists s :: FoundedAt(fs, p, r, s)
    }

    ghost predicate FoundedAt(fs: Files, p: Path, r: Path, s: Path) {
      && (s <= r || r <= s) && Real(fs, Target(s)) == Some(p)
      && Real(fs, Source(s)).Some? && var x := Real(fs, Source(s)).value; x in fs && fs[x].Directory?
    }

    /**
     `after` extends `before` inside the target: `more` accounts for every new file and link below
     `r`, once each, and every new directory has its counterpart in the project.
     */
    ghost predicate Progress(before: Files, after: Files, more: seq<Made>, r: Path) {
      && WellFormed(after) && Real(after, targetDir) == Some(targetCanonical)
      && Grows(before, after, targetCanonical)
      && (forall m | m in more :: r <= m.path && MadeFrom(after, m) && m.place !in before)
      && (forall i, j | 0 <= i < j < |more| :: more[i].place != more[j].place)
      && (forall p | p in after && p !in before :: Founded(after, p, r) || Accounted(p, more))
    }

    lemma {:induction false} ProgressGrows(before: Files, after: Files, more: seq<Made>, r: Path)
      requires Progress(before, after, more, r)
      ensures WellFormed(after) && Grows(before, after, targetCanonical)
      ensures Real(after, targetDir) == Some(targetCanonical)
    {
    }

    lemma {:induction false} MadeIsStable(before: Files, after: Files, m: Made)
      requires Grows(before, after, targetCanonical) && MadeFrom(before, m)
      ensures MadeFrom(after, m)
    {
      hide RealWithin;
      EntriesAreStable(before, after, targetCanonical, Target(m.path));
      RealIsStable(before, after, targetCanonical, Source(m.path), MAX_LINKS);
      if m.Linked? { RealIsStable(before, after, targetCanonical, Source(m.input), MAX_LINKS); }
    }

    lemma {:induction false} ProgressComposes(a: Files, b: Files, c: Files, first: seq<Made>, second: seq<Made>,
                                              r: Path, r1: Path, r2: Path)
      requires Progress(a, b, first, r1) && Progress(b, c, second, r2) && r <= r1 && r <= r2
      ensures Progress(a, c, first + second, r)
    {
      hide RealWithin, MadeFrom, Founded;
      forall m | m in first + second ensures r <= m.path && MadeFrom(c, m) && m.place !in a {
        if m in first { MadeIsStable(b, c, m); }
      }
      forall i, j | 0 <= i < j < |first + second| ensures (first + second)[i].place != (first + second)[j].place {
        if i < |first| <= j {
          assert first[i] in first && second[j - |first|] in second;
          assert MadeFrom(b, first[i]);
          PlaceExists(b, first[i]);
        }
      }
      forall p | p in c && p !in a ensures Founded(c, p, r) || Accounted(p, first + second) {
        if p in b {
          assert Founded(b, p, r1) || Accounted(p, first);
          if Founded(b, p, r1) { FoundedIsStable(b, c, p, r1, r); }
        } else {
          assert Founded(c, p, r2) || Accounted(p, second);
          if Founded(c, p, r2) { FoundedIsStable(c, c, p, r2, r); }
        }
        AccountedTogether(p, first, second);
      }
    }

    lemma {:induction false} FoundedIsStable(before: Files, after: Files, p: Path, inner: Path, r: Path)
      requires Grows(before, after, targetCanonical) && Founded(before, p, inner) && r <= inner
      ensures Founded(after, p, r)
    {
      hide RealWithin;
      var s :| FoundedAt(before, p, inner, s);
      RealIsStable(before, after, targetCanonical, Target(s), MAX_LINKS);
      RealIsStable(before, after, targetCanonical, Source(s), MAX_LINKS);
      assert s <= inner ==> s <= r || r <= s by { if s <= inner { PrefixesOfOne(s, r, inner); } }
      assert FoundedAt(after, p, r, s);
    }

    lemma {:induction false} PlaceExists(fs: Files, m: Made)
      requires MadeFrom(fs, m)
      ensures m.place in fs
    {
    }

    lemma {:induction false} AccountedTogether(p: Path, first: seq<Made>, second: seq<Made>)
      ensures Accounted(p, first) || Accounted(p, second) ==> Accounted(p, first + second)
    {
      if Accounted(p, first) {
        var m :| m in first && m.place == p;
        assert m in first + second;
      } else if Accounted(p, second) {
        var m :| m in second && m.place == p;
        assert m in first + second;
      }
    }

    lemma {:induction false} NoProgressYet(fs: Files, r: Path)
      requires WellFormed(fs) && Real(fs, targetDir) == Some(targetCanonical)
      ensures Progress(fs, fs, [], r)
    {
    }

    /**
     Directories on the way to `p`, the counterpart of `r` or of a directory it is in, have their
     own counterparts.
     */
    lemma {:induction false} DirectoriesAreProgress(before: Files, after: Files, p: Path, r: Path)
      requires WellFormed(before) && Real(before, targetDir) == Some(targetCanonical)
      requires WellFormed(after) && Real(after, targetDir) == Some(targetCanonical)
      requires Grows(before, after, targetCanonical) && OnTheWay(before, after, p) && LeadsInside(before, p, r)
      ensures Progress(before, after, [], r)
    {
      hide RealWithin, WellFormed;
      forall d | d in after && d !in before ensures Founded(after, d, r) {
        var k: nat :| k <= |p| && Real(after, p[..k]) == Some(d);
        WayIsFounded(before, after, p, r, k, d);
      }
    }

    /** `p` is the target's path for `r`, a directory, or for the directory that `r` is in. */
    ghost predicate LeadsInside(fs: Files, p: Path, r: Path) {
      Exists(fs, Source(r)) &&
      if p == Target(r) then Real(fs, Source(r)).value in fs && fs[Real(fs, Source(r)).value].Directory?
      else Target(r) != [] && p == Parent(Target(r))
    }

    lemma {:induction false} ParentLeadsInside(fs: Files, r: Path)
      requires Exists(fs, Source(r)) && Target(r) != []
      ensures LeadsInside(fs, Parent(Target(r)), r)
    {
    }

    lemma {:induction false} TargetLeadsInside(fs: Files, r: Path)
      requires Exists(fs, Source(r)) && Real(fs, Source(r)).value in fs && fs[Real(fs, Source(r)).value].Directory?
      ensures LeadsInside(fs, Target(r), r)
    {
    }

    lemma {:induction false} WayIsFounded(before: Files, after: Files, p: Path, r: Path, k: nat, d: Path)
      requires WellFormed(before) && Real(before, targetDir) == Some(targetCanonical)
               && Grows(before, after, targetCanonical)
      requires LeadsInside(before, p, r) && k <= |p| && Real(after, p[..k]) == Some(d)
      requires d in after && d !in before && after[d].Directory?
      ensures Founded(after, d, r)
    {
      hide RealWithin;
      assert p[..k] == Target(r)[..k];
      if k <= |targetDir| {
        assert p[..k] == targetDir[..k];
        AncestorResolves(before, targetDir, k);
        RealIsStable(before, after, targetCanonical, targetDir[..k], MAX_LINKS);
      } else {
        var n := k - |targetDir|;
        var s := r[..n];
        assert Target(s) == p[..k];
        assert Source(s) == Source(r)[..|projectDir| + n];
        AncestorResolves(before, Source(r), |projectDir| + n);
        assert Real(before, Source(s)).Some? && before[Real(before, Source(s)).value].Directory? by {
          if n == |r| { assert s == r && p == Target(r); }
        }
        RealIsStable(before, after, targetCanonical, Source(s), MAX_LINKS);
        assert FoundedAt(after, d, r, s);
      }
    }

    /** One new entry, in a directory of the target that exists by now. */
    lemma {:induction false} OneMore(before: Files, middle: Files, node: Node, m: Made)
      requires WellFormed(middle) && Real(middle, targetDir) == Some(targetCanonical)
      requires Progress(before, middle, [], m.path) && !node.Directory?
      requires Target(m.path) != [] && Entry(middle, Target(m.path)) == Some(m.place) && m.place !in middle
      requires var d := Parent(m.place); d in middle && middle[d].Directory? && targetCanonical <= d
      requires MadeFrom(middle[m.place := node], m)
      ensures Progress(before, middle[m.place := node], [m], m.path)
    {
      hide RealWithin, MadeFrom, WellFormed;
      hide Founded;
      AddEntry(middle, Target(m.path), node, targetCanonical);
      assert Parent(m.place) == Real(middle, Parent(Target(m.path))).value;
      forall p | p in middle && p !in before ensures Founded(middle[m.place := node], p, m.path) {
        assert Founded(middle, p, m.path) || Accounted(p, []);
        FoundedIsStable(middle, middle[m.place := node], p, m.path, m.path);
      }
      RealIsStable(middle, middle[m.place := node], targetCanonical, targetDir, MAX_LINKS);
      assert m in [m] && Accounted(m.place, [m]);
    }

    // ----- Entries that stand in the way

    /** On the way to `r`, at it and below it, what the target has is what the project has. */
    ghost predicate Clear(fs: Files, r: Path) {
      && Unlinked(fs) && Source(r) in fs
      && forall s | (s <= r || r <= s) && Source(s) in fs && Target(s) in fs :: fs[Target(s)] == fs[Source(s)]
    }

    lemma {:induction false} ClearIsRoomy(fs: Files, p: Path, r: Path)
      requires WellFormed(fs) && Clear(fs, r) && targetDir <= p
      requires if p == Target(r) then fs[Source(r)].Directory? else Target(r) != [] && p == Parent(Target(r))
      ensures Roomy(fs, p)
    {
      hide RealWithin;
      forall q | q <= p && q in fs ensures fs[q].Directory? {
        if q <= targetDir && q != targetDir {
          AncestorExists(fs, q, targetDir);
        } else {
          PrefixesOfOne(q, targetDir, p);
          var s := q[|targetDir|..];
          assert Target(s) == q && s <= r;
          AncestorExists(fs, Source(s), Source(r));
          assert s == r ==> q == Target(r) && p == q;
          assert Source(s) == Source(r) ==> s == r by {
            assert Source(s)[|projectDir|..] == s && Source(r)[|projectDir|..] == r;
          }
        }
      }
    }

    lemma {:induction false} ClearHasRoom(fs: Files, r: Path)
      requires WellFormed(fs) && Clear(fs, r) && !EntryExists(fs, Target(r))
      ensures Target(r) != [] && Target(r) !in fs && targetDir <= Parent(Target(r)) && Roomy(fs, Parent(Target(r)))
      ensures fs[Source(r)].Directory? ==> Roomy(fs, Target(r))
    {
      hide RealWithin;
      InUnlinked(fs, Target(r));
      assert targetDir != Target(r) && targetDir <= Parent(Target(r));
      ClearIsRoomy(fs, Parent(Target(r)), r);
      if fs[Source(r)].Directory? { ClearIsRoomy(fs, Target(r), r); }
    }

    lemma {:induction false} MissingIsUnsettled(fs: Files, r: Path)
      requires WellFormed(fs) && !Exists(fs, Target(r))
      ensures Clear(fs, r) ==> Free(fs, r)
      ensures Source(r) in fs ==> !MirroredBelow(fs, r)
    {
      if Clear(fs, r) {
        InUnlinked(fs, Target(r));
        ClearHasRoom(fs, r);
        RoomyCanBeMade(fs, Parent(Target(r)));
      }
      if Source(r) in fs && MirroredBelow(fs, r) { MirroredHere(fs, r); }
    }

    lemma {:induction false} ClearThere(fs: Files, r: Path)
      requires WellFormed(fs) && Clear(fs, r) && Exists(fs, Target(r))
      ensures Real(fs, Target(r)) == Some(Target(r)) && targetCanonical <= Target(r)
      ensures Target(r) in fs && Source(r) in fs && fs[Target(r)] == fs[Source(r)]
    {
      InUnlinked(fs, Target(r));
    }

    lemma {:induction false} OnTheWayIsDirectory(fs: Files, s: Path, r: Path)
      requires WellFormed(fs) && s < r && Exists(fs, Target(r)) && Source(r) in fs
               && Real(fs, Target(s)) == Some(Target(s))
      ensures Target(s) in fs && fs[Target(s)].Directory? && Source(s) in fs && fs[Source(s)].Directory?
    {
      hide RealWithin;
      assert Target(s) == Target(r)[..|targetDir| + |s|];
      AncestorResolves(fs, Target(r), |targetDir| + |s|);
      assert Source(s) < Source(r);
      AncestorExists(fs, Source(s), Source(r));
    }

    /** A step that only copies leaves every other way clear. */
    lemma {:induction false} ClearIsStable(before: Files, after: Files, more: seq<Made>, r: Path, b: Path)
      requires WellFormed(before) && Progress(before, after, more, r) && OnlyCopies(more)
      requires Clear(before, b) && LinkFree(before, Source(b)) && Apart(Source(b), targetCanonical)
      ensures Clear(after, b)
    {
      hide RealWithin, Progress, WellFormed, Founded, MadeFrom;
      ProgressGrows(before, after, more, r);
      forall p | p in after && p !in before ensures !after[p].Link? {
        NewIsNoLink(before, after, more, r, p);
      }
      forall s | (s <= b || b <= s) && Source(s) in after && Target(s) in after
        ensures after[Target(s)] == after[Source(s)]
      {
        SourceIsOld(before, after, b, s);
        if Target(s) !in before { NewIsRight(before, after, more, r, s); }
      }
    }

    lemma {:induction false} SourceIsOld(before: Files, after: Files, b: Path, s: Path)
      requires WellFormed(before) && Grows(before, after, targetCanonical)
      requires Source(b) in before && LinkFree(before, Source(b)) && Apart(Source(b), targetCanonical)
      requires (s <= b || b <= s) && Source(s) in after
      ensures Source(s) in before && !before[Source(s)].Link?
    {
      if s <= b {
        assert Source(s) <= Source(b);
        AncestorExists(before, Source(s), Source(b));
      } else {
        assert Source(b) <= Source(s);
        ApartIsUntouched(before, after, Source(b), targetCanonical);
      }
    }

    lemma {:induction false} NewIsNoLink(before: Files, after: Files, more: seq<Made>, r: Path, p: Path)
      requires Progress(before, after, more, r) && OnlyCopies(more) && p in after && p !in before
      ensures !after[p].Link?
    {
      hide RealWithin;
      if Accounted(p, more) {
        var m :| m in more && m.place == p;
        assert MadeFrom(after, m);
      } else {
        assert Founded(after, p, r);
      }
    }

    /** A new entry of a target without links is what its counterpart is. */
    lemma {:induction false} NewIsRight(before: Files, after: Files, more: seq<Made>, r: Path, s: Path)
      requires Progress(before, after, more, r) && OnlyCopies(more) && Unlinked(after)
      requires Target(s) in after && Target(s) !in before && Source(s) in after && !after[Source(s)].Link?
      ensures after[Target(s)] == after[Source(s)]
    {
      hide RealWithin;
      ProgressGrows(before, after, more, r);
      PhysicalIsReal(after, Source(s), MAX_LINKS);
      if Accounted(Target(s), more) {
        var m :| m in more && m.place == Target(s);
        assert MadeFrom(after, m);
        CopyIsAtItsPath(after, m);
        SameTarget(m.path, s);
      } else {
        assert Founded(after, Target(s), r);
        var other :| FoundedAt(after, Target(s), r, other);
        InUnlinked(after, Target(other));
        SameTarget(other, s);
      }
    }

    lemma {:induction false} SameTarget(a: Path, b: Path)
      requires Target(a) == Target(b)
      ensures a == b
    {
      assert Target(a)[|targetDir|..] == a && Target(b)[|targetDir|..] == b;
    }

    lemma {:induction false} CopyIsAtItsPath(fs: Files, m: Made)
      requires WellFormed(fs) && Unlinked(fs) && m.Copied? && MadeFrom(fs, m)
      ensures m.place == Target(m.path)
    {
      hide RealWithin;
      FileIsReal(fs, Target(m.path), m.place);
      InUnlinked(fs, Target(m.path));
    }

    method Record(m: Made)
      modifies this`made, this`copies, this`links
      requires copies == CopiedPaths(made) && links == LinkedPaths(made)
      ensures copies == CopiedPaths(made) && links == LinkedPaths(made) && made == old(made) + [m]
    {
      made := made + [m];
      assert made[..|made| - 1] == old(made);
      match m
      case Copied(path, _) => copies := copies + [path];
      case Linked(path, _, _) => links := links + [path];
    }

    /** The target has no entry for `r`, and one can be made. */
    ghost predicate Free(fs: Files, r: Path) {
      Target(r) != [] && !EntryExists(fs, Target(r)) && CanMake(fs, Parent(Target(r)))
    }

    /** The directory for the counterpart of `r`, and the place there. */
    method MakeRoom(r: Path) returns (ok: bool, q: Path)
      requires Valid() && Exists(fs, Source(r)) && Target(r) != [] && !EntryExists(fs, Target(r))
      modifies this`fs
      ensures Valid() && Progress(old(fs), fs, [], r)
      ensures ok <==> Free(old(fs), r)
      ensures ok ==> && Entry(fs, Target(r)) == Some(q) && q !in fs && q != []
                     && var d := Parent(q); d in fs && fs[d].Directory? && targetCanonical <= d
      ensures !ok || Exists(old(fs), Parent(Target(r))) ==> fs == old(fs)
    {
      hide RealWithin, Progress, WellFormed, Grows, OnTheWay, LeadsInside, CanMake, Roomy, Unlinked;
      ghost var before := fs;
      NoProgressYet(fs, r);
      ParentLeadsInside(fs, r);
      ok := CreateTargetDirectory(Parent(Target(r)));
      if !ok { return false, []; }
      DirectoriesAreProgress(before, fs, Parent(Target(r)), r);
      PlaceIsFree(before, fs, Target(r));
      q := Real(fs, Parent(Target(r))).value + [Last(Target(r))];
    }

    /** Everything new is at or below `q`. */
    ghost predicate NewAt(before: Files, after: Files, q: Path) {
      forall p | p in after && p !in before :: q <= p
    }

    /** A blocker is all that came of it. */
    ghost predicate OnlyBlocked(fs0: Files, made0: seq<Made>, blockers0: seq<Path>, r: Path)
      reads this
    {
      fs == fs0 && made == made0 && blockers == blockers0 + [r]
    }

    /** `copyMissingFile` */
    method CopyMissingFile(r: Path)
      requires Valid() && Exists(fs, Source(r)) && Real(fs, Source(r)).value in fs
               && fs[Real(fs, Source(r)).value].File?
      modifies this
      ensures Valid() && old(made) <= made && old(blockers) <= blockers
      ensures Progress(old(fs), fs, made[|old(made)|..], r) && OnlyCopies(made[|old(made)|..])
      ensures blockers == old(blockers) <==> Free(old(fs), r)
      ensures blockers != old(blockers) ==> OnlyBlocked(old(fs), old(made), old(blockers), r)
      ensures blockers == old(blockers) ==>
                && EntryExists(fs, Target(r)) && |made| == |old(made)| + 1
                && (Exists(old(fs), Parent(Target(r))) ==> NewAt(old(fs), fs, Entry(old(fs), Target(r)).value))
                && Real(fs, Target(r)).Some? && MadeFrom(fs, Copied(r, Real(fs, Target(r)).value))
      ensures blockers == old(blockers) && Real(old(fs), Source(r)) == Some(Source(r)) ==> MirroredAt(fs, r)
    {
      hide RealWithin, Progress, MadeFrom, WellFormed, MirroredAt, CanMake;
      assert made[|old(made)|..] == [];
      NoProgressYet(fs, r);
      if EntryExists(fs, Target(r)) {
        AddBlocker(r);
        return;
      }
      var bytes := fs[Real(fs, Source(r)).value];
      ghost var before := fs;
      var ok, q := MakeRoom(r);
      if !ok {
        AddBlocker(r);
        return;
      }
      CopiedHere(before, fs, r, q);
      fs := fs[q := bytes];
      ProgressGrows(before, fs, [Copied(r, q)], r);
      Record(Copied(r, q));
      assert made[|old(made)|..] == [Copied(r, q)];
    }

    lemma {:induction false} CopiedHere(before: Files, middle: Files, r: Path, q: Path)
      requires WellFormed(middle) && Real(middle, targetDir) == Some(targetCanonical)
      requires Progress(before, middle, [], r)
      requires Real(before, Source(r)).Some? && var x := Real(before, Source(r)).value; x in before && before[x].File?
      requires Target(r) != [] && Entry(middle, Target(r)) == Some(q) && q !in middle
      requires var d := Parent(q); d in middle && middle[d].Directory? && targetCanonical <= d
      ensures var after := middle[q := before[Real(before, Source(r)).value]];
              && Progress(before, after, [Copied(r, q)], r)
              && EntryExists(after, Target(r)) && Real(after, Target(r)) == Some(q) && MadeFrom(after, Copied(r, q))
              && (Real(before, Source(r)) == Some(Source(r)) ==> MirroredAt(after, r))
    {
      hide RealWithin, Progress;
      var x := Real(before, Source(r)).value;
      var after := middle[q := before[x]];
      AddEntry(middle, Target(r), before[x], targetCanonical);
      ProgressGrows(before, middle, [], r);
      RealIsStable(before, middle, targetCanonical, Source(r), MAX_LINKS);
      RealIsStable(middle, after, targetCanonical, Source(r), MAX_LINKS);
      RealIsStable(middle, after, targetCanonical, Parent(Target(r)), MAX_LINKS);
      OneMore(before, middle, before[x], Copied(r, q));
    }

    /** What a link made for `r` at `q` holds: the relative text, computed on the spelled path, as it reads there. */
    ghost function LinkFor(fs: Files, r: Path, q: Path, input: Path): Node
      requires Real(fs, Source(r)).Some? && Real(fs, Source(input)).Some? && Target(r) != [] && q != []
      requires Real(fs, Source(input)).value <= Real(fs, Source(r)).value
    {
      Link(Named(Parent(q), Relative(Parent(Target(r)), Counterpart(fs, r, input))))
    }

    /** Recreate a link of the source in the target's own namespace. */
    method RecreateLink(r: Path, input: Path, root: Path)
      requires Valid() && Real(fs, Source(input)) == Some(root)
      requires Real(fs, Source(r)).Some? && root <= Real(fs, Source(r)).value
      modifies this
      ensures Valid() && old(made) <= made && old(blockers) <= blockers
      ensures Progress(old(fs), fs, made[|old(made)|..], r)
      ensures blockers == old(blockers) <==> Free(old(fs), r)
      ensures blockers != old(blockers) ==> OnlyBlocked(old(fs), old(made), old(blockers), r)
      ensures blockers == old(blockers) ==>
                && IsLink(fs, Target(r))
                && var q := Entry(fs, Target(r)).value;
                && fs[q] == LinkFor(old(fs), r, q, input) && made == old(made) + [Linked(r, q, input)]
                && (Exists(old(fs), Parent(Target(r))) ==>
                    Entry(old(fs), Target(r)) == Some(q) && fs == old(fs)[q := fs[q]])
    {
      hide RealWithin, Progress, MadeFrom, WellFormed, CanMake;
      assert made[|old(made)|..] == [];
      NoProgressYet(fs, r);
      if EntryExists(fs, Target(r)) {
        AddBlocker(r);
        return;
      }
      var mapped := Target(input) + Real(fs, Source(r)).value[|root|..];
      ghost var before := fs;
      var ok, q := MakeRoom(r);
      if !ok {
        AddBlocker(r);
        return;
      }
      LinkedHere(before, fs, r, q, input, root);
      fs := fs[q := Link(Named(Parent(q), Relative(Parent(Target(r)), mapped)))];
      ProgressGrows(before, fs, [Linked(r, q, input)], r);
      Record(Linked(r, q, input));
      assert made[|old(made)|..] == [Linked(r, q, input)];
    }

    lemma {:induction false} LinkedHere(before: Files, middle: Files, r: Path, q: Path, input: Path, root: Path)
      requires WellFormed(middle) && Real(middle, targetDir) == Some(targetCanonical)
      requires Progress(before, middle, [], r)
      requires Real(before, Source(input)) == Some(root)
      requires Real(before, Source(r)).Some? && root <= Real(before, Source(r)).value
      requires Target(r) != [] && q != [] && Entry(middle, Target(r)) == Some(q) && q !in middle
      requires var d := Parent(q); d in middle && middle[d].Directory? && targetCanonical <= d
      ensures var after := middle[q := LinkFor(before, r, q, input)];
              && Progress(before, after, [Linked(r, q, input)], r)
              && IsLink(after, Target(r)) && Entry(after, Target(r)) == Some(q)
    {
      hide RealWithin, Progress, WellFormed, Relative, Named;
      var node := LinkFor(before, r, q, input);
      var after := middle[q := node];
      AddEntry(middle, Target(r), node, targetCanonical);
      ProgressGrows(before, middle, [], r);
      RealIsStable(before, middle, targetCanonical, Source(r), MAX_LINKS);
      RealIsStable(middle, after, targetCanonical, Source(r), MAX_LINKS);
      RealIsStable(before, middle, targetCanonical, Source(input), MAX_LINKS);
      RealIsStable(middle, after, targetCanonical, Source(input), MAX_LINKS);
      RealIsStable(middle, after, targetCanonical, Parent(Target(r)), MAX_LINKS);
      OneMore(before, middle, node, Linked(r, q, input));
    }

    /** What a recreated link names. */
    function Destination(fs: Files, m: Made): Path {
      if m.place in fs && fs[m.place].Link? then fs[m.place].destination else []
    }

    /**
     A recreated link names its counterpart, looked up where that is looked up, exactly if going up
     from the parent as it is spelled and as it is placed reaches one directory. It then leads, however
     the target grows, to what the counterpart leads to; and otherwise to another place, unless a
     link on the way down leads back.
     */
    lemma {:induction false} LinkLeadsRight(fs: Files, after: Files, m: Made)
      requires WellFormed(fs) && MadeFrom(fs, m) && m.Linked?
      requires WellFormed(after) && Grows(fs, after, targetCanonical)
      ensures var from, d, counterpart := Parent(Target(m.path)), Parent(m.place), Counterpart(fs, m.path, m.input);
              var route := Relative(from, counterpart);
              && Exists(fs, Up(from, route.ups))
              && var top, read := Real(fs, Up(from, route.ups)).value, Up(d, route.ups);
              && var one := OneDirectory(fs, from, d, route.ups);
              && (one <==> Destination(fs, m) == top + route.down)
              && (one ==> Real(after, Destination(fs, m)) == Real(after, counterpart))
              && (Linkless(after, top, route.down) && Linkless(after, read, route.down) ==>
                    (one <==> Place(after, Destination(fs, m)) == Place(after, counterpart)))
              && (d == from ==> one)
    {
      hide RealWithin, Place, Relative, Named, Linkless;
      var from, d := Parent(Target(m.path)), Parent(m.place);
      var counterpart := Counterpart(fs, m.path, m.input);
      var route := Relative(from, counterpart);
      assert Real(fs, from) == Some(d) && d in fs && fs[d].Directory?;
      TextLeadsRight(fs, from, d, counterpart);
      RealIsStable(fs, after, targetCanonical, from, MAX_LINKS);
      RealIsStable(fs, after, targetCanonical, Up(from, route.ups), MAX_LINKS);
      TextLeadsRight(after, from, d, counterpart);
    }

    // ----- One directory

    lemma {:induction false} PlainIsStable(before: Files, after: Files, r: Path, ancestors: set<Path>)
      requires Grows(before, after, targetCanonical) && Apart(Source(r), targetCanonical)
               && Plain(before, Source(r), ancestors)
      ensures Plain(after, Source(r), ancestors)
    {
      ApartIsUntouched(before, after, Source(r), targetCanonical);
    }

    lemma {:induction false} FileIsMirrored(fs: Files, r: Path)
      requires WellFormed(fs) && Source(r) in fs && fs[Source(r)].File? && MirroredAt(fs, r)
      ensures MirroredBelow(fs, r)
    {
      forall s | r <= s && Source(s) in fs ensures MirroredAt(fs, s) {
        AncestorExists(fs, Source(r), Source(s));
        assert Source(s) == Source(r) ==> s == r by {
          assert Source(s)[|projectDir|..] == s && Source(r)[|projectDir|..] == r;
        }
      }
    }

    lemma {:induction false} BelowEntry(fs: Files, r: Path, s: Path)
      requires WellFormed(fs) && r < s && Source(s) in fs
      ensures s[|r|] in Names(fs, Source(r)) && r + [s[|r|]] <= s
    {
      hide RealWithin;
      assert Source(s)[|Source(r)|] == s[|r|];
      BelowAnEntry(fs, Source(r), Source(s));
    }

    /** A directory is mirrored when it is there and each of its entries is. */
    lemma {:induction false} DirectoryIsMirrored(fs: Files, r: Path)
      requires WellFormed(fs) && MirroredAt(fs, r)
      requires forall n | n in Names(fs, Source(r)) :: MirroredBelow(fs, r + [n])
      ensures MirroredBelow(fs, r)
    {
      hide MirroredAt, Names, WellFormed;
      forall s | r <= s && Source(s) in fs ensures MirroredAt(fs, s) {
        if s != r {
          BelowEntry(fs, r, s);
        }
      }
    }

    /**
     The source entry at `r` may be walked: it is inside the input's root, and not one of the
     directories being walked.
     */
    ghost predicate Walkable(fs: Files, r: Path, input: Path, root: Path, ancestors: set<Path>) {
      && Apart(root, targetCanonical) && Real(fs, Source(input)) == Some(root) && ancestors <= Directories(fs, root)
      && Exists(fs, Source(r)) && Real(fs, Source(r)).value in fs && root <= Real(fs, Source(r)).value
      && !fs[Real(fs, Source(r)).value].Link?
    }

    lemma {:induction false} WalkableIsStable(before: Files, after: Files, r: Path, input: Path, root: Path,
                                              ancestors: set<Path>)
      requires Grows(before, after, targetCanonical) && Walkable(before, r, input, root, ancestors)
      ensures Walkable(after, r, input, root, ancestors) && Directories(after, root) == Directories(before, root)
      ensures Real(after, Source(r)) == Real(before, Source(r))
      ensures after[Real(after, Source(r)).value] == before[Real(before, Source(r)).value]
    {
      RealIsStable(before, after, targetCanonical, Source(r), MAX_LINKS);
      RealIsStable(before, after, targetCanonical, Source(input), MAX_LINKS);
      ApartIsUntouched(before, after, root, targetCanonical);
    }

    /** Nothing was done. */
    ghost predicate Idle(fs0: Files, made0: seq<Made>, blockers0: seq<Path>)
      reads this
    {
      fs == fs0 && made == made0 && blockers == blockers0
    }

    /** A link-free entry inside an input's root stays clear of the target. */
    lemma {:induction false} PlainIsApart(fs: Files, r: Path, input: Path, root: Path, ancestors: set<Path>,
                                          excluded: set<Path>)
      requires WellFormed(fs) && Walkable(fs, r, input, root, ancestors) && Plain(fs, Source(r), excluded)
      ensures Real(fs, Source(r)) == Some(Source(r)) && root <= Source(r) && Apart(Source(r), targetCanonical)
    {
      hide RealWithin;
      PlainIsReal(fs, Source(r), excluded);
      if targetCanonical <= Source(r) { PrefixesOfOne(root, targetCanonical, Source(r)); }
    }

    lemma {:induction false} StillMirrored(middle: Files, after: Files, r: Path, done: set<string>)
      requires Grows(middle, after, targetCanonical) && Apart(Source(r), targetCanonical)
      requires forall n | n in done :: MirroredBelow(middle, r + [n])
      ensures forall n | n in done :: MirroredBelow(after, r + [n])
    {
      forall n | n in done ensures MirroredBelow(after, r + [n]) {
        assert Source(r) <= Source(r + [n]);
        assert Apart(Source(r + [n]), targetCanonical);
        MirroredIsStable(middle, after, r + [n]);
      }
    }

    /** One entry later, the directory may still be walked. */
    lemma {:induction false} EntryProgress(before: Files, middle: Files, after: Files, earlier: seq<Made>,
                                           more: seq<Made>, r: Path, name: string, input: Path, root: Path,
                                           ancestors: set<Path>, done: set<string>)
      requires Progress(before, middle, earlier, r) && Progress(middle, after, more, r + [name])
      requires Walkable(middle, r, input, root, ancestors)
      ensures Progress(before, after, earlier + more, r)
      ensures Walkable(after, r, input, root, ancestors) && Directories(after, root) == Directories(middle, root)
      ensures Real(after, Source(r)) == Real(middle, Source(r))
      ensures forall n | n in done && EntryExists(middle, Target(r + [n])) :: EntryExists(after, Target(r + [n]))
    {
      hide Progress, Walkable, RealWithin, Directories;
      ProgressGrows(middle, after, more, r + [name]);
      forall n | n in done && EntryExists(middle, Target(r + [n])) ensures EntryExists(after, Target(r + [n])) {
        EntriesAreStable(middle, after, targetCanonical, Target(r + [n]));
      }
      WalkableIsStable(middle, after, r, input, root, ancestors);
      ProgressComposes(before, middle, after, earlier, more, r, r, r + [name]);
    }

    lemma {:induction false} EntryIsPlain(before: Files, middle: Files, earlier: seq<Made>,
                                          r: Path, name: string, input: Path, root: Path, ancestors: set<Path>)
      requires WellFormed(before) && Progress(before, middle, earlier, r)
      requires Walkable(before, r, input, root, ancestors) && Plain(before, Source(r), ancestors - {Source(r)})
      requires name in Names(before, Real(before, Source(r)).value)
      ensures Plain(middle, Source(r + [name]), ancestors)
      ensures MirroredBelow(before, r) ==> MirroredBelow(before, r + [name])
    {
      hide RealWithin;
      PlainIsApart(before, r, input, root, ancestors, ancestors - {Source(r)});
      PlainIsStable(before, middle, r, ancestors - {Source(r)});
      assert Source(r + [name]) == Source(r) + [name];
      PlainChild(middle, Source(r), name, ancestors);
    }

    lemma {:induction false} EntriesStayMirrored(before: Files, middle: Files, after: Files, earlier: seq<Made>,
                                                 more: seq<Made>, r: Path, name: string, input: Path, root: Path,
                                                 ancestors: set<Path>, done: set<string>)
      requires WellFormed(before) && Progress(before, middle, earlier, r) && Progress(middle, after, more, r + [name])
      requires Walkable(before, r, input, root, ancestors) && Plain(before, Source(r), ancestors - {Source(r)})
      requires forall n | n in done :: MirroredBelow(middle, r + [n])
      ensures forall n | n in done :: MirroredBelow(after, r + [n])
    {
      hide Progress, Walkable, RealWithin, MirroredBelow, Plain, Grows;
      ProgressGrows(before, middle, earlier, r);
      ProgressGrows(middle, after, more, r + [name]);
      PlainIsApart(before, r, input, root, ancestors, ancestors - {Source(r)});
      StillMirrored(middle, after, r, done);
    }

    /** Once each entry of a directory is mirrored, so is the directory. */
    lemma {:induction false} WalkedIsMirrored(before: Files, after: Files, r: Path, input: Path, root: Path,
                                              ancestors: set<Path>, excluded: set<Path>)
      requires WellFormed(before) && WellFormed(after) && Grows(before, after, targetCanonical)
      requires Walkable(before, r, input, root, ancestors) && Plain(before, Source(r), excluded)
               && MirroredAt(before, r)
      requires forall n | n in Names(before, Real(before, Source(r)).value) :: MirroredBelow(after, r + [n])
      ensures MirroredBelow(after, r)
    {
      hide RealWithin, MirroredBelow;
      PlainIsApart(before, r, input, root, ancestors, excluded);
      MirroredAtIsStable(before, after, r);
      forall n | n in Names(after, Source(r)) ensures MirroredBelow(after, r + [n]) {
        assert Source(r) <= Source(r) + [n];
        assert n in Names(before, Source(r));
      }
      DirectoryIsMirrored(after, r);
    }

    lemma {:induction false} PlainIsInside(fs: Files, parent: Path, name: string, input: Path, root: Path,
                                           ancestors: set<Path>)
      requires WellFormed(fs) && Walkable(fs, parent, input, root, ancestors)
               && Plain(fs, Source(parent + [name]), ancestors)
      ensures root <= Source(parent + [name])
    {
      hide RealWithin;
      assert Parent(Source(parent + [name])) == Source(parent);
      PhysicalIsReal(fs, Source(parent), MAX_LINKS);
    }

    /**
     Reconciling the entry `r` created `more`, and `clean` if it added no blocker. Without links, it
     is then mirrored; what was mirrored already is left as it is; and only an entry that stands in
     the way makes a blocker.
     */
    ghost predicate Reconciled(before: Files, after: Files, more: seq<Made>, clean: bool, r: Path,
                               ancestors: set<Path>) {
      && Progress(before, after, more, r)
      && (clean ==> EntryExists(after, Target(r)))
      && (Plain(before, Source(r), ancestors) ==>
           && OnlyCopies(more)
           && (clean ==> MirroredBelow(after, r))
           && (MirroredBelow(before, r) ==> after == before && more == [] && clean)
           && (Clear(before, r) ==> clean))
    }

    /** The same, while only the entries `done` of the directory `r` have been handled. */
    ghost predicate PartlyReconciled(before: Files, after: Files, more: seq<Made>, clean: bool, r: Path,
                                     ancestors: set<Path>, done: set<string>) {
      && Progress(before, after, more, r)
      && (clean ==> forall n | n in done :: EntryExists(after, Target(r + [n])))
      && (Plain(before, Source(r), ancestors - {Source(r)}) ==>
           && OnlyCopies(more)
           && (clean ==> forall n | n in done :: MirroredBelow(after, r + [n]))
           && (MirroredBelow(before, r) ==> after == before && more == [] && clean)
           && (Clear(before, r) ==> clean && Clear(after, r)))
    }

    lemma {:induction false} OneEntryMore(before: Files, middle: Files, after: Files, earlier: seq<Made>,
                                          more: seq<Made>, wasClean: bool, clean: bool, r: Path, name: string,
                                          input: Path, root: Path, ancestors: set<Path>, done: set<string>)
      requires WellFormed(before) && Walkable(before, r, input, root, ancestors)
               && Walkable(middle, r, input, root, ancestors)
      requires name in Names(before, Real(before, Source(r)).value)
      requires PartlyReconciled(before, middle, earlier, wasClean, r, ancestors, done)
      requires Reconciled(middle, after, more, clean, r + [name], ancestors)
      ensures PartlyReconciled(before, after, earlier + more, wasClean && clean, r, ancestors, done + {name})
      ensures Walkable(after, r, input, root, ancestors) && Directories(after, root) == Directories(middle, root)
      ensures Real(after, Source(r)) == Real(middle, Source(r))
    {
      hide MirroredBelow, MirroredAt, RealWithin, Plain, Progress, WellFormed, Directories, Names, Clear, Walkable,
        EntryExists, Real, Grows;
      EntryProgress(before, middle, after, earlier, more, r, name, input, root, ancestors, done);
      if Plain(before, Source(r), ancestors - {Source(r)}) {
        EntryIsPlain(before, middle, earlier, r, name, input, root, ancestors);
        ProgressGrows(before, middle, earlier, r);
        if wasClean && clean {
          EntriesStayMirrored(before, middle, after, earlier, more, r, name, input, root, ancestors, done);
        }
        if Clear(before, r) {
          EntryIsClear(before, middle, r, name, input, root, ancestors);
          DirectoryStaysClear(before, middle, after, earlier, more, r, name, input, root, ancestors);
        }
      }
    }

    // ----- Blockers, whatever links there are

    /** Nothing is left to do at `r` and below it, and nothing to report: each name walked has its counterpart. */
    ghost predicate Complete(fs: Files, r: Path, root: Path, ancestors: set<Path>)
      decreases Directories(fs, root) - ancestors
    {
      && Exists(fs, Source(r)) && Exists(fs, Target(r))
      && var c, e := Real(fs, Source(r)).value, Real(fs, Target(r)).value;
      && c in fs && e in fs && root <= c && targetCanonical <= e && (fs[c].Directory? <==> fs[e].Directory?)
      && if fs[c].Directory? then c !in ancestors && forall n | n in Names(fs, c) ::
         Complete(fs, r + [n], root, ancestors + {c})
         else fs[e] == fs[c]
    }

    /**
     Each name walked leads to something inside the input, and no directory to itself. A nested link
     is not walked.
     */
    ghost predicate Sound(fs: Files, r: Path, nested: bool, root: Path, ancestors: set<Path>)
      decreases Directories(fs, root) - ancestors
    {
      && Exists(fs, Source(r))
      && var c := Real(fs, Source(r)).value;
      && c in fs && root <= c && (fs[c].Directory? ==> c !in ancestors)
      && (fs[c].Directory? && !(nested && IsLink(fs, Source(r))) ==>
            forall n | n in Names(fs, c) :: Sound(fs, r + [n], true, root, ancestors + {c}))
    }

    lemma {:induction false} SoundIsStable(before: Files, after: Files, r: Path, nested: bool, root: Path,
                                           ancestors: set<Path>)
      requires WellFormed(before) && Grows(before, after, targetCanonical) && Apart(root, targetCanonical)
      requires Sound(before, r, nested, root, ancestors)
      ensures Sound(after, r, nested, root, ancestors)
      decreases Directories(before, root) - ancestors
    {
      hide RealWithin, WellFormed;
      RealIsStable(before, after, targetCanonical, Source(r), MAX_LINKS);
      SameKind(before, after, r);
      var c := Real(before, Source(r)).value;
      if before[c].Directory? && !(nested && IsLink(before, Source(r))) {
        forall n | n in Names(after, c) ensures Sound(after, r + [n], true, root, ancestors + {c}) {
          assert root <= c + [n];
          ApartIsUntouched(before, after, root, targetCanonical);
          SoundIsStable(before, after, r + [n], true, root, ancestors + {c});
        }
      }
    }

    lemma {:induction false} SameKind(before: Files, after: Files, r: Path)
      requires WellFormed(before) && Grows(before, after, targetCanonical) && Exists(before, Source(r))
      ensures IsLink(after, Source(r)) <==> IsLink(before, Source(r))
    {
      ExistsIsEntry(before, Source(r));
      EntriesAreStable(before, after, targetCanonical, Source(r));
    }

    /** Nothing came of it. */
    ghost predicate Nothing(before: Files, after: Files, more: seq<Made>, clean: bool) {
      after == before && more == [] && clean
    }

    /**
     When reconciling the entry `r` adds no blocker, `clean`: it does nothing exactly if nothing is left to
     do; and where the target has nothing there, it needs a free place and a sound source.
     */
    ghost predicate Explained(before: Files, after: Files, more: seq<Made>, clean: bool,
                              r: Path, nested: bool, root: Path, ancestors: set<Path>) {
      && (Complete(before, r, root, ancestors) <==> Nothing(before, after, more, clean))
      && (!Exists(before, Target(r)) ==>
           && (clean ==> Free(before, r) && Sound(after, r, nested, root, ancestors))
           && (Free(before, r) && Sound(before, r, nested, root, ancestors) ==> clean))
      && (Free(before, r) && Exists(before, Parent(Target(r))) ==> NewAt(before, after, Entry(before, Target(r)).value))
    }

    /** The counterpart of `r` is a directory with nothing in it. */
    ghost predicate EmptyAt(fs: Files, r: Path) {
      IsOwnDirectory(fs, Target(r)) && forall p | p in fs && Real(fs, Target(r)).value <= p ::
        p == Real(fs, Target(r)).value
    }

    /** The same, while only the entries `done` of the directory `r` have been handled. */
    ghost predicate PartlyExplained(before: Files, after: Files, more: seq<Made>, clean: bool,
                                    r: Path, root: Path, ancestors: set<Path>, done: set<string>) {
      && ((forall n | n in done :: Complete(before, r + [n], root, ancestors)) <==> Nothing(before, after, more, clean))
      && (EmptyAt(before, r) ==> Filled(before, after, clean, r, root, ancestors, done))
    }

    /** What came of filling an empty directory: each entry at its own name. */
    ghost predicate Filled(before: Files, after: Files, clean: bool, r: Path, root: Path, ancestors: set<Path>,
                           done: set<string>)
      requires Exists(before, Target(r))
    {
      && (forall p | p in after && p !in before :: exists n :: n in done && Real(before, Target(r)).value + [n] <= p)
      && ((forall n | n in done :: Sound(before, r + [n], true, root, ancestors)) ==> clean)
      && (clean ==> forall n | n in done :: Sound(after, r + [n], true, root, ancestors))
    }

    /** A name not handled yet is free. */
    lemma {:induction false} NextIsFree(before: Files, middle: Files, r: Path, root: Path, ancestors: set<Path>,
                                        done: set<string>, wasClean: bool, name: string)
      requires WellFormed(before) && WellFormed(middle) && Grows(before, middle, targetCanonical)
      requires EmptyAt(before, r) && Filled(before, middle, wasClean, r, root, ancestors, done) && name !in done
      ensures var d := Real(before, Target(r)).value;
              && Real(middle, Target(r)) == Some(d) && Target(r + [name]) != []
              && Parent(Target(r + [name])) == Target(r)
              && Entry(middle, Target(r + [name])) == Some(d + [name])
              && Free(middle, r + [name]) && !Exists(middle, Target(r + [name]))
    {
      hide RealWithin, WellFormed, Sound;
      var d := Real(before, Target(r)).value;
      assert Parent(Target(r + [name])) == Target(r) && Last(Target(r + [name])) == name;
      RealIsStable(before, middle, targetCanonical, Target(r), MAX_LINKS);
      assert d <= d + [name] && d + [name] != d;
      forall n | d + [n] <= d + [name] ensures n == name {
        assert (d + [n])[|d|] == (d + [name])[|d|];
      }
      ExistsIsEntry(middle, Target(r));
      if Exists(middle, Target(r + [name])) { ExistsIsEntry(middle, Target(r + [name])); }
    }

    lemma {:induction false} OneEntryFilled(before: Files, middle: Files, after: Files, more: seq<Made>,
                                            wasClean: bool, clean: bool, r: Path, name: string, root: Path,
                                            ancestors: set<Path>, done: set<string>)
      requires WellFormed(before) && WellFormed(middle) && Apart(root, targetCanonical)
      requires Grows(before, middle, targetCanonical) && Grows(middle, after, targetCanonical)
      requires EmptyAt(before, r) && Filled(before, middle, wasClean, r, root, ancestors, done) && name !in done
      requires Explained(middle, after, more, clean, r + [name], true, root, ancestors)
      ensures Filled(before, after, wasClean && clean, r, root, ancestors, done + {name})
    {
      hide RealWithin, WellFormed, Sound, Complete, Free;
      NextIsFree(before, middle, r, root, ancestors, done, wasClean, name);
      var d := Real(before, Target(r)).value;
      forall p | p in after && p !in before ensures exists n :: n in done + {name} && d + [n] <= p {
        if p in middle {
          var n :| n in done && d + [n] <= p;
          assert n in done + {name};
        } else {
          assert name in done + {name} && d + [name] <= p;
        }
      }
      if forall n | n in done + {name} :: Sound(before, r + [n], true, root, ancestors) {
        assert name in done + {name};
        SoundIsStable(before, middle, r + [name], true, root, ancestors);
        assert forall n | n in done :: n in done + {name};
      }
      if wasClean && clean {
        forall n | n in done + {name} ensures Sound(after, r + [n], true, root, ancestors) {
          if n != name { SoundIsStable(middle, after, r + [n], true, root, ancestors); }
        }
      }
    }

    lemma {:induction false} NothingTogether(before: Files, middle: Files, after: Files, earlier: seq<Made>,
                                             more: seq<Made>, wasClean: bool, clean: bool)
      requires Grows(before, middle, targetCanonical) && Grows(middle, after, targetCanonical)
      ensures Nothing(before, after, earlier + more, wasClean && clean) <==>
                Nothing(before, middle, earlier, wasClean) && Nothing(middle, after, more, clean)
    {
      if after == before { assert middle.Keys == before.Keys && middle == before; }
    }

    lemma {:induction false} OneEntryExplained(before: Files, middle: Files, after: Files, earlier: seq<Made>,
                                               more: seq<Made>, wasClean: bool, clean: bool, r: Path, name: string,
                                               root: Path, ancestors: set<Path>, done: set<string>)
      requires WellFormed(before) && WellFormed(middle) && Apart(root, targetCanonical) && name !in done
      requires Grows(before, middle, targetCanonical) && Grows(middle, after, targetCanonical)
      requires PartlyExplained(before, middle, earlier, wasClean, r, root, ancestors, done)
      requires Explained(middle, after, more, clean, r + [name], true, root, ancestors)
      ensures PartlyExplained(before, after, earlier + more, wasClean && clean, r, root, ancestors, done + {name})
    {
      hide RealWithin, WellFormed, Sound, Complete, Free, Filled, EmptyAt, Grows;
      NothingTogether(before, middle, after, earlier, more, wasClean, clean);
      if EmptyAt(before, r) {
        OneEntryFilled(before, middle, after, more, wasClean, clean, r, name, root, ancestors, done);
      }
      assert (forall n | n in done + {name} :: Complete(before, r + [n], root, ancestors)) <==>
             (forall n | n in done :: Complete(before, r + [n], root, ancestors))
               && Complete(before, r + [name], root, ancestors) by {
        assert name in done + {name} && forall n | n in done :: n in done + {name};
      }
    }

    /** What holds once the entries `done` of the directory `r` have been handled. */
    ghost predicate Handled(fs0: Files, made0: seq<Made>, blockers0: seq<Path>,
                            r: Path, input: Path, root: Path, ancestors: set<Path>, done: set<string>)
      reads this
    {
      && Valid() && made0 <= made && blockers0 <= blockers
      && Walkable(fs, r, input, root, ancestors) && Real(fs, Source(r)) == Real(fs0, Source(r))
      && PartlyReconciled(fs0, fs, made[|made0|..], blockers == blockers0, r, ancestors, done)
      && PartlyExplained(fs0, fs, made[|made0|..], blockers == blockers0, r, root, ancestors, done)
    }

    lemma {:induction false} EntryIsClear(before: Files, middle: Files, r: Path, name: string, input: Path, root: Path,
                                          ancestors: set<Path>)
      requires WellFormed(before) && Grows(before, middle, targetCanonical) && Clear(middle, r)
      requires Walkable(before, r, input, root, ancestors) && Plain(before, Source(r), ancestors - {Source(r)})
      requires name in Names(before, Real(before, Source(r)).value)
      ensures Clear(middle, r + [name])
    {
      hide RealWithin;
      PlainIsReal(before, Source(r), ancestors - {Source(r)});
      assert Source(r + [name]) == Source(r) + [name];
      forall s | (s <= r + [name] || r + [name] <= s) && Source(s) in middle && Target(s) in middle
        ensures middle[Target(s)] == middle[Source(s)]
      {
        assert s <= r || r <= s by { assert s <= r + [name] ==> s == r + [name] || s <= r; }
      }
    }

    lemma {:induction false} DirectoryStaysClear(before: Files, middle: Files, after: Files, earlier: seq<Made>,
                                                 more: seq<Made>, r: Path, name: string, input: Path, root: Path,
                                                 ancestors: set<Path>)
      requires WellFormed(before) && Progress(before, middle, earlier, r) && Clear(middle, r)
      requires Progress(middle, after, more, r + [name]) && OnlyCopies(more)
      requires Walkable(before, r, input, root, ancestors) && Plain(before, Source(r), ancestors - {Source(r)})
      ensures Clear(after, r)
    {
      hide RealWithin, Progress, Clear, Walkable, WellFormed;
      ProgressGrows(before, middle, earlier, r);
      PlainIsApart(before, r, input, root, ancestors, ancestors - {Source(r)});
      PlainIsStable(before, middle, r, ancestors - {Source(r)});
      ClearIsStable(middle, after, more, r + [name], r);
    }

    lemma {:induction false} EntryGrows(before: Files, middle: Files, after: Files, earlier: seq<Made>, more: seq<Made>,
                                        wasClean: bool, clean: bool, r: Path, name: string, input: Path, root: Path,
                                        ancestors: set<Path>, done: set<string>)
      requires PartlyReconciled(before, middle, earlier, wasClean, r, ancestors, done)
               && Walkable(before, r, input, root, ancestors)
      requires Reconciled(middle, after, more, clean, r + [name], ancestors)
      ensures Grows(before, middle, targetCanonical) && Grows(middle, after, targetCanonical) && WellFormed(middle)
      ensures Apart(root, targetCanonical)
    {
    }

    /** One pass of the loop of `reconcileExistingDirectory`. */
    method ReconcileName(r: Path, name: string, input: Path, root: Path, ancestors: set<Path>, ghost done: set<string>,
                         ghost fs0: Files, ghost made0: seq<Made>, ghost blockers0: seq<Path>)
      requires WellFormed(fs0) && Walkable(fs0, r, input, root, ancestors)
      requires name in Names(fs0, Real(fs0, Source(r)).value) && name !in done
      requires Handled(fs0, made0, blockers0, r, input, root, ancestors, done) && Real(fs, Source(r)).value in ancestors
      modifies this
      ensures Handled(fs0, made0, blockers0, r, input, root, ancestors, done + {name})
      ensures Directories(fs, root) == old(Directories(fs, root))
      decreases Directories(fs, root) - ancestors, 1
    {
      hide RealWithin, Real, Directories, Names, Walkable, WellFormed, CopiedPaths, LinkedPaths, PartlyReconciled,
        Reconciled;
      hide PartlyExplained, Explained;
      ghost var middle, second, earlier, wasClean := fs, |made|, made[|made0|..], blockers == blockers0;
      ReconcileEntry(r, name, input, root, ancestors);
      assert made[|made0|..] == earlier + made[second..];
      EntryGrows(fs0, middle, fs, earlier, made[second..], wasClean, blockers == old(blockers), r, name, input, root,
                 ancestors, done);
      OneEntryExplained(fs0, middle, fs, earlier, made[second..], wasClean, blockers == old(blockers), r, name, root,
                        ancestors, done);
      OneEntryMore(fs0, middle, fs, earlier, made[second..], wasClean, blockers == old(blockers), r, name, input, root,
                   ancestors, done);
    }

    lemma {:induction false} NothingExplained(fs: Files, r: Path, root: Path, ancestors: set<Path>)
      ensures PartlyExplained(fs, fs, [], true, r, root, ancestors, {})
    {
    }

    /** `reconcileExistingDirectory`: a directory whose real path is already among `ancestors`. */
    method ReconcileDirectory(r: Path, input: Path, root: Path, ancestors: set<Path>)
      requires Valid() && Walkable(fs, r, input, root, ancestors) && Real(fs, Source(r)).value in ancestors
      modifies this
      ensures Valid() && old(made) <= made && old(blockers) <= blockers
      ensures Progress(old(fs), fs, made[|old(made)|..], r)
      ensures blockers == old(blockers) ==>
                forall n | n in Names(old(fs), Real(old(fs), Source(r)).value) :: EntryExists(fs, Target(r + [n]))
      ensures Plain(old(fs), Source(r), ancestors - {Source(r)}) ==> OnlyCopies(made[|old(made)|..])
      ensures Plain(old(fs), Source(r), ancestors - {Source(r)}) && MirroredAt(old(fs), r) ==>
                (blockers == old(blockers) ==> MirroredBelow(fs, r))
      ensures Plain(old(fs), Source(r), ancestors - {Source(r)}) && MirroredBelow(old(fs), r) ==>
                Idle(old(fs), old(made), old(blockers))
      ensures Plain(old(fs), Source(r), ancestors - {Source(r)}) && Clear(old(fs), r) ==> blockers == old(blockers)
      ensures PartlyExplained(old(fs), fs, made[|old(made)|..], blockers == old(blockers), r, root, ancestors,
                              Names(old(fs), Real(old(fs), Source(r)).value))
      decreases Directories(fs, root) - ancestors, 2
    {
      hide MirroredBelow, MirroredAt, RealWithin, Plain, Progress, Grows, Directories, Names, Clear, PartlyExplained;
      ghost var fs0, made0, blockers0 := fs, made, blockers;
      var names := Names(fs, Real(fs, Source(r)).value);
      ghost var all, done := names, {};
      assert made[|made0|..] == [];
      NoProgressYet(fs, r);
      NothingExplained(fs, r, root, ancestors);
      while names != {}
        invariant names + done == all && names !! done
        invariant Handled(fs0, made0, blockers0, r, input, root, ancestors, done)
        invariant Directories(fs, root) == Directories(fs0, root)
      {
        var name :| name in names;
        ReconcileName(r, name, input, root, ancestors, done, fs0, made0, blockers0);
        names, done := names - {name}, done + {name};
      }
      if Plain(fs0, Source(r), ancestors - {Source(r)}) && MirroredAt(fs0, r) && blockers == blockers0 {
        ProgressGrows(fs0, fs, made[|made0|..], r);
        WalkedIsMirrored(fs0, fs, r, input, root, ancestors, ancestors - {Source(r)});
      }
    }

    /** One name of a directory. */
    method ReconcileEntry(parent: Path, name: string, input: Path, root: Path, ancestors: set<Path>)
      requires Valid() && Walkable(fs, parent, input, root, ancestors) && Real(fs, Source(parent)).value in ancestors
      modifies this
      ensures Valid() && old(made) <= made && old(blockers) <= blockers
      ensures Reconciled(old(fs), fs, made[|old(made)|..], blockers == old(blockers), parent + [name], ancestors)
      ensures Explained(old(fs), fs, made[|old(made)|..], blockers == old(blockers), parent + [name], true, root,
                        ancestors)
      decreases Directories(fs, root) - ancestors, 0
    {
      hide RealWithin, Progress, MirroredBelow, MirroredAt, WellFormed, Clear;
      var r := parent + [name];
      NoProgressYet(fs, r);
      assert made[|old(made)|..] == [];
      ghost var plain := Plain(fs, Source(r), ancestors);
      if plain { PlainIsReal(fs, Source(r), ancestors); PlainIsInside(fs, parent, name, input, root, ancestors); }
      if !Exists(fs, Source(r)) {
        AddBlocker(r);
        return;
      }
      RealIsEntry(fs, Source(r), MAX_LINKS);
      var canonical := Real(fs, Source(r)).value;
      if !(root <= canonical) {
        AddBlocker(r);
        return;
      }
      if fs[canonical].Directory? && canonical in ancestors {
        AddBlocker(r);
        return;
      }
      if Exists(fs, Target(r)) {
        ReconcileExisting(r, true, input, root, ancestors);
      } else {
        ReconcileMissing(r, true, input, root, ancestors);
      }
    }

    /** A recreated link. */
    lemma {:induction false} LinkIsExplained(before: Files, after: Files, more: seq<Made>, clean: bool,
                                             r: Path, input: Path, root: Path, ancestors: set<Path>)
      requires WellFormed(before) && Walkable(before, r, input, root, ancestors) && !Exists(before, Target(r))
      requires Grows(before, after, targetCanonical) && IsLink(before, Source(r))
      requires before[Real(before, Source(r)).value].Directory? ==> Real(before, Source(r)).value !in ancestors
      requires clean <==> Free(before, r)
      requires !clean ==> after == before && more == []
      requires clean ==> more != []
      requires clean && Exists(before, Parent(Target(r))) ==> NewAt(before, after, Entry(before, Target(r)).value)
      ensures Explained(before, after, more, clean, r, true, root, ancestors)
    {
      hide RealWithin, WellFormed, Free;
      SameKind(before, after, r);
      WalkableIsStable(before, after, r, input, root, ancestors);
    }

    /** A copied file. */
    lemma {:induction false} FileIsExplained(before: Files, after: Files, more: seq<Made>, clean: bool,
                                             r: Path, nested: bool, input: Path, root: Path, ancestors: set<Path>)
      requires WellFormed(before) && Walkable(before, r, input, root, ancestors) && !Exists(before, Target(r))
      requires Grows(before, after, targetCanonical) && !before[Real(before, Source(r)).value].Directory?
      requires clean <==> Free(before, r)
      requires !clean ==> after == before && more == []
      requires clean ==> more != []
      requires clean && Exists(before, Parent(Target(r))) ==> NewAt(before, after, Entry(before, Target(r)).value)
      ensures Explained(before, after, more, clean, r, nested, root, ancestors)
    {
      hide RealWithin, WellFormed, Free;
      WalkableIsStable(before, after, r, input, root, ancestors);
    }

    /** A directory made at a free place, and filled. */
    lemma {:induction false} DirectoryIsExplained(before: Files, middle: Files, after: Files, more: seq<Made>,
                                                  clean: bool, r: Path, nested: bool, input: Path, root: Path,
                                                  ancestors: set<Path>)
      requires WellFormed(before) && WellFormed(middle) && Walkable(before, r, input, root, ancestors)
      requires !Exists(before, Target(r)) && !EntryExists(before, Target(r)) && CanMake(before, Target(r))
      requires Grows(before, middle, targetCanonical) && Grows(middle, after, targetCanonical)
      requires IsOwnDirectory(middle, Target(r)) && IsEmptyDirectory(before, middle, Target(r))
               && OnlyLast(before, middle, Target(r))
      requires var c := Real(before, Source(r)).value; before[c].Directory? && c !in ancestors
      requires !(nested && IsLink(before, Source(r)))
      requires var c := Real(before, Source(r)).value;
               PartlyExplained(middle, after, more, clean, r, root, ancestors + {c}, Names(middle, c))
      ensures Explained(before, after, more, clean, r, nested, root, ancestors)
    {
      hide RealWithin, WellFormed, Sound, Complete, Names;
      var c := Real(before, Source(r)).value;
      FreeIfMakeable(before, r);
      MadeIsEmpty(before, middle, r);
      MissingIsIncomplete(before, r, root, ancestors);
      assert after != before by { assert Real(middle, Target(r)).value in after; }
      hide Complete, Free, EmptyAt, PartlyExplained, Grows, CanMake, IsEmptyDirectory, IsOwnDirectory, OnlyLast;
      DirectoryIsSound(before, middle, after, clean, r, nested, input, root, ancestors);
      FilledIsNew(before, middle, after, clean, r, root, ancestors + {c}, Names(middle, c));
    }

    lemma {:induction false} FreeIfMakeable(fs: Files, r: Path)
      requires !EntryExists(fs, Target(r))
      ensures Free(fs, r) <==> CanMake(fs, Target(r))
    {
    }

    lemma {:induction false} MissingIsIncomplete(fs: Files, r: Path, root: Path, ancestors: set<Path>)
      requires !Exists(fs, Target(r))
      ensures !Complete(fs, r, root, ancestors)
    {
    }

    lemma {:induction false} MadeIsEmpty(before: Files, middle: Files, r: Path)
      requires WellFormed(middle) && IsOwnDirectory(middle, Target(r)) && IsEmptyDirectory(before, middle, Target(r))
      ensures EmptyAt(middle, r)
    {
      hide RealWithin;
      var d := Real(middle, Target(r)).value;
      forall p | p in middle && d <= p ensures p == d {
        if p != d {
          assert d + [p[|d|]] <= p;
          AncestorExists(middle, d + [p[|d|]], p);
        }
      }
    }

    /** Whether its entries are sound decides for a directory. */
    lemma {:induction false} DirectoryIsSound(before: Files, middle: Files, after: Files, clean: bool,
                                              r: Path, nested: bool, input: Path, root: Path, ancestors: set<Path>)
      requires WellFormed(before) && WellFormed(middle) && Walkable(before, r, input, root, ancestors)
      requires Grows(before, middle, targetCanonical) && Grows(middle, after, targetCanonical)
      requires var c := Real(before, Source(r)).value; before[c].Directory? && c !in ancestors
      requires !(nested && IsLink(before, Source(r))) && Exists(middle, Target(r))
      requires var c := Real(before, Source(r)).value;
                 Filled(middle, after, clean, r, root, ancestors + {c}, Names(middle, c))
      ensures Sound(before, r, nested, root, ancestors) ==> clean
      ensures clean ==> Sound(after, r, nested, root, ancestors)
    {
      hide RealWithin, WellFormed;
      var c := Real(before, Source(r)).value;
      WalkableIsStable(before, middle, r, input, root, ancestors);
      WalkableIsStable(middle, after, r, input, root, ancestors);
      SameKind(before, middle, r);
      SameKind(middle, after, r);
      SameNames(before, middle, after, root, c);
      if Sound(before, r, nested, root, ancestors) {
        forall n | n in Names(middle, c) ensures Sound(middle, r + [n], true, root, ancestors + {c}) {
          SoundIsStable(before, middle, r + [n], true, root, ancestors + {c});
        }
      }
    }

    lemma {:induction false} SameNames(before: Files, middle: Files, after: Files, root: Path, c: Path)
      requires Grows(before, middle, targetCanonical) && Grows(middle, after, targetCanonical)
      requires Apart(root, targetCanonical) && root <= c
      ensures Names(before, c) == Names(middle, c) == Names(after, c)
    {
      forall n ensures n in Names(before, c) <==> n in Names(middle, c)
        ensures n in Names(middle, c) <==> n in Names(after, c)
      {
        assert root <= c + [n];
        ApartIsUntouched(before, middle, root, targetCanonical);
        ApartIsUntouched(middle, after, root, targetCanonical);
      }
    }

    /** All that is new is at the place of the directory or below it. */
    lemma {:induction false} FilledIsNew(before: Files, middle: Files, after: Files, clean: bool,
                                         r: Path, root: Path, ancestors: set<Path>, done: set<string>)
      requires OnlyLast(before, middle, Target(r)) && Exists(middle, Target(r))
      requires Filled(middle, after, clean, r, root, ancestors, done)
      ensures Exists(before, Parent(Target(r))) ==> NewAt(before, after, Entry(before, Target(r)).value)
    {
      hide RealWithin, Sound;
    }

    /** Nothing could be made. */
    lemma {:induction false} BlockedIsExplained(fs: Files, r: Path, nested: bool, root: Path, ancestors: set<Path>)
      requires !Complete(fs, r, root, ancestors)
      requires !Exists(fs, Target(r)) ==> !Free(fs, r) || !Sound(fs, r, nested, root, ancestors)
      ensures Explained(fs, fs, [], false, r, nested, root, ancestors)
    {
    }

    /** Something was there, which is right, or wrong, as the parts of it are. */
    lemma {:induction false} ExistingIsExplained(before: Files, after: Files, more: seq<Made>, clean: bool,
                                                 r: Path, nested: bool, root: Path, ancestors: set<Path>)
      requires WellFormed(before) && Exists(before, Target(r))
      requires Complete(before, r, root, ancestors) <==> Nothing(before, after, more, clean)
      ensures Explained(before, after, more, clean, r, nested, root, ancestors)
    {
      hide RealWithin, Complete, Sound;
      ExistsIsEntry(before, Target(r));
    }

    /**
     The target has nothing there: recreate the entry. A declared input itself is followed, a link
     inside one is not.
     */
    method ReconcileMissing(r: Path, nested: bool, input: Path, root: Path, ancestors: set<Path>)
      requires Valid() && Walkable(fs, r, input, root, ancestors) && !Exists(fs, Target(r))
      requires fs[Real(fs, Source(r)).value].Directory? ==> Real(fs, Source(r)).value !in ancestors
      modifies this
      ensures Valid() && old(made) <= made && old(blockers) <= blockers
      ensures nested && IsLink(old(fs), Source(r)) && blockers == old(blockers) ==> IsLink(fs, Target(r))
      ensures Reconciled(old(fs), fs, made[|old(made)|..], blockers == old(blockers), r, ancestors)
      ensures Explained(old(fs), fs, made[|old(made)|..], blockers == old(blockers), r, nested, root, ancestors)
      decreases Directories(fs, root) - ancestors, 0, 1
    {
      hide RealWithin, Progress, MadeFrom, WellFormed, Names, MirroredBelow, Clear;
      MissingIsUnsettled(fs, r);
      ghost var before, plain := fs, Plain(fs, Source(r), ancestors);
      if plain { PlainIsReal(fs, Source(r), ancestors); }
      if nested && IsLink(fs, Source(r)) {
        RecreateLink(r, input, root);
        ProgressGrows(before, fs, made[|old(made)|..], r);
        LinkIsExplained(before, fs, made[|old(made)|..], blockers == old(blockers), r, input, root, ancestors);
      } else if !fs[Real(fs, Source(r)).value].Directory? {
        CopyMissingFile(r);
        ProgressGrows(before, fs, made[|old(made)|..], r);
        FileIsExplained(before, fs, made[|old(made)|..], blockers == old(blockers), r, nested, input, root, ancestors);
        if plain && blockers == old(blockers) { FileIsMirrored(fs, r); }
      } else {
        ReconcileMissingDirectory(r, nested, input, root, ancestors);
      }
    }

    method ReconcileMissingDirectory(r: Path, ghost nested: bool, input: Path, root: Path, ancestors: set<Path>)
      requires Valid() && Walkable(fs, r, input, root, ancestors) && !Exists(fs, Target(r))
      requires var x := Real(fs, Source(r)).value; fs[x].Directory? && x !in ancestors
      requires !(nested && IsLink(fs, Source(r)))
      modifies this
      ensures Valid() && old(made) <= made && old(blockers) <= blockers
      ensures Reconciled(old(fs), fs, made[|old(made)|..], blockers == old(blockers), r, ancestors)
      ensures Explained(old(fs), fs, made[|old(made)|..], blockers == old(blockers), r, nested, root, ancestors)
      decreases Directories(fs, root) - ancestors, 0, 0
    {
      hide Explained, PartlyExplained, Complete, Sound, CanMake, IsEmptyDirectory, OnlyLast;
      hide RealWithin, Progress, MadeFrom, WellFormed, Grows, Names, MirroredBelow, OnTheWay, LeadsInside, Clear, Roomy,
        Unlinked;
      MissingIsUnsettled(fs, r);
      ghost var before, plain := fs, Plain(fs, Source(r), ancestors);
      var canonical := Real(fs, Source(r)).value;
      assert made[|old(made)|..] == [];
      NoProgressYet(fs, r);
      MissingIsIncomplete(fs, r, root, ancestors);
      if EntryExists(fs, Target(r)) {
        BlockedIsExplained(fs, r, nested, root, ancestors);
        AddBlocker(r);
        return;
      }
      FreeIfMakeable(fs, r);
      TargetLeadsInside(fs, r);
      if plain && Clear(fs, r) {
        PlainIsReal(fs, Source(r), ancestors);
        ClearHasRoom(fs, r);
      }
      var ok := CreateTargetDirectory(Target(r));
      if !ok {
        BlockedIsExplained(fs, r, nested, root, ancestors);
        AddBlocker(r);
        return;
      }
      WalkableIsStable(before, fs, r, input, root, ancestors);
      DirectoriesAreProgress(before, fs, Target(r), r);
      ghost var middle := fs;
      if plain {
        PlainIsReal(before, Source(r), ancestors);
        PlainIsStable(before, fs, r, ancestors);
        if Clear(before, r) { ClearIsStable(before, fs, [], r, r); }
      }
      ExistsIsEntry(middle, Target(r));
      ReconcileDirectory(r, input, root, ancestors + {canonical});
      ProgressGrows(middle, fs, made[|old(made)|..], r);
      EntriesAreStable(middle, fs, targetCanonical, Target(r));
      ProgressComposes(before, middle, fs, [], made[|old(made)|..], r, r, r);
      assert [] + made[|old(made)|..] == made[|old(made)|..];
      DirectoryIsExplained(before, middle, fs, made[|old(made)|..], blockers == old(blockers), r, nested, input, root,
                           ancestors);
    }

    /** The target has something there: it must be the same, inside the target. */
    method ReconcileExisting(r: Path, ghost nested: bool, input: Path, root: Path, ancestors: set<Path>)
      requires Valid() && Walkable(fs, r, input, root, ancestors) && Exists(fs, Target(r))
      requires fs[Real(fs, Source(r)).value].Directory? ==> Real(fs, Source(r)).value !in ancestors
      modifies this
      ensures Valid() && old(made) <= made && old(blockers) <= blockers
      ensures Reconciled(old(fs), fs, made[|old(made)|..], blockers == old(blockers), r, ancestors)
      ensures Explained(old(fs), fs, made[|old(made)|..], blockers == old(blockers), r, nested, root, ancestors)
      decreases Directories(fs, root) - ancestors, 0, 1
    {
      hide RealWithin, Progress, MadeFrom, Names, MirroredBelow, Clear, Explained, Sound, Free, Complete, CopiedPaths,
        LinkedPaths;
      NoProgressYet(fs, r);
      assert made[|old(made)|..] == [];
      if Clear(fs, r) { ClearThere(fs, r); }
      ghost var before, plain := fs, Plain(fs, Source(r), ancestors);
      if plain {
        PlainIsReal(fs, Source(r), ancestors);
        if MirroredBelow(fs, r) { MirroredHere(fs, r); }
      }
      RealIsEntry(fs, Target(r), MAX_LINKS);
      ExistsIsEntry(fs, Target(r));
      CompleteAlike(fs, r, root, ancestors);
      var canonical, existing := Real(fs, Source(r)).value, Real(fs, Target(r)).value;
      var isDirectory := fs[canonical].Directory?;
      if isDirectory == fs[existing].Directory? && targetCanonical <= existing {
        if isDirectory {
          ReconcileExistingDirectory(r, nested, input, root, ancestors);
          return;
        }
        if fs[existing] == fs[canonical] {
          if plain { FileIsMirrored(fs, r); }
          ExistingIsExplained(fs, fs, [], true, r, nested, root, ancestors);
          return;
        }
      }
      BlockedIsExplained(fs, r, nested, root, ancestors);
      AddBlocker(r);
    }

    method ReconcileExistingDirectory(r: Path, ghost nested: bool, input: Path, root: Path, ancestors: set<Path>)
      requires Valid() && Walkable(fs, r, input, root, ancestors) && Exists(fs, Target(r))
      requires var c, e := Real(fs, Source(r)).value, Real(fs, Target(r)).value;
               fs[c].Directory? && c !in ancestors && e in fs && fs[e].Directory? && targetCanonical <= e
      modifies this
      ensures Valid() && old(made) <= made && old(blockers) <= blockers
      ensures Reconciled(old(fs), fs, made[|old(made)|..], blockers == old(blockers), r, ancestors)
      ensures Explained(old(fs), fs, made[|old(made)|..], blockers == old(blockers), r, nested, root, ancestors)
      decreases Directories(fs, root) - ancestors, 0, 0
    {
      hide RealWithin, Progress, MadeFrom, Names, MirroredBelow, Clear, Explained, PartlyExplained, Sound, Free,
        Complete;
      ghost var before, plain := fs, Plain(fs, Source(r), ancestors);
      if plain { PlainIsReal(fs, Source(r), ancestors); }
      ExistsIsEntry(fs, Target(r));
      var canonical := Real(fs, Source(r)).value;
      ReconcileDirectory(r, input, root, ancestors + {canonical});
      ProgressGrows(before, fs, made[|old(made)|..], r);
      EntriesAreStable(before, fs, targetCanonical, Target(r));
      EntriesDecide(before, fs, made[|old(made)|..], blockers == old(blockers), r, root, ancestors);
      ExistingIsExplained(before, fs, made[|old(made)|..], blockers == old(blockers), r, nested, root, ancestors);
    }

    /** What is there on both sides is complete only if it is of one kind, and a file exactly if its bytes agree. */
    lemma {:induction false} CompleteAlike(fs: Files, r: Path, root: Path, ancestors: set<Path>)
      requires Exists(fs, Source(r)) && Exists(fs, Target(r))
      requires Real(fs, Source(r)).value in fs && Real(fs, Target(r)).value in fs && root <= Real(fs, Source(r)).value
      ensures var c, e := Real(fs, Source(r)).value, Real(fs, Target(r)).value;
              var alike := (fs[c].Directory? <==> fs[e].Directory?) && targetCanonical <= e;
              && (!alike ==> !Complete(fs, r, root, ancestors))
              && (alike && !fs[c].Directory? ==> (Complete(fs, r, root, ancestors) <==> fs[e] == fs[c]))
    {
    }

    /** A directory that is there on both sides is complete as its entries are. */
    lemma {:induction false} EntriesDecide(before: Files, after: Files, more: seq<Made>, clean: bool,
                                           r: Path, root: Path, ancestors: set<Path>)
      requires Exists(before, Source(r)) && Exists(before, Target(r))
      requires var c, e := Real(before, Source(r)).value, Real(before, Target(r)).value;
               && c in before && e in before && root <= c && targetCanonical <= e
               && before[c].Directory? && before[e].Directory? && c !in ancestors
               && PartlyExplained(before, after, more, clean, r, root, ancestors + {c}, Names(before, c))
      ensures Complete(before, r, root, ancestors) <==> Nothing(before, after, more, clean)
    {
      hide RealWithin;
    }

    // ----- A target inside an input

    /** Without links in the input, which the target is in, a name of the target is where it seems to be. */
    lemma {:induction false} InsideInput(fs: Files, r: Path, s: Path)
      requires WellFormed(fs) && Real(fs, targetDir) == Some(targetCanonical)
      requires LinkFree(fs, Source(r)) && Source(r) <= targetCanonical
      ensures Real(fs, Target(s)) == if targetCanonical + s in fs then Some(targetCanonical + s) else None
    {
      hide RealWithin;
      RealIsEntry(fs, targetDir, MAX_LINKS);
      PhysicalIsReal(fs, targetCanonical, MAX_LINKS);
      SameFrom(fs, targetDir, targetCanonical, s, MAX_LINKS);
      assert Source(r) <= targetCanonical + s;
      if targetCanonical + s in fs { PhysicalIsReal(fs, targetCanonical + s, MAX_LINKS); }
      if Real(fs, targetCanonical + s).Some? { InsideLinkFree(fs, Source(r), targetCanonical + s); }
    }

    /** Each counterpart then lies below the input again, as deep as the target more. */
    lemma {:induction false} LongerCounterpart(fs: Files, r: Path, n: nat) returns (s: Path)
      requires WellFormed(fs) && Real(fs, targetDir) == Some(targetCanonical)
      requires LinkFree(fs, Source(r)) && Source(r) <= targetCanonical && targetCanonical != projectDir
      requires MirroredBelow(fs, r)
      ensures r <= s && Source(s) in fs && |s| >= n
    {
      hide RealWithin, WellFormed;
      if n == 0 {
        s := r;
      } else {
        var shorter := LongerCounterpart(fs, r, n - 1);
        assert MirroredAt(fs, shorter);
        InsideInput(fs, r, shorter);
        var within := targetCanonical[|projectDir|..];
        assert targetCanonical == Source(within) && r <= within by {
          assert targetCanonical[..|projectDir|] == projectDir && Source(r) == targetCanonical[..|projectDir| + |r|];
        }
        s := within + shorter;
        assert Source(s) == targetCanonical + shorter;
      }
    }

    /**
     No file system holds an input together with its mirror in a target inside it, unless the target is the
     project: creating directories only makes more to walk.
     */
    lemma {:induction false} NeverMirroredInside(fs: Files, r: Path)
      requires WellFormed(fs) && Real(fs, targetDir) == Some(targetCanonical)
      requires LinkFree(fs, Source(r)) && Source(r) <= targetCanonical
      ensures MirroredBelow(fs, r) <==> targetCanonical == projectDir
    {
      if targetCanonical == projectDir {
        forall s | r <= s && Source(s) in fs ensures MirroredAt(fs, s) {
          InsideInput(fs, r, s);
          assert Source(r) <= Source(s);
        }
      } else if MirroredBelow(fs, r) {
        var n := LengthBound(fs.Keys);
        var s := LongerCounterpart(fs, r, n);
      }
    }

    // ----- The declared inputs

    ghost predicate LinkFreeInput(fs: Files, input: Input) {
      input.onlyOnBase || LinkFree(fs, Source(input.path))
    }

    /** Nothing is left to do: Git has the input, or the target mirrors it. */
    ghost predicate Settled(fs: Files, input: Input) {
      input.onlyOnBase || (!input.escapes && MirroredBelow(fs, input.path))
    }

    /** Git has the input, or nothing in the target stands in its way. */
    ghost predicate ClearInput(fs: Files, input: Input) {
      input.onlyOnBase || (!input.escapes && Clear(fs, input.path))
    }

    /** Git has the input, or nothing is left to do for it, whatever links there are. */
    ghost predicate CompleteInput(fs: Files, input: Input) {
      input.onlyOnBase ||
      (!input.escapes && Exists(fs, Source(input.path))
       && Complete(fs, input.path, Real(fs, Source(input.path)).value, {}))
    }

    /** An input the target has nothing of adds no blocker if its place is free and its source sound, and then only. */
    ghost predicate StartsAnew(before: Files, after: Files, clean: bool, input: Input) {
      !input.onlyOnBase && !input.escapes && Exists(before, Source(input.path))
        && !Exists(before, Target(input.path)) ==>
        var r, root := input.path, Real(before, Source(input.path)).value;
        && (clean ==> Free(before, r) && Sound(after, r, false, root, {}))
        && (Free(before, r) && Sound(before, r, false, root, {}) ==> clean)
    }

    /** The source of an input is apart from the target, or it is missing for a reason outside the target. */
    ghost predicate Reachable(fs: Files, input: Input) {
      input.onlyOnBase ||
      if Exists(fs, Source(input.path)) then Apart(Real(fs, Source(input.path)).value, targetCanonical)
      else BreaksOff(fs, Source(input.path), targetCanonical, MAX_LINKS)
    }

    ghost predicate Declared(m: Made, inputs: seq<Input>) {
      exists i | i in inputs :: !i.onlyOnBase && i.path <= m.path
    }

    lemma {:induction false} InputIsStable(before: Files, after: Files, input: Input)
      requires WellFormed(before) && Grows(before, after, targetCanonical) && Reachable(before, input)
      ensures Reachable(after, input)
      ensures LinkFreeInput(before, input) ==> LinkFreeInput(after, input)
      ensures LinkFreeInput(before, input) && Settled(before, input) ==> Settled(after, input)
    {
      hide RealWithin, BreaksOff;
      if !input.onlyOnBase {
        if Exists(before, Source(input.path)) {
          RealIsStable(before, after, targetCanonical, Source(input.path), MAX_LINKS);
        } else {
          MissingIsStable(before, after, targetCanonical, Source(input.path), MAX_LINKS);
        }
        if LinkFreeInput(before, input) {
          PlainIsReal(before, Source(input.path), {});
          PlainIsStable(before, after, input.path, {});
          if Settled(before, input) { MirroredIsStable(before, after, input.path); }
        }
      }
    }

    /** One declared input; a source that cannot be read, or a path that leaves the worktree, is a blocker. */
    method ReconcileInput(input: Input)
      requires Valid() && (!input.onlyOnBase && Exists(fs, Source(input.path)) ==>
                           Apart(Real(fs, Source(input.path)).value, targetCanonical))
      modifies this
      ensures Valid() && old(made) <= made && old(blockers) <= blockers
      ensures InputDone(old(fs), fs, made[|old(made)|..], blockers == old(blockers), input)
      ensures StartsAnew(old(fs), fs, blockers == old(blockers), input)
    {
      hide RealWithin, Progress, MadeFrom, WellFormed, Grows, MirroredBelow, Clear, Complete, Sound, Free;
      var r := input.path;
      assert made[|old(made)|..] == [];
      NoProgressYet(fs, r);
      if input.onlyOnBase { return; }
      if LinkFree(fs, Source(r)) { PlainIsReal(fs, Source(r), {}); }
      if input.escapes || !Exists(fs, Source(r)) {
        AddBlocker(r);
        return;
      }
      RealIsEntry(fs, Source(r), MAX_LINKS);
      var root := Real(fs, Source(r)).value;
      if Exists(fs, Target(r)) {
        ReconcileExisting(r, false, r, root, {});
      } else {
        if MirroredBelow(fs, r) && LinkFree(fs, Source(r)) { MirroredHere(fs, r); }
        ReconcileMissing(r, false, r, root, {});
      }
    }

    lemma {:induction false} MirroredHere(fs: Files, r: Path)
      requires MirroredBelow(fs, r) && Source(r) in fs
      ensures MirroredAt(fs, r) && Exists(fs, Target(r))
    {
    }

    /** What handling one input did: it created `more`, and added no blocker if `clean`. */
    ghost predicate InputDone(before: Files, after: Files, more: seq<Made>, clean: bool, input: Input) {
      && Progress(before, after, more, input.path)
      && (input.onlyOnBase ==> Nothing(before, after, more, clean))
      && (!input.onlyOnBase && clean ==> Exists(before, Source(input.path)) && EntryExists(after, Target(input.path)))
      && (CompleteInput(before, input) <==> Nothing(before, after, more, clean))
      && (LinkFreeInput(before, input) ==>
           && OnlyCopies(more)
           && (clean ==> Settled(after, input))
           && (Settled(before, input) ==> Nothing(before, after, more, clean))
           && (ClearInput(before, input) ==> clean))
    }

    /** The same for the inputs `done` among `inputs`. */
    ghost predicate InputsDone(fs0: Files, after: Files, more: seq<Made>, clean: bool, inputs: seq<Input>,
                               done: seq<Input>) {
      && Progress(fs0, after, more, [])
      && (forall i | i in inputs :: Reachable(after, i) && (LinkFreeInput(fs0, i) ==> LinkFreeInput(after, i)))
      && (forall m | m in more :: Declared(m, done))
      && ((forall i | i in done :: CompleteInput(fs0, i)) <==> Nothing(fs0, after, more, clean))
      && (clean ==> forall i | i in done && !i.onlyOnBase ::
          Exists(after, Source(i.path)) && EntryExists(after, Target(i.path)))
      && ((forall i | i in inputs :: LinkFreeInput(fs0, i)) ==>
           && OnlyCopies(more)
           && (clean ==> forall i | i in done :: Settled(after, i))
           && ((forall i | i in inputs :: Settled(fs0, i)) ==> Nothing(fs0, after, more, clean))
           && ((forall i | i in inputs :: ClearInput(fs0, i)) ==> clean && forall i | i in inputs ::
               ClearInput(after, i)))
    }

    lemma {:induction false} OneInputMore(fs0: Files, middle: Files, after: Files, earlier: seq<Made>, more: seq<Made>,
                                          wasClean: bool, clean: bool, inputs: seq<Input>, done: seq<Input>,
                                          input: Input)
      requires WellFormed(fs0) && input in inputs && (forall i | i in done :: i in inputs)
      requires InputsDone(fs0, middle, earlier, wasClean, inputs, done) && InputDone(middle, after, more, clean, input)
      ensures InputsDone(fs0, after, earlier + more, wasClean && clean, inputs, done + [input])
    {
      hide RealWithin, MadeFrom, WellFormed, LinkFreeInput, Settled, ClearInput, Progress, Declared, Reachable;
      hide EntryExists, Real, BreaksOff, CompleteInput, StartsAnew, Grows;
      InputsProgress(fs0, middle, after, earlier, more, inputs, done, input);
      NothingYet(fs0, middle, after, earlier, more, input.path);
      OneInputComplete(fs0, done, input);
      if forall i | i in inputs :: LinkFreeInput(fs0, i) && ClearInput(middle, i) {
        InputsStayClear(fs0, middle, after, earlier, more, inputs, input.path);
      }
    }

    /** What holds once the inputs `done` have been handled. */
    ghost predicate InputsHandled(fs0: Files, made0: seq<Made>, blockers0: seq<Path>, inputs: seq<Input>,
                                  done: seq<Input>)
      reads this
    {
      && Valid() && made0 <= made && blockers0 <= blockers
      && InputsDone(fs0, fs, made[|made0|..], blockers == blockers0, inputs, done)
    }

    lemma {:induction false} InputsProgress(fs0: Files, middle: Files, after: Files, earlier: seq<Made>,
                                            more: seq<Made>, inputs: seq<Input>, done: seq<Input>, input: Input)
      requires WellFormed(fs0) && Progress(fs0, middle, earlier, []) && Progress(middle, after, more, input.path)
      requires input.onlyOnBase ==> more == []
      requires forall i | i in inputs :: Reachable(middle, i) && (LinkFreeInput(fs0, i) ==> LinkFreeInput(middle, i))
      requires forall m | m in earlier :: Declared(m, done)
      ensures Progress(fs0, after, earlier + more, [])
      ensures forall i | i in inputs :: Reachable(after, i) && (LinkFreeInput(middle, i) ==> LinkFreeInput(after, i))
      ensures forall i | i in inputs && LinkFreeInput(middle, i) && Settled(middle, i) :: Settled(after, i)
      ensures forall i | i in done && EntryExists(middle, Target(i.path)) :: EntryExists(after, Target(i.path))
      ensures forall i | i in done && Exists(middle, Source(i.path)) :: Exists(after, Source(i.path))
      ensures Exists(middle, Source(input.path)) ==> Exists(after, Source(input.path))
      ensures forall m | m in earlier + more :: Declared(m, done + [input])
    {
      hide RealWithin, MadeFrom, WellFormed, Reachable, LinkFreeInput, Settled;
      ProgressGrows(fs0, middle, earlier, []);
      ProgressGrows(middle, after, more, input.path);
      ProgressComposes(fs0, middle, after, earlier, more, [], [], input.path);
      forall i | i in inputs
        ensures Reachable(after, i) && (LinkFreeInput(middle, i) ==> LinkFreeInput(after, i))
        ensures LinkFreeInput(middle, i) && Settled(middle, i) ==> Settled(after, i)
      {
        InputIsStable(middle, after, i);
      }
      forall i | i in done && EntryExists(middle, Target(i.path)) ensures EntryExists(after, Target(i.path)) {
        EntriesAreStable(middle, after, targetCanonical, Target(i.path));
      }
      forall i | i in done + [input] && Exists(middle, Source(i.path)) ensures Exists(after, Source(i.path)) {
        RealIsStable(middle, after, targetCanonical, Source(i.path), MAX_LINKS);
      }
      assert input in done + [input];
      forall m | m in earlier + more ensures Declared(m, done + [input]) {
        if m in earlier {
          var i :| i in done && !i.onlyOnBase && i.path <= m.path;
          assert i in done + [input];
        } else {
          assert input in done + [input];
        }
      }
    }

    lemma {:induction false} InputsStayClear(fs0: Files, middle: Files, after: Files, earlier: seq<Made>,
                                             more: seq<Made>, inputs: seq<Input>, path: Path)
      requires WellFormed(fs0) && Progress(fs0, middle, earlier, []) && Progress(middle, after, more, path)
               && OnlyCopies(more)
      requires forall i | i in inputs :: Reachable(middle, i) && LinkFreeInput(middle, i) && ClearInput(middle, i)
      ensures forall i | i in inputs :: ClearInput(after, i)
    {
      hide RealWithin, Progress, WellFormed, Clear, BreaksOff;
      ProgressGrows(fs0, middle, earlier, []);
      forall i | i in inputs ensures ClearInput(after, i) {
        if !i.onlyOnBase {
          PlainIsReal(middle, Source(i.path), {});
          ClearIsStable(middle, after, more, path, i.path);
        }
      }
    }

    lemma {:induction false} NothingYet(fs0: Files, middle: Files, after: Files, earlier: seq<Made>, more: seq<Made>,
                                        path: Path)
      requires Progress(fs0, middle, earlier, []) && Progress(middle, after, more, path)
      ensures after == fs0 ==> middle == fs0
    {
      ProgressGrows(fs0, middle, earlier, []);
      ProgressGrows(middle, after, more, path);
      NothingTogether(fs0, middle, after, [], [], true, true);
    }

    lemma {:induction false} OneInputComplete(fs0: Files, done: seq<Input>, input: Input)
      ensures (forall i | i in done + [input] :: CompleteInput(fs0, i)) <==>
                (forall i | i in done :: CompleteInput(fs0, i)) && CompleteInput(fs0, input)
    {
      assert input in done + [input] && forall i | i in done :: i in done + [input];
    }

    method ReconcileNext(input: Input, ghost inputs: seq<Input>, ghost done: seq<Input>,
                         ghost fs0: Files, ghost made0: seq<Made>, ghost blockers0: seq<Path>)
      requires WellFormed(fs0) && input in inputs && (forall i | i in done :: i in inputs)
      requires InputsHandled(fs0, made0, blockers0, inputs, done)
      modifies this
      ensures InputsHandled(fs0, made0, blockers0, inputs, done + [input])
    {
      hide RealWithin, WellFormed, Real, CopiedPaths, LinkedPaths, InputDone, InputsDone, StartsAnew, Reachable,
        BreaksOff;
      ghost var middle, second, earlier, wasClean := fs, |made|, made[|made0|..], blockers == blockers0;
      InputIsApart(fs0, middle, earlier, wasClean, inputs, done, input);
      ReconcileInput(input);
      assert made[|made0|..] == earlier + made[second..];
      OneInputMore(fs0, middle, fs, earlier, made[second..], wasClean, blockers == old(blockers), inputs, done, input);
    }

    lemma {:induction false} InputIsApart(fs0: Files, after: Files, more: seq<Made>, clean: bool,
                                          inputs: seq<Input>, done: seq<Input>, input: Input)
      requires InputsDone(fs0, after, more, clean, inputs, done) && input in inputs
      ensures !input.onlyOnBase && Exists(after, Source(input.path)) ==>
                Apart(Real(after, Source(input.path)).value, targetCanonical)
    {
    }

    /** `reconcileInputs`, for inputs in any order. */
    method ReconcileInputs(inputs: seq<Input>)
      requires Valid() && forall i | i in inputs :: Reachable(fs, i)
      modifies this
      ensures InputsHandled(old(fs), old(made), old(blockers), inputs, inputs)
    {
      hide Progress, Reachable, LinkFreeInput, Settled, ClearInput, CompleteInput;
      assert made[|old(made)|..] == [];
      NoProgressYet(fs, []);
      for n := 0 to |inputs|
        invariant InputsHandled(old(fs), old(made), old(blockers), inputs, inputs[..n])
      {
        ReconcileNext(inputs[n], inputs, inputs[..n], old(fs), old(made), old(blockers));
        assert inputs[..n] + [inputs[n]] == inputs[..n + 1];
      }
      assert inputs[..|inputs|] == inputs;
    }
  }

  /** For link-free inputs, a run without blockers leaves nothing for a second one. */
  method ReconcileTwice(fs: Files, projectDir: Path, targetDir: Path, inputs: seq<Input>)
    returns (first: Reconciliation, second: Reconciliation)
    requires WellFormed(fs) && Exists(fs, targetDir)
    requires forall i | i in inputs && !i.onlyOnBase ::
               LinkFree(fs, projectDir + i.path) && Apart(projectDir + i.path, Real(fs, targetDir).value)
    ensures Grows(fs, first.fs, Real(fs, targetDir).value)
    ensures first.blockers == [] ==> forall i | i in inputs :: first.Settled(first.fs, i)
    ensures first.blockers == [] ==> second.fs == first.fs && second.copies == second.links == second.blockers == []
    // In a target without links, it has no blockers exactly if nothing there stands in the way.
    ensures first.projectDir == projectDir && first.targetDir == targetDir
    ensures first.Unlinked(fs) ==> (first.blockers == [] <==> forall i | i in inputs :: first.ClearInput(fs, i))
  {
    hide RealWithin, Reconciliation.MirroredBelow, Reconciliation.Progress, WellFormed;
    first := new Reconciliation(fs, projectDir, targetDir);
    forall i | i in inputs ensures first.Reachable(fs, i) && first.LinkFreeInput(fs, i) {
      if !i.onlyOnBase { PlainIsReal(fs, first.Source(i.path), {}); }
    }
    hide Reconciliation.Reachable, Reconciliation.LinkFreeInput, Reconciliation.Settled;
    first.ReconcileInputs(inputs);
    first.ProgressGrows(fs, first.fs, first.made, []);
    second := new Reconciliation(first.fs, projectDir, targetDir);
    forall i | i in inputs
      ensures second.Reachable(first.fs, i) && second.LinkFreeInput(first.fs, i)
      ensures first.Settled(first.fs, i) ==> second.Settled(first.fs, i)
    {
      SameQuestions(first, second, first.fs, i);
    }
    second.ReconcileInputs(inputs);
    if first.Unlinked(fs) && first.blockers == [] {
      forall i | i in inputs ensures first.ClearInput(fs, i) {
        SettledWasClear(first, fs, first.fs, i);
      }
    }
  }

  /** What is mirrored in the end had nothing standing in its way. */
  lemma {:induction false} SettledWasClear(job: Reconciliation, before: Files, after: Files, input: Input)
    requires WellFormed(before) && WellFormed(after) && Grows(before, after, job.targetCanonical)
    requires job.Unlinked(before) && job.LinkFreeInput(before, input) && job.Settled(after, input)
    ensures job.ClearInput(before, input)
  {
    hide RealWithin;
    if !input.onlyOnBase {
      var r := input.path;
      forall s | (s <= r || r <= s) && job.Source(s) in before && job.Target(s) in before
        ensures before[job.Target(s)] == before[job.Source(s)]
      {
        job.InUnlinked(before, job.Target(s));
        RealIsStable(before, after, job.targetCanonical, job.Target(s), MAX_LINKS);
        if r <= s {
          assert job.MirroredAt(after, s);
          assert job.Source(r) <= job.Source(s);
        } else {
          assert job.MirroredAt(after, r);
          job.OnTheWayIsDirectory(after, s, r);
        }
      }
    }
  }

  lemma {:induction false} SameQuestions(a: Reconciliation, b: Reconciliation, fs: Files, input: Input)
    requires a.projectDir == b.projectDir && a.targetDir == b.targetDir && a.targetCanonical == b.targetCanonical
    ensures a.Reachable(fs, input) == b.Reachable(fs, input)
    ensures a.LinkFreeInput(fs, input) == b.LinkFreeInput(fs, input)
    ensures a.Settled(fs, input) == b.Settled(fs, input)
  {
    hide RealWithin;
    forall s ensures a.MirroredAt(fs, s) == b.MirroredAt(fs, s) {
    }
  }
}
