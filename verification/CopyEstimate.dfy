/**
 `estimateInputCopyBytes` of `src/cli-ship-setup.ts`: the bytes a reconciliation may
 copy, computed before any worktree or copy exists, and compared here with what
 `reconcileInputs` then writes.
 */
module CopyEstimate {
  import opened Wrappers
  import opened Paths
  import opened WorktreeFiles
  import opened InputReconciliation

  ghost predicate Under(s: Path, scope: set<Path>) {
    exists p :: p in scope && p <= s
  }

  ghost function Sum(files: map<Path, nat>): nat {
    if files == map[] then 0
    else
      var k :| k in files;
      files[k] + Sum(files - {k})
  }

  lemma {:induction false} SumWithout(files: map<Path, nat>, k: Path)
    requires k in files
    ensures Sum(files) == files[k] + Sum(files - {k})
    decreases |files|
  {
    var first :| first in files && Sum(files) == files[first] + Sum(files - {first});
    if first != k {
      SumWithout(files - {first}, k);
      SumWithout(files - {k}, first);
      assert files - {first} - {k} == files - {k} - {first};
    }
  }

  class InputEstimate {
    const fs: Files
    const projectDir: Path
    const targetDir: Path
    /** The size of a link, which is recreated and not followed. */
    const linkBytes: nat
    var files: map<Path, nat>

    constructor (fs: Files, projectDir: Path, targetDir: Path, linkBytes: nat)
      ensures this.fs == fs && this.projectDir == projectDir && this.targetDir == targetDir && files == map[]
    {
      this.fs, this.projectDir, this.targetDir, this.linkBytes, files := fs, projectDir, targetDir, linkBytes, map[];
    }

    function Source(r: Path): Path {
      projectDir + r
    }

    function Target(r: Path): Path {
      targetDir + r
    }

    /** A file of the project that the target has no entry for. */
    ghost predicate Missing(r: Path) {
      Source(r) in fs && fs[Source(r)].File? && !EntryExists(fs, Target(r))
    }

    /** Every destination counted is missing, and counted at its size. */
    ghost predicate Exact()
      reads this
    {
      forall r | r in files :: Missing(r) && files[r] == |fs[Source(r)].bytes|
    }

    /** The missing files below `scope` have been added, and no other destination. */
    ghost predicate Gathered(files0: map<Path, nat>, scope: set<Path>)
      reads this
    {
      Exact() && forall r :: r in files <==> r in files0 || (Missing(r) && Under(r, scope))
    }

    /** `count`: a destination met twice is counted once. */
    method Count(r: Path, bytes: nat)
      modifies this`files
      ensures files == old(files)[r := if r in old(files) && old(files)[r] > bytes then old(files)[r] else bytes]
    {
      files := files[r := if r in files && files[r] > bytes then files[r] else bytes];
    }

    /** A source free of links, inside the input's root. */
    ghost predicate Inside(r: Path, root: Path, ancestors: set<Path>) {
      Plain(fs, Source(r), ancestors) && root <= Source(r)
    }

    lemma {:induction false} InsideChild(r: Path, name: string, root: Path, ancestors: set<Path>)
      requires Inside(r, root, ancestors - {Source(r)}) && Source(r) + [name] in fs
      ensures Inside(r + [name], root, ancestors)
    {
      assert Source(r + [name]) == Source(r) + [name];
      PlainChild(fs, Source(r), name, ancestors);
    }

    lemma {:induction false} FileIsAlone(r: Path)
      requires WellFormed(fs) && Source(r) in fs && fs[Source(r)].File?
      ensures forall s | Missing(s) && Under(s, {r}) :: s == r
    {
      forall s | Missing(s) && Under(s, {r}) ensures s == r {
        AncestorExists(fs, Source(r), Source(s));
        assert Source(s) == Source(r) ==> s == r by {
          assert Source(s)[|projectDir|..] == s && Source(r)[|projectDir|..] == r;
        }
      }
    }

    /** What is missing below a directory is missing below one of its entries. */
    lemma {:induction false} DirectoryIsItsEntries(r: Path)
      requires WellFormed(fs) && Source(r) in fs && fs[Source(r)].Directory?
      ensures forall s | Missing(s) ::
                Under(s, {r}) <==> Under(s, set n | n in Names(fs, Source(r)) :: r + [n])
    {
      hide RealWithin, Names, WellFormed, EntryExists;
      var scope := set n | n in Names(fs, Source(r)) :: r + [n];
      forall s | Missing(s) ensures Under(s, {r}) <==> Under(s, scope) {
        if Under(s, {r}) {
          var p :| p in {r} && p <= s;
          assert p == r && fs[Source(s)] != fs[Source(r)];
          assert |s| == |r| ==> s == r;
          assert Source(s)[|Source(r)|] == s[|r|];
          BelowAnEntry(fs, Source(r), Source(s));
          assert r + [s[|r|]] in scope;
        }
        if Under(s, scope) {
          var p :| p in scope && p <= s;
          assert r in {r} && r <= s;
        }
      }
    }

    /** `add`: false where the source refuses to estimate. */
    method Add(r: Path, root: Path, ancestors: set<Path>, explicit: bool) returns (ok: bool)
      requires WellFormed(fs) && ancestors <= Directories(fs, root)
      modifies this`files
      ensures Inside(r, root, ancestors) && old(Exact()) ==> ok && Gathered(old(files), {r})
      decreases Directories(fs, root) - ancestors, 1
    {
      hide RealWithin, WellFormed;
      ghost var plain := Inside(r, root, ancestors);
      if plain { PlainIsReal(fs, Source(r), ancestors); }
      RealIsEntry(fs, Source(r), MAX_LINKS);
      if !Exists(fs, Source(r)) { return false; }
      if !explicit && IsLink(fs, Source(r)) && !Exists(fs, Target(r)) {
        Count(r, linkBytes);
        return true;
      }
      var canonical := Real(fs, Source(r)).value;
      if !(root <= canonical) { return false; }
      if fs[canonical].Directory? {
        if canonical in ancestors { return false; }
        if plain { DirectoryIsItsEntries(r); }
        ok := AddEntries(r, root, ancestors + {canonical}, canonical);
      } else {
        if plain { FileIsAlone(r); }
        if !EntryExists(fs, Target(r)) { Count(r, |fs[canonical].bytes|); }
        assert plain && Missing(r) ==> Under(r, {r});
        return true;
      }
    }

    method AddEntries(r: Path, root: Path, ancestors: set<Path>, canonical: Path) returns (ok: bool)
      requires WellFormed(fs) && ancestors <= Directories(fs, root)
      requires Real(fs, Source(r)) == Some(canonical) && canonical in ancestors && canonical in fs
      modifies this`files
      ensures Inside(r, root, ancestors - {canonical}) && old(Exact()) ==>
                ok && Gathered(old(files), set n | n in Names(fs, Source(r)) :: r + [n])
      decreases Directories(fs, root) - ancestors, 2
    {
      hide RealWithin, WellFormed, Missing, Names;
      ghost var plain := Inside(r, root, ancestors - {canonical});
      if plain { PlainIsReal(fs, Source(r), ancestors - {canonical}); }
      var names := Names(fs, canonical);
      ghost var done: set<string> := {};
      ghost var scope: set<Path> := {};
      while names != {}
        invariant names + done == Names(fs, canonical)
        invariant scope == set n | n in done :: r + [n]
        invariant plain && old(Exact()) ==> Gathered(old(files), scope)
      {
        var name :| name in names;
        if plain { InsideChild(r, name, root, ancestors); }
        ghost var middle := files;
        ok := Add(r + [name], root, ancestors, false);
        if !ok { return; }
        if plain && old(Exact()) { GatheredTogether(old(files), middle, scope, {r + [name]}); }
        names, done, scope := names - {name}, done + {name}, scope + {r + [name]};
      }
      return true;
    }

    lemma {:induction false} GatheredTogether(files0: map<Path, nat>, files1: map<Path, nat>, scope: set<Path>,
                                              more: set<Path>)
      requires forall r :: r in files1 <==> r in files0 || (Missing(r) && Under(r, scope))
      requires Gathered(files1, more)
      ensures Gathered(files0, scope + more)
    {
      forall r ensures Under(r, scope + more) <==> Under(r, scope) || Under(r, more) {
        if Under(r, scope) { var p :| p in scope && p <= r; assert p in scope + more; }
        if Under(r, more) { var p :| p in more && p <= r; assert p in scope + more; }
      }
    }

    /** The declared inputs that are read from the project. */
    ghost function Roots(inputs: seq<Input>): set<Path> {
      set i | i in inputs && !i.onlyOnBase :: i.path
    }

    /** `estimateInputCopyBytes`: none where it refuses. */
    method Estimate(inputs: seq<Input>) returns (ok: bool)
      requires WellFormed(fs) && files == map[]
      modifies this`files
      ensures (forall r | r in Roots(inputs) :: LinkFree(fs, Source(r))) ==> ok && Gathered(map[], Roots(inputs))
    {
      hide RealWithin, WellFormed, Missing;
      ghost var plain := forall r | r in Roots(inputs) :: LinkFree(fs, Source(r));
      for n := 0 to |inputs|
        invariant plain ==> Gathered(map[], Roots(inputs[..n]))
      {
        var r := inputs[n].path;
        ghost var middle := files;
        assert Roots(inputs[..n + 1]) == Roots(inputs[..n]) + if inputs[n].onlyOnBase then {} else {r};
        if !inputs[n].onlyOnBase {
          if plain {
            assert inputs[n] in inputs && r in Roots(inputs);
            PlainIsReal(fs, Source(r), {});
          }
          if !Exists(fs, Source(r)) { return false; }
          ok := Add(r, Real(fs, Source(r)).value, {}, true);
          if !ok { return; }
          if plain { GatheredTogether(map[], middle, Roots(inputs[..n]), {r}); }
        }
      }
      assert inputs[..|inputs|] == inputs;
      return true;
    }

    method Total() returns (bytes: nat)
      ensures bytes == Sum(files)
    {
      bytes := 0;
      var rest := files;
      while rest.Keys != {}
        invariant bytes + Sum(rest) == Sum(files)
        decreases |rest|
      {
        var r :| r in rest.Keys;
        SumWithout(rest, r);
        bytes, rest := bytes + rest[r], rest - {r};
      }
    }
  }

  // ----- What reconciliation then writes

  /** The bytes of the files a reconciliation created. */
  ghost function Written(fs: Files, made: seq<Made>): nat {
    if made == [] then 0
    else
      var m := made[|made| - 1];
      Written(fs, made[..|made| - 1]) + if m.Copied? && m.place in fs && fs[m.place].File? then |fs[m.place].bytes|
        else 0
  }

  /** The destinations of `made` are counted, each at the size written there, and differ. */
  ghost predicate Priced(fs: Files, made: seq<Made>, files: map<Path, nat>) {
    && (forall m | m in made ::
          && m.Copied? && m.place in fs && fs[m.place].File?
          && m.path in files && files[m.path] == |fs[m.place].bytes|)
    && (forall i, j | 0 <= i < j < |made| :: made[i].path != made[j].path)
  }

  ghost predicate Covered(r: Path, made: seq<Made>) {
    exists m :: m in made && m.path == r
  }

  /** The estimate exceeds what is written by the sizes counted and not written. */
  lemma {:induction false} WrittenIsCovered(fs: Files, made: seq<Made>, files: map<Path, nat>)
    requires Priced(fs, made, files)
    ensures Written(fs, made) <= Sum(files)
    ensures Written(fs, made) == Sum(files) <==> forall r | r in files && files[r] > 0 :: Covered(r, made)
    decreases |made|
  {
    if made == [] {
      AllZero(files);
    } else {
      var rest, m := made[..|made| - 1], made[|made| - 1];
      assert m in made;
      assert forall x | x in rest :: x in made && x.path != m.path;
      WrittenIsCovered(fs, rest, files - {m.path});
      SumWithout(files, m.path);
      forall r ensures Covered(r, made) <==> Covered(r, rest) || r == m.path {
      }
    }
  }

  lemma {:induction false} AllZero(files: map<Path, nat>)
    ensures Sum(files) == 0 <==> forall r | r in files :: files[r] == 0
    decreases |files|
  {
    if files != map[] {
      var k :| k in files;
      SumWithout(files, k);
      var rest := files - {k};
      AllZero(rest);
      assert forall r :: r in files <==> r in rest || r == k;
      assert forall r | r in rest :: rest[r] == files[r];
    }
  }

  // ----- The estimate against the copy

  /** `estimate` was made on a state that `start` extends elsewhere than in the sources, all of them free of links. */
  ghost predicate Prepared(estimate: InputEstimate, job: Reconciliation, start: Files, inputs: seq<Input>,
                           elsewhere: Path)
    reads estimate
  {
    && estimate.projectDir == job.projectDir && estimate.targetDir == job.targetDir
    && WellFormed(estimate.fs) && Grows(estimate.fs, start, elsewhere)
    && (forall r | r in estimate.Roots(inputs) ::
          LinkFree(estimate.fs, job.Source(r)) && Apart(job.Source(r), elsewhere)
            && Apart(job.Source(r), job.targetCanonical))
    && estimate.Gathered(map[], estimate.Roots(inputs))
  }

  /** A run of `job` from `start`, over link-free inputs. */
  ghost predicate Ran(job: Reconciliation, start: Files, after: Files, made: seq<Made>, inputs: seq<Input>) {
    job.Progress(start, after, made, []) && OnlyCopies(made) && forall m | m in made :: job.Declared(m, inputs)
  }

  lemma {:induction false} CopyWasCounted(estimate: InputEstimate, job: Reconciliation, start: Files, after: Files,
                                          made: seq<Made>, inputs: seq<Input>, elsewhere: Path, m: Made)
    requires Prepared(estimate, job, start, inputs, elsewhere) && Ran(job, start, after, made, inputs) && m in made
    ensures m.place in after && after[m.place].File? && Real(after, job.Target(m.path)) == Some(m.place)
    ensures m.path in estimate.files && estimate.files[m.path] == |after[m.place].bytes|
  {
    hide RealWithin, WellFormed;
    var input :| input in inputs && !input.onlyOnBase && input.path <= m.path;
    var r := input.path;
    assert r in estimate.Roots(inputs) && job.Source(r) <= job.Source(m.path);
    SourceIsKept(job, estimate.fs, start, after, r, elsewhere);
    InsideLinkFree(after, job.Source(r), job.Source(m.path));
    if EntryExists(estimate.fs, job.Target(m.path)) {
      EntriesAreStable(estimate.fs, start, elsewhere, job.Target(m.path));
      EntriesAreStable(start, after, job.targetCanonical, job.Target(m.path));
    }
    assert Under(m.path, estimate.Roots(inputs));
    FileIsReal(after, job.Target(m.path), m.place);
  }

  /** The tree below a source reads the same before and after. */
  lemma {:induction false} SourceIsKept(job: Reconciliation, before: Files, start: Files, after: Files, r: Path,
                                        elsewhere: Path)
    requires Grows(before, start, elsewhere) && Grows(start, after, job.targetCanonical)
    requires Apart(job.Source(r), elsewhere) && Apart(job.Source(r), job.targetCanonical)
    ensures forall p | job.Source(r) <= p :: p in after <==> p in before
    ensures forall p | job.Source(r) <= p && p in before :: after[p] == before[p]
    ensures LinkFree(before, job.Source(r)) ==> LinkFree(after, job.Source(r))
  {
    ApartIsUntouched(before, start, job.Source(r), elsewhere);
    ApartIsUntouched(start, after, job.Source(r), job.targetCanonical);
  }

  /**
   However the inputs overlap, and whatever the target has gained since: the copy writes no more
   than was estimated.
   */
  lemma {:induction false} EstimateIsABound(estimate: InputEstimate, job: Reconciliation, start: Files, after: Files,
                                            made: seq<Made>, inputs: seq<Input>, elsewhere: Path)
    requires Prepared(estimate, job, start, inputs, elsewhere) && Ran(job, start, after, made, inputs)
    ensures Priced(after, made, estimate.files)
    ensures Written(after, made) <= Sum(estimate.files)
  {
    hide Prepared, RealWithin, WellFormed;
    forall m | m in made
      ensures m.Copied? && m.place in after && after[m.place].File?
      ensures m.path in estimate.files && estimate.files[m.path] == |after[m.place].bytes|
      ensures Real(after, job.Target(m.path)) == Some(m.place)
    {
      CopyWasCounted(estimate, job, start, after, made, inputs, elsewhere, m);
    }
    forall i, j | 0 <= i < j < |made| ensures made[i].path != made[j].path {
      assert made[i] in made && made[j] in made && made[i].place != made[j].place;
    }
    WrittenIsCovered(after, made, estimate.files);
  }

  /** No two destinations counted, the first of them not empty, are one place in the target. */
  ghost predicate PlacesDiffer(estimate: InputEstimate)
    reads estimate
  {
    forall a, b | a in estimate.files && b in estimate.files && a != b && estimate.files[a] > 0 ::
      Place(estimate.fs, estimate.Target(a)) != Place(estimate.fs, estimate.Target(b))
  }

  /** Where a destination counted ends up: in a file the run created, at the place it had before. */
  lemma {:induction false} DestinationLands(estimate: InputEstimate, job: Reconciliation, after: Files,
                                            made: seq<Made>, inputs: seq<Input>, k: Path) returns (m: Made)
    requires Prepared(estimate, job, estimate.fs, inputs, job.targetCanonical)
             && Ran(job, estimate.fs, after, made, inputs)
    requires (forall i | i in inputs :: job.Settled(after, i)) && k in estimate.files
    ensures m in made && Place(estimate.fs, estimate.Target(k)) == Some(m.place)
            && Real(after, job.Target(k)) == Some(m.place)
    ensures m.place in after && after[m.place].File? && estimate.files[k] == |after[m.place].bytes|
  {
    hide RealWithin, WellFormed, LinkFree, PlaceWithin;
    var before := estimate.fs;
    var r :| r in estimate.Roots(inputs) && r <= k;
    var input :| input in inputs && !input.onlyOnBase && input.path == r;
    assert job.Source(r) <= job.Source(k);
    assert job.MirroredAt(after, k);
    var x := Real(after, job.Target(k)).value;
    RealIsPlace(after, job.Target(k), MAX_LINKS);
    forall q | q in after && q !in before ensures !after[q].Link? {
      if !after[q].Directory? { CreatedIsAFile(job, before, after, made, q); }
    }
    PlaceIsStable(before, after, job.targetCanonical, job.Target(k), MAX_LINKS);
    if x in before {
      PlaceIsReal(before, job.Target(k), MAX_LINKS);
      ExistsIsEntry(before, job.Target(k));
    }
    m :| m in made && m.place == x;
  }

  lemma {:induction false} CreatedIsAFile(job: Reconciliation, before: Files, after: Files, made: seq<Made>, q: Path)
    requires job.Progress(before, after, made, []) && OnlyCopies(made) && q in after && q !in before
             && !after[q].Directory?
    ensures after[q].File?
  {
    var m :| m in made && m.place == q;
    assert job.MadeFrom(after, m);
  }

  /**
   On the state it was made on, and for a run without blockers, the estimate is the bytes
   written exactly when no two destinations are one place: links inside the target decide.
   */
  lemma {:induction false} EstimateIsExact(estimate: InputEstimate, job: Reconciliation, after: Files,
                                           made: seq<Made>, inputs: seq<Input>)
    requires Prepared(estimate, job, estimate.fs, inputs, job.targetCanonical)
             && Ran(job, estimate.fs, after, made, inputs)
    requires forall i | i in inputs :: job.Settled(after, i)
    ensures Written(after, made) == Sum(estimate.files) <==> PlacesDiffer(estimate)
  {
    hide RealWithin, WellFormed, LinkFree, PlaceWithin, Prepared, Ran, Written, Sum;
    var files := estimate.files;
    EstimateIsABound(estimate, job, estimate.fs, after, made, inputs, job.targetCanonical);
    WrittenIsCovered(after, made, files);
    if PlacesDiffer(estimate) {
      forall k | k in files && files[k] > 0 ensures Covered(k, made) {
        var m := DestinationLands(estimate, job, after, made, inputs, k);
        var _ := DestinationLands(estimate, job, after, made, inputs, m.path);
        CopyLands(estimate, job, after, made, inputs, m);
        assert Place(estimate.fs, estimate.Target(k)) == Place(estimate.fs, estimate.Target(m.path));
      }
    }
    if forall k | k in files && files[k] > 0 :: Covered(k, made) {
      forall a, b | a in files && b in files && a != b && files[a] > 0
        ensures Place(estimate.fs, estimate.Target(a)) != Place(estimate.fs, estimate.Target(b))
      {
        var m := DestinationLands(estimate, job, after, made, inputs, a);
        var n := DestinationLands(estimate, job, after, made, inputs, b);
        if m.place == n.place {
          var c :| c in made && c.path == a;
          var d :| d in made && d.path == b;
          CopyLands(estimate, job, after, made, inputs, c);
          CopyLands(estimate, job, after, made, inputs, d);
          OncePerPlace(job, estimate.fs, after, made, inputs, c, d);
        }
      }
    }
  }

  lemma {:induction false} CopyLands(estimate: InputEstimate, job: Reconciliation, after: Files,
                                     made: seq<Made>, inputs: seq<Input>, m: Made)
    requires Prepared(estimate, job, estimate.fs, inputs, job.targetCanonical)
             && Ran(job, estimate.fs, after, made, inputs) && m in made
    ensures Real(after, job.Target(m.path)) == Some(m.place)
  {
    CopyWasCounted(estimate, job, estimate.fs, after, made, inputs, job.targetCanonical, m);
  }

  lemma {:induction false} OncePerPlace(job: Reconciliation, before: Files, after: Files, made: seq<Made>,
                                        inputs: seq<Input>, c: Made, d: Made)
    requires Ran(job, before, after, made, inputs) && c in made && d in made && c.place == d.place
    ensures c == d
  {
    var i, j :| 0 <= i < |made| && made[i] == c && 0 <= j < |made| && made[j] == d;
    assert forall a, b | 0 <= a < |made| && 0 <= b < |made| && a != b :: made[a].place != made[b].place;
    assert i == j;
  }

  /** Estimate on one state, then copy on one that the target may have grown to in between. */
  method EstimateAndReconcile(before: Files, start: Files, projectDir: Path, targetDir: Path, inputs: seq<Input>,
                              linkBytes: nat)
    returns (bytes: nat, estimate: InputEstimate, job: Reconciliation)
    requires WellFormed(before) && WellFormed(start) && Exists(start, targetDir)
    requires Grows(before, start, Real(start, targetDir).value)
    requires forall i | i in inputs && !i.onlyOnBase ::
               LinkFree(before, projectDir + i.path) && Apart(projectDir + i.path, Real(start, targetDir).value)
    ensures bytes == Sum(estimate.files) && Written(job.fs, job.made) <= bytes
    ensures estimate.fs == before && estimate.targetDir == targetDir
    ensures before == start && job.blockers == [] ==> (Written(job.fs, job.made) == bytes <==> PlacesDiffer(estimate))
  {
    hide RealWithin, WellFormed, LinkFree, Sum, Written, PlacesDiffer;
    var target := Real(start, targetDir).value;
    estimate := new InputEstimate(before, projectDir, targetDir, linkBytes);
    var estimated := estimate.Estimate(inputs);
    bytes := estimate.Total();
    job := new Reconciliation(start, projectDir, targetDir);
    forall i | i in inputs ensures job.Reachable(start, i) && job.LinkFreeInput(start, i) {
      if !i.onlyOnBase {
        LinkFreeIsKept(before, start, projectDir + i.path, target);
        InsideLinkFree(start, projectDir + i.path, projectDir + i.path);
      }
    }
    job.ReconcileInputs(inputs);
    assert job.made[0..] == job.made;
    EstimateIsABound(estimate, job, start, job.fs, job.made, inputs, target);
    if before == start && job.blockers == [] {
      EstimateIsExact(estimate, job, job.fs, job.made, inputs);
    }
  }

  lemma {:induction false} LinkFreeIsKept(before: Files, start: Files, root: Path, target: Path)
    requires WellFormed(start) && LinkFree(before, root) && Grows(before, start, target) && Apart(root, target)
    ensures LinkFree(start, root) && Exists(start, root)
  {
    ApartIsUntouched(before, start, root, target);
    PhysicalIsReal(start, root, MAX_LINKS);
  }

  /** A target whose directory `b` leads to its directory `a`, where the project has both. */
  function LinkedTarget(): Files {
    map[[] := Directory, ["p"] := Directory, ["p", "a"] := Directory, ["p", "b"] := Directory,
        ["p", "a", "f"] := File([7]), ["p", "b", "f"] := File([7]),
        ["t"] := Directory, ["t", "a"] := Directory, ["t", "b"] := Link(["t", "a"])]
  }

  lemma {:induction false} DirectoryOfLinkedTarget(n: nat)
    ensures RealWithin(LinkedTarget(), ["t"], n) == Some(["t"])
            && RealWithin(LinkedTarget(), ["t", "a"], n) == Some(["t", "a"])
  {
    hide RealWithin;
    var fs, top: Path := LinkedTarget(), [];
    TopIsReal(fs, n);
    assert top + ["t"] == ["t"] && ["t"] + ["a"] == ["t", "a"];
    StepInto(fs, top, "t", n);
    assert RealWithin(fs, ["t"], n) == Some(["t"]);
    StepInto(fs, ["t"], "a", n);
    assert RealWithin(fs, ["t", "a"], n) == Some(["t", "a"]);
  }

  lemma {:induction false} OnePlaceInLinkedTarget()
    ensures Place(LinkedTarget(), ["t", "a", "f"]) == Place(LinkedTarget(), ["t", "b", "f"]) == Some(["t", "a", "f"])
    ensures Exists(LinkedTarget(), ["t", "a"]) && Exists(LinkedTarget(), ["t", "b"])
    ensures Entry(LinkedTarget(), ["t", "a", "f"]) == Entry(LinkedTarget(), ["t", "b", "f"]) == Some(["t", "a", "f"])
  {
    var fs, a: Path, b: Path := LinkedTarget(), ["t", "a"], ["t", "b"];
    DirectoryOfLinkedTarget(MAX_LINKS);
    DirectoryOfLinkedTarget(MAX_LINKS - 1);
    assert Parent(["t", "a", "f"]) == a && Parent(["t", "b", "f"]) == b && Parent(b) == ["t"];
    assert ["t"] + ["b"] == b && a + ["f"] == ["t", "a", "f"];
    assert RealWithin(fs, b, MAX_LINKS) == FollowEntry(fs, b, MAX_LINKS) == RealWithin(fs, a, MAX_LINKS - 1);
    RealIsPlace(fs, a, MAX_LINKS);
    RealIsPlace(fs, b, MAX_LINKS);
  }

  /** There the two files are one place, so the estimate counts a copy that is not made. */
  lemma {:induction false} LinkedTargetIsOverestimated(estimate: InputEstimate)
    requires estimate.fs == LinkedTarget() && estimate.projectDir == ["p"] && estimate.targetDir == ["t"]
    requires estimate.Gathered(map[], {[]})
    ensures estimate.files.Keys >= {["a", "f"], ["b", "f"]} && !PlacesDiffer(estimate)
  {
    hide RealWithin, PlaceWithin, Place, Entry;
    OnePlaceInLinkedTarget();
    assert ["p"] + ["a", "f"] == ["p", "a", "f"] && ["p"] + ["b", "f"] == ["p", "b", "f"];
    assert ["t"] + ["a", "f"] == ["t", "a", "f"] && ["t"] + ["b", "f"] == ["t", "b", "f"];
    var top: Path := [];
    assert top in {top} && top <= ["a", "f"] && top <= ["b", "f"];
    assert Under(["a", "f"], {top}) && Under(["b", "f"], {top});
    assert estimate.Missing(["a", "f"]) && estimate.Missing(["b", "f"]);
    assert ["a", "f"][0] != ["b", "f"][0];
    assert estimate.files[["a", "f"]] == 1;
  }
}
