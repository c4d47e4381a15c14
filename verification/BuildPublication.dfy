/**
 `publishBuildOutputs` of `src/build-manifest.ts`: two live directory trees are
 replaced entry by entry, with the manifest as the commit record.

 Every atomic file-system step appends the new state to `history`, so a claim
 about `history` is a claim about every state an interruption can leave.
 */
module BuildPublication {
  import opened Wrappers
  import opened Paths
  import opened BuildTrees

  /** The live roots, and the private staging directory the payload was copied to. */
  datatype Disk = Disk(live: Tree, staged: Tree)

  ghost predicate WellFormedDisk(d: Disk) {
    WellFormed(d.live) && WellFormed(d.staged)
  }

  /** What publishing the staged subtree at `p` may leave at path `q`, at any instant. */
  ghost predicate SafeAt(d: Disk, before: Disk, p: Path, q: Path) {
    if p <= q then
      // nothing but the old or the new entry is ever seen,
      && (q in d.live ==>
            || (q in before.live && d.live[q] == before.live[q])
            || (q in before.staged && d.live[q] == before.staged[q]))
      // a path that keeps its kind never disappears,
      && (q in before.live && q in before.staged && before.live[q].Directory? == before.staged[q].Directory? ==>
          q in d.live)
      // and no staged file is lost.
      && (q in before.staged && !before.staged[q].Directory? ==>
            || (q in d.staged && d.staged[q] == before.staged[q])
            || (q in d.live && d.live[q] == before.staged[q]))
    else
      && (q in before.live ==> q in d.live && d.live[q] == before.live[q])
      && (q in d.live && q !in before.live ==> q <= p && d.live[q].Directory?)
      && Same(d.staged, before.staged, q)
  }

  ghost predicate Safe(d: Disk, before: Disk, p: Path) {
    && WellFormedDisk(d)
    && forall q: Path :: SafeAt(d, before, p, q)
  }

  /** `d` is `before` with some entries below `p` already removed. */
  ghost predicate PartlyRemoved(d: Disk, before: Disk, p: Path) {
    && WellFormedDisk(d)
    && d.staged == before.staged
    && (forall q | q in d.live :: q in before.live && d.live[q] == before.live[q])
    && (forall q | q in before.live && !(p <= q) :: q in d.live)
  }

  /** `d` is `before` with some missing directories on the way to `p` created. */
  ghost predicate Extended(d: Disk, before: Disk, p: Path) {
    && WellFormedDisk(d)
    && d.staged == before.staged
    && (forall q | q in before.live :: q in d.live && d.live[q] == before.live[q])
    && (forall q | q in d.live && q !in before.live :: q <= p && d.live[q] == Directory)
  }

  function Below(t: Tree, p: Path): (s: set<Path>)
    ensures forall q :: q in s <==> q in t && p < q
  {
    set q | q in t.Keys && p < q
  }

  lemma {:induction false} DeepestEntry(t: Tree, s: set<Path>) returns (leaf: Path)
    requires s != {} && s <= t.Keys
    requires forall q, r :: q in s && r in t && q < r ==> r in s
    ensures leaf in s && forall r | r in t :: !(leaf < r)
  {
    var q :| q in s;
    leaf := q;
    var above := set r | r in s && q < r;
    if r :| r in t && q < r {
      assert r in above && q !in above;
      assert above < s;
      leaf := DeepestEntry(t, above);
    }
  }

  lemma {:induction false} NameOfDescendant(t: Tree, p: Path, q: Path)
    requires WellFormed(t) && q in t && p <= q && |q| > |p|
    ensures p + [q[|p|]] in t && p + [q[|p|]] <= q
  {
    if p + [q[|p|]] != q {
      PrefixIsDirectory(t, p + [q[|p|]], q);
    }
  }

  lemma {:induction false} SafeReflexive(d: Disk, p: Path)
    requires WellFormedDisk(d)
    ensures Safe(d, d, p)
  {
  }

  /** A safe state of the publication of one member is a safe state of the whole publication. */
  lemma {:induction false} SafeLifts(d: Disk, mid: Disk, before: Disk, p: Path, n: string)
    requires Safe(mid, before, p) && Safe(d, mid, p + [n])
    requires p in mid.live
    requires forall q | p + [n] <= q :: Same(mid.live, before.live, q) && Same(mid.staged, before.staged, q)
    ensures Safe(d, before, p)
  {
    forall q: Path ensures SafeAt(d, before, p, q) {
      assert SafeAt(d, mid, p + [n], q);
      assert SafeAt(mid, before, p, q);
      if p + [n] <= q {
        assert Same(mid.live, before.live, q) && Same(mid.staged, before.staged, q);
      } else if q <= p + [n] {
        assert q <= p;
        if q != p { PrefixIsDirectory(mid.live, q, p); }
      }
    }
  }

  /** Removing what the new tree has no place for is safe. */
  lemma {:induction false} RemovalIsSafe(d: Disk, mid: Disk, before: Disk, p: Path, r: Path)
    requires Safe(mid, before, p) && PartlyRemoved(d, mid, r) && p <= r
    requires WellFormedDisk(before)
    requires r in before.live && r in before.staged ==> before.live[r].Directory? != before.staged[r].Directory?
    requires forall q | r <= q :: Same(mid.staged, before.staged, q)
    ensures Safe(d, before, p)
  {
    forall q: Path ensures SafeAt(d, before, p, q) {
      assert SafeAt(mid, before, p, q);
      if r <= q {
        assert Same(mid.staged, before.staged, q);
        if q in before.live && q in before.staged && q != r {
          PrefixIsDirectory(before.live, r, q);
          PrefixIsDirectory(before.staged, r, q);
        }
      }
    }
  }

  lemma {:induction false} LeafRemoval(t: Tree, leaf: Path)
    requires WellFormed(t) && leaf != [] && forall r | r in t :: !(leaf < r)
    ensures WellFormed(t - {leaf})
  {
    forall q | q in t - {leaf} && q != [] ensures Parent(q) in t - {leaf} && t[Parent(q)].Directory? {
      assert Parent(q) < q && q in t;
    }
  }

  lemma {:induction false} LeafRemoved(d: Disk, before: Disk, p: Path, leaf: Path)
    requires PartlyRemoved(d, before, p) && p <= leaf && leaf != [] && forall r | r in d.live :: !(leaf < r)
    ensures PartlyRemoved(d.(live := d.live - {leaf}), before, p)
  {
    LeafRemoval(d.live, leaf);
  }

  /** Every missing ancestor of `p`, and `p` itself, can be created: nothing in the way is a file or a link. */
  ghost predicate CanHold(t: Tree, p: Path) {
    if p in t then t[p].Directory? else p != [] && CanHold(t, Parent(p))
  }

  lemma {:induction false} OneMoreDirectory(d: Disk, before: Disk, p: Path)
    requires p != [] && p !in d.live
    requires Extended(d, before, Parent(p)) && Parent(p) in d.live && d.live[Parent(p)].Directory?
    ensures Extended(d.(live := d.live[p := Directory]), before, p)
  {
    var live := d.live[p := Directory];
    forall q | q in live && q != [] ensures Parent(q) in live && live[Parent(q)].Directory? {
      assert q != p ==> q in d.live;
    }
  }

  lemma {:induction false} ExtendedFurther(d: Disk, before: Disk, p: Path)
    requires p != [] && Extended(d, before, Parent(p))
    ensures Extended(d, before, p)
  {
    forall q | q in d.live && q !in before.live ensures q <= p {
      assert q <= Parent(p);
    }
  }

  /** While `p` is being published: the members in `gone` are removed, those in `done` are new, the rest is old. */
  ghost predicate Progress(d: Disk, before: Disk, p: Path, gone: set<string>, done: set<string>) {
    && Safe(d, before, p)
    && p in d.live && d.live[p].Directory?
    && Same(d.staged, before.staged, p)
    && forall q | p < q :: MemberProgress(d, before, q[|p|] in gone, q[|p|] in done, q)
  }

  ghost predicate MemberProgress(d: Disk, before: Disk, gone: bool, done: bool, q: Path) {
    && (if done then Same(d.live, before.staged, q) else if gone then q !in d.live else Same(d.live, before.live, q))
    && (if done then q in d.staged ==> Same(d.staged, before.staged, q) else Same(d.staged, before.staged, q))
  }

  lemma {:induction false} StaleMemberRemoved(d: Disk, mid: Disk, before: Disk, p: Path, gone: set<string>,
                                              name: string)
    requires Progress(mid, before, p, gone, {}) && Safe(d, before, p)
    requires PartlyRemoved(d, mid, p + [name]) && forall q | p + [name] <= q :: q !in d.live
    ensures Progress(d, before, p, gone + {name}, {})
  {
    assert p in d.live by { assert !(p + [name] <= p); }
    forall q | p < q ensures MemberProgress(d, before, q[|p|] in gone + {name}, q[|p|] in {}, q) {
      assert MemberProgress(mid, before, q[|p|] in gone, q[|p|] in {}, q);
      assert q[|p|] == name <==> p + [name] <= q;
    }
  }

  lemma {:induction false} MemberPublishedAt(d: Disk, mid: Disk, before: Disk, p: Path, gone: bool, done: bool,
                                             name: string, q: Path)
    requires p < q && SafeAt(d, mid, p + [name], q)
    requires MemberProgress(mid, before, gone, done, q)
    requires q[|p|] == name ==>
               !gone && !done && Same(d.live, mid.staged, q)
               && (q in d.staged ==> Same(d.staged, mid.staged, q))
    ensures MemberProgress(d, before, gone, done || q[|p|] == name, q)
  {
    if q[|p|] != name {
      assert !(p + [name] <= q) by { assert (p + [name])[|p|] == name; }
      assert !(q <= p + [name]) by { assert |q| == |p| + 1 ==> q[|p|] != (p + [name])[|p|]; }
    }
  }

  lemma {:induction false} MemberPublished(d: Disk, mid: Disk, before: Disk, p: Path, gone: set<string>,
                                           done: set<string>, name: string)
    requires Progress(mid, before, p, gone, done) && Safe(d, before, p) && Safe(d, mid, p + [name])
    requires name !in gone && name !in done
    requires forall q | p + [name] <= q ::
               Same(d.live, mid.staged, q) && (q in d.staged ==> Same(d.staged, mid.staged, q))
    ensures Progress(d, before, p, gone, done + {name})
  {
    assert SafeAt(d, mid, p + [name], p);
    forall q | p < q ensures MemberProgress(d, before, q[|p|] in gone, q[|p|] in done + {name}, q) {
      assert MemberProgress(mid, before, q[|p|] in gone, q[|p|] in done, q);
      assert q[|p|] == name ==> p + [name] <= q;
      assert SafeAt(d, mid, p + [name], q);
      MemberPublishedAt(d, mid, before, p, q[|p|] in gone, q[|p|] in done, name, q);
    }
  }

  /** Once every old name is gone or replaced and every new name is done, the two trees agree. */
  lemma {:induction false} PublicationComplete(d: Disk, before: Disk, p: Path, gone: set<string>, done: set<string>)
    requires WellFormedDisk(before) && Progress(d, before, p, gone, done)
    requires p in before.staged && before.staged[p].Directory?
    requires done == Names(before.staged, p)
    requires p in before.live && before.live[p].Directory? ==> gone == Names(before.live, p) - done
    ensures forall q | p <= q :: Same(d.live, before.staged, q) && (q in d.staged ==> Same(d.staged, before.staged, q))
  {
    forall q | p < q ensures Same(d.live, before.staged, q) && (q in d.staged ==> Same(d.staged, before.staged, q)) {
      assert MemberProgress(d, before, q[|p|] in gone, q[|p|] in done, q);
      if q in before.staged { NameOfDescendant(before.staged, p, q); }
      if q in before.live {
        NameOfDescendant(before.live, p, q);
        PrefixIsDirectory(before.live, p, q);
      }
    }
    forall q | p <= q ensures Same(d.live, before.staged, q) && (q in d.staged ==> Same(d.staged, before.staged, q)) {
      assert q == p || p < q;
    }
  }

  /** Creating the destination directory, after a file or link in its place was removed, is safe. */
  lemma {:induction false} OpeningIsSafe(d: Disk, mid: Disk, before: Disk, p: Path)
    requires Safe(mid, before, p) && Extended(d, mid, p)
    requires p in before.staged && before.staged[p].Directory?
    ensures Safe(d, before, p)
  {
    forall q: Path ensures SafeAt(d, before, p, q) {
      assert SafeAt(mid, before, p, q);
      if p <= q && q <= p { assert q == p; }
    }
  }

  /** Once no file or link is at `p`, a directory can be made there just if one could hold it. */
  lemma {:induction false} HoldsLikeParent(mid: Disk, before: Disk, p: Path)
    requires WellFormedDisk(before) && p != []
    requires (mid == before && (p in before.live ==> before.live[p].Directory?))
             || (PartlyRemoved(mid, before, p) && p in before.live && p !in mid.live)
    ensures CanHold(mid.live, p) <==> CanHold(before.live, Parent(p))
  {
    if mid != before { assert !(p <= Parent(p)); }
  }

  lemma {:induction false} OpenedIsProgress(d: Disk, mid: Disk, before: Disk, p: Path)
    requires WellFormedDisk(before) && Safe(d, before, p) && Extended(d, mid, p)
    requires p in d.live && d.live[p].Directory?
    requires mid.staged == before.staged
    requires mid == before || (PartlyRemoved(mid, before, p) && p in before.live && !before.live[p].Directory?)
    ensures Progress(d, before, p, {}, {})
  {
    forall q | p < q ensures MemberProgress(d, before, q[|p|] in {}, q[|p|] in {}, q) {
      if q in before.live && mid != before { PrefixIsDirectory(before.live, p, q); }
    }
  }

  lemma {:induction false} NothingBelow(t: Tree, p: Path)
    requires WellFormed(t) && (p in t ==> !t[p].Directory?)
    ensures forall q | p < q :: q !in t
  {
    forall q | p < q ensures q !in t {
      if q in t { PrefixIsDirectory(t, p, q); }
    }
  }

  /** The renaming step itself. */
  lemma {:induction false} FilePlacementIsSafe(mid: Disk, before: Disk, p: Path)
    requires Safe(mid, before, p) && p != [] && p in mid.staged && !mid.staged[p].Directory?
    requires mid.staged == before.staged
    requires p in mid.live ==> !mid.live[p].Directory?
    requires Parent(p) in mid.live && mid.live[Parent(p)].Directory?
    ensures var d := Disk(mid.live[p := mid.staged[p]], mid.staged - {p});
            Safe(d, before, p) && forall q | p <= q :: Same(d.live, before.staged, q) && q !in d.staged
  {
    var d := Disk(mid.live[p := mid.staged[p]], mid.staged - {p});
    NothingBelow(mid.live, p);
    NothingBelow(mid.staged, p);
    LeafRemoval(mid.staged, p);
    forall q | q in d.live && q != [] ensures Parent(q) in d.live && d.live[Parent(q)].Directory? {
      assert Parent(q) != p || p < q;
    }
    forall q: Path ensures SafeAt(d, before, p, q) {
      assert SafeAt(mid, before, p, q);
    }
    forall q | p <= q ensures Same(d.live, before.staged, q) && q !in d.staged {
      assert q == p || p < q;
    }
  }

  const EMPTY: Tree := map[[] := Directory]

  /** Where the commit record waits, beside the staged roots. */
  const COMMIT: Path := [".flowcrew-build-manifest.json"]

  /** `copyBuildPayload` succeeds in copying: real roots, and regular files where it writes and removes. */
  predicate CanStage(sources: Tree, withUi: bool) {
    && DIST in sources && sources[DIST].Directory?
    && (withUi ==> UI in sources)
    && (MANIFEST in sources ==> sources[MANIFEST].File?)
    && (BUILD_INFO in sources ==> !sources[BUILD_INFO].Directory?)
  }

  /** The private copy: both trees without compiler metadata, with the manifest in dist. */
  function Payload(sources: Tree, withUi: bool, m: Manifest): Tree {
    map[[] := Directory, UI_PARENT := Directory]
    + (map p | p in sources && p != BUILD_INFO && (DIST <= p || (withUi && UI <= p)) :: sources[p])
    + map[MANIFEST := File(CommitRecord(m))]
  }

  /** The two roots and the waiting commit record never share a path. */
  lemma {:induction false} Apart(q: Path)
    ensures DIST <= q ==> !(UI <= q) && !(q <= UI) && q != COMMIT
    ensures UI <= q ==> !(q <= DIST) && q != COMMIT && q != MANIFEST
    ensures DIST <= MANIFEST && !(DIST <= COMMIT) && !(UI <= COMMIT) && !(COMMIT <= UI) && COMMIT != MANIFEST
  {
    assert MANIFEST[0] == "dist" && |MANIFEST| == 2;
    assert COMMIT[0] != "dist" && COMMIT[0] != "ui" by { assert |COMMIT[0]| > 10; }
    assert UI[0] == "ui" && DIST[0] == "dist" && |UI[0]| == 2 && |DIST[0]| == 4;
    if DIST <= q { assert q[0] == "dist"; }
    if UI <= q { assert q[0] == "ui"; }
  }

  /** Each path of the payload has its directory there. */
  lemma {:induction false} PayloadHasParent(sources: Tree, withUi: bool, m: Manifest, p: Path)
    requires WellFormed(sources) && CanStage(sources, withUi) && p in Payload(sources, withUi, m) && p != []
    ensures Parent(p) in Payload(sources, withUi, m) && Payload(sources, withUi, m)[Parent(p)].Directory?
  {
    assert Parent(DIST) == [] && Parent(UI) == UI_PARENT && Parent(MANIFEST) == DIST && Parent(UI_PARENT) == [];
    if p != DIST && p != UI && p != UI_PARENT && p != MANIFEST {
      NothingBelow(sources, BUILD_INFO);
      PrefixIsDirectory(sources, Parent(p), p);
      BelowParent(DIST, p);
      BelowParent(UI, p);
      if Parent(p) == MANIFEST { NothingBelow(sources, MANIFEST); }
      assert Parent(p) < p && sources[Parent(p)].Directory?;
    }
  }

  lemma {:induction false} BelowParent(root: Path, p: Path)
    requires p != root && p != []
    ensures root <= p ==> root <= Parent(p)
  {
  }

  lemma {:induction false} PayloadIsWellFormed(sources: Tree, withUi: bool, m: Manifest)
    requires WellFormed(sources) && CanStage(sources, withUi)
    ensures WellFormed(Payload(sources, withUi, m))
    ensures CommittedManifest(Payload(sources, withUi, m)) == Some(m)
    ensures COMMIT !in Payload(sources, withUi, m)
  {
    Apart(COMMIT);
    forall p | p in Payload(sources, withUi, m) && p != []
      ensures Parent(p) in Payload(sources, withUi, m) && Payload(sources, withUi, m)[Parent(p)].Directory?
    {
      PayloadHasParent(sources, withUi, m, p);
    }
  }

  /** A published path of unchanged kind is always there, with its whole old or whole new content. */
  ghost predicate NeverTorn(h: Tree, before: Tree, payload: Tree) {
    forall q: Path :: ServedAt(h, before, payload, q)
  }

  ghost predicate ServedAt(h: Tree, before: Tree, payload: Tree, q: Path) {
    (DIST <= q && q != MANIFEST) || UI <= q ==>
      q in before && q in payload && before[q].Directory? == payload[q].Directory? ==>
        q in h && (h[q] == before[q] || h[q] == payload[q])
  }

  ghost predicate Interim(h: Tree, before: Tree, payload: Tree) {
    CrashConsistent(h) && NeverTorn(h, before, payload)
  }

  /** After the commit record was withdrawn, and before either root changed. */
  ghost predicate Withdrawn(d: Disk, before: Disk) {
    && WellFormedDisk(d)
    && MANIFEST !in d.live && MANIFEST !in d.staged
    && COMMIT in d.staged && d.staged[COMMIT].File? && MANIFEST in before.staged
    && d.staged[COMMIT] == before.staged[MANIFEST]
    && (forall q | q != MANIFEST :: Same(d.live, before.live, q))
    && (forall q | q != MANIFEST && q != COMMIT :: Same(d.staged, before.staged, q))
  }

  ghost predicate UiReplaced(d: Disk, before: Disk) {
    && WellFormedDisk(d)
    && MANIFEST !in d.live && MANIFEST !in d.staged
    && COMMIT in d.staged && d.staged[COMMIT].File? && MANIFEST in before.staged
    && d.staged[COMMIT] == before.staged[MANIFEST]
    && (forall q | DIST <= q && q != MANIFEST :: Same(d.live, before.live, q) && Same(d.staged, before.staged, q))
    && (forall q | UI <= q :: Same(d.live, before.staged, q))
  }

  ghost predicate DistReplaced(d: Disk, before: Disk) {
    && WellFormedDisk(d)
    && MANIFEST !in d.live
    && COMMIT in d.staged && d.staged[COMMIT].File? && MANIFEST in before.staged
    && d.staged[COMMIT] == before.staged[MANIFEST]
    && DIST in d.live && d.live[DIST].Directory?
    && (forall q | (DIST <= q && q != MANIFEST) || UI <= q :: Same(d.live, before.staged, q))
  }

  lemma {:induction false} CommitMoves(d: Disk)
    requires WellFormedDisk(d) && COMMIT !in d.staged && MANIFEST in d.staged && d.staged[MANIFEST].File?
    ensures WellFormedDisk(d.(staged := (d.staged - {MANIFEST})[COMMIT := d.staged[MANIFEST]]))
  {
    NothingBelow(d.staged, MANIFEST);
    LeafRemoval(d.staged, MANIFEST);
    assert Parent(COMMIT) == [];
  }

  lemma {:induction false} InterimDuringUi(d: Disk, mid: Disk, before: Disk)
    requires Withdrawn(mid, before) && Safe(d, mid, UI)
    ensures Interim(d.live, before.live, before.staged)
  {
    Apart(MANIFEST);
    assert SafeAt(d, mid, UI, MANIFEST);
    forall q: Path ensures ServedAt(d.live, before.live, before.staged, q) {
      Apart(q);
      assert SafeAt(d, mid, UI, q);
      if q != MANIFEST && q != COMMIT {
        assert Same(mid.live, before.live, q) && Same(mid.staged, before.staged, q);
      }
    }
  }

  lemma {:induction false} UiIsReplaced(d: Disk, mid: Disk, before: Disk)
    requires Withdrawn(mid, before) && Safe(d, mid, UI)
    requires forall q | UI <= q :: Same(d.live, mid.staged, q)
    ensures UiReplaced(d, before)
  {
    Apart(MANIFEST);
    assert SafeAt(d, mid, UI, MANIFEST) && SafeAt(d, mid, UI, COMMIT);
    assert Same(d.staged, mid.staged, COMMIT) && Same(d.staged, mid.staged, MANIFEST);
    forall q | DIST <= q && q != MANIFEST ensures Same(d.live, before.live, q) && Same(d.staged, before.staged, q) {
      Apart(q);
      assert SafeAt(d, mid, UI, q);
      assert Same(mid.live, before.live, q) && Same(mid.staged, before.staged, q);
      assert !(UI <= q) && !(q <= UI);
    }
    forall q | UI <= q ensures Same(d.live, before.staged, q) {
      Apart(q);
      assert Same(d.live, mid.staged, q) && Same(mid.staged, before.staged, q);
    }
  }

  lemma {:induction false} InterimDuringDist(d: Disk, mid: Disk, before: Disk)
    requires UiReplaced(mid, before) && Safe(d, mid, DIST)
    ensures Interim(d.live, before.live, before.staged)
    ensures MANIFEST !in d.live
  {
    assert SafeAt(d, mid, DIST, MANIFEST);
    forall q: Path ensures ServedAt(d.live, before.live, before.staged, q) {
      Apart(q);
      assert SafeAt(d, mid, DIST, q);
      if DIST <= q && q != MANIFEST {
        assert Same(mid.live, before.live, q) && Same(mid.staged, before.staged, q);
      }
      if UI <= q {
        assert !(DIST <= q);
        assert Same(mid.live, before.staged, q);
      }
    }
  }

  lemma {:induction false} DistIsReplaced(d: Disk, mid: Disk, before: Disk)
    requires UiReplaced(mid, before) && Safe(d, mid, DIST)
    requires DIST in mid.staged && mid.staged[DIST].Directory?
    requires forall q | DIST <= q :: Same(d.live, mid.staged, q)
    ensures DistReplaced(d, before)
  {
    assert Same(d.live, mid.staged, DIST) && Same(d.live, mid.staged, MANIFEST);
    Apart(MANIFEST);
    assert SafeAt(d, mid, DIST, COMMIT);
    assert Same(d.staged, mid.staged, COMMIT);
    forall q | (DIST <= q && q != MANIFEST) || UI <= q ensures Same(d.live, before.staged, q) {
      Apart(q);
      if DIST <= q {
        assert Same(d.live, mid.staged, q) && Same(mid.staged, before.staged, q);
      } else {
        assert SafeAt(d, mid, DIST, q);
        assert Same(mid.live, before.staged, q);
        assert !(q <= DIST);
      }
    }
  }

  /** The last rename: both roots already hold the payload, so the record it installs is true. */
  lemma {:induction false} CommitIsTrue(d: Disk, before: Disk, m: Manifest)
    requires DistReplaced(d, before) && WellFormedDisk(before)
    requires Attests(before.staged, m) && CommittedManifest(before.staged) == Some(m)
    ensures var after := Disk(d.live[MANIFEST := d.staged[COMMIT]], d.staged - {COMMIT});
            && WellFormedDisk(after)
            && CommittedManifest(after.live) == Some(m)
            && Interim(after.live, before.live, before.staged)
            && forall q | DIST <= q || UI <= q :: Same(after.live, before.staged, q)
  {
    var after := Disk(d.live[MANIFEST := d.staged[COMMIT]], d.staged - {COMMIT});
    assert Parent(MANIFEST) == DIST;
    NothingBelow(d.live, MANIFEST);
    NothingBelow(d.staged, COMMIT);
    LeafRemoval(d.staged, COMMIT);
    forall p | p in after.live && p != [] ensures Parent(p) in after.live && after.live[Parent(p)].Directory? {
      assert Parent(p) != MANIFEST || MANIFEST < p;
    }
    forall q | DIST <= q || UI <= q ensures Same(after.live, before.staged, q) {
      Apart(q);
      if q != MANIFEST { assert Same(d.live, before.staged, q); }
    }
    forall q | (DIST <= q && q != MANIFEST) || UI <= q ensures Same(before.staged, after.live, q) {
      assert Same(after.live, before.staged, q);
    }
    AttestationReadsOnlyTheRoots(before.staged, after.live, m);
    forall q: Path ensures ServedAt(after.live, before.live, before.staged, q) {
      if DIST <= q || UI <= q { assert Same(after.live, before.staged, q); }
    }
  }

  /** While only the commit record is touched. */
  lemma {:induction false} InterimBefore(h: Tree, before: Tree, payload: Tree)
    requires CrashConsistent(before)
    requires h == before || h == before - {MANIFEST}
    ensures Interim(h, before, payload)
  {
    forall q: Path ensures ServedAt(h, before, payload, q) {
      Apart(q);
    }
  }

  lemma {:induction false} StagedShrinks(d: Disk, mid: Disk, member: Path)
    requires Safe(d, mid, member)
    requires forall q | member <= q :: q in d.staged ==> Same(d.staged, mid.staged, q)
    ensures d.staged.Keys <= mid.staged.Keys
  {
    forall q | q in d.staged ensures q in mid.staged {
      assert SafeAt(d, mid, member, q);
    }
  }

  /**
   The live tree leaves room for the payload: no directory where the manifest goes, no file or link
   where `ui` goes.
   */
  ghost predicate CanPublish(live: Tree, payload: Tree) {
    && !(MANIFEST in live && live[MANIFEST].Directory?)
    && (UI in payload ==> CanHold(live, UI_PARENT))
  }

  lemma {:induction false} UiCanBeHeld(d: Disk, before: Disk)
    requires Withdrawn(d, before)
    ensures CanHold(d.live, UI_PARENT) <==> CanHold(before.live, UI_PARENT)
    ensures UI in d.staged <==> UI in before.staged
  {
    Apart(UI);
    assert Same(d.staged, before.staged, UI);
    assert UI_PARENT != MANIFEST && Parent(UI_PARENT) == [] && [] != MANIFEST;
    assert Same(d.live, before.live, UI_PARENT) && Same(d.live, before.live, []);
  }

  lemma {:induction false} UiIsStaged(d: Disk, before: Disk, m: Manifest)
    requires Withdrawn(d, before) && Attests(before.staged, m)
    ensures UI in d.staged ==> d.staged[UI].Directory?
  {
    Apart(UI);
    assert Same(d.staged, before.staged, UI);
  }

  lemma {:induction false} DistIsStaged(d: Disk, before: Disk, m: Manifest)
    requires UiReplaced(d, before) && Attests(before.staged, m)
    ensures DIST in d.staged && d.staged[DIST].Directory?
  {
    assert Same(d.staged, before.staged, DIST);
  }

  lemma {:induction false} EmptyIsWellFormed()
    ensures WellFormed(EMPTY)
  {
  }

  class BuildOutputs {
    var disk: Disk
    ghost var history: seq<Disk>

    constructor (d: Disk)
      requires WellFormedDisk(d)
      ensures disk == d && history == []
    {
      disk := d;
      history := [];
    }

    /** One atomic step of the file system. */
    method Step(d: Disk)
      modifies this
      ensures disk == d && history == old(history) + [d]
    {
      disk := d;
      history := history + [d];
    }

    /** An entry of a tree that is going, with nothing below it. */
    method Leaf(doomed: set<Path>, p: Path) returns (leaf: Path)
      requires doomed != {} && forall q :: q in doomed <==> q in disk.live && p <= q
      ensures leaf in doomed && forall r | r in disk.live :: !(leaf < r)
    {
      ghost var deepest := DeepestEntry(disk.live, doomed);
      leaf :| leaf in doomed && forall r | r in disk.live.Keys :: !(leaf < r);
    }

    /** `rmSync(p, { recursive: true, force: true })`, entries going in any order that empties directories first. */
    method RemoveTree(p: Path)
      requires WellFormedDisk(disk) && p != []
      modifies this
      ensures old(history) <= history
      ensures forall i | |old(history)| <= i < |history| :: PartlyRemoved(history[i], old(disk), p)
      ensures PartlyRemoved(disk, old(disk), p)
      ensures forall q | p <= q :: q !in disk.live
    {
      var doomed := set q | q in disk.live.Keys && p <= q;
      while doomed != {}
        invariant PartlyRemoved(disk, old(disk), p)
        invariant forall q :: q in doomed <==> q in disk.live && p <= q
        invariant old(history) <= history
        invariant forall i | |old(history)| <= i < |history| :: PartlyRemoved(history[i], old(disk), p)
        decreases doomed
      {
        var leaf := Leaf(doomed, p);
        LeafRemoved(disk, old(disk), p, leaf);
        Step(disk.(live := disk.live - {leaf}));
        doomed := doomed - {leaf};
      }
    }

    /** `mkdirSync(p, { recursive: true })`; fails when `p` or an ancestor is not a directory. */
    method MakeDirectories(p: Path) returns (ok: bool)
      requires WellFormedDisk(disk)
      modifies this
      ensures old(history) <= history
      ensures forall i | |old(history)| <= i < |history| :: Extended(history[i], old(disk), p)
      ensures Extended(disk, old(disk), p)
      ensures ok <==> CanHold(old(disk).live, p)
      ensures ok ==> p in disk.live && disk.live[p].Directory?
      decreases |p|
    {
      if p in disk.live {
        return disk.live[p].Directory?;
      }
      ghost var before, start := disk, |history|;
      ok := MakeDirectories(Parent(p));
      forall i | start <= i < |history| ensures Extended(history[i], before, p) {
        ExtendedFurther(history[i], before, p);
      }
      ExtendedFurther(disk, before, p);
      if ok {
        OneMoreDirectory(disk, before, p);
        Step(disk.(live := disk.live[p := Directory]));
      }
    }

    /** Remove an entry the staged tree has no place for, during the publication of `p`. */
    method Evict(target: Path, p: Path, ghost before: Disk)
      requires WellFormedDisk(before) && Safe(disk, before, p)
      requires p <= target && target != []
      requires forall q | target <= q :: Same(disk.staged, before.staged, q)
      requires target in before.live && target in before.staged ==>
                 before.live[target].Directory? != before.staged[target].Directory?
      modifies this
      ensures old(history) <= history
      ensures forall i | |old(history)| <= i < |history| :: Safe(history[i], before, p)
      ensures Safe(disk, before, p)
      ensures PartlyRemoved(disk, old(disk), target)
      ensures forall q | target <= q :: q !in disk.live
    {
      ghost var mid, start := disk, |history|;
      RemoveTree(target);
      forall i | start <= i < |history| ensures Safe(history[i], before, p) {
        RemovalIsSafe(history[i], mid, before, p, target);
      }
      RemovalIsSafe(disk, mid, before, p, target);
    }

    /** The opening of `publishBuildFiles`: the destination becomes a directory. */
    method Open(p: Path) returns (ok: bool)
      requires WellFormedDisk(disk)
      requires p != [] && p in disk.staged && disk.staged[p].Directory?
      modifies this
      ensures old(history) <= history
      ensures forall i | |old(history)| <= i < |history| :: Safe(history[i], old(disk), p)
      ensures Safe(disk, old(disk), p)
      ensures ok <==> CanHold(old(disk).live, Parent(p))
      ensures ok ==> Progress(disk, old(disk), p, {}, {})
      ensures disk.staged == old(disk).staged
    {
      ghost var before := disk;
      SafeReflexive(disk, p);
      if p in disk.live && !disk.live[p].Directory? {
        Evict(p, p, before);
        assert Parent(p) != p;
      }
      ghost var mid, start := disk, |history|;
      HoldsLikeParent(mid, before, p);
      ok := MakeDirectories(p);
      forall i | start <= i < |history| ensures Safe(history[i], before, p) {
        OpeningIsSafe(history[i], mid, before, p);
      }
      OpeningIsSafe(disk, mid, before, p);
      if ok { OpenedIsProgress(disk, mid, before, p); }
    }

    /** The first loop of `publishBuildFiles`: drop the members that are not in the staged directory. */
    method RemoveStale(p: Path, names: set<string>, ghost before: Disk) returns (ghost gone: set<string>)
      requires WellFormedDisk(before) && Progress(disk, before, p, {}, {})
      requires names == Names(before.staged, p)
      modifies this
      ensures old(history) <= history
      ensures forall i | |old(history)| <= i < |history| :: Safe(history[i], before, p)
      ensures gone == Names(old(disk).live, p) - names
      ensures Progress(disk, before, p, gone, {})
      ensures disk.staged == old(disk).staged
    {
      var stale := Names(disk.live, p) - names;
      gone := {};
      while stale != {}
        invariant stale + gone == Names(old(disk).live, p) - names && stale !! gone
        invariant Progress(disk, before, p, gone, {}) && disk.staged == old(disk).staged
        invariant old(history) <= history
        invariant forall i | |old(history)| <= i < |history| :: Safe(history[i], before, p)
      {
        var name :| name in stale;
        ghost var mid := disk;
        forall q | p + [name] <= q ensures Same(disk.staged, before.staged, q) {
          assert MemberProgress(disk, before, q[|p|] in gone, q[|p|] in {}, q);
        }
        Evict(p + [name], p, before);
        StaleMemberRemoved(disk, mid, before, p, gone, name);
        stale := stale - {name};
        gone := gone + {name};
      }
    }

    /** `renameSync` of one staged file over its old version, after a directory in its place was removed. */
    method PlaceFile(p: Path)
      requires WellFormedDisk(disk)
      requires p != [] && p in disk.staged && !disk.staged[p].Directory?
      requires Parent(p) in disk.live && disk.live[Parent(p)].Directory?
      modifies this
      ensures old(history) <= history
      ensures forall i | |old(history)| <= i < |history| :: Safe(history[i], old(disk), p)
      ensures Safe(disk, old(disk), p)
      ensures forall q | p <= q :: Same(disk.live, old(disk).staged, q) && q !in disk.staged
    {
      ghost var before := disk;
      SafeReflexive(disk, p);
      if p in disk.live && disk.live[p].Directory? {
        Evict(p, p, before);
      }
      FilePlacementIsSafe(disk, before, p);
      Step(Disk(disk.live[p := disk.staged[p]], disk.staged - {p}));
    }

    /** One turn of the second loop: recurse into a directory, or move a file over its old version. */
    method PublishMember(p: Path, name: string, ghost before: Disk, ghost gone: set<string>, ghost done: set<string>)
      requires WellFormedDisk(before) && p != [] && Progress(disk, before, p, gone, done)
      requires name !in gone && name !in done && p + [name] in before.staged
      modifies this
      ensures old(history) <= history
      ensures forall i | |old(history)| <= i < |history| :: Safe(history[i], before, p)
      ensures Progress(disk, before, p, gone, done + {name})
      ensures Below(disk.staged, p) <= Below(old(disk).staged, p)
      decreases Below(disk.staged, p), 0
    {
      ghost var mid, start := disk, |history|;
      var member := p + [name];
      forall q | member <= q ensures Same(mid.live, before.live, q) && Same(mid.staged, before.staged, q) {
        assert MemberProgress(mid, before, q[|p|] in gone, q[|p|] in done, q);
      }
      assert Parent(member) == p;
      assert Same(mid.live, before.live, member) && Same(mid.staged, before.staged, member);
      var published;
      if disk.staged[member].Directory? {
        assert member in Below(disk.staged, p) && member !in Below(disk.staged, member);
        published := PublishFiles(member);
      } else {
        PlaceFile(member);
        published := true;
      }
      forall i | start <= i < |history| ensures Safe(history[i], before, p) {
        SafeLifts(history[i], mid, before, p, name);
      }
      SafeLifts(disk, mid, before, p, name);
      StagedShrinks(disk, mid, member);
      MemberPublished(disk, mid, before, p, gone, done, name);
    }

    /** The second loop of `publishBuildFiles`. */
    method PublishMembers(p: Path, names: set<string>, ghost before: Disk, ghost gone: set<string>)
      requires WellFormedDisk(before) && p != [] && Progress(disk, before, p, gone, {})
      requires names == Names(before.staged, p) && gone !! names
      modifies this
      ensures old(history) <= history
      ensures forall i | |old(history)| <= i < |history| :: Safe(history[i], before, p)
      ensures Progress(disk, before, p, gone, names)
      decreases Below(disk.staged, p), 1
    {
      var entries := names;
      ghost var done := {};
      while entries != {}
        invariant entries <= names && done == names - entries
        invariant Below(disk.staged, p) <= Below(old(disk).staged, p)
        invariant Progress(disk, before, p, gone, done)
        invariant old(history) <= history
        invariant forall i | |old(history)| <= i < |history| :: Safe(history[i], before, p)
      {
        var name :| name in entries;
        PublishMember(p, name, before, gone, done);
        entries := entries - {name};
        done := done + {name};
      }
    }

    /** `publishBuildFiles`: make the live tree at `p` equal to the staged one, moving the staged files. */
    method PublishFiles(p: Path) returns (ok: bool)
      requires WellFormedDisk(disk)
      requires p != [] && p in disk.staged && disk.staged[p].Directory?
      modifies this
      ensures old(history) <= history
      ensures forall i | |old(history)| <= i < |history| :: Safe(history[i], old(disk), p)
      ensures Safe(disk, old(disk), p)
      ensures ok <==> CanHold(old(disk).live, Parent(p))
      ensures ok ==> forall q | p <= q :: Same(disk.live, old(disk).staged, q)
      ensures forall q | p <= q :: q in disk.staged ==> Same(disk.staged, old(disk).staged, q)
      decreases Below(disk.staged, p), 2
    {
      ghost var before := disk;
      ok := Open(p);
      if !ok { return; }
      var names := Names(disk.staged, p);
      ghost var gone := RemoveStale(p, names, before);
      PublishMembers(p, names, before, gone);
      PublicationComplete(disk, before, p, gone, names);
    }

    /** Withdraw the commit record, so that neither root is attested while it changes. */
    method Withdraw() returns (ok: bool)
      requires WellFormedDisk(disk) && CrashConsistent(disk.live)
      requires COMMIT !in disk.staged && MANIFEST in disk.staged && disk.staged[MANIFEST].File?
      modifies this
      ensures old(history) <= history
      ensures forall i | |old(history)| <= i < |history| :: Interim(history[i].live, old(disk).live, old(disk).staged)
      ensures Interim(disk.live, old(disk).live, old(disk).staged) && WellFormedDisk(disk)
      ensures ok ==> Withdrawn(disk, old(disk))
      ensures ok <==> !(MANIFEST in old(disk).live && old(disk).live[MANIFEST].Directory?)
    {
      ghost var before := disk;
      CommitMoves(disk);
      InterimBefore(before.live, before.live, before.staged);
      InterimBefore(before.live - {MANIFEST}, before.live, before.staged);
      Step(disk.(staged := (disk.staged - {MANIFEST})[COMMIT := disk.staged[MANIFEST]]));
      ok := true;
      // A linked dist leads elsewhere; the record behind it stays with its own trees.
      if DIST in disk.live && !disk.live[DIST].Link? && MANIFEST in disk.live {
        if disk.live[MANIFEST].Directory? {
          return false;
        }
        NothingBelow(disk.live, MANIFEST);
        LeafRemoval(disk.live, MANIFEST);
        Step(disk.(live := disk.live - {MANIFEST}));
      }
      assert Parent(MANIFEST) == DIST;
    }

    /** The user-interface root: published, or removed when the payload has none. */
    method ReplaceUi(ghost before: Disk) returns (ok: bool)
      requires Withdrawn(disk, before) && WellFormedDisk(before)
      requires UI in disk.staged ==> disk.staged[UI].Directory?
      modifies this
      ensures old(history) <= history
      ensures forall i | |old(history)| <= i < |history| :: Interim(history[i].live, before.live, before.staged)
      ensures Interim(disk.live, before.live, before.staged) && WellFormedDisk(disk)
      ensures ok ==> UiReplaced(disk, before)
      ensures ok <==> (UI in old(disk).staged ==> CanHold(old(disk).live, UI_PARENT))
    {
      ghost var mid, start := disk, |history|;
      assert Parent(UI) == UI_PARENT;
      if UI in disk.staged {
        ok := PublishFiles(UI);
      } else {
        SafeReflexive(disk, UI);
        NothingBelow(disk.staged, UI);
        Evict(UI, UI, mid);
        forall q | UI <= q ensures Same(disk.live, mid.staged, q) {
          assert q == UI || UI < q;
        }
        ok := true;
      }
      forall i | start <= i < |history| ensures Interim(history[i].live, before.live, before.staged) {
        InterimDuringUi(history[i], mid, before);
      }
      InterimDuringUi(disk, mid, before);
      if ok { UiIsReplaced(disk, mid, before); }
    }

    /** The backend root; its parent always exists, so this cannot be refused. */
    method ReplaceDist(ghost before: Disk)
      requires UiReplaced(disk, before) && WellFormedDisk(before)
      requires DIST in disk.staged && disk.staged[DIST].Directory?
      modifies this
      ensures old(history) <= history
      ensures forall i | |old(history)| <= i < |history| :: Interim(history[i].live, before.live, before.staged)
      ensures Interim(disk.live, before.live, before.staged)
      ensures DistReplaced(disk, before)
    {
      ghost var mid, start := disk, |history|;
      assert Parent(DIST) == [];
      var ok := PublishFiles(DIST);
      forall i | start <= i < |history| ensures Interim(history[i].live, before.live, before.staged) {
        InterimDuringDist(history[i], mid, before);
      }
      InterimDuringDist(disk, mid, before);
      DistIsReplaced(disk, mid, before);
    }

    /** From the checked payload to the commit. */
    method Replace(m: Manifest) returns (ok: bool)
      requires WellFormedDisk(disk) && CrashConsistent(disk.live)
      requires Attests(disk.staged, m) && CommittedManifest(disk.staged) == Some(m) && COMMIT !in disk.staged
      modifies this
      ensures old(history) <= history && WellFormedDisk(disk)
      ensures forall i | |old(history)| <= i < |history| :: Interim(history[i].live, old(disk).live, old(disk).staged)
      ensures Interim(disk.live, old(disk).live, old(disk).staged)
      ensures ok <==> CanPublish(old(disk).live, old(disk).staged)
      ensures ok ==> CommittedManifest(disk.live) == Some(m)
      ensures ok ==> forall q | DIST <= q || UI <= q :: Same(disk.live, old(disk).staged, q)
    {
      hide WellFormed, Interim, Same;
      ghost var before := disk;
      ok := Withdraw();
      if !ok { return; }
      UiIsStaged(disk, before, m);
      UiCanBeHeld(disk, before);
      ok := ReplaceUi(before);
      if !ok { return; }
      DistIsStaged(disk, before, m);
      ReplaceDist(before);
      CommitIsTrue(disk, before, m);
      Step(Disk(disk.live[MANIFEST := disk.staged[COMMIT]], disk.staged - {COMMIT}));
    }

    /** Copy the payload aside, check the copy, publish it, and clear the staging directory whatever happened. */
    method PublishPayload(payload: Tree, m: Manifest) returns (ok: bool)
      requires WellFormed(disk.live) && CrashConsistent(disk.live)
      requires WellFormed(payload) && CommittedManifest(payload) == Some(m) && COMMIT !in payload
      modifies this
      ensures old(history) <= history && WellFormedDisk(disk) && disk.staged == EMPTY
      ensures forall i | |old(history)| <= i < |history| :: Interim(history[i].live, old(disk).live, payload)
      ensures Interim(disk.live, old(disk).live, payload)
      ensures ok <==> Attests(payload, m) && CanPublish(old(disk).live, payload)
      ensures ok ==> CommittedManifest(disk.live) == Some(m)
      ensures ok ==> forall q | DIST <= q || UI <= q :: Same(disk.live, payload, q)
      ensures !Attests(payload, m) ==> !ok && disk.live == old(disk).live
    {
      hide WellFormed, Interim, Attests;
      InterimBefore(disk.live, disk.live, payload);
      Step(disk.(staged := payload));
      ok := Attests(payload, m);
      if ok {
        ok := Replace(m);
      }
      EmptyIsWellFormed();
      Step(disk.(staged := EMPTY));
    }

    /**
     `publishBuildOutputs`, from the validated staging directories to the commit.
     `sources` holds the staged trees; the user-interface bundle is optional.
     */
    method Publish(sources: Tree, withUi: bool, m: Manifest) returns (ok: bool)
      requires WellFormedDisk(disk) && disk.staged == EMPTY
      requires WellFormed(sources)
      requires CrashConsistent(disk.live)
      modifies this
      ensures old(history) <= history && WellFormedDisk(disk) && disk.staged == EMPTY
      // Whatever step it was interrupted after, a manifest in dist tells the truth,
      // and no live path that is published again is ever missing or torn.
      ensures forall i | |old(history)| <= i < |history| ::
                Interim(history[i].live, old(disk).live, Payload(sources, withUi, m))
      ensures Interim(disk.live, old(disk).live, Payload(sources, withUi, m))
      // It completes exactly if the payload can be copied and is what its manifest says, and the
      // live tree leaves room for it.
      ensures ok <==> CanStage(sources, withUi) && Attests(Payload(sources, withUi, m), m)
                      && CanPublish(old(disk).live, Payload(sources, withUi, m))
      // On completion both roots hold exactly the payload.
      ensures ok ==> CommittedManifest(disk.live) == Some(m)
      ensures ok ==> forall q | DIST <= q || UI <= q :: Same(disk.live, Payload(sources, withUi, m), q)
      ensures !(CanStage(sources, withUi) && Attests(Payload(sources, withUi, m), m)) ==>
                !ok && disk.live == old(disk).live
    {
      if !CanStage(sources, withUi) {
        InterimBefore(disk.live, disk.live, Payload(sources, withUi, m));
        return false;
      }
      PayloadIsWellFormed(sources, withUi, m);
      ok := PublishPayload(Payload(sources, withUi, m), m);
    }
  }
}
