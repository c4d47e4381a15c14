/**
 Directory trees and the build manifest of `src/build-manifest.ts`.

 A tree maps every existing path to its entry.  Paths are relative to the
 directory that holds both live roots, so the staged payload and the published
 outputs use the same paths: `dist/...` and `ui/dist/...`.
 */
module BuildTrees {
  import opened Wrappers
  import opened Paths

  /** Regular file bytes; `CommitRecord` stands for the JSON text of a manifest. */
  datatype Content = Bytes(data: seq<int>) | CommitRecord(manifest: Manifest)

  datatype Entry = Directory | File(content: Content) | Link(target: string)

  type Tree = map<Path, Entry>

  /** A collision-free hash: equal digests have equal pre-images. */
  datatype Digest = Sha256(preimage: Content)

  /** Attested files: path below the root, and digest of the bytes. */
  type Inventory = map<Path, Digest>

  datatype Presence = Required | Absent
  datatype Artifacts = Artifacts(backend: Inventory, ui: Inventory)
  datatype Generation =
    Generation(inputs: string, outputs: Inventory, ui: Option<Inventory>, presence: Option<Presence>,
               artifacts: Option<Artifacts>)

  datatype Manifest =
    Manifest(generation: Generation, inputs: string, outputs: Inventory, ui: Option<Inventory>,
             presence: Option<Presence>, artifacts: Option<Artifacts>)
  {
    /** Everything the manifest lists below `dist`. */
    function Backend(): Inventory {
      if artifacts.Some? then artifacts.value.backend else outputs
    }

    /** Everything the manifest lists below `ui/dist`. */
    function Ui(): Inventory {
      if artifacts.Some? then artifacts.value.ui else if ui.Some? then ui.value else map[]
    }
  }

  const DIST: Path := ["dist"]
  const UI_PARENT: Path := ["ui"]
  const UI: Path := ["ui", "dist"]
  const MANIFEST: Path := ["dist", ".flowcrew-build-manifest.json"]
  const BUILD_INFO: Path := ["dist", ".tsbuildinfo"]

  /** Every entry sits in a directory. */
  ghost predicate WellFormed(t: Tree) {
    && [] in t && t[[]].Directory?
    && forall p | p in t && p != [] :: Parent(p) in t && t[Parent(p)].Directory?
  }

  ghost predicate Same(a: Tree, b: Tree, p: Path) {
    && (p in a <==> p in b)
    && (p in a ==> a[p] == b[p])
  }

  lemma {:induction false} PrefixIsDirectory(t: Tree, p: Path, q: Path)
    requires WellFormed(t) && q in t && p <= q && p != q
    ensures p in t && t[p].Directory?
    decreases |q|
  {
    assert p <= Parent(q);
    if p != Parent(q) {
      PrefixIsDirectory(t, p, Parent(q));
    }
  }

  /** `root` holds exactly the listed regular files (and directories) below it; `commit` is not looked at. */
  predicate HoldsExactly(t: Tree, root: Path, listed: Inventory, commit: Option<Path>) {
    && (root in t ==> t[root].Directory?)
    && (forall p | p in t && root <= p && Some(p) != commit :: AccountedFor(t, root, listed, p))
    && (forall r | r in listed :: root + r in t && t[root + r] == File(listed[r].preimage) && Some(root + r) != commit)
  }

  predicate AccountedFor(t: Tree, root: Path, listed: Inventory, p: Path)
    requires p in t && root <= p
  {
    match t[p]
    case Directory => true
    case Link(_) => false
    case File(content) => p[|root|..] in listed && listed[p[|root|..]] == Sha256(content)
  }

  /** The check of `assertBuildArtifactInventory`: the manifest describes both roots of `t`. */
  predicate Attests(t: Tree, m: Manifest) {
    && DIST in t
    && HoldsExactly(t, DIST, m.Backend(), Some(MANIFEST))
    && HoldsExactly(t, UI, m.Ui(), None)
    && m.outputs.Items <= m.Backend().Items
    && (m.ui.Some? ==> m.ui.value.Items <= m.Ui().Items)
    && (m.presence == Some(Required) ==> m.ui.Some?)
    && (m.presence == Some(Absent) ==> m.ui.None? && m.Ui() == map[])
    && m.generation == Generation(m.inputs, m.outputs, m.ui, m.presence, m.artifacts)
  }

  /** The manifest that readers of `dist` find, if any. */
  function CommittedManifest(t: Tree): Option<Manifest> {
    if MANIFEST in t && t[MANIFEST].File? && t[MANIFEST].content.CommitRecord?
    then Some(t[MANIFEST].content.manifest) else None
  }

  /** What an interruption must never break. */
  ghost predicate CrashConsistent(t: Tree) {
    CommittedManifest(t).Some? ==> Attests(t, CommittedManifest(t).value)
  }

  lemma {:induction false} AttestationReadsOnlyTheRoots(a: Tree, b: Tree, m: Manifest)
    requires Attests(a, m)
    requires forall p | (DIST <= p && p != MANIFEST) || UI <= p :: Same(a, b, p)
    ensures Attests(b, m)
  {
    assert Same(a, b, DIST);
    assert Same(a, b, UI);
    forall p | p in b && DIST <= p && Some(p) != Some(MANIFEST) ensures AccountedFor(b, DIST, m.Backend(), p) {
      assert Same(a, b, p);
      assert AccountedFor(a, DIST, m.Backend(), p);
    }
    forall p | p in b && UI <= p ensures AccountedFor(b, UI, m.Ui(), p) {
      assert Same(a, b, p);
      assert Some(p) != Option<Path>.None;
      assert AccountedFor(a, UI, m.Ui(), p);
    }
    forall r | r in m.Backend()
      ensures DIST + r in b && b[DIST + r] == File(m.Backend()[r].preimage) && Some(DIST + r) != Some(MANIFEST)
    {
      assert Same(a, b, DIST + r);
    }
    forall r | r in m.Ui() ensures UI + r in b && b[UI + r] == File(m.Ui()[r].preimage) {
      assert Same(a, b, UI + r);
    }
  }
}
