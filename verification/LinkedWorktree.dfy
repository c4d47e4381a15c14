/**
 A run of `reconcileInputs` of `src/cli-ship-setup.ts` in which a relative link is read elsewhere than
 it was computed. The project and its worktree both have the committed link `b`, which leads to `d/a`,
 and the committed file `d/c`; the project also has a link `d/a/x`, with the text `../c`.
 */
module LinkedWorktree {
  import opened Wrappers
  import opened Paths
  import opened WorktreeFiles
  import opened RelativeLinks
  import opened InputReconciliation

  const AT_B: Path := ["b", "x"]
  const AT_A: Path := ["d", "a", "x"]

  function Before(): Files {
    map[[] := Directory, ["p"] := Directory, ["p", "b"] := Link(["p", "d", "a"]), ["p", "d"] := Directory,
        ["p", "d", "a"] := Directory, ["p", "d", "a", "x"] := Link(["p", "d", "c"]), ["p", "d", "c"] := File([7]),
        ["t"] := Directory, ["t", "b"] := Link(["t", "d", "a"]), ["t", "d"] := Directory,
        ["t", "d", "a"] := Directory, ["t", "d", "c"] := File([7])]
  }

  /** The text `../d/c`, computed for `t/b/x`, as it reads in `t/d/a`. */
  const WRITTEN: Node := Link(["t", "d", "d", "c"])

  lemma {:induction false} DirectoriesAreReal(root: string, n: nat)
    requires root in {"p", "t"}
    ensures RealWithin(Before(), [root], n) == Some([root]) && RealWithin(Before(), [root, "d"], n) == Some([root, "d"])
    ensures RealWithin(Before(), [root, "d", "a"], n) == Some([root, "d", "a"])
    ensures RealWithin(Before(), [root, "d", "c"], n) == Some([root, "d", "c"])
  {
    hide RealWithin;
    var fs, top: Path := Before(), [];
    TopIsReal(fs, n);
    assert top + [root] == [root] && [root] + ["d"] == [root, "d"];
    assert [root, "d"] + ["a"] == [root, "d", "a"] && [root, "d"] + ["c"] == [root, "d", "c"];
    StepInto(fs, top, root, n);
    StepInto(fs, [root], "d", n);
    StepInto(fs, [root, "d"], "a", n);
    StepInto(fs, [root, "d"], "c", n);
  }

  lemma {:induction false} LinksAreReal(root: string)
    requires root in {"p", "t"}
    ensures Real(Before(), [root, "b"]) == Some([root, "d", "a"])
    ensures Real(Before(), ["p", "b", "x"]) == Real(Before(), ["p", "d", "a", "x"]) == Some(["p", "d", "c"])
  {
    hide RealWithin;
    var fs := Before();
    assert [root] + ["b"] == [root, "b"] && ["p"] + ["b"] == ["p", "b"] && ["p", "b"] + ["x"] == ["p", "b", "x"];
    assert ["p", "d", "a"] + ["x"] == ["p", "d", "a", "x"];
    DirectoriesAreReal(root, MAX_LINKS);
    DirectoriesAreReal(root, MAX_LINKS - 1);
    DirectoriesAreReal("p", MAX_LINKS);
    DirectoriesAreReal("p", MAX_LINKS - 1);
    StepOver(fs, [root], [root], "b", [root, "d", "a"], MAX_LINKS);
    StepOver(fs, ["p"], ["p"], "b", ["p", "d", "a"], MAX_LINKS);
    StepOver(fs, ["p", "b"], ["p", "d", "a"], "x", ["p", "d", "c"], MAX_LINKS);
    StepOver(fs, ["p", "d", "a"], ["p", "d", "a"], "x", ["p", "d", "c"], MAX_LINKS);
  }

  lemma {:induction false} BeforeIsWellFormed()
    ensures WellFormed(Before())
  {
    Parents("p");
    Parents("t");
  }

  lemma {:induction false} Parents(root: string)
    ensures Parent([root]) == [] && Parent([root, "b"]) == [root] && Parent([root, "d"]) == [root]
    ensures Parent([root, "d", "a"]) == Parent([root, "d", "c"]) == [root, "d"]
    ensures Parent([root, "d", "a", "x"]) == [root, "d", "a"] && Parent([root, "b", "x"]) == [root, "b"]
  {
  }

  lemma {:induction false} Spelled(root: string)
    ensures [root] + [] == [root] && [root] + AT_B == [root, "b", "x"] && [root] + AT_A == [root, "d", "a", "x"]
    ensures [root] + ["d", "c"] == [root, "d", "c"] && [root, "d", "c"][1..] == ["d", "c"]
    ensures [root, "d", "a"] + ["x"] == [root, "d", "a", "x"]
  {
  }

  /** `relative` goes up once from `t/b`, and once from where that leads is not where `t/b` is. */
  lemma {:induction false} TextIsReadElsewhere()
    ensures Relative(["t", "b"], ["t", "d", "c"]) == Route(1, ["d", "c"])
    ensures Link(Named(["t", "d", "a"], Route(1, ["d", "c"]))) == WRITTEN
  {
  }

  const PLACE: Path := ["t", "d", "a", "x"]

  /** The run that comes to `b/x` first. */
  ghost predicate Job(job: Reconciliation) {
    job.projectDir == ["p"] && job.targetDir == job.targetCanonical == ["t"]
  }

  lemma {:induction false} FirstLink(job: Reconciliation)
    requires Job(job)
    ensures Real(Before(), job.Source([])) == Some(["p"]) && Real(Before(), job.Source(AT_B)) == Some(["p", "d", "c"])
    ensures Entry(Before(), job.Target(AT_B)) == Some(PLACE) && job.Free(Before(), AT_B) && PLACE !in Before()
    ensures Exists(Before(), Parent(job.Target(AT_B)))
    ensures job.LinkFor(Before(), AT_B, PLACE, []) == WRITTEN
  {
    hide RealWithin, Relative, Named;
    DirectoriesAreReal("p", MAX_LINKS);
    DirectoriesAreReal("t", MAX_LINKS);
    LinksAreReal("t");
    Parents("t");
    Spelled("p");
    Spelled("t");
    assert Entry(Before(), ["t", "b", "x"]) == Some(PLACE);
    assert Entry(Before(), ["t", "b"]) == Some(["t", "b"]) by { assert ["t"] + ["b"] == ["t", "b"]; }
    TextIsReadElsewhere();
  }

  function After(): Files {
    Before()[PLACE := WRITTEN]
  }

  lemma {:induction false} SecondLink(job: Reconciliation)
    requires Job(job)
    ensures Real(After(), job.Source([])) == Some(["p"]) && Real(After(), job.Source(AT_A)) == Some(["p", "d", "c"])
    ensures EntryExists(After(), job.Target(AT_A)) && !job.Free(After(), AT_A)
    ensures !Exists(After(), ["t", "d", "d", "c"]) && Real(After(), ["t", "d", "c"]) == Some(["t", "d", "c"])
  {
    hide RealWithin;
    var top: Path := [];
    assert Grows(Before(), After(), top);
    DirectoriesAreReal("p", MAX_LINKS);
    DirectoriesAreReal("t", MAX_LINKS);
    LinksAreReal("p");
    Parents("t");
    Spelled("p");
    Spelled("t");
    RealIsStable(Before(), After(), top, ["p"], MAX_LINKS);
    RealIsStable(Before(), After(), top, ["p", "d", "a", "x"], MAX_LINKS);
    RealIsStable(Before(), After(), top, ["t", "d"], MAX_LINKS);
    RealIsStable(Before(), After(), top, ["t", "d", "a"], MAX_LINKS);
    RealIsStable(Before(), After(), top, ["t", "d", "c"], MAX_LINKS);
    NoSuchDirectory();
  }

  lemma {:induction false} NoSuchDirectory()
    requires Real(After(), ["t", "d"]) == Some(["t", "d"])
    ensures !Exists(After(), ["t", "d", "d", "c"])
  {
    assert Parent(["t", "d", "d", "c"]) == ["t", "d", "d"] && Parent(["t", "d", "d"]) == ["t", "d"];
    assert ["t", "d"] + ["d"] == ["t", "d", "d"] && ["t", "d", "d"] !in After();
    assert Real(After(), ["t", "d", "d"]) == FollowEntry(After(), ["t", "d", "d"], MAX_LINKS);
    assert Real(After(), ["t", "d", "d"]).None?;
  }

  /** In the order of names `b/x` comes first: its link leads nowhere, and then stands in the way of `d/a/x`. */
  method RunWithLink() returns (job: Reconciliation)
    ensures job.fs == Before()[PLACE := Link(["t", "d", "d", "c"])] && job.made == [Linked(AT_B, PLACE, [])]
    ensures !Exists(job.fs, ["t", "d", "d", "c"]) && Real(job.fs, ["t", "d", "c"]) == Some(["t", "d", "c"])
    ensures job.blockers == [AT_A]
  {
    hide RealWithin, Before, WellFormed, Grows, Entry, EntryExists, IsLink;
    hide Reconciliation.Progress, Reconciliation.MadeFrom, Reconciliation.Free, Reconciliation.LinkFor;
    BeforeIsWellFormed();
    DirectoriesAreReal("t", MAX_LINKS);
    job := new Reconciliation(Before(), ["p"], ["t"]);
    FirstLink(job);
    job.RecreateLink(AT_B, [], ["p"]);
    assert job.fs == After();
    SecondLink(job);
    job.RecreateLink(AT_A, [], ["p"]);
  }
}
