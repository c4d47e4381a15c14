/**
 Runs of a stage plan, and what an empty finding list of the static checker
 guarantees in every state of every run.

 A stage may start once all its dependencies have settled; apart from that, any
 order and any overlap of stages is a run.
 */
module ArtifactSchedules {
  import opened Wrappers
  import opened ArtifactPaths
  import opened ArtifactAdmission

  datatype Phase = Pending | Running | Settled(status: string, exitCode: Option<int>)

  type State = map<string, Phase>

  ghost predicate IsSettled(st: State, id: string) {
    id in st && st[id].Settled?
  }

  ghost predicate MayStart(st: State, s: Stage) {
    s.id in st && st[s.id].Pending? && forall d | d in s.dependsOn :: IsSettled(st, d)
  }

  /** One stage starts, settles, or is skipped without running. */
  ghost predicate Step(stages: seq<Stage>, st: State, st': State) {
    exists s: Stage, phase: Phase :: s in stages && StageStep(s, phase, st, st')
  }

  ghost predicate StageStep(s: Stage, phase: Phase, st: State, st': State) {
    && s.id in st && st' == st[s.id := phase]
    && match phase
       case Pending => false
       case Running => MayStart(st, s)
       case Settled(status, _) => status in SETTLED && (st[s.id].Running? || MayStart(st, s))
  }

  ghost predicate Initial(stages: seq<Stage>, st: State) {
    && (forall s | s in stages :: s.id in st)
    && (forall id | id in st :: st[id].Pending? && exists s | s in stages :: s.id == id)
  }

  ghost predicate IsRun(stages: seq<Stage>, run: seq<State>) {
    && |run| > 0 && Initial(stages, run[0])
    && forall i | 0 <= i < |run| - 1 :: Step(stages, run[i], run[i + 1])
  }

  // ----- Every started stage has settled ancestors

  ghost predicate Ordered(stages: seq<Stage>, st: State) {
    && (forall s | s in stages :: s.id in st)
    && (forall s, d | s in stages && !st[s.id].Pending? && d in s.dependsOn :: IsSettled(st, d))
    && (forall id | id in st && st[id].Settled? :: st[id].status in SETTLED)
  }

  lemma {:induction false} StepKeepsOrder(stages: seq<Stage>, st: State, st': State)
    requires UniqueIds(stages) && Ordered(stages, st) && Step(stages, st, st')
    ensures Ordered(stages, st')
  {
    var moved: Stage, phase: Phase :| moved in stages && StageStep(moved, phase, st, st');
    forall s, d | s in stages && !st'[s.id].Pending? && d in s.dependsOn ensures IsSettled(st', d) {
      if s.id == moved.id { SameStage(stages, s, moved); }
      assert IsSettled(st, d);
    }
  }

  lemma SameStage(stages: seq<Stage>, s: Stage, t: Stage)
    requires UniqueIds(stages) && s in stages && t in stages && s.id == t.id
    ensures s == t
  {
    ByIdIsExact(stages);
  }

  lemma {:induction false} RunsAreOrdered(stages: seq<Stage>, run: seq<State>, i: nat)
    requires UniqueIds(stages) && IsRun(stages, run) && i < |run|
    ensures Ordered(stages, run[i])
  {
    if i > 0 {
      RunsAreOrdered(stages, run, i - 1);
      StepKeepsOrder(stages, run[i - 1], run[i]);
    }
  }

  lemma {:induction false} AncestorsAreSettled(stages: seq<Stage>, st: State, s: Stage, path: seq<string>, d: string)
    requires UniqueIds(stages) && Ordered(stages, st)
    requires s in stages && !st[s.id].Pending? && IsPath(ById(stages), s, path, d)
    ensures IsSettled(st, d)
    decreases |path|
  {
    if path != [] {
      assert IsSettled(st, path[0]);
      AncestorsAreSettled(stages, st, ById(stages)[path[0]], path[1..], d);
    }
  }

  // ----- Safety

  /** `artifactActivation` over the recorded stage statuses. */
  datatype Activation = Active | Inactive | Unknown

  datatype StageStatus = StageStatus(status: string, exitCode: Option<int>)

  function ActivationOf(when: Option<Fact>, statuses: map<string, StageStatus>): Activation {
    if when.None? then Active
    else
      var fact := when.value;
      if fact.stage !in statuses || statuses[fact.stage].status !in SETTLED then Unknown
      else
        var recorded := statuses[fact.stage];
        match fact.field
        case StatusField => if fact.equals == Text(recorded.status) then Active else Inactive
        case ExitCodeField =>
          if recorded.exitCode.None? then Unknown
          else if fact.equals == Number(recorded.exitCode.value) then Active else Inactive
  }

  function Statuses(st: State): map<string, StageStatus> {
    map id | id in st :: match st[id]
      case Pending => StageStatus("pending", None)
      case Running => StageStatus("running", None)
      case Settled(status, exitCode) => StageStatus(status, exitCode)
  }

  ghost predicate Intersect(p: Produced, q: Produced) {
    p.root == Run && q.root == Run &&
    exists location :: Owns(p.kind, p.path, location) && Owns(q.kind, q.path, location)
  }

  /** Two different stages hold one location of the run directory at the same time. */
  ghost predicate Contend(st: State, s: Stage, t: Stage) {
    && s.id != t.id && s.id in st && t.id in st && st[s.id].Running? && st[t.id].Running?
    && s.contract.Some? && t.contract.Some?
    && exists p, q :: p in s.contract.value.produces && q in t.contract.value.produces && Intersect(p, q)
  }

  /** The read of a started stage is served: its producer has settled, and declared what is read. */
  ghost predicate Served(stages: seq<Stage>, st: State, r: Read)
    requires r.source.FromStage?
  {
    exists producer, output ::
      && producer in stages && producer.id == r.source.stage && IsSettled(st, producer.id)
      && producer.contract.Some? && output in producer.contract.value.produces
      && output.id == r.source.artifact && output.root == r.root
      && forall location | Owns(r.kind, r.path, location) :: Owns(output.kind, output.path, location)
  }

  /** A condition of a started stage has its answer, as far as the settled stage recorded one. */
  ghost predicate Decided(st: State, when: Option<Fact>) {
    when.Some? ==>
      && IsSettled(st, when.value.stage)
      && (ActivationOf(when, Statuses(st)) == Unknown <==>
            when.value.field == ExitCodeField && st[when.value.stage].exitCode.None?)
  }

  ghost predicate SafeFor(stages: seq<Stage>, st: State, s: Stage)
    requires s.contract.Some?
  {
    && (forall r | r in s.contract.value.inputs ::
        Decided(st, r.when) && (r.source.FromStage? ==> Served(stages, st, r)))
    && (forall p | p in s.contract.value.produces :: Decided(st, p.when))
  }

  lemma {:induction false} NoContention(stages: seq<Stage>, world: World, st: State, s: Stage, t: Stage)
    requires UniqueIds(stages) && Admissible(stages, world) && Ordered(stages, st)
    requires s in stages && t in stages
    ensures !Contend(st, s, t)
  {
    assert StageAdmitted(stages, world, s);
    forall p | p in s.contract.value.produces && p.root == Run ensures OwnerAdmitted(ById(stages), s, p, t) {
      assert OutputAdmitted(stages, world, s, p);
    }
    if Contend(st, s, t) {
      OwnersMeetOnlyUnordered(stages, st, s, t);
    }
  }

  lemma {:induction false} FactsAreDecided(stages: seq<Stage>, st: State, s: Stage, when: Option<Fact>)
    requires UniqueIds(stages) && Ordered(stages, st) && s in stages && !st[s.id].Pending?
    requires FactAdmitted(ById(stages), s, when)
    ensures Decided(st, when)
  {
    if when.Some? {
      var path: seq<string> :| IsPath(ById(stages), s, path, when.value.stage);
      AncestorsAreSettled(stages, st, s, path, when.value.stage);
      assert st[when.value.stage].status in SETTLED;
    }
  }

  lemma {:induction false} ReadsAreServed(stages: seq<Stage>, world: World, st: State, s: Stage, r: Read)
    requires UniqueIds(stages) && Ordered(stages, st) && s in stages && !st[s.id].Pending?
    requires r.source.FromStage? && ReadAdmitted(ById(stages), world, s, r)
    ensures Served(stages, st, r)
  {
    var producer := ById(stages)[r.source.stage];
    var path: seq<string> :| IsPath(ById(stages), s, path, r.source.stage);
    AncestorsAreSettled(stages, st, s, path, r.source.stage);
    FindProducedFinds(producer.contract.value.produces, r.source.artifact);
    var output := FindProduced(producer.contract.value.produces, r.source.artifact).value;
    forall location | Owns(r.kind, r.path, location) ensures Owns(output.kind, output.path, location) {
      CoveredReadsAreOwned(output.kind, output.path, r.kind, r.path, location);
    }
    assert producer in stages && producer.id == r.source.stage;
  }

  /** The static check is sound: an empty finding list makes every state of every run safe. */
  lemma {:induction false} AdmissionIsSound(stages: seq<Stage>, world: World, run: seq<State>, i: nat)
    requires UniqueIds(stages) && Admissible(stages, world)
    requires IsRun(stages, run) && i < |run|
    ensures forall s, t | s in stages && t in stages :: !Contend(run[i], s, t)
    ensures forall s | s in stages && s.id in run[i] && !run[i][s.id].Pending? ::
              s.contract.Some? && SafeFor(stages, run[i], s)
  {
    var st := run[i];
    RunsAreOrdered(stages, run, i);
    forall s, t | s in stages && t in stages ensures !Contend(st, s, t) {
      NoContention(stages, world, st, s, t);
    }
    forall s | s in stages && s.id in st && !st[s.id].Pending? ensures s.contract.Some? && SafeFor(stages, st, s) {
      assert StageAdmitted(stages, world, s);
      forall r | r in s.contract.value.inputs
        ensures Decided(st, r.when) && (r.source.FromStage? ==> Served(stages, st, r))
      {
        assert InputAdmitted(stages, world, s, r);
        FactsAreDecided(stages, st, s, r.when);
        if r.source.FromStage? { ReadsAreServed(stages, world, st, s, r); }
      }
      forall p | p in s.contract.value.produces ensures Decided(st, p.when) {
        assert OutputAdmitted(stages, world, s, p);
        FactsAreDecided(stages, st, s, p.when);
      }
    }
  }

  // ----- Exactness of the ownership rule

  /** All dependencies are known stages, and they can be ranked: the plan has no cycle. */
  ghost predicate Ranked(stages: seq<Stage>, rank: string -> nat) {
    forall s, d | s in stages && d in s.dependsOn ::
      rank(d) < rank(s.id) && d in ById(stages)
  }

  ghost predicate ClosedDown(stages: seq<Stage>, done: set<string>) {
    forall s, d | s in stages && s.id in done && d in s.dependsOn :: d in done
  }

  ghost predicate DoneExactly(stages: seq<Stage>, st: State, done: set<string>) {
    && (forall s | s in stages :: s.id in st)
    && (forall id | id in st :: if id in done then st[id].Settled? else st[id].Pending?)
  }

  lemma {:induction false} Highest(done: set<string>, rank: string -> nat) returns (top: string)
    requires done != {}
    ensures top in done && forall id | id in done :: rank(id) <= rank(top)
  {
    top :| top in done;
    var rest := done - {top};
    if rest != {} {
      var other := Highest(rest, rank);
      if rank(other) > rank(top) {
        top := other;
      }
    }
  }

  /** Any set of stages that is closed under dependencies can be settled before anything else starts. */
  lemma {:induction false} CanSettle(stages: seq<Stage>, rank: string -> nat, done: set<string>)
    returns (run: seq<State>)
    requires UniqueIds(stages) && Ranked(stages, rank) && ClosedDown(stages, done)
    requires done <= ById(stages).Keys
    ensures run != [] && run[|run| - 1].Keys == ById(stages).Keys
    ensures IsRun(stages, run) && DoneExactly(stages, run[|run| - 1], done)
  {
    ByIdIsExact(stages);
    if done == {} {
      run := [map id | id in ById(stages) :: Pending];
      assert Initial(stages, run[0]);
    } else {
      var top := Highest(done, rank);
      forall t, d | t in stages && t.id in done - {top} && d in t.dependsOn ensures d in done - {top} {
        assert rank(d) < rank(t.id) <= rank(top);
      }
      run := CanSettle(stages, rank, done - {top});
      run := SettleTop(stages, rank, run, done, top);
    }
  }

  lemma {:induction false} SettleTop(stages: seq<Stage>, rank: string -> nat, run: seq<State>, done: set<string>,
                                     top: string)
    returns (longer: seq<State>)
    requires Ranked(stages, rank) && ClosedDown(stages, done) && top in done && top in ById(stages)
    requires done <= ById(stages).Keys
    requires run != [] && IsRun(stages, run) && run[|run| - 1].Keys == ById(stages).Keys
    requires DoneExactly(stages, run[|run| - 1], done - {top})
    ensures longer != [] && longer[|longer| - 1].Keys == ById(stages).Keys
    ensures IsRun(stages, longer) && DoneExactly(stages, longer[|longer| - 1], done)
  {
    hide IsRun;
    var s, last := ById(stages)[top], run[|run| - 1];
    forall d | d in s.dependsOn ensures IsSettled(last, d) {
      assert d in done && rank(d) < rank(top);
    }
    assert MayStart(last, s);
    assert "complete" == SETTLED[0];
    longer := AppendStep(stages, run, s, Settled("complete", None));
  }

  lemma {:induction false} AppendStep(stages: seq<Stage>, run: seq<State>, s: Stage, phase: Phase)
    returns (longer: seq<State>)
    requires run != [] && IsRun(stages, run) && s in stages && s.id in run[|run| - 1]
    requires StageStep(s, phase, run[|run| - 1], run[|run| - 1][s.id := phase])
    ensures longer == run + [run[|run| - 1][s.id := phase]] && IsRun(stages, longer)
  {
    longer := run + [run[|run| - 1][s.id := phase]];
    forall i | 0 <= i < |longer| - 1 ensures Step(stages, longer[i], longer[i + 1]) {
      if i < |run| - 1 { assert Step(stages, run[i], run[i + 1]); }
    }
  }

  lemma {:induction false} StartBoth(stages: seq<Stage>, run: seq<State>, s: Stage, t: Stage, done: set<string>)
    returns (longer: seq<State>)
    requires run != [] && IsRun(stages, run) && DoneExactly(stages, run[|run| - 1], done)
    requires s in stages && t in stages && s.id != t.id && s.id !in done && t.id !in done
    requires (forall d | d in s.dependsOn :: d in done && d in run[|run| - 1])
             && (forall d | d in t.dependsOn :: d in done && d in run[|run| - 1])
    ensures longer != [] && IsRun(stages, longer)
    ensures s.id in longer[|longer| - 1] && t.id in longer[|longer| - 1]
    ensures longer[|longer| - 1][s.id].Running? && longer[|longer| - 1][t.id].Running?
  {
    hide IsRun;
    var st := run[|run| - 1];
    assert MayStart(st, s);
    longer := AppendStep(stages, run, s, Running);
    var st' := longer[|longer| - 1];
    forall d | d in t.dependsOn ensures IsSettled(st', d) {
      assert IsSettled(st, d);
    }
    longer := AppendStep(stages, longer, t, Running);
  }

  lemma {:induction false} PathsDescend(stages: seq<Stage>, rank: string -> nat, s: Stage, path: seq<string>, d: string)
    requires UniqueIds(stages) && Ranked(stages, rank) && s in stages && IsPath(ById(stages), s, path, d)
    ensures rank(d) < rank(s.id) && d in ById(stages)
    decreases |path|
  {
    if path != [] {
      PathsDescend(stages, rank, ById(stages)[path[0]], path[1..], d);
    }
  }

  lemma {:induction false} PathExtends(g: Graph, s: Stage, path: seq<string>, d: string, e: string)
    requires IsPath(g, s, path, d) && d in g && e in g[d].dependsOn
    ensures IsPath(g, s, path + [d], e)
    decreases |path|
  {
    if path != [] {
      PathExtends(g, g[path[0]], path[1..], d, e);
      assert (path + [d])[1..] == path[1..] + [d];
    } else {
      assert ([] + [d])[1..] == [];
      assert IsPath(g, g[d], [], e);
    }
  }

  lemma {:induction false} ReachExtends(g: Graph, s: Stage, d: string, e: string)
    requires Reaches(g, s, d) && d in g && e in g[d].dependsOn
    ensures Reaches(g, s, e)
  {
    var path: seq<string> :| IsPath(g, s, path, d);
    PathExtends(g, s, path, d, e);
  }

  /** Two stages that the graph does not order can run at the same time. */
  lemma {:induction false} CanRunTogether(stages: seq<Stage>, rank: string -> nat, s: Stage, t: Stage)
    returns (run: seq<State>)
    requires UniqueIds(stages) && Ranked(stages, rank) && s in stages && t in stages && s.id != t.id
    requires !Reaches(ById(stages), s, t.id) && !Reaches(ById(stages), t, s.id)
    ensures run != [] && IsRun(stages, run)
    ensures s.id in run[|run| - 1] && t.id in run[|run| - 1]
    ensures run[|run| - 1][s.id].Running? && run[|run| - 1][t.id].Running?
  {
    var g := ById(stages);
    ByIdIsExact(stages);
    var done := set id | id in g && (Reaches(g, s, id) || Reaches(g, t, id));
    forall u, d | u in stages && u.id in done && d in u.dependsOn ensures d in done {
      if Reaches(g, s, u.id) { ReachExtends(g, s, u.id, d); } else { ReachExtends(g, t, u.id, d); }
    }
    NotItsOwnAncestor(stages, rank, s);
    NotItsOwnAncestor(stages, rank, t);
    forall d | d in s.dependsOn ensures d in done { assert IsPath(g, s, [], d) && rank(d) < rank(s.id); }
    forall d | d in t.dependsOn ensures d in done { assert IsPath(g, t, [], d) && rank(d) < rank(t.id); }
    run := CanSettle(stages, rank, done);
    run := StartBoth(stages, run, s, t, done);
  }

  lemma {:induction false} NotItsOwnAncestor(stages: seq<Stage>, rank: string -> nat, s: Stage)
    requires UniqueIds(stages) && Ranked(stages, rank) && s in stages
    ensures !Reaches(ById(stages), s, s.id)
  {
    if Reaches(ById(stages), s, s.id) {
      var path: seq<string> :| IsPath(ById(stages), s, path, s.id);
      PathsDescend(stages, rank, s, path, s.id);
    }
  }

  /** The finding "concurrent owners" is raised for output `p` of `s` against `t`. */
  ghost predicate IsRefused(stages: seq<Stage>, s: Stage, p: Produced, t: Stage) {
    && s in stages && s.contract.Some? && p in s.contract.value.produces && p.root == Run && t in stages
    && !OwnerAdmitted(ById(stages), s, p, t)
  }

  /** In state `i` of `run`, two owners of one location are both running. */
  ghost predicate Meet(stages: seq<Stage>, run: seq<State>, i: nat, s: Stage, t: Stage) {
    IsRun(stages, run) && i < |run| && s in stages && t in stages && Contend(run[i], s, t)
  }

  /** On a plan without cycles, the ownership rule refuses exactly the plans with a run in which two owners meet. */
  lemma {:induction false} OwnershipIsExact(stages: seq<Stage>, rank: string -> nat)
    requires UniqueIds(stages) && Ranked(stages, rank)
    ensures (exists s, p, t :: IsRefused(stages, s, p, t)) <==>
              (exists run: seq<State>, i: nat, s, t :: Meet(stages, run, i, s, t))
  {
    hide *;
    if s, p, t :| IsRefused(stages, s, p, t) {
      RefusedOwnersCanMeet(stages, rank, s, p, t);
    }
    if run: seq<State>, i: nat, s, t :| Meet(stages, run, i, s, t) {
      OwnersMeetOnlyRefused(stages, run, i, s, t);
    }
  }

  lemma {:induction false} RefusedOwnersCanMeet(stages: seq<Stage>, rank: string -> nat, s: Stage, p: Produced,
                                                t: Stage)
    requires UniqueIds(stages) && Ranked(stages, rank) && IsRefused(stages, s, p, t)
    ensures exists run: seq<State>, i: nat :: Meet(stages, run, i, s, t)
  {
    var run := CanRunTogether(stages, rank, s, t);
    var q :| q in t.contract.value.produces && q.root == Run && Overlaps(p.kind, p.path, q.kind, q.path);
    OverlapIsIntersection(p.kind, p.path, q.kind, q.path);
    assert Intersect(p, q);
    assert Meet(stages, run, |run| - 1, s, t);
  }

  lemma {:induction false} OwnersMeetOnlyRefused(stages: seq<Stage>, run: seq<State>, i: nat, s: Stage, t: Stage)
    requires UniqueIds(stages) && Meet(stages, run, i, s, t)
    ensures exists p :: IsRefused(stages, s, p, t)
  {
    RunsAreOrdered(stages, run, i);
    OwnersMeetOnlyUnordered(stages, run[i], s, t);
    var p :| p in s.contract.value.produces && p.root == Run && !OwnerAdmitted(ById(stages), s, p, t);
    assert IsRefused(stages, s, p, t);
  }

  lemma {:induction false} OwnersMeetOnlyUnordered(stages: seq<Stage>, st: State, s: Stage, t: Stage)
    requires UniqueIds(stages) && Ordered(stages, st) && s in stages && t in stages && Contend(st, s, t)
    ensures exists p :: p in s.contract.value.produces && p.root == Run && !OwnerAdmitted(ById(stages), s, p, t)
  {
    var p, q :| p in s.contract.value.produces && q in t.contract.value.produces && Intersect(p, q);
    OverlapIsIntersection(p.kind, p.path, q.kind, q.path);
    if Reaches(ById(stages), s, t.id) {
      var path: seq<string> :| IsPath(ById(stages), s, path, t.id);
      AncestorsAreSettled(stages, st, s, path, t.id);
    }
    if Reaches(ById(stages), t, s.id) {
      var path: seq<string> :| IsPath(ById(stages), t, path, s.id);
      AncestorsAreSettled(stages, st, t, path, s.id);
    }
    assert !OwnerAdmitted(ById(stages), s, p, t);
  }
}
