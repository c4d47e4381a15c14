/**
 The static checker of `src/artifact-declarations.ts`: declared inputs and
 outputs against the dependency graph of the stages, before anything runs.
 */
module ArtifactAdmission {
  import opened Wrappers
  import opened ArtifactPaths
  import opened Sequences

  datatype Field = StatusField | ExitCodeField
  datatype FactValue = Text(text: string) | Number(number: int)

  /** `when`: the artifact exists if a field of a settled stage has a value. */
  datatype Fact = Fact(stage: string, field: Field, equals: FactValue)

  datatype Produced = Produced(id: string, root: Place, path: string, kind: Kind, when: Option<Fact>)
  datatype FrameworkArtifact = TaskBrief | RunState
  datatype Source = FromStage(stage: string, artifact: string) | FromInput | FromFramework(file: FrameworkArtifact)
  datatype Read = Read(id: string, root: Place, path: string, kind: Kind, source: Source, when: Option<Fact>)
  datatype Group = Group(id: string, members: seq<string>)
  datatype Contract = Contract(produces: seq<Produced>, inputs: seq<Read>, groups: seq<Group>)
  datatype Stage = Stage(id: string, dependsOn: seq<string>, contract: Option<Contract>)

  /** Verdicts about the real file system, taken as inputs. */
  datatype World = World(engineOwned: (Stage, Produced) -> bool, escapes: (Place, string) -> bool,
                         inputReady: Read -> bool)

  const SETTLED := ["complete", "failed", "skipped"]

  // ----- The dependency graph

  type Graph = g: map<string, Stage> | forall id | id in g :: g[id].id == id
    witness map[]

  /** `new Map(stages.map(...))`: a later stage with the same id wins. */
  function ById(stages: seq<Stage>): (g: Graph)
    ensures forall id | id in g :: g[id] in stages
  {
    if stages == [] then map[]
    else var last := stages[|stages| - 1]; ById(stages[..|stages| - 1])[last.id := last]
  }

  ghost predicate UniqueIds(stages: seq<Stage>) {
    forall i, j | 0 <= i < j < |stages| :: stages[i].id != stages[j].id
  }

  lemma {:induction false} ByIdIsExact(stages: seq<Stage>)
    requires UniqueIds(stages)
    ensures forall s | s in stages :: s.id in ById(stages) && ById(stages)[s.id] == s
  {
    if stages != [] {
      var init, last := stages[..|stages| - 1], stages[|stages| - 1];
      ByIdIsExact(init);
      forall s | s in stages ensures s.id in ById(stages) && ById(stages)[s.id] == s {
        if s != last { assert s in init; }
      }
    }
  }

  /** A chain of known stages from `s` to the dependency `d`, one edge at least. */
  ghost predicate IsPath(g: Graph, s: Stage, path: seq<string>, d: string)
    decreases |path|
  {
    if path == [] then d in s.dependsOn
    else path[0] in s.dependsOn && path[0] in g && IsPath(g, g[path[0]], path[1..], d)
  }

  ghost predicate Reaches(g: Graph, s: Stage, d: string) {
    exists path: seq<string> :: IsPath(g, s, path, d)
  }

  /** All of `v` was looked at, without finding `d`, by a search that has visited `visited`. */
  ghost predicate Explored(g: Graph, v: string, d: string, visited: set<string>) {
    v in g && d !in g[v].dependsOn && forall c | c in g[v].dependsOn && c in g :: c in visited
  }

  lemma {:induction false} ExploredIsUnreachable(g: Graph, v: string, d: string, visited: set<string>,
                                                 path: seq<string>)
    requires forall u | u in visited :: Explored(g, u, d, visited)
    requires v in visited && v in g
    ensures !IsPath(g, g[v], path, d)
    decreases |path|
  {
    if path != [] && path[0] in g[v].dependsOn && path[0] in g {
      ExploredIsUnreachable(g, path[0], d, visited, path[1..]);
    }
  }

  /** The depth-first search with one visited set, shared by all branches. */
  method Search(g: Graph, s: Stage, d: string, seen: set<string>) returns (found: bool, visited: set<string>)
    requires s.id in g && g[s.id] == s && seen <= g.Keys
    ensures seen <= visited <= g.Keys && s.id in visited
    ensures found ==> Reaches(g, s, d)
    ensures !found ==> forall v | v in visited && v !in seen :: Explored(g, v, d, visited)
    decreases g.Keys - seen
  {
    visited := seen;
    if s.id in seen {
      return false, visited;
    }
    visited := visited + {s.id};
    for i := 0 to |s.dependsOn|
      invariant seen + {s.id} <= visited <= g.Keys
      invariant d !in s.dependsOn[..i]
      invariant forall c | c in s.dependsOn[..i] && c in g :: c in visited
      invariant forall v | v in visited && v !in seen && v != s.id :: Explored(g, v, d, visited)
    {
      var c := s.dependsOn[i];
      if c == d {
        assert IsPath(g, s, [], d);
        return true, visited;
      }
      if c in g {
        ghost var before := visited;
        found, visited := Search(g, g[c], d, visited);
        if found {
          ghost var path :| IsPath(g, g[c], path, d);
          assert ([c] + path)[1..] == path;
          assert IsPath(g, s, [c] + path, d);
          return;
        }
        forall v | v in visited && v !in seen && v != s.id ensures Explored(g, v, d, visited) {
          if v in before { assert Explored(g, v, d, before); }
        }
      }
    }
    found := false;
  }

  /** The inner function `ancestor` is exactly reachability, on graphs with cycles too. */
  method Ancestor(g: Graph, s: Stage, d: string) returns (found: bool)
    requires s.id in g && g[s.id] == s
    ensures found <==> Reaches(g, s, d)
  {
    var visited;
    found, visited := Search(g, s, d, {});
    if !found {
      forall path: seq<string> ensures !IsPath(g, s, path, d) {
        ExploredIsUnreachable(g, s.id, d, visited, path);
      }
    }
  }

  // ----- `ArtifactContractSchema`

  function ArtifactIds(c: Contract): seq<string> {
    seq(|c.produces|, i requires 0 <= i < |c.produces| => c.produces[i].id)
    + seq(|c.inputs|, i requires 0 <= i < |c.inputs| => c.inputs[i].id)
  }

  function AllMembers(groups: seq<Group>): seq<string> {
    if groups == [] then [] else AllMembers(groups[..|groups| - 1]) + groups[|groups| - 1].members
  }

  /** The meaning of the schema: unique names and places, and groups that are disjoint sets of unconditional outputs. */
  ghost predicate IsContract(c: Contract) {
    && (forall p | p in c.produces :: IsLiteralPath(p.path))
    && (forall r | r in c.inputs :: IsLiteralPath(r.path))
    && (forall group | group in c.groups :: |group.members| >= 2)
    && Distinct(ArtifactIds(c))
    && Distinct(seq(|c.produces|, i requires 0 <= i < |c.produces| => (c.produces[i].root, c.produces[i].path)))
    && Distinct(seq(|c.groups|, i requires 0 <= i < |c.groups| => c.groups[i].id))
    && Distinct(AllMembers(c.groups))
    && (forall m | m in AllMembers(c.groups) :: exists p | p in c.produces :: p.id == m && p.when.None?)
  }

  function FindProduced(produces: seq<Produced>, id: string): Option<Produced> {
    if produces == [] then None
    else if produces[0].id == id then Some(produces[0])
    else FindProduced(produces[1..], id)
  }

  lemma DistinctSnoc<T>(s: seq<T>, x: T)
    ensures Distinct(s + [x]) <==> Distinct(s) && x !in s
  {
    if Distinct(s + [x]) {
      forall i, j | 0 <= i < j < |s| ensures s[i] != s[j] {
        assert (s + [x])[i] != (s + [x])[j];
      }
      forall i | 0 <= i < |s| ensures s[i] != x {
        assert (s + [x])[i] != (s + [x])[|s|];
      }
    }
  }

  /** Does `s` repeat an element? The loops of the schema keep the elements already met in a set. */
  method Repeats<T(==)>(s: seq<T>) returns (repeats: bool)
    ensures repeats <==> !Distinct(s)
  {
    var met := {};
    repeats := false;
    for i := 0 to |s|
      invariant met == set x | x in s[..i]
      invariant repeats <==> !Distinct(s[..i])
    {
      assert s[..i + 1] == s[..i] + [s[i]];
      if s[i] in met {
        repeats := true;
      }
      met := met + {s[i]};
    }
    assert s[..|s|] == s;
  }

  lemma {:induction false} FindProducedFinds(produces: seq<Produced>, id: string)
    ensures var f := FindProduced(produces, id);
            if f.Some? then f.value in produces && f.value.id == id else forall p | p in produces :: p.id != id
  {
    if produces != [] && produces[0].id != id {
      FindProducedFinds(produces[1..], id);
    }
  }

  predicate Unconditional(c: Contract, member: string) {
    FindProduced(c.produces, member).Some? && FindProduced(c.produces, member).value.when.None?
  }

  /** The member loops of the schema refinement. */
  method GroupsAreValid(c: Contract) returns (ok: bool)
    ensures ok <==> Distinct(AllMembers(c.groups)) && forall m | m in AllMembers(c.groups) :: Unconditional(c, m)
  {
    ok := true;
    var grouped: set<string> := {};
    for g := 0 to |c.groups|
      invariant grouped == set m | m in AllMembers(c.groups[..g])
      invariant ok <==> Distinct(AllMembers(c.groups[..g])) && forall m | m in AllMembers(c.groups[..g]) ::
                  Unconditional(c, m)
    {
      var members := c.groups[g].members;
      ghost var earlier := AllMembers(c.groups[..g]);
      assert earlier + members[..0] == earlier;
      for k := 0 to |members|
        invariant grouped == set m | m in earlier + members[..k]
        invariant ok <==> Distinct(earlier + members[..k]) && forall m | m in earlier + members[..k] ::
                    Unconditional(c, m)
      {
        var member := members[k];
        assert earlier + members[..k + 1] == (earlier + members[..k]) + [member];
        DistinctSnoc(earlier + members[..k], member);
        if !Unconditional(c, member) || member in grouped {
          ok := false;
        }
        grouped := grouped + {member};
      }
      assert members[..|members|] == members;
      assert c.groups[..g + 1][..g] == c.groups[..g];
    }
    assert c.groups[..|c.groups|] == c.groups;
  }

  /** `ArtifactContractSchema.safeParse`. */
  method Parse(c: Contract) returns (ok: bool)
    ensures ok <==> IsContract(c)
  {
    var repeatedId := Repeats(ArtifactIds(c));
    var repeatedPlace := Repeats(seq(|c.produces|,
                                     i requires 0 <= i < |c.produces| => (c.produces[i].root, c.produces[i].path)));
    var repeatedGroup := Repeats(seq(|c.groups|, i requires 0 <= i < |c.groups| => c.groups[i].id));
    var groupsValid := GroupsAreValid(c);
    ok := !repeatedId && !repeatedPlace && !repeatedGroup && groupsValid
      && (forall p | p in c.produces :: IsLiteralPath(p.path))
      && (forall r | r in c.inputs :: IsLiteralPath(r.path))
      && (forall group | group in c.groups :: |group.members| >= 2);
    if !repeatedId { MembersAreUnconditional(c); }
  }

  lemma {:induction false} MembersAreUnconditional(c: Contract)
    requires Distinct(ArtifactIds(c))
    ensures forall m :: Unconditional(c, m) <==> exists p | p in c.produces :: p.id == m && p.when.None?
  {
    forall m ensures Unconditional(c, m) <==> exists p | p in c.produces :: p.id == m && p.when.None? {
      FindProducedFinds(c.produces, m);
      if p :| p in c.produces && p.id == m && p.when.None? {
        SameIdSameOutput(c, p, FindProduced(c.produces, m).value);
      }
    }
  }

  lemma {:induction false} SameIdSameOutput(c: Contract, p: Produced, q: Produced)
    requires Distinct(ArtifactIds(c)) && p in c.produces && q in c.produces && p.id == q.id
    ensures p == q
  {
    var i :| 0 <= i < |c.produces| && c.produces[i] == p;
    var j :| 0 <= j < |c.produces| && c.produces[j] == q;
    var ids := ArtifactIds(c);
    assert ids[i] == p.id && ids[j] == q.id;
  }

  // ----- The findings

  datatype Finding =
    | DeclarationRequired(stage: string)
    | DeclarationInvalid(stage: string)
    | FactUnreachable(stage: string, artifact: string)
    | FactInvalid(stage: string, artifact: string)
    | PathEscapes(stage: string, artifact: string)
    | FrameworkPath(stage: string, artifact: string)
    | ConcurrentOwners(stage: string, artifact: string, other: string)
    | ReadUnbound(stage: string, artifact: string)
    | ReadUnreachable(stage: string, artifact: string)
    | FrameworkReadInvalid(stage: string, artifact: string)
    | InputAbsent(stage: string, artifact: string)

  predicate IsFactValue(fact: Fact) {
    match fact.field
    case StatusField => fact.equals.Text? && fact.equals.text in SETTLED
    case ExitCodeField => fact.equals.Number?
  }

  ghost predicate FactAdmitted(g: Graph, s: Stage, when: Option<Fact>) {
    when.Some? ==> Reaches(g, s, when.value.stage) && IsFactValue(when.value)
  }

  predicate SharesRunOutput(p: Produced, other: Stage) {
    other.contract.Some? &&
    exists output | output in other.contract.value.produces ::
      output.root == Run && Overlaps(p.kind, p.path, output.kind, output.path)
  }

  ghost predicate OwnerAdmitted(g: Graph, s: Stage, p: Produced, other: Stage) {
    other.id == s.id || Reaches(g, s, other.id) || Reaches(g, other, s.id) || !SharesRunOutput(p, other)
  }

  /** `artifactProducerReadError` finds nothing wrong. */
  predicate Binds(producer: Stage, r: Read)
    requires r.source.FromStage?
  {
    && producer.contract.Some?
    && var output := FindProduced(producer.contract.value.produces, r.source.artifact);
    && output.Some?
    && output.value.root == r.root
    && Covers(output.value.kind, output.value.path, r.kind, r.path)
  }

  function FrameworkFile(file: FrameworkArtifact): string {
    match file case TaskBrief => "task_brief.md" case RunState => "run.json"
  }

  ghost predicate ReadAdmitted(g: Graph, world: World, s: Stage, r: Read) {
    match r.source
    case FromStage(producer, _) => producer in g && Binds(g[producer], r) && Reaches(g, s, producer)
    case FromFramework(file) => r.root == Run && r.path == FrameworkFile(file) && r.kind == File
    case FromInput => world.inputReady(r)
  }

  ghost predicate OutputAdmitted(stages: seq<Stage>, world: World, s: Stage, p: Produced) {
    && FactAdmitted(ById(stages), s, p.when) && !world.escapes(p.root, p.path) && !world.engineOwned(s, p)
    && (p.root == Run ==> forall other | other in stages :: OwnerAdmitted(ById(stages), s, p, other))
  }

  ghost predicate InputAdmitted(stages: seq<Stage>, world: World, s: Stage, r: Read) {
    FactAdmitted(ById(stages), s, r.when) && !world.escapes(r.root, r.path) && ReadAdmitted(ById(stages), world, s, r)
  }

  ghost predicate StageAdmitted(stages: seq<Stage>, world: World, s: Stage) {
    && s.contract.Some? && IsContract(s.contract.value)
    && (forall p | p in s.contract.value.produces :: OutputAdmitted(stages, world, s, p))
    && (forall r | r in s.contract.value.inputs :: InputAdmitted(stages, world, s, r))
  }

  /** What an empty finding list means. */
  ghost predicate Admissible(stages: seq<Stage>, world: World) {
    forall s | s in stages :: StageAdmitted(stages, world, s)
  }

  method FactFindings(g: Graph, s: Stage, artifact: string, when: Option<Fact>) returns (errors: seq<Finding>)
    requires s.id in g && g[s.id] == s
    ensures errors == [] <==> FactAdmitted(g, s, when)
  {
    errors := [];
    if when.Some? {
      var reachable := Ancestor(g, s, when.value.stage);
      if !reachable { errors := errors + [FactUnreachable(s.id, artifact)]; }
      if !IsFactValue(when.value) { errors := errors + [FactInvalid(s.id, artifact)]; }
    }
  }

  method OwnerFindings(g: Graph, stages: seq<Stage>, s: Stage, p: Produced) returns (errors: seq<Finding>)
    requires s.id in g && g[s.id] == s && forall other | other in stages :: other.id in g && g[other.id] == other
    ensures errors == [] <==> p.root == Run ==> forall other | other in stages :: OwnerAdmitted(g, s, p, other)
  {
    errors := [];
    if p.root != Run { return; }
    for i := 0 to |stages|
      invariant errors == [] <==> forall k | 0 <= k < i :: OwnerAdmitted(g, s, p, stages[k])
    {
      var other := stages[i];
      if other.id != s.id {
        var after := Ancestor(g, s, other.id);
        var before := Ancestor(g, other, s.id);
        if !after && !before && SharesRunOutput(p, other) {
          errors := errors + [ConcurrentOwners(s.id, p.id, other.id)];
        }
      }
    }
  }

  method ReadFindings(g: Graph, world: World, s: Stage, r: Read) returns (errors: seq<Finding>)
    requires s.id in g && g[s.id] == s
    ensures errors == [] <==> ReadAdmitted(g, world, s, r)
  {
    errors := [];
    match r.source {
      case FromStage(producer, _) =>
        if !(producer in g && Binds(g[producer], r)) {
          errors := [ReadUnbound(s.id, r.id)];
        } else {
          var reachable := Ancestor(g, s, producer);
          if !reachable { errors := [ReadUnreachable(s.id, r.id)]; }
        }
      case FromFramework(file) =>
        if r.root != Run || r.path != FrameworkFile(file) || r.kind != File {
          errors := [FrameworkReadInvalid(s.id, r.id)];
        }
      case FromInput =>
        if !world.inputReady(r) { errors := [InputAbsent(s.id, r.id)]; }
    }
  }

  method StageFindings(stages: seq<Stage>, world: World, s: Stage) returns (errors: seq<Finding>)
    requires UniqueIds(stages) && s in stages
    ensures errors == [] <==> StageAdmitted(stages, world, s)
  {
    hide IsContract, FactAdmitted, OwnerAdmitted, ReadAdmitted;
    var g := ById(stages);
    ByIdIsExact(stages);
    if s.contract.None? {
      return [DeclarationRequired(s.id)];
    }
    var c := s.contract.value;
    var parsed := Parse(c);
    if !parsed {
      return [DeclarationInvalid(s.id)];
    }
    errors := [];
    for i := 0 to |c.produces|
      invariant errors == [] <==> forall k | 0 <= k < i :: OutputAdmitted(stages, world, s, c.produces[k])
    {
      var p := c.produces[i];
      var facts := FactFindings(g, s, p.id, p.when);
      var owners := OwnerFindings(g, stages, s, p);
      errors := errors + facts
        + (if world.escapes(p.root, p.path) then [PathEscapes(s.id, p.id)] else [])
        + (if world.engineOwned(s, p) then [FrameworkPath(s.id, p.id)] else [])
        + owners;
    }

    ghost var outputsAdmitted := errors == [];
    for i := 0 to |c.inputs|
      invariant errors == [] <==> outputsAdmitted && forall k | 0 <= k < i ::
                  InputAdmitted(stages, world, s, c.inputs[k])
    {
      var r := c.inputs[i];
      var facts := FactFindings(g, s, r.id, r.when);
      var bindings := ReadFindings(g, world, s, r);
      errors := errors + facts
        + (if world.escapes(r.root, r.path) then [PathEscapes(s.id, r.id)] else [])
        + bindings;
    }
  }

  /** `artifactDeclarationFindings`: nothing is found exactly when the declarations are admissible. */
  method Findings(stages: seq<Stage>, world: World) returns (errors: seq<Finding>)
    requires UniqueIds(stages)
    ensures errors == [] <==> Admissible(stages, world)
  {
    errors := [];
    for i := 0 to |stages|
      invariant errors == [] <==> forall k | 0 <= k < i :: StageAdmitted(stages, world, stages[k])
    {
      var found := StageFindings(stages, world, stages[i]);
      errors := errors + found;
    }
  }
}
