/**
 `publishRuntimeGeneration` of `src/build-manifest.ts`: immutable generations and
 one atomically renamed link that selects the generation both public links follow.

 Every atomic step appends the new state to `history`.
 */
module RuntimeGenerations {
  import opened Wrappers
  import opened Paths

  type Name = string
  type Files = map<string, seq<int>>

  /** One generation: the attested payload, and the project resources copied beside it. */
  datatype Contents = Contents(dist: Files, ui: Option<Files>, resources: Files)

  /** A public path: a link through the selection, a directory of its own, or a link of someone else's making. */
  datatype PublicPath = Missing | Ordinary(files: Files) | ToSelected | Elsewhere(resolves: bool)

  datatype Root = Root(generations: map<Name, Contents>, selected: Option<Name>, next: Option<Name>, dist: PublicPath,
                       ui: PublicPath)

  datatype Outcome = Refused | Unchanged | Published

  // ----- What readers see

  predicate Resolves(s: Root) {
    s.selected.Some? && s.selected.value in s.generations
  }

  function DistFiles(s: Root): Option<Files> {
    if s.dist == ToSelected && Resolves(s) then Some(s.generations[s.selected.value].dist) else None
  }

  function UiFiles(s: Root): Option<Files> {
    if s.ui == ToSelected && Resolves(s) then s.generations[s.selected.value].ui else None
  }

  /** Both public paths show one generation. */
  ghost predicate OneGeneration(s: Root, name: Name) {
    && name in s.generations
    && DistFiles(s) == Some(s.generations[name].dist)
    && UiFiles(s) == s.generations[name].ui
  }

  /** The state every publication leaves, interrupted or not, once the public paths were converted to links. */
  ghost predicate Converted(s: Root) {
    && Resolves(s)
    && s.dist == ToSelected
    && (s.ui == ToSelected || (s.ui == Missing && s.generations[s.selected.value].ui.None?))
  }

  /** An instant of a publication of `name` that started in a converted state `before`. */
  ghost predicate SafeInstant(s: Root, before: Root, name: Name, canonical: bool) {
    && Converted(s)
    // the switch is atomic, and complete,
    && s.selected in {before.selected, Some(name)}
    && OneGeneration(s, s.selected.value)
    // installed generations never change,
    && (forall n | n in before.generations && n in s.generations :: s.generations[n] == before.generations[n])
    // and a canonical root never loses the generation selected on entry.
    && (canonical && before.selected.Some? ==> before.selected.value in s.generations)
  }

  predicate SamePayload(a: Contents, b: Contents) {
    a.dist == b.dist && a.ui == b.ui
  }

  /** Only new entries were added. */
  ghost predicate Installing(s: Root, before: Root) {
    && s == before.(generations := s.generations)
    && forall n | n in before.generations :: n in s.generations && s.generations[n] == before.generations[n]
  }

  /** Between installation and cleanup, on a converted root. */
  ghost predicate Switching(s: Root, before: Root, name: Name) {
    && s.generations == before.generations
    && s.dist == ToSelected
    && s.selected in {before.selected, Some(name)}
    && (s.ui == ToSelected || (s.ui == Missing && s.selected == before.selected && !UiSelected(before)))
  }

  lemma {:induction false} InstallingIsSafe(s: Root, before: Root, name: Name, canonical: bool)
    requires Converted(before) && Installing(s.(next := before.next), before)
    ensures SafeInstant(s, before, name, canonical)
  {
  }

  /** Some entries of `full` were removed, but not `name` or `previous`. */
  ghost predicate Trimmed(s: Root, full: Root, name: Name, previous: Option<Name>) {
    && s == full.(generations := s.generations)
    && (forall n | n in s.generations :: n in full.generations && s.generations[n] == full.generations[n])
    && (forall n | n in full.generations && (n == name || Some(n) == previous) :: n in s.generations)
  }

  /** A switching state, from which unselected generations may have been removed. */
  lemma {:induction false} SwitchingIsSafe(s: Root, full: Root, installed: Root, before: Root, name: Name,
                                           canonical: bool)
    requires Converted(before) && Installing(installed, before) && name in installed.generations
    requires Switching(full, installed, name)
    requires s == full || (full.selected == Some(name) && full.ui == ToSelected
                           && Trimmed(s, full, name, Previous(before, canonical)))
    ensures SafeInstant(s, before, name, canonical)
  {
  }

  lemma {:induction false} CleanedIsSafe(s: Root, last: Root, before: Root, name: Name, temporary: Name,
                                         canonical: bool)
    requires Converted(before) && temporary !in before.generations && temporary != name
    requires SafeInstant(last, before, name, canonical) || Installing(last, before)
    requires s == last.(next := None) || s == last.(next := None, generations := last.generations - {temporary})
    ensures SafeInstant(s, before, name, canonical)
  {
    if Installing(last, before) { InstallingIsSafe(last, before, name, canonical); }
  }

  /** The instants of one publication: installing, switching, and clearing up. */
  lemma {:induction false} HistoryIsSafe(history: seq<Root>, start: nat, installed: nat, switched: nat, last: Root,
                                         before: Root, name: Name, temporary: Name, canonical: bool)
    requires Converted(before) && temporary !in before.generations && temporary != name
    requires start <= installed <= switched == |history| - 2
    requires forall i | start <= i < installed :: Installing(history[i], before)
    requires forall i | installed <= i < switched :: SafeInstant(history[i], before, name, canonical)
    requires SafeInstant(last, before, name, canonical) || Installing(last, before)
    requires history[switched] == last.(next := None)
    requires history[switched + 1] == last.(next := None, generations := last.generations - {temporary})
    ensures forall i | start <= i < |history| :: SafeInstant(history[i], before, name, canonical)
  {
    hide SafeInstant, Converted;
    forall i | start <= i < |history| ensures SafeInstant(history[i], before, name, canonical) {
      if i < installed {
        InstallingIsSafe(history[i], before, name, canonical);
      } else if i >= switched {
        CleanedIsSafe(history[i], last, before, name, temporary, canonical);
      }
    }
  }

  /** `existsSync` of a public path, with its part of the selected generation. */
  predicate Exists(s: Root, path: PublicPath, part: bool) {
    match path
    case Missing => false
    case Ordinary(_) => true
    case ToSelected => Resolves(s) && part
    case Elsewhere(resolves) => resolves
  }

  predicate UiSelected(s: Root) {
    Resolves(s) && s.generations[s.selected.value].ui.Some?
  }

  /** Where the payload of generation `n` is, below a cache directory. */
  function GenerationDist(cache: Path, n: Name): Path {
    cache + ["build-generations", n, "dist"]
  }

  /** `realpathSync` of `dist` where that leads to a generation; another place is no generation's. */
  function RealDist(s: Root, realCache: Path): Option<Path> {
    if s.dist == ToSelected && Resolves(s) then Some(GenerationDist(realCache, s.selected.value)) else None
  }

  lemma {:induction false} SameGeneration(spelled: Path, resolved: Path, n: Name, m: Name)
    ensures GenerationDist(spelled, n) == GenerationDist(resolved, m) <==> spelled == resolved && n == m
  {
    var a, b := GenerationDist(spelled, n), GenerationDist(resolved, m);
    if a == b {
      assert |spelled| == |resolved| && a[..|spelled|] == spelled && b[..|spelled|] == resolved;
      assert a[|spelled| + 1] == n && b[|spelled| + 1] == m;
    }
  }

  /**
   A generation's path is compared as it is spelled, so the selected one is recognised exactly if
   that is its real path.
   */
  lemma {:induction false} RecognisedIfCanonical(s: Root, spelled: Path, resolved: Path, n: Name)
    ensures RealDist(s, resolved) == Some(GenerationDist(spelled, n)) <==> Previous(s, spelled == resolved) == Some(n)
  {
    if RealDist(s, resolved).Some? { SameGeneration(spelled, resolved, n, s.selected.value); }
  }

  /** The generation that is recognised as the one `dist` leads to. */
  function Previous(s: Root, canonical: bool): Option<Name> {
    if canonical && s.dist == ToSelected && Resolves(s) then s.selected else None
  }

  function Kept(s: Root, canonical: bool): set<Name> {
    if Previous(s, canonical).Some? then {Previous(s, canonical).value} else {}
  }

  ghost predicate Fresh(s: Root, n: Name) {
    n !in s.generations
  }

  class RuntimeRoot {
    /** The cache directory as it is spelled, and its real path. */
    const spelled: Path
    const resolved: Path
    var state: Root
    ghost var history: seq<Root>

    constructor (s: Root, spelled: Path, resolved: Path)
      ensures state == s && history == [] && this.spelled == spelled && this.resolved == resolved
    {
      this.spelled, this.resolved := spelled, resolved;
      state := s;
      history := [];
    }

    ghost predicate Canonical() {
      spelled == resolved
    }

    /** Of all generations, comparing paths with `previous` recognises the one that `kept` names. */
    ghost predicate Recognises(previous: Option<Path>, kept: Option<Name>) {
      forall n :: previous == Some(GenerationDist(spelled, n)) <==> kept == Some(n)
    }

    lemma {:induction false} SelectedIsRecognised(s: Root)
      ensures Recognises(RealDist(s, resolved), Previous(s, Canonical()))
    {
      forall n
        ensures RealDist(s, resolved) == Some(GenerationDist(spelled, n)) <==> Previous(s, Canonical()) == Some(n)
      {
        RecognisedIfCanonical(s, spelled, resolved, n);
      }
    }

    method Step(s: Root)
      modifies this
      ensures state == s && history == old(history) + [s]
    {
      state := s;
      history := history + [s];
    }

    /** The `finally` block. */
    method CleanUp(temporary: Name)
      modifies this
      ensures state == old(state).(next := None, generations := old(state).generations - {temporary})
      ensures history == old(history) + [old(state).(next := None), state]
    {
      Step(state.(next := None));
      Step(state.(generations := state.generations - {temporary}));
    }

    /** Make `dist` a link through the selection; an ordinary directory is moved aside. */
    method LinkDist(legacy: Name)
      requires Fresh(state, legacy)
      modifies this
      ensures old(history) <= history
      ensures Converted(old(state)) ==> state == old(state) && history == old(history)
      ensures state.(dist := old(state).dist, generations := old(state).generations) == old(state)
      ensures state.generations == old(state).generations || state.generations - {legacy} == old(state).generations
      ensures state.dist == if old(state).dist == Elsewhere(true) then Elsewhere(true) else ToSelected
    {
      if state.dist.Ordinary? {
        Step(state.(dist := Missing, generations :=
                    state.generations[legacy := Contents(map[], None, state.dist.files)]));
      }
      if !Exists(state, state.dist, true) {
        Step(state.(dist := Missing));
        Step(state.(dist := ToSelected));
      }
    }

    /** The same for `ui/dist`; a backend-only link can be dangling. */
    method LinkUi(legacy: Name)
      requires Fresh(state, legacy)
      modifies this
      ensures old(history) <= history
      ensures Converted(old(state)) ==>
                && state == old(state).(ui := ToSelected)
                && forall i | |old(history)| <= i < |history| ::
                     history[i] == state || (history[i] == state.(ui := Missing) && !UiSelected(state))
      ensures state.(ui := old(state).ui, generations := old(state).generations) == old(state)
      ensures state.generations == old(state).generations || state.generations - {legacy} == old(state).generations
      ensures state.ui == if old(state).ui == Elsewhere(true) then Elsewhere(true) else ToSelected
    {
      if state.ui.Ordinary? {
        Step(state.(ui := Missing, generations := state.generations[legacy := Contents(map[], None, state.ui.files)]));
      }
      if !Exists(state, state.ui, UiSelected(state)) {
        Step(state.(ui := Missing));
        Step(state.(ui := ToSelected));
      }
    }

    /** Remove every entry but the new generation and, if it is recognised, the one selected on entry. */
    method RemoveOthers(name: Name, previous: Option<Path>, ghost kept: Option<Name>)
      requires Recognises(previous, kept)
      modifies this
      ensures old(history) <= history
      ensures forall i | |old(history)| <= i < |history| :: Trimmed(history[i], old(state), name, kept)
      ensures Trimmed(state, old(state), name, kept)
      ensures forall n | n in state.generations :: n == name || Some(n) == kept
    {
      var entries := state.generations.Keys;
      while entries != {}
        invariant old(history) <= history
        invariant Trimmed(state, old(state), name, kept)
        invariant forall n | n in state.generations :: n in entries || n == name || Some(n) == kept
        invariant forall i | |old(history)| <= i < |history| :: Trimmed(history[i], old(state), name, kept)
      {
        var entry :| entry in entries;
        if entry != name && Some(GenerationDist(spelled, entry)) != previous {
          Step(state.(generations := state.generations - {entry}));
        }
        entries := entries - {entry};
      }
    }

    /** Prepare the generation beside the others; reuse, or refuse, one that is already installed. */
    method Install(name: Name, contents: Contents, temporary: Name, previous: Option<Path>, ghost kept: Option<Name>)
      returns (outcome: Outcome)
      requires Fresh(state, temporary) && name != temporary && Recognises(previous, kept)
      modifies this
      ensures old(history) <= history
      ensures forall i | |old(history)| <= i < |history| :: Installing(history[i], old(state))
      ensures Installing(state, old(state)) && state.generations.Keys <= old(state).generations.Keys + {name, temporary}
      ensures outcome == Published ==> name in state.generations && SamePayload(state.generations[name], contents)
      ensures outcome == Published && name in old(state).generations ==> kept != Some(name)
      ensures outcome != Published ==> state.generations == old(state).generations[temporary := contents]
      ensures outcome == Refused <==>
                name in old(state).generations && !SamePayload(old(state).generations[name], contents)
      ensures outcome == Unchanged <==>
                name in old(state).generations && SamePayload(old(state).generations[name], contents)
                  && kept == Some(name)
    {
      Step(state.(generations := state.generations[temporary := contents]));
      if name in state.generations {
        if !SamePayload(state.generations[name], contents) {
          return Refused;
        }
        if previous == Some(GenerationDist(spelled, name)) {
          return Unchanged;
        }
      } else {
        Step(state.(generations := (state.generations - {temporary})[name := contents]));
      }
      outcome := Published;
    }

    /** Point both public paths through the selection, then switch it. */
    method Select(name: Name, legacyDist: Name, legacyUi: Name)
      requires Fresh(state, legacyDist) && Fresh(state, legacyUi) && legacyDist != legacyUi
      requires name in state.generations
      modifies this
      ensures old(history) <= history
      ensures Converted(old(state)) ==> forall i | |old(history)| <= i < |history| ::
                Switching(history[i], old(state), name)
      ensures Converted(old(state)) ==> Switching(state, old(state), name)
      ensures state.selected == Some(name)
      ensures forall n | n in old(state).generations ::
                n in state.generations && state.generations[n] == old(state).generations[n]
      ensures state.dist == if old(state).dist == Elsewhere(true) then Elsewhere(true) else ToSelected
      ensures state.ui == if old(state).ui == Elsewhere(true) then Elsewhere(true) else ToSelected
    {
      Step(state.(next := Some(name)));
      LinkDist(legacyDist);
      LinkUi(legacyUi);
      Step(state.(selected := state.next, next := None));
    }

    /** Select the installed generation, and clear away the ones nobody is known to run. */
    method Switch(name: Name, legacyDist: Name, legacyUi: Name, previous: Option<Path>, ghost kept: Option<Name>,
                  ghost before: Root)
      requires Fresh(state, legacyDist) && Fresh(state, legacyUi) && legacyDist != legacyUi
      requires name in state.generations && Installing(state, before)
      requires kept == Previous(before, Canonical()) && Recognises(previous, kept)
      modifies this
      ensures old(history) <= history
      ensures Converted(before) ==>
                && SafeInstant(state, before, name, Canonical())
                && forall i | |old(history)| <= i < |history| :: SafeInstant(history[i], before, name, Canonical())
      ensures state.selected == Some(name)
      ensures name in state.generations && state.generations[name] == old(state).generations[name]
      ensures forall n :: n in state.generations && n in old(state).generations <==>
                            n in old(state).generations && (n == name || Some(n) == kept)
      ensures forall n | n in state.generations :: n == name || Some(n) == kept
      ensures state.dist == if old(state).dist == Elsewhere(true) then Elsewhere(true) else ToSelected
      ensures state.ui == if old(state).ui == Elsewhere(true) then Elsewhere(true) else ToSelected
    {
      ghost var installed, start := state, |history|;
      if Converted(before) { InstallingIsSafe(installed, before, name, Canonical()); }
      Select(name, legacyDist, legacyUi);
      ghost var selected, middle := state, |history|;
      RemoveOthers(name, previous, kept);
      if Converted(before) {
        forall i | start <= i < |history| ensures SafeInstant(history[i], before, name, Canonical()) {
          if i < middle {
            SwitchingIsSafe(history[i], history[i], installed, before, name, Canonical());
          } else {
            SwitchingIsSafe(history[i], selected, installed, before, name, Canonical());
          }
        }
        SwitchingIsSafe(state, selected, installed, before, name, Canonical());
      }
    }

    /**
     Publish `contents` as generation `name`. `temporary` and the `legacy` names
     are random.
     */
    method Publish(name: Name, contents: Contents, temporary: Name, legacyDist: Name, legacyUi: Name)
      returns (outcome: Outcome)
      requires Fresh(state, temporary) && Fresh(state, legacyDist) && Fresh(state, legacyUi)
      requires name !in {temporary, legacyDist, legacyUi} && temporary !in {legacyDist, legacyUi}
               && legacyDist != legacyUi
      modifies this
      ensures old(history) <= history
      ensures Converted(old(state)) ==>
                forall i | |old(history)| <= i < |history| :: SafeInstant(history[i], old(state), name, Canonical())
      ensures outcome == Published ==>
                && state.selected == Some(name) && name in state.generations
                && SamePayload(state.generations[name], contents)
      // Only the new generation and the one recognised as selected on entry survive the cleanup.
      ensures outcome == Published ==>
                state.generations.Keys == {name} + Kept(old(state), Canonical())
      ensures outcome == Published && Converted(old(state)) ==>
                (old(state).selected.value in state.generations <==> Canonical() || old(state).selected == Some(name))
      // Both public paths follow the selection, unless one of them was someone else's live link.
      ensures outcome == Published ==>
                (Converted(state) && state.ui == ToSelected <==>
                   old(state).dist != Elsewhere(true) && old(state).ui != Elsewhere(true))
      ensures outcome != Published ==>
                state.generations == old(state).generations && state.selected == old(state).selected
      // A generation is refused if it is installed with other contents, and left alone if it is recognised as selected.
      ensures outcome == Refused <==>
                name in old(state).generations && !SamePayload(old(state).generations[name], contents)
      ensures outcome == Unchanged <==>
                && name in old(state).generations && SamePayload(old(state).generations[name], contents)
                && Previous(old(state), Canonical()) == Some(name)
    {
      hide Recognises, RealDist, Canonical, SafeInstant, Converted;
      SelectedIsRecognised(state);
      outcome := PublishBeside(RealDist(state, resolved), Previous(state, Canonical()), name, contents, temporary,
                               legacyDist, legacyUi);
    }

    /** What follows once it is known where `dist` really is. */
    method PublishBeside(previous: Option<Path>, ghost kept: Option<Name>, name: Name, contents: Contents,
                         temporary: Name, legacyDist: Name, legacyUi: Name)
      returns (outcome: Outcome)
      requires Fresh(state, temporary) && Fresh(state, legacyDist) && Fresh(state, legacyUi)
      requires name !in {temporary, legacyDist, legacyUi} && temporary !in {legacyDist, legacyUi}
               && legacyDist != legacyUi
      requires kept == Previous(state, Canonical()) && Recognises(previous, kept)
      modifies this
      ensures old(history) <= history
      ensures Converted(old(state)) ==>
                forall i | |old(history)| <= i < |history| :: SafeInstant(history[i], old(state), name, Canonical())
      ensures outcome == Published ==>
                && state.selected == Some(name) && name in state.generations
                && SamePayload(state.generations[name], contents)
                && state.generations.Keys == {name} + Kept(old(state), Canonical())
                && (Converted(old(state)) ==>
                      (old(state).selected.value in state.generations <==>
                       Canonical() || old(state).selected == Some(name)))
                && (Converted(state) && state.ui == ToSelected <==>
                      old(state).dist != Elsewhere(true) && old(state).ui != Elsewhere(true))
      ensures outcome != Published ==>
                state.generations == old(state).generations && state.selected == old(state).selected
      ensures outcome == Refused <==>
                name in old(state).generations && !SamePayload(old(state).generations[name], contents)
      ensures outcome == Unchanged <==>
                name in old(state).generations && SamePayload(old(state).generations[name], contents)
                  && kept == Some(name)
    {
      hide Recognises, Canonical, SafeInstant, Trimmed, Switching, RealDist, OneGeneration;
      ghost var before, start := state, |history|;
      outcome := Install(name, contents, temporary, previous, kept);
      ghost var installed := |history|;
      if outcome == Published {
        Switch(name, legacyDist, legacyUi, previous, kept, before);
      }
      ghost var last, switched := state, |history|;
      CleanUp(temporary);
      if Converted(before) {
        HistoryIsSafe(history, start, installed, switched, last, before, name, temporary, Canonical());
      }
    }
  }

  /** On a root spelled otherwise than as its real path, publishing a new generation removes the one that runs. */
  method PublishOnAliasedRoot(before: Root, spelled: Path, resolved: Path, name: Name, contents: Contents,
                              temporary: Name, legacyDist: Name, legacyUi: Name)
    returns (root: RuntimeRoot)
    requires Converted(before) && Fresh(before, name) && spelled != resolved
    requires Fresh(before, temporary) && Fresh(before, legacyDist) && Fresh(before, legacyUi)
    requires name !in {temporary, legacyDist, legacyUi} && temporary !in {legacyDist, legacyUi}
             && legacyDist != legacyUi
    ensures root.state.selected == Some(name) && root.state.generations.Keys == {name}
    ensures before.selected.value in before.generations && before.selected.value !in root.state.generations
  {
    root := new RuntimeRoot(before, spelled, resolved);
    var outcome := root.Publish(name, contents, temporary, legacyDist, legacyUi);
  }

  /** Such a root: generation "a" runs, "bb" is published, and "a" is gone. */
  method RunningGenerationIsLost(running: Contents, contents: Contents) returns (root: RuntimeRoot)
    ensures DistFiles(Root(map["a" := running], Some("a"), None, ToSelected, ToSelected)) == Some(running.dist)
    ensures root.state.generations.Keys == {"bb"} && root.state.selected == Some("bb")
  {
    assert |"a"| == 1 && |"bb"| == 2 && |"ccc"| == 3 && |"dddd"| == 4 && |"eeeee"| == 5;
    var before := Root(map["a" := running], Some("a"), None, ToSelected, ToSelected);
    root := PublishOnAliasedRoot(before, ["link"], ["cache"], "bb", contents, "ccc", "dddd", "eeeee");
  }
}
