/**
 The removal protocol of `src/cli-land.ts`: `runLand` inspects a finished run, and only
 then asks Git to remove its worktree, prune, and delete its branch. Every reply of Git,
 of the file system and of the task ledger is an input.
 */
module Landing {
  import opened Wrappers
  import opened Sequences
  import opened LandInventory

  datatype Options = Options(remove: bool, archive: bool, acknowledged: Option<nat>, closure: bool)

  /** `NoReply`: the command could not be run. */
  datatype Reply = Exited(code: int, error: bool) | NoReply

  /** One run of the read-only inventory: what Git could not answer, the paths it reported, and the branch. */
  datatype Inspection = Inspection(gitIssues: nat, paths: seq<Item>, facts: Item -> Facts, branch: Option<string>)

  /** A line of `git worktree list`: its canonical path, if it has one. */
  datatype Record = Record(canonical: Option<string>, bare: bool, branch: Option<string>)

  datatype LedgerOutcome = Recorded | Failed(statusAfter: Option<bool>)

  /**
   Everything the run is told. `first`, `second` and `third` are the inspections before, after and
   behind the archive.
   */
  datatype World = World(
    projectDir: string, statusKnown: bool, terminal: bool, artifactIssues: nat,
    first: Inspection, archived: bool, second: Inspection, third: Option<Inspection>, archiveVerified: bool,
    top: Option<string>, worktrees: Option<seq<Record>>, closureVerified: bool,
    removeReply: Reply, pruneReply: Reply, deleteReply: Reply, ledger: LedgerOutcome)

  datatype Request = ReadRoot | ReadWorktrees | RemoveWorktree(dir: string, cwd: string) | Prune(cwd: string)
    | DeleteBranch(branch: string, cwd: string)

  datatype Reason = NotTerminal | UnknownStatus | Incomplete | IgnoredRemain | NotAcknowledged | WrongAcknowledgement
                  | WrongRoot | NoWorktrees | NotListed | PrimaryOrBare | BranchDisagrees | ContextIncomplete
                  | NoBranch | NoPrimary | ClosureRefused | ArchiveChanged

  datatype State = Audit | Refused | RemovalFailed | Removed | RemovedLedgerOpen | RemovedLedgerUnconfirmed

  datatype Report = Report(state: State, ready: bool, reasons: seq<Reason>, steps: seq<Request>)

  predicate Destructive(r: Request) {
    r.RemoveWorktree? || r.Prune? || r.DeleteBranch?
  }

  predicate Passed(r: Reply) {
    r.Exited? && r.code == 0 && !r.error
  }

  // ----- When removal may start

  ghost predicate AllRead(i: Inspection) {
    i.gitIssues == 0 && forall item | item in i.paths :: !Unreadable(i.facts(item))
  }

  ghost predicate NothingIgnoredIsUnique(i: Inspection) {
    forall item | item in i.paths && item.origin.FromIgnored? :: Regenerable(item, i.facts(item))
  }

  ghost function RegenerableCount(i: Inspection): nat {
    Count(i.paths, IsRegenerable(i.facts))
  }

  ghost predicate Acknowledged(o: Options, i: Inspection) {
    RegenerableCount(i) > 0 ==> o.acknowledged == Some(RegenerableCount(i))
  }

  ghost predicate Clean(o: Options, i: Inspection) {
    AllRead(i) && NothingIgnoredIsUnique(i) && Acknowledged(o, i)
  }

  function Archives(o: Options, w: World): bool {
    o.archive && w.terminal
  }

  /** The inspection the report is about. */
  function Inspected(o: Options, w: World): Inspection {
    if Archives(o, w) && w.archived then w.second else w.first
  }

  /** The worktree's record: the first one that leads to the project. */
  ghost predicate Selected(w: World, n: nat) {
    && w.worktrees.Some? && n < |w.worktrees.value| && w.worktrees.value[n].canonical == Some(w.projectDir)
    && forall m | 0 <= m < n :: w.worktrees.value[m].canonical != Some(w.projectDir)
  }

  /**
   A listed worktree other than the primary one, not bare, checked out at its root on a branch the
   list does not contradict.
   */
  ghost predicate Secondary(w: World, branch: Option<string>) {
    && w.top == Some(w.projectDir) && branch.Some?
    && w.worktrees.Some? && w.worktrees.value != []
    && w.worktrees.value[0].canonical.Some? && w.worktrees.value[0].canonical.value != w.projectDir
    && exists n: nat :: Selected(w, n) && var r := w.worktrees.value[n];
       !r.bare && (r.branch.Some? ==> r.branch == branch)
  }

  /** Every precondition of removal. */
  ghost predicate Cleared(o: Options, w: World) {
    && o.remove && w.statusKnown && w.terminal && w.artifactIssues == 0
    && Clean(o, Inspected(o, w))
    && Secondary(w, Inspected(o, w).branch)
    && (o.closure ==> w.closureVerified)
    && (o.archive ==> w.archived && AllRead(w.first) && w.archiveVerified && w.third.Some? && Clean(o, w.third.value))
  }

  /** The destructive requests, each after the one before it passed. */
  function Steps(w: World, branch: string, primary: string): seq<Request> {
    [RemoveWorktree(w.projectDir, primary)] +
    if !Passed(w.removeReply) then []
    else [Prune(primary)] + if !Passed(w.pruneReply) then [] else [DeleteBranch(branch, primary)]
  }

  ghost function Reached(o: Options, w: World): State {
    if !(Passed(w.removeReply) && Passed(w.pruneReply) && Passed(w.deleteReply)) then RemovalFailed
    else if !o.closure || w.ledger.Recorded? then Removed
    else if w.ledger.statusAfter == Some(false) then RemovedLedgerOpen else RemovedLedgerUnconfirmed
  }

  class Land {
    const w: World
    var issued: seq<Request>
    var ledgerUpdates: nat

    constructor (w: World)
      ensures this.w == w && issued == [] && ledgerUpdates == 0
    {
      this.w, issued, ledgerUpdates := w, [], 0;
    }

    method Issue(r: Request)
      modifies this`issued
      ensures issued == old(issued) + [r]
    {
      issued := issued + [r];
    }

    /** `inspectInventory`: the number of issues, of ignored paths listed, and of regenerable ones. */
    method Inspect(i: Inspection, le: Order<string>) returns (issues: nat, ignored: nat, regenerable: nat)
      ensures issues == 0 <==> AllRead(i)
      ensures ignored == 0 <==> NothingIgnoredIsUnique(i)
      ensures regenerable == RegenerableCount(i)
    {
      var inventory, unread := GradeInventoryPaths(i.paths, i.facts, le);
      EverythingIsCounted(i.paths, i.facts, inventory, le);
      UnlistedIsRegenerable(i.paths, i.facts, FromIgnored);
      CountOfSort(Listing(i.paths, i.facts), ByPathThenOrigin(le), ListedFrom(FromIgnored));
      assert unread != [] ==> unread[0] in unread;
      issues := i.gitIssues + |unread|;
      ignored := CountIgnored(inventory.enumerated);
      regenerable := inventory.builds + inventory.dependencies;
    }

    method CountIgnored(listed: seq<Listed>) returns (ignored: nat)
      ensures ignored == Count(listed, ListedFrom(FromIgnored))
    {
      ignored := 0;
      for n := 0 to |listed|
        invariant ignored == Count(listed[..n], ListedFrom(FromIgnored))
      {
        assert listed[..n + 1] == listed[..n] + [listed[n]];
        CountOfOneMore(listed[..n], listed[n], ListedFrom(FromIgnored));
        if listed[n].item.origin.FromIgnored? { ignored := ignored + 1; }
      }
      assert listed[..|listed|] == listed;
    }

    /** `refusalReasons` */
    method RefusalReasons(o: Options, issues: nat, ignored: nat, expected: nat, asked: bool)
      returns (reasons: seq<Reason>)
      ensures reasons == [] <==>
                w.terminal && issues == 0 && ignored == 0
                  && (asked && expected > 0 ==> o.acknowledged == Some(expected))
    {
      reasons := [];
      if !w.terminal { reasons := reasons + [NotTerminal]; }
      if issues > 0 { reasons := reasons + [Incomplete]; }
      if ignored > 0 { reasons := reasons + [IgnoredRemain]; }
      if asked && expected > 0 && o.acknowledged.None? {
        reasons := reasons + [NotAcknowledged];
      } else if asked && expected > 0 && o.acknowledged != Some(expected) {
        reasons := reasons + [WrongAcknowledgement];
      }
    }

    /** The record Git lists for the worktree, if there is one. */
    method Find(records: seq<Record>) returns (found: Option<nat>)
      requires w.worktrees == Some(records)
      ensures found.Some? ==> Selected(w, found.value)
      ensures found.None? ==> forall n: nat :: !Selected(w, n)
    {
      for n := 0 to |records|
        invariant forall m | 0 <= m < n :: records[m].canonical != Some(w.projectDir)
      {
        if records[n].canonical == Some(w.projectDir) { return Some(n); }
      }
      return None;
    }

    /** `removalContext`: no reason and no issue exactly where a secondary worktree and its branch are proven. */
    method RemovalContext(branch: Option<string>)
      returns (proven: Option<string>, primary: Option<string>, reasons: seq<Reason>)
      modifies this`issued
      ensures issued == old(issued) + [ReadRoot, ReadWorktrees]
      ensures reasons == [] <==> Secondary(w, branch)
      ensures reasons == [] ==> proven == branch && primary == w.worktrees.value[0].canonical
    {
      var issues := 0;
      reasons, proven, primary := [], branch, None;
      Issue(ReadRoot);
      if w.top.None? {
        issues := issues + 1;
      } else if w.top.value != w.projectDir {
        reasons := reasons + [WrongRoot];
      }
      Issue(ReadWorktrees);
      var selected: Option<Record> := None;
      if w.worktrees.None? {
        issues := issues + 1;
      } else if w.worktrees.value == [] {
        reasons := reasons + [NoWorktrees];
      } else if w.worktrees.value[0].canonical.None? {
        issues := issues + 1;
      } else {
        primary := w.worktrees.value[0].canonical;
        var found := Find(w.worktrees.value);
        if found.None? { reasons := reasons + [NotListed]; } else { selected := Some(w.worktrees.value[found.value]); }
        if primary == Some(w.projectDir) || (selected.Some? && selected.value.bare) {
          reasons := reasons + [PrimaryOrBare];
        }
        if found.Some? { OnlySelected(found.value); }
      }
      if selected.Some? && selected.value.branch.Some? && branch.Some? && selected.value.branch != branch {
        reasons := reasons + [BranchDisagrees];
      }
      if w.top.Some? && w.top.value != w.projectDir { proven := None; }
      if issues > 0 { reasons := reasons + [ContextIncomplete]; }
      if proven.None? { reasons := reasons + [NoBranch]; }
      if primary.None? { reasons := reasons + [NoPrimary]; }
    }

    lemma {:induction false} OnlySelected(n: nat)
      requires Selected(w, n)
      ensures forall m: nat | Selected(w, m) :: m == n
    {
    }

    /** `destructiveStep` */
    method DestructiveStep(r: Request, reply: Reply) returns (passed: bool)
      modifies this`issued
      ensures issued == old(issued) + [r] && passed == Passed(reply)
    {
      Issue(r);
      passed := reply.Exited? && reply.code == 0 && !reply.error;
    }

    /** The three removal steps, each only after the previous one has succeeded. */
    method Reclaim(branch: string, primary: string) returns (steps: seq<Request>, removed: bool)
      modifies this`issued
      ensures steps == Steps(w, branch, primary) && issued == old(issued) + steps
      ensures removed == (Passed(w.removeReply) && Passed(w.pruneReply) && Passed(w.deleteReply))
    {
      steps, removed := [RemoveWorktree(w.projectDir, primary)], false;
      var passed := DestructiveStep(RemoveWorktree(w.projectDir, primary), w.removeReply);
      if !passed { return; }
      steps := steps + [Prune(primary)];
      passed := DestructiveStep(Prune(primary), w.pruneReply);
      if !passed { return; }
      steps := steps + [DeleteBranch(branch, primary)];
      removed := DestructiveStep(DeleteBranch(branch, primary), w.deleteReply);
    }

    /** The inspections before any request for removal. */
    method Preconditions(o: Options, le: Order<string>) returns (reasons: seq<Reason>, archived: bool)
      ensures o.remove ==> (reasons == [] <==>
                w.statusKnown && w.terminal && w.artifactIssues == 0 && Clean(o, Inspected(o, w)) &&
                (o.archive ==> w.archived && AllRead(w.first)))
      ensures archived == (o.archive && w.terminal && w.artifactIssues == 0 && AllRead(w.first) && w.archived)
      ensures !w.terminal ==> reasons != []
    {
      var issues, ignored, expected := Inspect(w.first, le);
      issues := w.artifactIssues + issues;
      archived := false;
      if o.archive && w.terminal && issues == 0 {
        if w.archived {
          archived := true;
          issues, ignored, expected := Inspect(w.second, le);
        } else {
          issues := issues + 1;
        }
      }
      reasons := RefusalReasons(o, issues, ignored, expected, o.remove);
      if !w.statusKnown { reasons := [UnknownStatus] + reasons; }
    }

    /** The last look before removal, where an archive was made. */
    method ArchiveStillHolds(o: Options, le: Order<string>) returns (reasons: seq<Reason>)
      requires o.remove
      ensures reasons == [] <==> w.terminal && w.third.Some? && Clean(o, w.third.value) && w.archiveVerified
    {
      if w.third.None? { return [ArchiveChanged]; }
      var issues, ignored, expected := Inspect(w.third.value, le);
      reasons := RefusalReasons(o, issues, ignored, expected, true);
      if reasons == [] && !w.archiveVerified { reasons := [ArchiveChanged]; }
    }

    /**
     `runLand`: removal is requested exactly when every precondition holds, the requests stop at
     the first failure, the ledger is written only after all three, and the report says how far it got.
     */
    method RunLand(o: Options, le: Order<string>) returns (report: Report)
      requires issued == [] && ledgerUpdates == 0
      modifies this
      ensures Cleared(o, w) ==>
                && report.steps == Steps(w, Inspected(o, w).branch.value, w.worktrees.value[0].canonical.value)
                && issued == [ReadRoot, ReadWorktrees] + report.steps
                && report.state == Reached(o, w)
      ensures !Cleared(o, w) ==>
                && (forall r | r in issued :: !Destructive(r))
                && report.steps == []
                && report.state == if o.remove || (o.archive && !w.terminal) then Refused else Audit
      ensures ledgerUpdates == if Cleared(o, w) && o.closure && report.state != RemovalFailed then 1 else 0
      ensures report.state == Refused ==> report.reasons != []
    {
      hide Clean, Secondary, Steps, Passed;
      var reasons, archived := Preconditions(o, le);
      if !o.remove {
        return Report(if o.archive && !w.terminal then Refused else Audit, reasons == [], reasons, []);
      }
      if reasons != [] { return Report(Refused, false, reasons, []); }
      var branch, primary;
      branch, primary, reasons := RemovalContext(Inspected(o, w).branch);
      if reasons != [] { return Report(Refused, false, reasons, []); }
      SecondaryIsNamed(Inspected(o, w).branch);
      if o.closure && !w.closureVerified { return Report(Refused, false, [ClosureRefused], []); }
      if archived {
        reasons := ArchiveStillHolds(o, le);
        if reasons != [] { return Report(Refused, false, reasons, []); }
      }
      var steps, removed := Reclaim(branch.value, primary.value);
      if !removed { return Report(RemovalFailed, true, [], steps); }
      if !o.closure { return Report(Removed, true, [], steps); }
      ledgerUpdates := ledgerUpdates + 1;
      match w.ledger
      case Recorded => return Report(Removed, true, [], steps);
      case Failed(after) =>
        return Report(if after == Some(false) then RemovedLedgerOpen else RemovedLedgerUnconfirmed, true, [], steps);
    }

    lemma {:induction false} SecondaryIsNamed(branch: Option<string>)
      requires Secondary(w, branch)
      ensures branch.Some? && w.worktrees.Some? && w.worktrees.value != [] && w.worktrees.value[0].canonical.Some?
    {
    }
  }

  /** The requests for removal are the three in order, cut after the first one that fails. */
  lemma {:induction false} StepsStopAtFailure(w: World, branch: string, primary: string)
    ensures var all := [RemoveWorktree(w.projectDir, primary), Prune(primary), DeleteBranch(branch, primary)];
            var replies := [w.removeReply, w.pruneReply, w.deleteReply];
            var steps := Steps(w, branch, primary);
            && steps != [] && steps <= all
            && (forall n | 0 <= n < |steps| - 1 :: Passed(replies[n]))
            && (|steps| < 3 ==> !Passed(replies[|steps| - 1]))
  {
  }
}
