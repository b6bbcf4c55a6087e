/** The dashboard's landing of land.go (`landStackFromDashboard`) and the
    prompt loop in front of it (`landStackInteractive`). The landing walks
    the dashboard's PR list bottom first like `landStack`, with these
    differences: merged PRs are skipped, each PR's commit is first checked
    against its remote branch (and re-synced and the PR refreshed when
    they differ), the PR's own merge status stands in for the mergeability
    query, a base update that leaves the next PR conflicting rebases the
    rest of the stack, and after the pull the remaining branches are
    rebased onto the trunk and force-pushed. */
module Dashboard {
  import opened Strs
  import opened Wrappers
  import opened Status
  import opened Forge
  import opened Queries
  import opened Landing
  import opened Refresh
  import opened Rebase

  /** The exchanges of one PR's turn, phase by phase; a phase that did not
      run is empty. `base` holds the base update of the next PR and
      `conflicts` the conflict query after it; `rebase` the rebase of the
      rest of the stack; `recheck` the conflict query after it; `restack` the checkout,
      rebase and force-pushes after the pull. */
  datatype DashRun = DashRun(sync: seq<Exchange>, refresh: seq<Exchange>, checks: seq<Exchange>,
                             head: seq<Exchange>, merge: seq<Exchange>, retry: seq<Exchange>,
                             wait: seq<Exchange>, base: seq<Exchange>, conflicts: seq<Exchange>,
                             rebase: Option<RebaseRun>,
                             recheck: seq<Exchange>, delete: seq<Exchange>, pull: seq<Exchange>,
                             restack: seq<Exchange>)

  function RebaseLog(o: Option<RebaseRun>): seq<Exchange>
  {
    if o.Some? then FlatRebase(o.value) else []
  }

  // The exchanges from each phase on, in the order they happened.
  function FromRestack(r: DashRun): seq<Exchange> { r.restack }
  function FromPull(r: DashRun): seq<Exchange> { r.pull + FromRestack(r) }
  function FromDelete(r: DashRun): seq<Exchange> { r.delete + FromPull(r) }
  function FromRecheck(r: DashRun): seq<Exchange> { r.recheck + FromDelete(r) }
  function FromRebase(r: DashRun): seq<Exchange> { RebaseLog(r.rebase) + FromRecheck(r) }
  function FromConflicts(r: DashRun): seq<Exchange> { r.conflicts + FromRebase(r) }
  function FromBase(r: DashRun): seq<Exchange> { r.base + FromConflicts(r) }
  function FromWait(r: DashRun): seq<Exchange> { r.wait + FromBase(r) }
  function FromMerge(r: DashRun): seq<Exchange> { r.merge + (r.retry + FromWait(r)) }
  function FromHead(r: DashRun): seq<Exchange> { r.head + FromMerge(r) }
  function FromChecks(r: DashRun): seq<Exchange> { r.checks + FromHead(r) }

  /** All of a turn's exchanges. */
  function DashFlat(r: DashRun): seq<Exchange> { r.sync + (r.refresh + FromChecks(r)) }

  /** Nothing ran from phase `stage` on (0 = sync, 1 = refresh, 2 = checks,
      3 = head, 4 = merge, 5 = retry, 6 = wait, 7 = base, 8 = conflicts,
      9 = rebase, 10 = recheck, 11 = delete, 12 = pull, 13 = restack). */
  ghost predicate DEmptyFrom(r: DashRun, stage: nat)
  {
    (stage <= 0 ==> r.sync == []) && (stage <= 1 ==> r.refresh == []) &&
    (stage <= 2 ==> r.checks == []) && (stage <= 3 ==> r.head == []) &&
    (stage <= 4 ==> r.merge == []) && (stage <= 5 ==> r.retry == []) &&
    (stage <= 6 ==> r.wait == []) && (stage <= 7 ==> r.base == []) &&
    (stage <= 8 ==> r.conflicts == []) && (stage <= 9 ==> r.rebase == None) &&
    (stage <= 10 ==> r.recheck == []) && (stage <= 11 ==> r.delete == []) &&
    (stage <= 12 ==> r.pull == []) && (stage <= 13 ==> r.restack == [])
  }

  /** The phases before `stage` are those of `r0`. */
  ghost predicate KeepsUpTo(r: DashRun, r0: DashRun, stage: nat)
  {
    (stage > 0 ==> r.sync == r0.sync) && (stage > 1 ==> r.refresh == r0.refresh) &&
    (stage > 2 ==> r.checks == r0.checks) && (stage > 3 ==> r.head == r0.head) &&
    (stage > 4 ==> r.merge == r0.merge) && (stage > 5 ==> r.retry == r0.retry) &&
    (stage > 6 ==> r.wait == r0.wait) && (stage > 7 ==> r.base == r0.base) &&
    (stage > 8 ==> r.conflicts == r0.conflicts) && (stage > 9 ==> r.rebase == r0.rebase) &&
    (stage > 10 ==> r.recheck == r0.recheck) && (stage > 11 ==> r.delete == r0.delete) &&
    (stage > 12 ==> r.pull == r0.pull)
  }

  // ---------------------------------------------------------------------
  // verifyAndSyncCommit's answer

  /** The error `verifyAndSyncCommit` returned, if any. */
  function SyncError(r: Reply): Option<string>
  {
    if r.Synced? then None
    else if r.Failed? then Some(ErrorText(r.exitCode, r.output))
    else Some("could not verify commit")
  }

  function SyncVerdict(n: int, r: Reply): Option<Failure>
  {
    var err := SyncError(r);
    if err.Some? then Some(SyncFailed(n, err.value)) else None
  }

  /** The commits differed and were re-synced, so the PR is refreshed. */
  predicate NeedsRebase(r: Reply)
  {
    r.Synced? && r.needsRebase
  }

  /** The local copy of the PR after the sync, which may have moved its
      head SHA. */
  function SyncedPR(pr: PrInfo, r: Reply): PrInfo
  {
    if r.Synced? && r.headSHA != "" then pr.(headSHA := r.headSHA) else pr
  }

  /** The local copy of the PR that the rest of the turn works with: synced,
      then refreshed when the refresh ran. */
  ghost function LocalPR(pr0: PrInfo, r: DashRun): PrInfo
  {
    var p1 := if r.sync != [] then SyncedPR(pr0, r.sync[0].reply) else pr0;
    if RefreshSeg(r.refresh, p1.number) then RefreshOf(p1, r.refresh) else p1
  }

  // ---------------------------------------------------------------------
  // The restack after the pull

  function ForcePushArgs(remote: string, branch: string): seq<string>
  {
    ["push", "--force-with-lease", remote, branch]
  }

  /** One force-push per remaining PR, in stack order. */
  ghost predicate PushSeg(pushes: seq<Exchange>, remote: string, rest: seq<PrInfo>)
  {
    |pushes| == |rest| &&
    forall k | 0 <= k < |rest| :: pushes[k].call == Git(ForcePushArgs(remote, rest[k].headBranch))
  }

  /** Check out the top branch of the rest of the stack; if that worked,
      rebase it onto the trunk; if that worked too, force-push every
      remaining branch, whatever each push answers. */
  ghost predicate RestackSeg(seg: seq<Exchange>, remote: string, trunk: string, rest: seq<PrInfo>)
    requires rest != []
  {
    1 <= |seg| && seg[0].call == Git(["checkout", rest[|rest| - 1].headBranch]) &&
    (seg[0].reply.Failed? ==> |seg| == 1) &&
    (!seg[0].reply.Failed? ==>
      2 <= |seg| && seg[1].call == Git(["rebase", trunk]) &&
      (seg[1].reply.Failed? ==> |seg| == 2) &&
      (!seg[1].reply.Failed? ==> PushSeg(seg[2..], remote, rest)))
  }

  /** Only the rebase's failure counts: a failed checkout skips the
      restack and failed pushes are reported only. */
  ghost function RestackError(seg: seq<Exchange>): Option<string>
  {
    if |seg| >= 2 then ErrorOf(seg[1].reply) else None
  }

  method ForcePushAll(h: Host, remote: string, rest: seq<PrInfo>) returns (ghost pushes: seq<Exchange>)
    modifies h`log
    ensures h.log == old(h.log) + pushes
    ensures PushSeg(pushes, remote, rest)
  {
    ghost var log0 := h.log;
    pushes := [];
    var k := 0;
    while k < |rest|
      invariant k == |pushes| <= |rest|
      invariant h.log == log0 + pushes
      invariant forall j | 0 <= j < k :: pushes[j].call == Git(ForcePushArgs(remote, rest[j].headBranch))
    {
      var c := Git(ForcePushArgs(remote, rest[k].headBranch));
      var r := h.Ask(c);
      AppendAssoc(log0, pushes, [Exchange(c, r)]);
      pushes := pushes + [Exchange(c, r)];
      k := k + 1;
    }
  }

  method Restack(h: Host, remote: string, trunk: string, rest: seq<PrInfo>)
    returns (err: Option<string>, ghost seg: seq<Exchange>)
    requires rest != []
    modifies h`log
    ensures h.log == old(h.log) + seg
    ensures RestackSeg(seg, remote, trunk, rest)
    ensures err == RestackError(seg)
  {
    ghost var log0 := h.log;
    var co := Git(["checkout", rest[|rest| - 1].headBranch]);
    var r0 := h.Ask(co);
    seg := [Exchange(co, r0)];
    if r0.Failed? {
      return None, seg;
    }
    var rb := Git(["rebase", trunk]);
    var r1 := h.Ask(rb);
    AppendAssoc(log0, seg, [Exchange(rb, r1)]);
    seg := seg + [Exchange(rb, r1)];
    err := ErrorOf(r1);
    if r1.Failed? {
      return;
    }
    ghost var pushes := ForcePushAll(h, remote, rest);
    AppendAssoc(log0, seg, pushes);
    assert (seg + pushes)[2..] == pushes;
    seg := seg + pushes;
  }


  // ---------------------------------------------------------------------
  // One PR

  /** The turn of `prs[i]`, started in auto mode `auto`, leaving
      `autoAfter` for the next PR and ending in `fail`: nothing at all for
      a PR the dashboard shows as merged; otherwise the sync, the refresh
      it calls for and the check of the merge status, then the phases of
      `DashedFrom` for the local copy `LocalPR` of the PR. */
  ghost predicate DashedPR(r: DashRun, cfg: LandConfig, prs: seq<PrInfo>, i: nat, auto: bool,
                           fail: Option<Failure>, autoAfter: bool)
    requires i < |prs|
  {
    DashedFrom(r, cfg, prs, i, prs[i], auto, fail, autoAfter, 0)
  }

  // the skip of a merged PR, or the sync
  ghost predicate AtDTurn(r: DashRun, cfg: LandConfig, prs: seq<PrInfo>, i: nat, p: PrInfo, auto: bool,
                          fail: Option<Failure>, autoAfter: bool)
    requires i < |prs|
    decreases 14, 0
  {
    var n := prs[i].number;
    if prs[i].state == "MERGED" then DEmptyFrom(r, 0) && fail == None && autoAfter == auto
    else
      |r.sync| == 1 && r.sync[0].call == SyncCommit(n, i == 0) &&
      var v := SyncVerdict(n, r.sync[0].reply);
      if v.Some? then fail == v && autoAfter == auto && DEmptyFrom(r, 1)
      else DashedFrom(r, cfg, prs, i, p, auto, fail, autoAfter, 1)
  }

  /** The rest of the turn after a sync that succeeded: the refresh, then
      the local copy's merge status. */
  ghost predicate AtDSynced(r: DashRun, cfg: LandConfig, prs: seq<PrInfo>, i: nat, p: PrInfo, auto: bool,
                            fail: Option<Failure>, autoAfter: bool)
    requires i < |prs| && |r.sync| == 1
    decreases 13, 0
  {
    var n := prs[i].number;
    var reply := r.sync[0].reply;
    (NeedsRebase(reply) ==> RefreshSeg(r.refresh, n)) &&
    (!NeedsRebase(reply) ==> r.refresh == []) &&
    var local := LocalPR(prs[i], r);
    if local.mergeStatus == "CONFLICTING" then fail == Some(MarkedConflicting(n)) && autoAfter == auto && DEmptyFrom(r, 2)
    else DashedFrom(r, cfg, prs, i, local, auto, fail, autoAfter, 2)
  }

  /** The turn from phase `stage` on (numbered as in `DEmptyFrom`), for the
      local copy `p` of the PR. Each phase runs only when the ones before
      it did not stop the landing; it is the predicate named after it
      below. */
  ghost predicate DashedFrom(r: DashRun, cfg: LandConfig, prs: seq<PrInfo>, i: nat, p: PrInfo, auto: bool,
                             fail: Option<Failure>, autoAfter: bool, stage: nat)
    requires i < |prs|
    decreases 14 - stage, 1
  {
    if stage == 0 then AtDTurn(r, cfg, prs, i, p, auto, fail, autoAfter)
    else if stage == 1 then |r.sync| == 1 && AtDSynced(r, cfg, prs, i, p, auto, fail, autoAfter)
    else if stage == 2 then AtDChecks(r, cfg, prs, i, p, auto, fail, autoAfter)
    else if stage == 3 then AtDHead(r, cfg, prs, i, p, auto, fail, autoAfter)
    else if stage <= 5 then AtDMerge(r, cfg, prs, i, p, auto, fail, autoAfter)
    else if stage == 6 then AtDWait(r, cfg, prs, i, p, auto, fail, autoAfter)
    else if stage == 7 then AtDBase(r, cfg, prs, i, p, auto, fail, autoAfter)
    else if stage == 8 then i < |prs| - 1 && AtDConflicts(r, cfg, prs, i, p, auto, fail, autoAfter)
    else if stage == 9 then i < |prs| - 1 && AtDRebase(r, cfg, prs, i, p, auto, fail, autoAfter)
    else if stage == 10 then i < |prs| - 1 && AtDRecheck(r, cfg, prs, i, p, auto, fail, autoAfter)
    else if stage == 11 then AtDDelete(r, cfg, prs, i, p, auto, fail, autoAfter)
    else if stage == 12 then AtDPull(r, cfg, prs, i, p, auto, fail, autoAfter)
    else AtDRestack(r, cfg, prs, i, p, auto, fail, autoAfter)
  }

  // waitForChecks, when checks are required
  ghost predicate AtDChecks(r: DashRun, cfg: LandConfig, prs: seq<PrInfo>, i: nat, p: PrInfo, auto: bool,
                            fail: Option<Failure>, autoAfter: bool)
    requires i < |prs|
    decreases 12, 0
  {
    var n := prs[i].number;
    (cfg.requireChecks ==> PollSeg(r.checks, RequiredChecks(n), cfg.pollBudget, ForChecks)) &&
    (!cfg.requireChecks ==> r.checks == []) &&
    var err := if cfg.requireChecks then PollResult(r.checks, ForChecks) else None;
    if err.Some? then fail == Some(ChecksFailed(n, err.value)) && autoAfter == auto && DEmptyFrom(r, 3)
    else DashedFrom(r, cfg, prs, i, p, auto, fail, autoAfter, 3)
  }

  // detectAutoGeneratedCommits
  ghost predicate AtDHead(r: DashRun, cfg: LandConfig, prs: seq<PrInfo>, i: nat, p: PrInfo, auto: bool,
                          fail: Option<Failure>, autoAfter: bool)
    requires i < |prs|
    decreases 11, 0
  {
    var n := prs[i].number;
    |r.head| == 1 && r.head[0].call == ViewHead(n) &&
    var head := HeadOf(r.head[0].reply);
    if head.Err? then fail == Some(Panicked(head.error)) && autoAfter == auto && DEmptyFrom(r, 4)
    else DashedFrom(r, cfg, prs, i, p, auto, fail, autoAfter, 4)
  }

  // mergePR with the local title and head SHA, and its fallback
  ghost predicate AtDMerge(r: DashRun, cfg: LandConfig, prs: seq<PrInfo>, i: nat, p: PrInfo, auto: bool,
                           fail: Option<Failure>, autoAfter: bool)
    requires i < |prs|
    decreases 9, 0
  {
    var n := prs[i].number;
    MergeAttempts(r.merge, r.retry, n, p.title, p.headSHA, auto, cfg.rx) &&
    autoAfter == (auto || r.retry != []) &&
    var v := MergeVerdict(n, FinalMerge(r.merge, r.retry));
    if v.Some? then fail == v && DEmptyFrom(r, 6)
    else DashedFrom(r, cfg, prs, i, p, auto, fail, autoAfter, 6)
  }

  // waitForMerge, in auto mode
  ghost predicate AtDWait(r: DashRun, cfg: LandConfig, prs: seq<PrInfo>, i: nat, p: PrInfo, auto: bool,
                          fail: Option<Failure>, autoAfter: bool)
    requires i < |prs|
    decreases 8, 0
  {
    var n := prs[i].number;
    (autoAfter ==> PollSeg(r.wait, ViewState(n), cfg.pollBudget, ForMerge(n, prs[i].url))) &&
    (!autoAfter ==> r.wait == []) &&
    var err := if autoAfter then PollResult(r.wait, ForMerge(n, prs[i].url)) else None;
    if err.Some? then fail == Some(MergeNotCompleted(n, err.value)) && DEmptyFrom(r, 7)
    else DashedFrom(r, cfg, prs, i, p, auto, fail, autoAfter, 7)
  }

  /** updatePRBase of the next PR: an error saying the PR was closed is
      fatal, any other error skips to the branch deletion, and a successful
      update is followed by the conflict query. */
  ghost predicate AtDBase(r: DashRun, cfg: LandConfig, prs: seq<PrInfo>, i: nat, p: PrInfo, auto: bool,
                          fail: Option<Failure>, autoAfter: bool)
    requires i < |prs|
    decreases 7, 0
  {
    if i == |prs| - 1 then
      r.base == [] && r.conflicts == [] && r.rebase == None && r.recheck == [] &&
      DashedFrom(r, cfg, prs, i, p, auto, fail, autoAfter, 11)
    else
      var next := prs[i + 1].number;
      |r.base| == 1 && r.base[0].call == EditBase(next, cfg.trunk) &&
      var err := ErrorOf(r.base[0].reply);
      if err.None? then DashedFrom(r, cfg, prs, i, p, auto, fail, autoAfter, 8)
      else if BaseVerdict(next, err).Some? then fail == BaseVerdict(next, err) && DEmptyFrom(r, 8)
      else r.conflicts == [] && r.rebase == None && r.recheck == [] &&
           DashedFrom(r, cfg, prs, i, p, auto, fail, autoAfter, 11)
  }

  /** checkPRConflicts of the next PR: only a definite "conflicting" answer
      leads to the rebase of the rest of the stack. */
  ghost predicate AtDConflicts(r: DashRun, cfg: LandConfig, prs: seq<PrInfo>, i: nat, p: PrInfo, auto: bool,
                               fail: Option<Failure>, autoAfter: bool)
    requires i < |prs| - 1
    decreases 6, 0
  {
    var next := prs[i + 1].number;
    |r.conflicts| == 1 && r.conflicts[0].call == ViewMergeability(next) &&
    if ConflictsOf(r.conflicts[0].reply) == Ok(true) then DashedFrom(r, cfg, prs, i, p, auto, fail, autoAfter, 9)
    else r.rebase == None && r.recheck == [] && DashedFrom(r, cfg, prs, i, p, auto, fail, autoAfter, 11)
  }

  /** How a failed rebase of the rest of the stack ends the landing: a new
      head too short to print is a slice panic that nothing recovers from;
      every other failure is reported as conflicts needing manual
      resolution. */
  function RebaseFailure(err: RebaseError, next: int): (f: Failure)
    ensures f.Panicked? <==> err.ShortHead?
  {
    if err.ShortHead? then Panicked("slice bounds out of range") else RemainingNotRebased(next)
  }

  /** rebaseRemainingPRs on the rest of the stack as the dashboard listed
      it. */
  ghost predicate AtDRebase(r: DashRun, cfg: LandConfig, prs: seq<PrInfo>, i: nat, p: PrInfo, auto: bool,
                            fail: Option<Failure>, autoAfter: bool)
    requires i < |prs| - 1
    decreases 5, 0
  {
    var rest := prs[i + 1..];
    r.rebase.Some? && Rebased(r.rebase.value, cfg.remote, cfg.trunk, rest) &&
    if RebaseOutcome(r.rebase.value, cfg.remote, cfg.trunk, rest).Some? then
      fail == Some(RebaseFailure(RebaseOutcome(r.rebase.value, cfg.remote, cfg.trunk, rest).value, prs[i + 1].number)) &&
      DEmptyFrom(r, 10)
    else DashedFrom(r, cfg, prs, i, p, auto, fail, autoAfter, 10)
  }

  // checkPRConflicts again, after the rebase
  ghost predicate AtDRecheck(r: DashRun, cfg: LandConfig, prs: seq<PrInfo>, i: nat, p: PrInfo, auto: bool,
                             fail: Option<Failure>, autoAfter: bool)
    requires i < |prs| - 1
    decreases 4, 0
  {
    var next := prs[i + 1].number;
    |r.recheck| == 1 && r.recheck[0].call == ViewMergeability(next) &&
    if ConflictsOf(r.recheck[0].reply) == Ok(true) then fail == Some(StillConflicting(next)) && DEmptyFrom(r, 11)
    else DashedFrom(r, cfg, prs, i, p, auto, fail, autoAfter, 11)
  }

  // deleteRemoteBranch, whatever it answers
  ghost predicate AtDDelete(r: DashRun, cfg: LandConfig, prs: seq<PrInfo>, i: nat, p: PrInfo, auto: bool,
                            fail: Option<Failure>, autoAfter: bool)
    requires i < |prs|
    decreases 3, 0
  {
    (cfg.deleteBranch && p.headBranch != "" ==>
      |r.delete| == 1 && r.delete[0].call == Git(DeleteArgs(cfg.remote, p.headBranch))) &&
    (!(cfg.deleteBranch && p.headBranch != "") ==> r.delete == []) &&
    DashedFrom(r, cfg, prs, i, p, auto, fail, autoAfter, 12)
  }

  // the trunk pulled under `must`
  ghost predicate AtDPull(r: DashRun, cfg: LandConfig, prs: seq<PrInfo>, i: nat, p: PrInfo, auto: bool,
                          fail: Option<Failure>, autoAfter: bool)
    requires i < |prs|
    decreases 2, 0
  {
    PullSeg(r.pull, cfg.remote, cfg.trunk) &&
    if PullVerdict(r.pull).Some? then fail == PullVerdict(r.pull) && r.restack == []
    else DashedFrom(r, cfg, prs, i, p, auto, fail, autoAfter, 13)
  }

  // the restack of the remaining PRs
  ghost predicate AtDRestack(r: DashRun, cfg: LandConfig, prs: seq<PrInfo>, i: nat, p: PrInfo, auto: bool,
                             fail: Option<Failure>, autoAfter: bool)
    requires i < |prs|
    decreases 1, 0
  {
    if i == |prs| - 1 then r.restack == [] && fail == None
    else
      RestackSeg(r.restack, cfg.remote, cfg.trunk, prs[i + 1..]) &&
      var err := RestackError(r.restack);
      fail == if err.Some? then Some(RestackFailed(err.value)) else None
  }

  /** The phases from the conflict query to the second one add nothing to
      the log when none of them ran. */
  lemma SkipsToDelete(r: DashRun)
    requires r.rebase == None && r.recheck == []
    ensures FromRebase(r) == FromDelete(r)
    ensures r.conflicts == [] ==> FromConflicts(r) == FromDelete(r)
    ensures r.conflicts == [] && r.base == [] ==> FromBase(r) == FromDelete(r)
  {
  }

  /** One turn of `landStackFromDashboard`'s loop. `refreshed` says that
      the refresh after a sync succeeded, so the dashboard's entry is to be
      replaced by `pr`, the local copy. */
  method DashPR(h: Host, cfg: LandConfig, prs: seq<PrInfo>, i: nat, auto: bool)
    returns (fail: Option<Failure>, autoAfter: bool, refreshed: bool, pr: PrInfo, ghost r: DashRun)
    requires i < |prs|
    modifies h`log
    ensures h.log == old(h.log) + DashFlat(r)
    ensures DashedPR(r, cfg, prs, i, auto, fail, autoAfter)
    ensures refreshed <==> |r.refresh| == 2
    ensures pr == LocalPR(prs[i], r)
  {
    if prs[i].state == "MERGED" {
      r := DashRun([], [], [], [], [], [], [], [], [], None, [], [], [], []);
      return None, auto, false, prs[i], r;
    }
    fail, autoAfter, refreshed, pr, r := DashSync(h, cfg, prs, i, auto);
    assert DashedFrom(r, cfg, prs, i, prs[i], auto, fail, autoAfter, 0);
  }

  method DashSync(h: Host, cfg: LandConfig, prs: seq<PrInfo>, i: nat, auto: bool)
    returns (fail: Option<Failure>, autoAfter: bool, refreshed: bool, pr: PrInfo, ghost r: DashRun)
    requires i < |prs| && prs[i].state != "MERGED"
    modifies h`log
    ensures h.log == old(h.log) + DashFlat(r)
    ensures AtDTurn(r, cfg, prs, i, prs[i], auto, fail, autoAfter)
    ensures refreshed <==> |r.refresh| == 2
    ensures pr == LocalPR(prs[i], r)
  {
    ghost var start := h.log;
    var n := prs[i].number;
    var reply := h.Ask(SyncCommit(n, i == 0));
    ghost var e := Exchange(SyncCommit(n, i == 0), reply);
    r := DashRun([e], [], [], [], [], [], [], [], [], None, [], [], [], []);
    pr := SyncedPR(prs[i], reply);
    var v := SyncVerdict(n, reply);
    if v.Some? {
      assert FromChecks(r) == [];
      return v, auto, false, pr, r;
    }
    fail, autoAfter, refreshed, pr, r := DashAfterSync(h, cfg, prs, i, reply, auto, r);
    assert DashedFrom(r, cfg, prs, i, prs[i], auto, fail, autoAfter, 1);
    AppendAssoc(start, [e], r.refresh + FromChecks(r));
  }

  method DashAfterSync(h: Host, cfg: LandConfig, prs: seq<PrInfo>, i: nat, reply: Reply, auto: bool,
                       ghost r0: DashRun)
    returns (fail: Option<Failure>, autoAfter: bool, refreshed: bool, pr: PrInfo, ghost r: DashRun)
    requires i < |prs| && |r0.sync| == 1 && r0.sync[0].reply == reply && DEmptyFrom(r0, 1)
    requires SyncVerdict(prs[i].number, reply).None?
    modifies h`log
    ensures h.log == old(h.log) + (r.refresh + FromChecks(r))
    ensures r.sync == r0.sync
    ensures AtDSynced(r, cfg, prs, i, prs[i], auto, fail, autoAfter)
    ensures refreshed <==> |r.refresh| == 2
    ensures pr == LocalPR(prs[i], r)
  {
    ghost var start := h.log;
    var n := prs[i].number;
    pr := SyncedPR(prs[i], reply);
    ghost var seg;
    pr, refreshed, seg := RefreshAfterSync(h, pr, reply);
    r := r0.(refresh := seg);
    if pr.mergeStatus == "CONFLICTING" {
      assert FromChecks(r) == [];
      return Some(MarkedConflicting(n)), auto, refreshed, pr, r;
    }
    ghost var r1 := r;
    fail, autoAfter, r := DashFromChecks(h, cfg, prs, i, pr, auto, r);
    assert LocalPR(prs[i], r) == LocalPR(prs[i], r1);
    AppendAssoc(start, seg, FromChecks(r));
  }

  /** `updatePRStatus` on the local copy, when the sync asks for it. */
  method RefreshAfterSync(h: Host, pr: PrInfo, reply: Reply)
    returns (p: PrInfo, refreshed: bool, ghost seg: seq<Exchange>)
    modifies h`log
    ensures h.log == old(h.log) + seg
    ensures NeedsRebase(reply) ==> RefreshSeg(seg, pr.number) && p == RefreshOf(pr, seg)
    ensures !NeedsRebase(reply) ==> seg == [] && p == pr
    ensures refreshed <==> |seg| == 2
  {
    if !NeedsRebase(reply) {
      return pr, false, [];
    }
    var err;
    p, err, seg := UpdatePRStatus(h, pr);
    refreshed := err.None?;
  }

  method DashFromChecks(h: Host, cfg: LandConfig, prs: seq<PrInfo>, i: nat, pr: PrInfo, auto: bool, ghost r0: DashRun)
    returns (fail: Option<Failure>, autoAfter: bool, ghost r: DashRun)
    requires i < |prs| && DEmptyFrom(r0, 2)
    modifies h`log
    ensures h.log == old(h.log) + FromChecks(r)
    ensures KeepsUpTo(r, r0, 2)
    ensures AtDChecks(r, cfg, prs, i, pr, auto, fail, autoAfter)
  {
    ghost var start := h.log;
    var n := prs[i].number;
    r := r0;
    if cfg.requireChecks {
      var err;
      ghost var seg;
      err, seg := WaitForChecks(h, n, cfg.pollBudget);
      r := r.(checks := seg);
      if err.Some? {
        assert FromHead(r) == [];
        return Some(ChecksFailed(n, err.value)), auto, r;
      }
    } else {
      assert start + r.checks == start;
    }
    ghost var c := r.checks;
    fail, autoAfter, r := DashFromHead(h, cfg, prs, i, pr, auto, r);
    AppendAssoc(start, c, FromHead(r));
  }

  method DashFromHead(h: Host, cfg: LandConfig, prs: seq<PrInfo>, i: nat, pr: PrInfo, auto: bool, ghost r0: DashRun)
    returns (fail: Option<Failure>, autoAfter: bool, ghost r: DashRun)
    requires i < |prs| && DEmptyFrom(r0, 3)
    modifies h`log
    ensures h.log == old(h.log) + FromHead(r)
    ensures KeepsUpTo(r, r0, 3)
    ensures AtDHead(r, cfg, prs, i, pr, auto, fail, autoAfter)
  {
    ghost var start := h.log;
    var n := prs[i].number;
    var head, hasAutoCommits, e := DetectAutoGeneratedCommits(h, n);
    r := r0.(head := [e]);
    if head.Err? {
      assert FromMerge(r) == [];
      return Some(Panicked(head.error)), auto, r;
    }
    fail, autoAfter, r := DashFromMerge(h, cfg, prs, i, pr, auto, r);
    AppendAssoc(start, [e], FromMerge(r));
  }

  method DashFromMerge(h: Host, cfg: LandConfig, prs: seq<PrInfo>, i: nat, pr: PrInfo, auto: bool, ghost r0: DashRun)
    returns (fail: Option<Failure>, autoAfter: bool, ghost r: DashRun)
    requires i < |prs| && DEmptyFrom(r0, 4)
    modifies h`log
    ensures h.log == old(h.log) + FromMerge(r)
    ensures KeepsUpTo(r, r0, 4)
    ensures AtDMerge(r, cfg, prs, i, pr, auto, fail, autoAfter)
  {
    ghost var start := h.log;
    var n := prs[i].number;
    ghost var first, retry;
    fail, autoAfter, first, retry := MergeWithFallback(h, n, pr.title, pr.headSHA, auto, cfg.rx);
    r := r0.(merge := first, retry := retry);
    if fail.Some? {
      assert FromWait(r) == [];
      return;
    }
    fail, r := DashFromWait(h, cfg, prs, i, pr, auto, autoAfter, r);
    AppendAssoc(start, first + retry, FromWait(r));
    AppendAssoc(first, retry, FromWait(r));
  }

  method DashFromWait(h: Host, cfg: LandConfig, prs: seq<PrInfo>, i: nat, pr: PrInfo, ghost auto: bool,
                      autoAfter: bool, ghost r0: DashRun)
    returns (fail: Option<Failure>, ghost r: DashRun)
    requires i < |prs| && DEmptyFrom(r0, 6)
    modifies h`log
    ensures h.log == old(h.log) + FromWait(r)
    ensures KeepsUpTo(r, r0, 6)
    ensures AtDWait(r, cfg, prs, i, pr, auto, fail, autoAfter)
  {
    ghost var start := h.log;
    var n := prs[i].number;
    r := r0;
    if autoAfter {
      var err;
      ghost var seg;
      err, seg := WaitForMerge(h, n, prs[i].url, cfg.pollBudget);
      r := r.(wait := seg);
      if err.Some? {
        assert FromBase(r) == [];
        return Some(MergeNotCompleted(n, err.value)), r;
      }
    } else {
      assert start + r.wait == start;
    }
    ghost var w := r.wait;
    fail, r := DashFromBase(h, cfg, prs, i, pr, auto, autoAfter, r);
    AppendAssoc(start, w, FromBase(r));
  }

  method DashFromBase(h: Host, cfg: LandConfig, prs: seq<PrInfo>, i: nat, pr: PrInfo, ghost auto: bool,
                      ghost autoAfter: bool, ghost r0: DashRun)
    returns (fail: Option<Failure>, ghost r: DashRun)
    requires i < |prs| && DEmptyFrom(r0, 7)
    modifies h`log
    ensures h.log == old(h.log) + FromBase(r)
    ensures KeepsUpTo(r, r0, 7)
    ensures AtDBase(r, cfg, prs, i, pr, auto, fail, autoAfter)
  {
    if i == |prs| - 1 {
      fail, r := DashFromDelete(h, cfg, prs, i, pr, auto, autoAfter, r0);
      SkipsToDelete(r);
    } else {
      fail, r := DashUpdateBase(h, cfg, prs, i, pr, auto, autoAfter, r0);
    }
  }

  method DashUpdateBase(h: Host, cfg: LandConfig, prs: seq<PrInfo>, i: nat, pr: PrInfo, ghost auto: bool,
                        ghost autoAfter: bool, ghost r0: DashRun)
    returns (fail: Option<Failure>, ghost r: DashRun)
    requires i < |prs| - 1 && DEmptyFrom(r0, 7)
    modifies h`log
    ensures h.log == old(h.log) + FromBase(r)
    ensures KeepsUpTo(r, r0, 7)
    ensures AtDBase(r, cfg, prs, i, pr, auto, fail, autoAfter)
  {
    ghost var start := h.log;
    var next := prs[i + 1].number;
    var err;
    ghost var e;
    err, e := UpdatePRBase(h, next, cfg.trunk);
    r := r0.(base := [e]);
    if err.None? {
      fail, r := DashFromConflicts(h, cfg, prs, i, pr, auto, autoAfter, r);
      AppendAssoc(start, [e], FromConflicts(r));
    } else if Contains(err.value, "closed") {
      assert FromConflicts(r) == [];
      fail := Some(BaseClosed(next, err.value));
    } else {
      fail, r := DashFromDelete(h, cfg, prs, i, pr, auto, autoAfter, r);
      SkipsToDelete(r);
      AppendAssoc(start, [e], FromDelete(r));
    }
  }

  method DashFromConflicts(h: Host, cfg: LandConfig, prs: seq<PrInfo>, i: nat, pr: PrInfo, ghost auto: bool,
                           ghost autoAfter: bool, ghost r0: DashRun)
    returns (fail: Option<Failure>, ghost r: DashRun)
    requires i < |prs| - 1 && DEmptyFrom(r0, 8)
    modifies h`log
    ensures h.log == old(h.log) + FromConflicts(r)
    ensures KeepsUpTo(r, r0, 8)
    ensures AtDConflicts(r, cfg, prs, i, pr, auto, fail, autoAfter)
  {
    ghost var start := h.log;
    var c;
    ghost var e;
    c, e := CheckPRConflicts(h, prs[i + 1].number);
    r := r0.(conflicts := [e]);
    if c == Ok(true) {
      fail, r := DashFromRebase(h, cfg, prs, i, pr, auto, autoAfter, r);
      AppendAssoc(start, [e], FromRebase(r));
    } else {
      fail, r := DashFromDelete(h, cfg, prs, i, pr, auto, autoAfter, r);
      SkipsToDelete(r);
      AppendAssoc(start, [e], FromDelete(r));
    }
  }

  method DashFromRebase(h: Host, cfg: LandConfig, prs: seq<PrInfo>, i: nat, pr: PrInfo, ghost auto: bool,
                        ghost autoAfter: bool, ghost r0: DashRun)
    returns (fail: Option<Failure>, ghost r: DashRun)
    requires i < |prs| - 1 && DEmptyFrom(r0, 9)
    modifies h`log
    ensures h.log == old(h.log) + FromRebase(r)
    ensures KeepsUpTo(r, r0, 9)
    ensures AtDRebase(r, cfg, prs, i, pr, auto, fail, autoAfter)
  {
    ghost var start := h.log;
    var err;
    ghost var rr;
    err, rr := RebaseRemainingPRs(h, cfg.remote, cfg.trunk, prs[i + 1..]);
    r := r0.(rebase := Some(rr));
    if err.Some? {
      assert FromRecheck(r) == [];
      return Some(RebaseFailure(err.value, prs[i + 1].number)), r;
    }
    fail, r := DashFromRecheck(h, cfg, prs, i, pr, auto, autoAfter, r);
    AppendAssoc(start, FlatRebase(rr), FromRecheck(r));
  }

  method DashFromRecheck(h: Host, cfg: LandConfig, prs: seq<PrInfo>, i: nat, pr: PrInfo, ghost auto: bool,
                         ghost autoAfter: bool, ghost r0: DashRun)
    returns (fail: Option<Failure>, ghost r: DashRun)
    requires i < |prs| - 1 && DEmptyFrom(r0, 10)
    modifies h`log
    ensures h.log == old(h.log) + FromRecheck(r)
    ensures KeepsUpTo(r, r0, 10)
    ensures AtDRecheck(r, cfg, prs, i, pr, auto, fail, autoAfter)
  {
    ghost var start := h.log;
    var next := prs[i + 1].number;
    var c;
    ghost var e;
    c, e := CheckPRConflicts(h, next);
    r := r0.(recheck := [e]);
    if c == Ok(true) {
      assert FromDelete(r) == [];
      return Some(StillConflicting(next)), r;
    }
    fail, r := DashFromDelete(h, cfg, prs, i, pr, auto, autoAfter, r);
    AppendAssoc(start, [e], FromDelete(r));
  }

  method DashFromDelete(h: Host, cfg: LandConfig, prs: seq<PrInfo>, i: nat, pr: PrInfo, ghost auto: bool,
                        ghost autoAfter: bool, ghost r0: DashRun)
    returns (fail: Option<Failure>, ghost r: DashRun)
    requires i < |prs| && DEmptyFrom(r0, 11)
    modifies h`log
    ensures h.log == old(h.log) + FromDelete(r)
    ensures KeepsUpTo(r, r0, 11)
    ensures AtDDelete(r, cfg, prs, i, pr, auto, fail, autoAfter)
  {
    ghost var start := h.log;
    r := r0;
    if cfg.deleteBranch && pr.headBranch != "" {
      var err;
      ghost var e;
      err, e := DeleteRemoteBranch(h, cfg.remote, pr.headBranch);
      r := r.(delete := [e]);
    } else {
      assert start + r.delete == start;
    }
    ghost var d := r.delete;
    fail, r := DashFromPull(h, cfg, prs, i, pr, auto, autoAfter, r);
    AppendAssoc(start, d, FromPull(r));
  }

  method DashFromPull(h: Host, cfg: LandConfig, prs: seq<PrInfo>, i: nat, pr: PrInfo, ghost auto: bool,
                      ghost autoAfter: bool, ghost r0: DashRun)
    returns (fail: Option<Failure>, ghost r: DashRun)
    requires i < |prs| && DEmptyFrom(r0, 12)
    modifies h`log
    ensures h.log == old(h.log) + FromPull(r)
    ensures KeepsUpTo(r, r0, 12)
    ensures AtDPull(r, cfg, prs, i, pr, auto, fail, autoAfter)
  {
    ghost var start := h.log;
    var err;
    ghost var seg;
    err, seg := PullTrunk(h, cfg.remote, cfg.trunk);
    r := r0.(pull := seg);
    if err.Some? {
      return Some(Panicked("must: " + err.value)), r;
    }
    if i < |prs| - 1 {
      var rerr;
      ghost var rs;
      rerr, rs := Restack(h, cfg.remote, cfg.trunk, prs[i + 1..]);
      r := r.(restack := rs);
      AppendAssoc(start, seg, rs);
      fail := if rerr.Some? then Some(RestackFailed(rerr.value)) else None;
    } else {
      fail := None;
    }
  }

  // ---------------------------------------------------------------------
  // Properties of one turn

  // The phases from the checks to the merge, when none of them stopped.
  lemma DUpToMerge(r: DashRun, cfg: LandConfig, prs: seq<PrInfo>, i: nat, p: PrInfo, auto: bool,
                   fail: Option<Failure>, autoAfter: bool)
    requires i < |prs| && AtDChecks(r, cfg, prs, i, p, auto, fail, autoAfter)
    ensures AtDMerge(r, cfg, prs, i, p, auto, fail, autoAfter) || (fail.Some? && autoAfter == auto && DEmptyFrom(r, 4))
  {
    if (if cfg.requireChecks then PollResult(r.checks, ForChecks) else None).None? {
      assert DashedFrom(r, cfg, prs, i, p, auto, fail, autoAfter, 3);
      assert AtDHead(r, cfg, prs, i, p, auto, fail, autoAfter);
      if HeadOf(r.head[0].reply).Ok? {
        assert DashedFrom(r, cfg, prs, i, p, auto, fail, autoAfter, 4);
      }
    }
  }

  lemma DMergeToBase(r: DashRun, cfg: LandConfig, prs: seq<PrInfo>, i: nat, p: PrInfo, auto: bool,
                     fail: Option<Failure>, autoAfter: bool)
    requires i < |prs| && AtDMerge(r, cfg, prs, i, p, auto, fail, autoAfter)
    ensures AtDBase(r, cfg, prs, i, p, auto, fail, autoAfter) || (fail.Some? && DEmptyFrom(r, 7))
  {
    if MergeVerdict(prs[i].number, FinalMerge(r.merge, r.retry)).None? {
      assert DashedFrom(r, cfg, prs, i, p, auto, fail, autoAfter, 6);
      assert AtDWait(r, cfg, prs, i, p, auto, fail, autoAfter);
      if (if autoAfter then PollResult(r.wait, ForMerge(prs[i].number, prs[i].url)) else None).None? {
        assert DashedFrom(r, cfg, prs, i, p, auto, fail, autoAfter, 7);
      }
    }
  }

  // from the base update to the branch deletion
  lemma DBaseToDelete(r: DashRun, cfg: LandConfig, prs: seq<PrInfo>, i: nat, p: PrInfo, auto: bool,
                      fail: Option<Failure>, autoAfter: bool)
    requires i < |prs| && AtDBase(r, cfg, prs, i, p, auto, fail, autoAfter)
    ensures AtDDelete(r, cfg, prs, i, p, auto, fail, autoAfter) || (fail.Some? && DEmptyFrom(r, 11))
  {
    if i < |prs| - 1 && ErrorOf(r.base[0].reply).None? {
      assert DashedFrom(r, cfg, prs, i, p, auto, fail, autoAfter, 8);
      DConflictsToDelete(r, cfg, prs, i, p, auto, fail, autoAfter);
    } else if i == |prs| - 1 || BaseVerdict(prs[i + 1].number, ErrorOf(r.base[0].reply)).None? {
      assert DashedFrom(r, cfg, prs, i, p, auto, fail, autoAfter, 11);
    }
  }

  lemma DConflictsToDelete(r: DashRun, cfg: LandConfig, prs: seq<PrInfo>, i: nat, p: PrInfo, auto: bool,
                           fail: Option<Failure>, autoAfter: bool)
    requires i < |prs| - 1 && AtDConflicts(r, cfg, prs, i, p, auto, fail, autoAfter)
    ensures AtDDelete(r, cfg, prs, i, p, auto, fail, autoAfter) || (fail.Some? && DEmptyFrom(r, 11))
  {
    if ConflictsOf(r.conflicts[0].reply) == Ok(true) {
      assert DashedFrom(r, cfg, prs, i, p, auto, fail, autoAfter, 9);
      DRebaseToDelete(r, cfg, prs, i, p, auto, fail, autoAfter);
    } else {
      assert DashedFrom(r, cfg, prs, i, p, auto, fail, autoAfter, 11);
    }
  }

  lemma DRebaseToDelete(r: DashRun, cfg: LandConfig, prs: seq<PrInfo>, i: nat, p: PrInfo, auto: bool,
                        fail: Option<Failure>, autoAfter: bool)
    requires i < |prs| - 1 && AtDRebase(r, cfg, prs, i, p, auto, fail, autoAfter)
    ensures AtDDelete(r, cfg, prs, i, p, auto, fail, autoAfter) || (fail.Some? && DEmptyFrom(r, 11))
  {
    if RebaseOutcome(r.rebase.value, cfg.remote, cfg.trunk, prs[i + 1..]).None? {
      assert DashedFrom(r, cfg, prs, i, p, auto, fail, autoAfter, 10);
      assert AtDRecheck(r, cfg, prs, i, p, auto, fail, autoAfter);
      if ConflictsOf(r.recheck[0].reply) != Ok(true) {
        assert DashedFrom(r, cfg, prs, i, p, auto, fail, autoAfter, 11);
      }
    }
  }

  // from the start of the turn to the checks
  lemma DSyncToChecks(r: DashRun, cfg: LandConfig, prs: seq<PrInfo>, i: nat, auto: bool,
                      fail: Option<Failure>, autoAfter: bool)
    requires i < |prs| && DashedPR(r, cfg, prs, i, auto, fail, autoAfter)
    ensures prs[i].state == "MERGED" ==> DEmptyFrom(r, 0) && fail == None && autoAfter == auto
    ensures prs[i].state != "MERGED" ==>
      |r.sync| == 1 && r.sync[0].call == SyncCommit(prs[i].number, i == 0) &&
      var p := LocalPR(prs[i], r);
      var synced := SyncVerdict(prs[i].number, r.sync[0].reply).None?;
      (synced && p.mergeStatus == "CONFLICTING" ==> fail == Some(MarkedConflicting(prs[i].number))) &&
      ((synced && p.mergeStatus != "CONFLICTING" && AtDChecks(r, cfg, prs, i, p, auto, fail, autoAfter)) ||
       (fail.Some? && autoAfter == auto && DEmptyFrom(r, 2)))
  {
    assert AtDTurn(r, cfg, prs, i, prs[i], auto, fail, autoAfter);
    if prs[i].state != "MERGED" && SyncVerdict(prs[i].number, r.sync[0].reply).None? {
      assert DashedFrom(r, cfg, prs, i, prs[i], auto, fail, autoAfter, 1);
      assert AtDSynced(r, cfg, prs, i, prs[i], auto, fail, autoAfter);
      if LocalPR(prs[i], r).mergeStatus != "CONFLICTING" {
        assert DashedFrom(r, cfg, prs, i, LocalPR(prs[i], r), auto, fail, autoAfter, 2);
      }
    }
  }

  /** The turn of a PR the dashboard shows as merged is skipped without a
      single exchange; every other turn starts with the sync. */
  lemma DashSkipsMerged(r: DashRun, cfg: LandConfig, prs: seq<PrInfo>, i: nat, auto: bool,
                        fail: Option<Failure>, autoAfter: bool)
    requires i < |prs| && DashedPR(r, cfg, prs, i, auto, fail, autoAfter)
    ensures prs[i].state == "MERGED" <==> r.sync == []
    ensures prs[i].state == "MERGED" ==> DashFlat(r) == [] && fail == None && autoAfter == auto
  {
    DSyncToChecks(r, cfg, prs, i, auto, fail, autoAfter);
  }

  /** A PR whose local copy is marked conflicting, after the sync and its
      refresh, is never merged: the landing stops before the checks. */
  lemma DashConflictingNeverMerges(r: DashRun, cfg: LandConfig, prs: seq<PrInfo>, i: nat, auto: bool,
                                   fail: Option<Failure>, autoAfter: bool)
    requires i < |prs| && DashedPR(r, cfg, prs, i, auto, fail, autoAfter)
    requires prs[i].state != "MERGED" && LocalPR(prs[i], r).mergeStatus == "CONFLICTING"
    ensures fail.Some? && autoAfter == auto
    ensures r.checks == [] && r.head == [] && r.merge == [] && r.retry == [] && r.wait == []
    ensures SyncVerdict(prs[i].number, r.sync[0].reply).None? ==> fail == Some(MarkedConflicting(prs[i].number))
  {
    DSyncToChecks(r, cfg, prs, i, auto, fail, autoAfter);
  }

  /** The auto mode the next PR starts in: switched on by a fallback in this
      turn, else unchanged. */
  lemma DashAutoModeAfter(r: DashRun, cfg: LandConfig, prs: seq<PrInfo>, i: nat, auto: bool,
                          fail: Option<Failure>, autoAfter: bool)
    requires i < |prs| && DashedPR(r, cfg, prs, i, auto, fail, autoAfter)
    ensures autoAfter == (auto || r.retry != [])
  {
    DSyncToChecks(r, cfg, prs, i, auto, fail, autoAfter);
    if prs[i].state != "MERGED" && !(fail.Some? && autoAfter == auto && DEmptyFrom(r, 2)) {
      DUpToMerge(r, cfg, prs, i, LocalPR(prs[i], r), auto, fail, autoAfter);
    }
  }

  /** Where a turn reaches the merge, it merges the local copy: the title
      and head SHA the sync and its refresh left. */
  lemma DashMergesLocalCopy(r: DashRun, cfg: LandConfig, prs: seq<PrInfo>, i: nat, auto: bool,
                            fail: Option<Failure>, autoAfter: bool)
    requires i < |prs| && DashedPR(r, cfg, prs, i, auto, fail, autoAfter)
    requires r.merge != []
    ensures var p := LocalPR(prs[i], r);
      prs[i].state != "MERGED" && p.mergeStatus != "CONFLICTING" &&
      MergeAttempts(r.merge, r.retry, prs[i].number, p.title, p.headSHA, auto, cfg.rx)
  {
    DSyncToChecks(r, cfg, prs, i, auto, fail, autoAfter);
    DUpToMerge(r, cfg, prs, i, LocalPR(prs[i], r), auto, fail, autoAfter);
  }

  /** A turn that got past the merge: the PR was not merged yet, its merge
      went through, and the wait for it follows. */
  lemma DPRToWait(r: DashRun, cfg: LandConfig, prs: seq<PrInfo>, i: nat, auto: bool,
                  fail: Option<Failure>, autoAfter: bool)
    requires i < |prs| && DashedPR(r, cfg, prs, i, auto, fail, autoAfter)
    ensures var p := LocalPR(prs[i], r);
      (prs[i].state != "MERGED" && AtDMerge(r, cfg, prs, i, p, auto, fail, autoAfter) &&
       MergeVerdict(prs[i].number, FinalMerge(r.merge, r.retry)).None? &&
       AtDWait(r, cfg, prs, i, p, auto, fail, autoAfter)) ||
      (DEmptyFrom(r, 6) && (fail.Some? || prs[i].state == "MERGED"))
  {
    DSyncToChecks(r, cfg, prs, i, auto, fail, autoAfter);
    if prs[i].state != "MERGED" {
      var p := LocalPR(prs[i], r);
      if !(fail.Some? && DEmptyFrom(r, 2)) {
        DUpToMerge(r, cfg, prs, i, p, auto, fail, autoAfter);
        if AtDMerge(r, cfg, prs, i, p, auto, fail, autoAfter) && MergeVerdict(prs[i].number, FinalMerge(r.merge, r.retry)).None? {
          assert DashedFrom(r, cfg, prs, i, p, auto, fail, autoAfter, 6);
        }
      }
    }
  }

  /** What a wait that let the landing go on says: in auto mode the PR was
      seen MERGED. */
  lemma DWaitPassed(r: DashRun, cfg: LandConfig, prs: seq<PrInfo>, i: nat, p: PrInfo, auto: bool,
                    fail: Option<Failure>, autoAfter: bool)
    requires i < |prs| && AtDWait(r, cfg, prs, i, p, auto, fail, autoAfter)
    requires !DEmptyFrom(r, 7) || fail.None?
    ensures AtDBase(r, cfg, prs, i, p, auto, fail, autoAfter)
    ensures autoAfter ==> r.wait != [] && Last(r.wait).reply.PRState? && Last(r.wait).reply.state == "MERGED"
  {
    if autoAfter {
      PollSucceeded(r.wait, ViewState(prs[i].number), cfg.pollBudget, ForMerge(prs[i].number, prs[i].url));
      MergePollSpec(prs[i].number, prs[i].url, Last(r.wait).reply);
    }
    assert DashedFrom(r, cfg, prs, i, p, auto, fail, autoAfter, 7);
  }

  /** The next PR's base is moved only when there is a next PR, and only
      after this PR's merge succeeded and, in auto mode, was seen MERGED. */
  lemma DashBaseUpdatedOnlyAfterMerge(r: DashRun, cfg: LandConfig, prs: seq<PrInfo>, i: nat, auto: bool,
                                      fail: Option<Failure>, autoAfter: bool)
    requires i < |prs| && DashedPR(r, cfg, prs, i, auto, fail, autoAfter)
    requires r.base != []
    ensures i < |prs| - 1 && |r.base| == 1 && r.base[0].call == EditBase(prs[i + 1].number, cfg.trunk)
    ensures var a := FinalMerge(r.merge, r.retry); r.merge != [] && a.MergeReplied? && a.err == None
    ensures autoAfter ==> r.wait != [] && Last(r.wait).reply.PRState? && Last(r.wait).reply.state == "MERGED"
  {
    DPRToWait(r, cfg, prs, i, auto, fail, autoAfter);
    DWaitPassed(r, cfg, prs, i, LocalPR(prs[i], r), auto, fail, autoAfter);
  }

  /** The rest of the stack is rebased only after the next PR's base was
      moved and the forge answered, definitely, that it now conflicts; and
      it is the rest as the dashboard listed it. */
  lemma DashRebaseOnlyOnConflict(r: DashRun, cfg: LandConfig, prs: seq<PrInfo>, i: nat, auto: bool,
                                 fail: Option<Failure>, autoAfter: bool)
    requires i < |prs| && DashedPR(r, cfg, prs, i, auto, fail, autoAfter)
    requires r.rebase.Some?
    ensures i < |prs| - 1 && |r.base| == 1 && ErrorOf(r.base[0].reply) == None
    ensures |r.conflicts| == 1 && r.conflicts[0].call == ViewMergeability(prs[i + 1].number)
    ensures ConflictsOf(r.conflicts[0].reply) == Ok(true)
    ensures Rebased(r.rebase.value, cfg.remote, cfg.trunk, prs[i + 1..])
  {
    var p := LocalPR(prs[i], r);
    DPRToWait(r, cfg, prs, i, auto, fail, autoAfter);
    DWaitPassed(r, cfg, prs, i, p, auto, fail, autoAfter);
    assert DashedFrom(r, cfg, prs, i, p, auto, fail, autoAfter, 8);
    DConflictsToRebase(r, cfg, prs, i, p, auto, fail, autoAfter);
  }

  lemma DConflictsToRebase(r: DashRun, cfg: LandConfig, prs: seq<PrInfo>, i: nat, p: PrInfo, auto: bool,
                           fail: Option<Failure>, autoAfter: bool)
    requires i < |prs| - 1 && AtDConflicts(r, cfg, prs, i, p, auto, fail, autoAfter)
    requires r.rebase.Some?
    ensures ConflictsOf(r.conflicts[0].reply) == Ok(true)
    ensures Rebased(r.rebase.value, cfg.remote, cfg.trunk, prs[i + 1..])
  {
    assert DashedFrom(r, cfg, prs, i, p, auto, fail, autoAfter, 9);
  }

  /** A turn without failure on a PR that was not merged yet merged it
      (and, in auto mode, saw it MERGED), offered the next PR the trunk as
      its base, pulled the trunk, and restacked the remaining PRs without a
      failed rebase. */
  lemma DashLandedWithoutFailure(r: DashRun, cfg: LandConfig, prs: seq<PrInfo>, i: nat, auto: bool,
                                 fail: Option<Failure>, autoAfter: bool)
    requires i < |prs| && DashedPR(r, cfg, prs, i, auto, fail, autoAfter)
    requires fail == None && prs[i].state != "MERGED"
    ensures var a := FinalMerge(r.merge, r.retry); r.merge != [] && a.MergeReplied? && a.err == None
    ensures autoAfter ==> r.wait != [] && Last(r.wait).reply.PRState? && Last(r.wait).reply.state == "MERGED"
    ensures i < |prs| - 1 ==> |r.base| == 1 && r.base[0].call == EditBase(prs[i + 1].number, cfg.trunk)
    ensures |r.pull| == 3 && forall k | 0 <= k < 3 :: !r.pull[k].reply.Failed?
    ensures i < |prs| - 1 ==> RestackSeg(r.restack, cfg.remote, cfg.trunk, prs[i + 1..]) && RestackError(r.restack) == None
  {
    var p := LocalPR(prs[i], r);
    DPRToWait(r, cfg, prs, i, auto, fail, autoAfter);
    DWaitPassed(r, cfg, prs, i, p, auto, fail, autoAfter);
    DBaseToDelete(r, cfg, prs, i, p, auto, fail, autoAfter);
    DDeleteToEnd(r, cfg, prs, i, p, auto, fail, autoAfter);
  }

  lemma DDeleteToEnd(r: DashRun, cfg: LandConfig, prs: seq<PrInfo>, i: nat, p: PrInfo, auto: bool,
                     fail: Option<Failure>, autoAfter: bool)
    requires i < |prs| && AtDDelete(r, cfg, prs, i, p, auto, fail, autoAfter) && fail == None
    ensures |r.pull| == 3 && forall k | 0 <= k < 3 :: !r.pull[k].reply.Failed?
    ensures i < |prs| - 1 ==> RestackSeg(r.restack, cfg.remote, cfg.trunk, prs[i + 1..]) && RestackError(r.restack) == None
  {
    assert DashedFrom(r, cfg, prs, i, p, auto, fail, autoAfter, 12);
    assert AtDPull(r, cfg, prs, i, p, auto, fail, autoAfter);
    assert DashedFrom(r, cfg, prs, i, p, auto, fail, autoAfter, 13);
  }

  // ---------------------------------------------------------------------
  // The stack, from the dashboard

  /** One PR's turn: its exchanges, the auto mode it started in, how it
      ended and the auto mode it left for the next PR. */
  datatype DashAttempt = DashAttempt(run: DashRun, auto: bool, fail: Option<Failure>, autoAfter: bool)

  function FlatDash(ls: seq<DashAttempt>): seq<Exchange>
  {
    if ls == [] then [] else FlatDash(ls[..|ls| - 1]) + DashFlat(ls[|ls| - 1].run)
  }

  lemma FlatDashSnoc(ls: seq<DashAttempt>, a: DashAttempt)
    ensures FlatDash(ls + [a]) == FlatDash(ls) + DashFlat(a.run)
  {
    assert (ls + [a])[..|ls|] == ls;
  }

  /** The turns `ls` are how `landStackFromDashboard` went through the
      dashboard's list `prs`: bottom first, each as `DashedPR` says, starting
      in the mode the one before it left, and only after every earlier turn
      went through. */
  ghost predicate DashSoFar(ls: seq<DashAttempt>, cfg: LandConfig, prs: seq<PrInfo>)
    decreases |ls|
  {
    |ls| <= |prs| &&
    (ls != [] ==>
      var j := |ls| - 1;
      TurnIn(cfg, prs)(ls[j], j) &&
      (j == 0 ==> ls[0].auto == cfg.autoMode) &&
      (j > 0 ==> ls[j - 1].fail == None && ls[j].auto == ls[j - 1].autoAfter) &&
      DashSoFar(ls[..j], cfg, prs))
  }

  /** `DashedPR` of one turn as a value, so that a chain of turns does not
      spell out every turn wherever it is mentioned. */
  ghost function TurnIn(cfg: LandConfig, prs: seq<PrInfo>): (DashAttempt, nat) -> bool
  {
    (a: DashAttempt, j: nat) => j < |prs| && DashedPR(a.run, cfg, prs, j, a.auto, a.fail, a.autoAfter)
  }

  /** What `DashSoFar` says of the turn at `j`. */
  lemma {:induction false} DashAt(ls: seq<DashAttempt>, cfg: LandConfig, prs: seq<PrInfo>, j: nat)
    requires DashSoFar(ls, cfg, prs) && j < |ls|
    ensures j < |prs| && DashedPR(ls[j].run, cfg, prs, j, ls[j].auto, ls[j].fail, ls[j].autoAfter)
    ensures j == 0 ==> ls[0].auto == cfg.autoMode
    ensures j > 0 ==> ls[j - 1].fail == None && ls[j].auto == ls[j - 1].autoAfter
    decreases |ls|
  {
    if j < |ls| - 1 {
      DashAt(ls[..|ls| - 1], cfg, prs, j);
    }
  }

  /** The state of the loop after the turns `ls`: the outcome so far and
      the auto mode for the next PR. */
  ghost predicate DashLoop(ls: seq<DashAttempt>, cfg: LandConfig, prs: seq<PrInfo>, fail: Option<Failure>, auto: bool)
  {
    DashSoFar(ls, cfg, prs) &&
    fail == (if ls == [] then None else ls[|ls| - 1].fail) &&
    auto == (if ls == [] then cfg.autoMode else ls[|ls| - 1].autoAfter)
  }

  /** The outcome of the whole loop: the first failure, if any. */
  ghost predicate DashLanded(ls: seq<DashAttempt>, cfg: LandConfig, prs: seq<PrInfo>, fail: Option<Failure>)
  {
    DashSoFar(ls, cfg, prs) &&
    fail == (if ls == [] then None else ls[|ls| - 1].fail) &&
    (fail == None ==> |ls| == |prs|)
  }

  /** The dashboard's entry for a PR after its turn: the local copy when
      the refresh after the sync succeeded, else what it was. */
  ghost function EntryAfter(p0: PrInfo, a: DashAttempt): PrInfo
  {
    if |a.run.refresh| == 2 then LocalPR(p0, a.run) else p0
  }

  /** `entries` are the dashboard's entries after the turns `ls` over the
      list `prs`. */
  ghost predicate EntriesAfter(entries: seq<PrInfo>, prs: seq<PrInfo>, ls: seq<DashAttempt>)
  {
    |entries| == |ls| <= |prs| &&
    forall k | 0 <= k < |ls| :: entries[k] == EntryAfter(prs[k], ls[k])
  }

  lemma EntriesSnoc(entries: seq<PrInfo>, prs: seq<PrInfo>, ls: seq<DashAttempt>, a: DashAttempt, e: PrInfo)
    requires EntriesAfter(entries, prs, ls) && |ls| < |prs| && e == EntryAfter(prs[|ls|], a)
    ensures EntriesAfter(entries + [e], prs, ls + [a])
  {
    forall k | 0 <= k < |ls| + 1
      ensures (entries + [e])[k] == EntryAfter(prs[k], (ls + [a])[k])
    {
      if k < |ls| {
        assert (entries + [e])[k] == entries[k] && (ls + [a])[k] == ls[k];
      }
    }
  }

  /** `landStackFromDashboard`: the PRs of the dashboard, bottom first,
      until one of them fails. The entry of a PR whose refresh after the
      sync succeeded is replaced by the refreshed copy; no other entry
      changes. */
  method LandStackFromDashboard(h: Host, cfg: LandConfig, state: DashboardState)
    returns (fail: Option<Failure>, ghost ls: seq<DashAttempt>)
    modifies h`log, state.prs
    ensures h.log == old(h.log) + FlatDash(ls)
    ensures DashLanded(ls, cfg, old(state.prs[..]), fail)
    ensures EntriesAfter(state.prs[..|ls|], old(state.prs[..]), ls)
    ensures state.prs[|ls|..] == old(state.prs[..])[|ls|..]
  {
    var prs := state.prs[..];
    ls := [];
    fail := None;
    var auto := cfg.autoMode;
    var i := 0;
    ghost var done: seq<PrInfo> := [];
    while i < state.prs.Length && fail == None
      invariant i == |ls| == |done| <= |prs|
      invariant DashLoop(ls, cfg, prs, fail, auto)
      invariant h.log == old(h.log) + FlatDash(ls)
      invariant EntriesAfter(done, prs, ls)
      invariant Listed(state, done, prs)
    {
      var refreshed, pr;
      ghost var a;
      fail, auto, refreshed, pr, a := DashNext(h, cfg, prs, i, ls, auto);
      AppendAssoc(old(h.log), FlatDash(ls), DashFlat(a.run));
      ghost var e := SetEntry(state, i, refreshed, pr, done, prs);
      EntriesSnoc(done, prs, ls, a, e);
      done := done + [e];
      ls := ls + [a];
      i := i + 1;
    }
    ListedParts(state, done, prs);
  }

  /** The dashboard's array holds `done` followed by the rest of `prs`. */
  ghost predicate Listed(state: DashboardState, done: seq<PrInfo>, prs: seq<PrInfo>)
    reads state, state.prs
  {
    state.prs.Length == |prs| && |done| <= |prs| &&
    forall k | 0 <= k < |prs| :: state.prs[k] == if k < |done| then done[k] else prs[k]
  }

  lemma ListedParts(state: DashboardState, done: seq<PrInfo>, prs: seq<PrInfo>)
    requires Listed(state, done, prs)
    ensures state.prs[..|done|] == done && state.prs[|done|..] == prs[|done|..]
  {
  }

  /** `state.prs[i] = pr` when the refresh after the sync succeeded. */
  method SetEntry(state: DashboardState, i: nat, refreshed: bool, pr: PrInfo, ghost done: seq<PrInfo>, ghost prs: seq<PrInfo>)
    returns (ghost e: PrInfo)
    requires Listed(state, done, prs) && i == |done| < |prs|
    modifies state.prs
    ensures e == (if refreshed then pr else prs[i])
    ensures Listed(state, done + [e], prs)
  {
    e := if refreshed then pr else prs[i];
    if refreshed {
      state.prs[i] := pr;
    }
    forall k | 0 <= k < |prs|
      ensures state.prs[k] == if k < i + 1 then (done + [e])[k] else prs[k]
    {
      if k < i {
        assert (done + [e])[k] == done[k];
      }
    }
  }

  /** One turn of the loop: the next PR of the dashboard. */
  method DashNext(h: Host, cfg: LandConfig, prs: seq<PrInfo>, i: nat, ghost ls: seq<DashAttempt>, auto: bool)
    returns (fail: Option<Failure>, autoAfter: bool, refreshed: bool, pr: PrInfo, ghost a: DashAttempt)
    requires i == |ls| < |prs| && DashLoop(ls, cfg, prs, None, auto)
    modifies h`log
    ensures DashLoop(ls + [a], cfg, prs, fail, autoAfter)
    ensures h.log == old(h.log) + DashFlat(a.run) && FlatDash(ls + [a]) == FlatDash(ls) + DashFlat(a.run)
    ensures fail == a.fail && autoAfter == a.autoAfter
    ensures (if refreshed then pr else prs[i]) == EntryAfter(prs[i], a)
  {
    ghost var r;
    fail, autoAfter, refreshed, pr, r := DashPR(h, cfg, prs, i, auto);
    a := DashAttempt(r, auto, fail, autoAfter);
    DashSnoc(ls, a, cfg, prs);
    FlatDashSnoc(ls, a);
  }

  lemma DashSnoc(ls: seq<DashAttempt>, a: DashAttempt, cfg: LandConfig, prs: seq<PrInfo>)
    requires |ls| < |prs| && DashLoop(ls, cfg, prs, None, a.auto)
    requires DashedPR(a.run, cfg, prs, |ls|, a.auto, a.fail, a.autoAfter)
    ensures DashLoop(ls + [a], cfg, prs, a.fail, a.autoAfter)
  {
    assert (ls + [a])[..|ls|] == ls;
  }

  /** How auto mode passes from one turn to the next. */
  ghost predicate DashAutoChain(ls: seq<DashAttempt>, cfg: LandConfig)
  {
    forall j | 0 <= j < |ls| ::
      ls[j].autoAfter == (ls[j].auto || ls[j].run.retry != []) &&
      (j == 0 ==> ls[j].auto == cfg.autoMode) &&
      (j > 0 ==> ls[j].auto == ls[j - 1].autoAfter)
  }

  lemma DashStackAutoChain(ls: seq<DashAttempt>, cfg: LandConfig, prs: seq<PrInfo>)
    requires DashSoFar(ls, cfg, prs)
    ensures DashAutoChain(ls, cfg)
  {
    forall j | 0 <= j < |ls|
      ensures ls[j].autoAfter == (ls[j].auto || ls[j].run.retry != [])
      ensures j == 0 ==> ls[j].auto == cfg.autoMode
      ensures j > 0 ==> ls[j].auto == ls[j - 1].autoAfter
    {
      DashAt(ls, cfg, prs, j);
      DashAutoModeAfter(ls[j].run, cfg, prs, j, ls[j].auto, ls[j].fail, ls[j].autoAfter);
    }
  }

  /** Auto mode is sticky here too: a PR's turn starts in auto mode iff the
      landing started in it or an earlier turn fell back to an immediate
      merge. */
  lemma {:induction false} DashAutoModeSticky(ls: seq<DashAttempt>, cfg: LandConfig, j: nat)
    requires DashAutoChain(ls, cfg) && j < |ls|
    ensures ls[j].auto == (cfg.autoMode || exists k | 0 <= k < j :: ls[k].run.retry != [])
  {
    if j > 0 {
      DashAutoModeSticky(ls, cfg, j - 1);
      if ls[j - 1].run.retry != [] {
        assert exists k | 0 <= k < j :: ls[k].run.retry != [];
      } else if exists k | 0 <= k < j :: ls[k].run.retry != [] {
        var k :| 0 <= k < j && ls[k].run.retry != [];
        assert k < j - 1;
      }
    }
  }

  /** A landing from the dashboard that ended without failure went through
      every PR: a PR already merged was skipped without an exchange, and
      every other one was merged. */
  lemma DashLandedFully(ls: seq<DashAttempt>, cfg: LandConfig, prs: seq<PrInfo>, j: nat)
    requires DashLanded(ls, cfg, prs, None) && j < |prs|
    ensures |ls| == |prs| && ls[j].fail == None
    ensures prs[j].state == "MERGED" ==> DashFlat(ls[j].run) == []
    ensures prs[j].state != "MERGED" ==>
      var a := FinalMerge(ls[j].run.merge, ls[j].run.retry); a.MergeReplied? && a.err == None
  {
    if j < |ls| - 1 {
      DashAt(ls, cfg, prs, j + 1);
    }
    DashAt(ls, cfg, prs, j);
    var r := ls[j].run;
    DashSkipsMerged(r, cfg, prs, j, ls[j].auto, ls[j].fail, ls[j].autoAfter);
    if prs[j].state != "MERGED" {
      DashLandedWithoutFailure(r, cfg, prs, j, ls[j].auto, ls[j].fail, ls[j].autoAfter);
    }
  }

  /** A turn's new entry is still the same PR: its refresh rewrites only its
      status, and the sync only its head SHA. */
  lemma EntryAfterKeepsIdentity(p0: PrInfo, a: DashAttempt)
    ensures var p := EntryAfter(p0, a);
      p.number == p0.number && p.title == p0.title && p.url == p0.url &&
      p.headBranch == p0.headBranch && p.baseBranch == p0.baseBranch
  {
    if |a.run.refresh| == 2 {
      var p1 := if a.run.sync != [] then SyncedPR(p0, a.run.sync[0].reply) else p0;
      if RefreshSeg(a.run.refresh, p1.number) {
        RefreshKeepsIdentity(p1, a.run.refresh);
      }
    }
  }

  // ---------------------------------------------------------------------
  // landStackInteractive

  /** What the user asked for at the dashboard's prompt. */
  datatype Action = LandAll | RefreshAll | Quit | Unknown

  /** The prompt's answer, lower-cased and trimmed as `landStackInteractive`
      does. */
  function ActionOf(input: string): (a: Action)
  {
    var action := TrimSpace(ToLower(input));
    if action == "y" || action == "yes" then LandAll
    else if action == "r" || action == "refresh" then RefreshAll
    else if action == "q" || action == "quit" then Quit
    else Unknown
  }

  /** Case does not matter to the prompt. */
  lemma ActionIgnoresCase(input: string)
    ensures ActionOf(ToLower(input)) == ActionOf(input)
  {
    ToLowerIdempotent(input);
  }

  /** Nor does white space around the answer, such as the newline the
      answer is read with. */
  lemma ActionIgnoresSpace(ws1: string, input: string, ws2: string)
    requires AllSpace(ws1) && AllSpace(ws2)
    ensures ActionOf(ws1 + input + ws2) == ActionOf(input)
  {
    ToLowerConcat(ws1 + input, ws2);
    ToLowerConcat(ws1, input);
    ToLowerConcat(ws2, []);
    assert ToLower(ws1 + input + ws2) == ws1 + ToLower(input) + ws2;
    TrimSpaceTrailing(ws1 + ToLower(input), ws2);
    TrimSpaceLeading(ws1, ToLower(input));
  }

  lemma ActionOfYes()
    ensures ActionOf("Yes\n") == LandAll
  {
    ActionIgnoresSpace("", "Yes", "\n");
    assert "" + "Yes" + "\n" == "Yes\n";
    assert ToLower("Yes") == "yes";
  }

  lemma ActionOfQuit()
    ensures ActionOf(" Q") == Quit
  {
    ActionIgnoresSpace(" ", "Q", "");
    assert " " + "Q" + "" == " Q";
    assert ToLower("Q") == "q";
  }

  lemma ActionOfOther()
    ensures ActionOf("land") == Unknown
  {
    assert ToLower("land") == "land";
  }

  /** An answer after which the prompt comes back. */
  predicate Continues(a: Action)
  {
    a == RefreshAll || a == Unknown
  }

  /** The answers `inputs` stand for, one by one. */
  function Answers(inputs: seq<string>): (acts: seq<Action>)
    ensures |acts| == |inputs|
  {
    seq(|inputs|, k requires 0 <= k < |inputs| => ActionOf(inputs[k]))
  }

  /** One `updateAllPRStatus` on the dashboard: the list before, the list
      after the batch, the batch's exchanges and error, the per-PR
      exchanges of the fallback, and the list after. */
  datatype Round = Round(before: seq<PrInfo>, mid: seq<PrInfo>, batch: seq<Exchange>, err: Option<string>,
                         segs: seq<seq<Exchange>>, after: seq<PrInfo>)

  ghost predicate RoundRan(rd: Round, repo: string)
  {
    (|rd.before| == 0 ==> rd.err == None && rd.batch == [] && rd.segs == []) &&
    (|rd.before| > 0 ==> BatchRan(rd.before, rd.mid, repo, rd.err, rd.batch)) &&
    (rd.err.None? ==> rd.segs == [] && rd.after == rd.mid) &&
    (rd.err.Some? ==> RefreshedEach(rd.mid, rd.after, rd.segs))
  }

  /** A turn of the prompt that asked the host nothing and left the list
      as it was. */
  predicate Idle(rd: Round)
  {
    rd.batch == [] && rd.segs == [] && rd.after == rd.before
  }

  /** The turn that follows the answer `a`: a refresh for "r", nothing for
      any other answer. */
  ghost predicate TurnRan(rd: Round, a: Action, repo: string)
  {
    if a == RefreshAll then RoundRan(rd, repo) else Idle(rd)
  }

  /** What a turn said to the host. */
  function RoundLog(rd: Round): seq<Exchange>
  {
    rd.batch + Concat(rd.segs)
  }

  function RoundsLog(rds: seq<Round>): seq<Exchange>
  {
    if rds == [] then [] else RoundsLog(rds[..|rds| - 1]) + RoundLog(rds[|rds| - 1])
  }

  /** The turns `rds` of the dashboard after the answers
      `acts[..|rds| - 1]`: the first is the refresh of `prs0` before the
      first prompt, turn `k` follows answer `k - 1`, only when answer
      `k - 2` brought the prompt back, and each starts from the list the
      one before it left. */
  ghost predicate Turns(rds: seq<Round>, prs0: seq<PrInfo>, repo: string, acts: seq<Action>)
    decreases |rds|
  {
    0 < |rds| <= |acts| + 1 &&
    if |rds| == 1 then rds[0].before == prs0 && RoundRan(rds[0], repo)
    else
      Turns(rds[..|rds| - 1], prs0, repo, acts) && rds[|rds| - 1].before == rds[|rds| - 2].after &&
      TurnRan(rds[|rds| - 1], acts[|rds| - 2], repo) && (|rds| > 2 ==> Continues(acts[|rds| - 3]))
  }

  /** Read turn by turn: turn `k` starts where the one before it ended and
      is what answer `k - 1` asks for. */
  lemma {:induction false} TurnAt(rds: seq<Round>, prs0: seq<PrInfo>, repo: string, acts: seq<Action>, k: nat)
    requires Turns(rds, prs0, repo, acts) && k < |rds|
    ensures k == 0 ==> rds[0].before == prs0 && RoundRan(rds[0], repo)
    ensures k > 0 ==> rds[k].before == rds[k - 1].after && TurnRan(rds[k], acts[k - 1], repo)
    ensures k > 1 ==> Continues(acts[k - 2])
    decreases |rds|
  {
    if k < |rds| - 1 {
      ghost var init := rds[..|rds| - 1];
      TurnAt(init, prs0, repo, acts, k);
      assert init[k] == rds[k];
      if k > 0 {
        assert init[k - 1] == rds[k - 1];
      }
    }
  }

  /** A turn that starts where the last one ended and follows the next
      answer extends the turns. */
  lemma TurnsSnoc(rds: seq<Round>, rd: Round, prs0: seq<PrInfo>, repo: string, acts: seq<Action>)
    requires Turns(rds, prs0, repo, acts) && |rds| <= |acts|
    requires rd.before == rds[|rds| - 1].after && TurnRan(rd, acts[|rds| - 1], repo)
    requires |rds| > 1 ==> Continues(acts[|rds| - 2])
    ensures Turns(rds + [rd], prs0, repo, acts)
    ensures RoundsLog(rds + [rd]) == RoundsLog(rds) + RoundLog(rd)
  {
    assert (rds + [rd])[..|rds|] == rds;
  }

  /** How `landStackInteractive` ended: every PR merged, the landing started
      and ended in `fail`, or the user quit. `InputEnded` is not an ending of
      the source, which re-prompts forever once its input is exhausted: it
      only marks that the answers given to the model ran out first. */
  datatype Ending = AllLanded | Landing(fail: Option<Failure>) | Cancelled | InputEnded

  /** Every PR of `prs` is merged (counted, as `AllPRsMerged` shows the
      count agrees with every state being "MERGED"). */
  ghost predicate AllMerged(prs: seq<PrInfo>)
  {
    Tally(prs, Merged) == |prs|
  }

  /** The dashboard's loop: a refresh of every PR, then, until every PR is
      merged, one answer of `inputs` at a time: "y" lands the stack from the
      dashboard, "r" refreshes again, "q" cancels and anything else asks
      again. `used` answers were read; `rounds` are the turns, one for the
      first refresh and one per answer, and `atLand` the list the landing
      started from. */
  method LandStackInteractive(h: Host, cfg: LandConfig, repo: string, state: DashboardState, inputs: seq<string>)
    returns (end: Ending, used: nat, ghost rounds: seq<Round>, ghost ls: seq<DashAttempt>, ghost atLand: seq<PrInfo>)
    modifies h`log, state`updateError, state.prs
    ensures used <= |inputs| && |rounds| == used + 1 && Turns(rounds, old(state.prs[..]), repo, Answers(inputs))
    ensures h.log == old(h.log) + RoundsLog(rounds) + FlatDash(ls)
    ensures !end.Landing? ==> ls == [] && state.prs[..] == rounds[used].after
    ensures end.AllLanded? ==> AllMerged(rounds[used].after) && (used > 0 ==> Answers(inputs)[used - 1] == RefreshAll)
    ensures end.InputEnded? ==>
      used == |inputs| && !AllMerged(rounds[used].after) && (used > 0 ==> Continues(Answers(inputs)[used - 1]))
    ensures end.Cancelled? ==> used > 0 && Answers(inputs)[used - 1] == Quit && !AllMerged(rounds[used].after)
    ensures end.Landing? ==>
      (used > 0 && Answers(inputs)[used - 1] == LandAll &&
       atLand == rounds[used].after && !AllMerged(atLand) && DashLanded(ls, cfg, atLand, end.fail))
  {
    ls := [];
    atLand := [];
    var all, last;
    all, last, used, rounds := Prompt(h, repo, state, Answers(inputs));
    if !all && last == LandAll {
      atLand := state.prs[..];
      var fail;
      fail, ls := LandStackFromDashboard(h, cfg, state);
      end := Landing(fail);
    } else {
      end := if all then AllLanded else if Continues(last) then InputEnded else Cancelled;
      assert h.log + FlatDash(ls) == h.log;
    }
  }

  /** The answer read last after `used` answers: none yet reads as an
      unknown one, which lets the prompt come back. */
  function LastRead(acts: seq<Action>, used: nat): Action
    requires used <= |acts|
  {
    if used == 0 then Unknown else acts[used - 1]
  }

  /** Where the prompt stands after `used` answers: the turns so far, whether
      every PR is merged, and the last answer read. */
  ghost predicate Prompted(rounds: seq<Round>, used: nat, last: Action, all: bool, prs0: seq<PrInfo>, repo: string,
                           acts: seq<Action>)
  {
    used <= |acts| && |rounds| == used + 1 && Turns(rounds, prs0, repo, acts) &&
    (all <==> AllMerged(rounds[used].after)) && last == LastRead(acts, used) &&
    (all && used > 0 ==> last == RefreshAll) && (!Continues(last) ==> !all)
  }

  /** The refresh and the loop of the prompt over the answers `acts`, up to
      every PR merged, the end of the answers, or one other than a refresh
      or an unknown one; `last` is the last answer read. */
  method Prompt(h: Host, repo: string, state: DashboardState, acts: seq<Action>)
    returns (all: bool, last: Action, used: nat, ghost rounds: seq<Round>)
    modifies h`log, state`updateError, state.prs
    ensures used <= |acts| && |rounds| == used + 1
    ensures Prompted(rounds, used, last, all, old(state.prs[..]), repo, acts) == true
    ensures h.log == old(h.log) + RoundsLog(rounds) && state.prs[..] == rounds[used].after
    ensures !all && Continues(last) ==> used == |acts|
  {
    ghost var prs0, log0 := state.prs[..], h.log;
    ghost var rd;
    rd, all := FirstRound(h, repo, state);
    rounds := [rd];
    assert RoundsLog(rounds) == RoundsLog([]) + RoundLog(rd);
    used := 0;
    last := Unknown;
    while !all && used < |acts| && Continues(last)
      invariant used <= |acts| && |rounds| == used + 1 && last == LastRead(acts, used)
      invariant Prompted(rounds, used, last, all, prs0, repo, acts) == true
      invariant h.log == log0 + RoundsLog(rounds) && state.prs[..] == rounds[used].after
      decreases |acts| - used
    {
      rounds, all := PromptTurn(h, repo, state, acts, used, last, prs0, log0, rounds);
      last, used := acts[used], used + 1;
    }
  }

  /** One more answer read at the prompt: the turn it asks for, appended
      to the turns so far. */
  method PromptTurn(h: Host, repo: string, state: DashboardState, acts: seq<Action>, used: nat, last: Action,
                    ghost prs0: seq<PrInfo>, ghost log0: seq<Exchange>, ghost rounds: seq<Round>)
    returns (ghost rounds': seq<Round>, all: bool)
    requires Prompted(rounds, used, last, false, prs0, repo, acts) == true
    requires used < |acts| && Continues(last) && |rounds| == used + 1
    requires h.log == log0 + RoundsLog(rounds) && state.prs[..] == rounds[used].after
    modifies h`log, state`updateError, state.prs
    ensures |rounds'| == used + 2
    ensures Prompted(rounds', used + 1, acts[used], all, prs0, repo, acts) == true
    ensures h.log == log0 + RoundsLog(rounds') && state.prs[..] == rounds'[used + 1].after
  {
    ghost var rd;
    rd, all := Turn(h, repo, state, acts[used]);
    TurnsSnoc(rounds, rd, prs0, repo, acts);
    AppendAssoc(log0, RoundsLog(rounds), RoundLog(rd));
    rounds' := rounds + [rd];
  }

  /** The refresh before the first prompt, and whether every PR is merged. */
  method FirstRound(h: Host, repo: string, state: DashboardState) returns (ghost rd: Round, all: bool)
    modifies h`log, state`updateError, state.prs
    ensures rd.before == old(state.prs[..]) && RoundRan(rd, repo) && rd.after == state.prs[..]
    ensures h.log == old(h.log) + RoundLog(rd)
    ensures all <==> AllMerged(rd.after)
  {
    rd := RefreshRound(h, repo, state);
    var now := state.prs[..];
    all := AllPRsMerged(now);
  }

  /** One turn of the prompt after the answer `a`, with some PR not merged:
      for a refresh, one more refresh and whether every PR is now merged;
      for any other answer, nothing. */
  method Turn(h: Host, repo: string, state: DashboardState, a: Action) returns (ghost rd: Round, all: bool)
    requires !AllMerged(state.prs[..])
    modifies h`log, state`updateError, state.prs
    ensures rd.before == old(state.prs[..]) && TurnRan(rd, a, repo) && rd.after == state.prs[..]
    ensures h.log == old(h.log) + RoundLog(rd)
    ensures all <==> AllMerged(rd.after)
  {
    if a == RefreshAll {
      rd, all := FirstRound(h, repo, state);
    } else {
      rd := Round(state.prs[..], state.prs[..], [], None, [], state.prs[..]);
      all := false;
      assert RoundLog(rd) == [];
    }
  }

  /** `updateAllPRStatus`, recorded as one round. */
  method RefreshRound(h: Host, repo: string, state: DashboardState) returns (ghost rd: Round)
    modifies h`log, state`updateError, state.prs
    ensures rd.before == old(state.prs[..]) && RoundRan(rd, repo) && rd.after == state.prs[..]
    ensures h.log == old(h.log) + RoundLog(rd)
  {
    ghost var before := state.prs[..];
    ghost var mid, batch, segs := UpdateAllPRStatus(h, repo, state);
    ghost var after := state.prs[..];
    assert |before| == |after| == state.prs.Length;
    rd := Round(before, mid, batch, state.updateError, segs, after);
    RoundRanBy(rd, repo);
  }

  /** The facts `updateAllPRStatus` gives, read as one round. */
  lemma RoundRanBy(rd: Round, repo: string)
    requires |rd.before| == 0 ==> rd.err == None && rd.batch == [] && rd.segs == []
    requires |rd.before| > 0 ==> BatchRan(rd.before, rd.mid, repo, rd.err, rd.batch)
    requires rd.err.None? ==> rd.segs == [] && rd.after == rd.mid
    requires rd.err.Some? ==> RefreshedEach(rd.mid, rd.after, rd.segs)
    ensures RoundRan(rd, repo)
  {
  }
}
