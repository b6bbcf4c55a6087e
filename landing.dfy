/** The landing sequencer of land.go (`landStack`): the PRs of a stack are
    merged bottom first, each one only after its mergeability is known,
    its required checks passed and, in auto mode, its merge completed; the
    next PR is then moved onto the trunk, the merged branch deleted and the
    trunk pulled. Every step runs on a `Host`, and each PR's exchanges are
    kept, phase by phase, in a `Run`. */
module Landing {
  import opened Strs
  import opened Wrappers
  import opened Status
  import opened Body
  import opened Forge
  import opened Queries

  /** The parts of `landConfig` and of the global git configuration the
      sequencer reads. The wall-clock timeout becomes a number of polls. */
  datatype LandConfig = LandConfig(pollBudget: nat, deleteBranch: bool, requireChecks: bool, autoMode: bool,
                                   dryRun: bool, remote: string, trunk: string, rx: Regexes)

  /** Why the landing of a stack stopped. */
  datatype Failure =
    | MergeabilityUnavailable(pr: int, why: string)
    | Conflicting(pr: int, reason: string)
    | ChecksFailed(pr: int, why: string)
    | MergeFailed(pr: int, why: string)
    | MergeNotCompleted(pr: int, why: string)
    | BaseClosed(pr: int, why: string)
    | Panicked(why: string)
    // the dashboard's landing only
    | SyncFailed(pr: int, why: string)
    | MarkedConflicting(pr: int)
    | RemainingNotRebased(pr: int)
    | StillConflicting(pr: int)
    | RestackFailed(why: string)

  /** The exchanges of one PR's landing, phase by phase; a phase that did
      not run is empty. */
  datatype Run = Run(mergeability: seq<Exchange>, checks: seq<Exchange>, head: seq<Exchange>,
                     merge: seq<Exchange>, retry: seq<Exchange>, wait: seq<Exchange>,
                     base: seq<Exchange>, delete: seq<Exchange>, pull: seq<Exchange>)

  /** All of a run's exchanges, in the order they happened. */
  function Flat(r: Run): seq<Exchange>
  {
    r.mergeability + (r.checks + (r.head + (r.merge + (r.retry + (r.wait + (r.base + (r.delete + r.pull)))))))
  }

  /** Nothing ran from phase `stage` on (1 = checks, ..., 8 = pull). */
  ghost predicate EmptyFrom(r: Run, stage: nat)
  {
    (stage <= 1 ==> r.checks == []) && (stage <= 2 ==> r.head == []) &&
    (stage <= 3 ==> r.merge == []) && (stage <= 4 ==> r.retry == []) &&
    (stage <= 5 ==> r.wait == []) && (stage <= 6 ==> r.base == []) &&
    (stage <= 7 ==> r.delete == []) && (stage <= 8 ==> r.pull == [])
  }

  // ---------------------------------------------------------------------
  // The phases

  /** The mergeability queries: one, then up to three retries while the
      status stays UNKNOWN. */
  ghost predicate MergeabilitySeg(seg: seq<Exchange>, n: int)
  {
    1 <= |seg| <= 4 &&
    (forall k | 0 <= k < |seg| :: seg[k].call == ViewMergeability(n)) &&
    (forall k | 0 <= k < |seg| - 1 :: StillUnknown(seg[k].reply)) &&
    (|seg| < 4 ==> !StillUnknown(Last(seg).reply))
  }

  /** The answer reports the merge status as still being computed. */
  predicate StillUnknown(r: Reply)
  {
    r.MergeInfo? && r.mergeStateStatus == "UNKNOWN"
  }

  lemma UnknownSnoc(seg: seq<Exchange>, e: Exchange, n: int)
    requires seg != [] && StillUnknown(Last(seg).reply) && e.call == ViewMergeability(n)
    requires forall k | 0 <= k < |seg| :: seg[k].call == ViewMergeability(n)
    requires forall k | 0 <= k < |seg| - 1 :: StillUnknown(seg[k].reply)
    ensures forall k | 0 <= k < |seg + [e]| :: (seg + [e])[k].call == ViewMergeability(n)
    ensures forall k | 0 <= k < |seg + [e]| - 1 :: StillUnknown((seg + [e])[k].reply)
  {
  }

  lemma StillUnknownSpec(r: Reply)
    ensures StillUnknown(r) <==> MergeStatusOf(r) == Ok("UNKNOWN")
  {
  }

  /** The last mergeability answer decides: an error or CONFLICTING stops
      the landing; every other status, UNKNOWN included, goes on. */
  function MergeabilityVerdict(n: int, r: Reply): Option<Failure>
  {
    match MergeStatusOf(r)
    case Err(e) => Some(MergeabilityUnavailable(n, e))
    case Ok(s) => if s == "CONFLICTING" then Some(Conflicting(n, MergeReason(s))) else None
  }

  method MergeabilityPhase(h: Host, n: int) returns (fail: Option<Failure>, ghost seg: seq<Exchange>)
    modifies h`log
    ensures h.log == old(h.log) + seg
    ensures MergeabilitySeg(seg, n)
    ensures fail == MergeabilityVerdict(n, Last(seg).reply)
  {
    var status, reason, e := CheckPRMergeability(h, n);
    seg := [e];
    StillUnknownSpec(e.reply);
    if status == Ok("UNKNOWN") {
      status, reason, seg := RetryWhileUnknown(h, n, e);
      assert seg == [e] + seg[1..];
      AppendAssoc(old(h.log), [e], seg[1..]);
    }
    // an error or CONFLICTING, first time or after the retries, stops here
    if status.Err? {
      fail := Some(MergeabilityUnavailable(n, status.error));
    } else if status.value == "CONFLICTING" {
      fail := Some(Conflicting(n, reason));
    } else {
      fail := None;
    }
  }

  /** The retries of `landStack` after a first UNKNOWN answer `e`: at most
      three more queries, stopping at an error or a known status. */
  method RetryWhileUnknown(h: Host, n: int, ghost e: Exchange)
    returns (status: Result<string>, reason: string, ghost seg: seq<Exchange>)
    requires e.call == ViewMergeability(n) && StillUnknown(e.reply)
    modifies h`log
    ensures MergeabilitySeg(seg, n)
    ensures h.log == old(h.log) + seg[1..] && seg[0] == e
    ensures status == MergeStatusOf(Last(seg).reply)
    ensures reason == if status.Ok? then MergeReason(status.value) else ""
  {
    seg := [e];
    status := Ok("UNKNOWN");
    reason := MergeReason("UNKNOWN");
    var retry := 0;
    while retry < 3 && status == Ok("UNKNOWN")
      invariant 1 <= |seg| == retry + 1 <= 4 && seg[0] == e
      invariant h.log == old(h.log) + seg[1..]
      invariant status == MergeStatusOf(Last(seg).reply) && status.Ok?
      invariant reason == MergeReason(status.value)
      invariant forall k | 0 <= k < |seg| :: seg[k].call == ViewMergeability(n)
      invariant forall k | 0 <= k < |seg| - 1 :: StillUnknown(seg[k].reply)
    {
      ghost var e2;
      status, reason, e2 := CheckPRMergeability(h, n);
      UnknownSnoc(seg, e2, n);
      assert (seg + [e2])[1..] == seg[1..] + [e2];
      seg := seg + [e2];
      if status.Err? {
        return;
      }
      retry := retry + 1;
    }
  }

  const AutoMergeMarker := "enablePullRequestAutoMerge"

  /** The first merge failed because the repository does not allow
      auto-merge, and is retried without `--auto`. */
  predicate NeedsFallback(a: MergeAnswer)
  {
    a.MergeReplied? && a.err.Some? && Contains(a.output, AutoMergeMarker)
  }

  function MergeVerdict(n: int, a: MergeAnswer): Option<Failure>
  {
    match a
    case MergePanicked(why) => Some(Panicked("must: " + why))
    case MergeReplied(_, err) => if err.Some? then Some(MergeFailed(n, err.value)) else None
  }

  /** The merge commands for one PR: the first in the current mode and, only
      after the auto-merge refusal, a second one without `--auto`. */
  ghost predicate MergeAttempts(first: seq<Exchange>, retry: seq<Exchange>, n: int, title: string,
                                headSHA: string, auto: bool, rx: Regexes)
  {
    MergeSeg(first, n, title, headSHA, auto, rx) &&
    (NeedsFallback(MergeAnswerOf(first)) ==> MergeSeg(retry, n, title, headSHA, false, rx)) &&
    (!NeedsFallback(MergeAnswerOf(first)) ==> retry == [])
  }

  /** The answer that counts: the retry's when there was one. */
  ghost function FinalMerge(first: seq<Exchange>, retry: seq<Exchange>): MergeAnswer
  {
    if retry != [] then MergeAnswerOf(retry) else MergeAnswerOf(first)
  }

  /** `mergePR` with the fallback of `landStack`. Auto mode is switched on
      after a fallback, whatever it was before. */
  method MergeWithFallback(h: Host, n: int, title: string, headSHA: string, auto: bool, rx: Regexes)
    returns (fail: Option<Failure>, autoAfter: bool, ghost first: seq<Exchange>, ghost retry: seq<Exchange>)
    modifies h`log
    ensures h.log == old(h.log) + (first + retry)
    ensures MergeAttempts(first, retry, n, title, headSHA, auto, rx)
    ensures fail == MergeVerdict(n, FinalMerge(first, retry))
    ensures autoAfter == (auto || retry != [])
  {
    ghost var start := h.log;
    var a;
    a, first := MergePR(h, n, title, headSHA, auto, rx);
    retry := [];
    autoAfter := auto;
    if NeedsFallback(a) {
      a, retry := MergePR(h, n, title, headSHA, false, rx);
      AppendAssoc(start, first, retry);
      autoAfter := true;
    } else {
      assert first + retry == first;
    }
    fail := MergeVerdict(n, a);
  }

  /** A base-update error is fatal only when it says the PR was closed. */
  function BaseVerdict(next: int, err: Option<string>): Option<Failure>
  {
    if err.Some? && Contains(err.value, "closed") then Some(BaseClosed(next, err.value)) else None
  }

  function PullArgs(remote: string, trunk: string): seq<seq<string>>
  {
    [["fetch", remote, trunk], ["checkout", trunk], ["pull", remote, trunk]]
  }

  /** Fetch, check out and pull the trunk, stopping at the first failure. */
  ghost predicate PullSeg(seg: seq<Exchange>, remote: string, trunk: string)
  {
    1 <= |seg| <= 3 &&
    (forall k | 0 <= k < |seg| :: seg[k].call == Git(PullArgs(remote, trunk)[k])) &&
    (forall k | 0 <= k < |seg| - 1 :: !seg[k].reply.Failed?) &&
    (|seg| < 3 ==> Last(seg).reply.Failed?)
  }

  /** The error of the command the pull stopped at. */
  ghost function PullError(seg: seq<Exchange>): Option<string>
    requires seg != []
  {
    ErrorOf(Last(seg).reply)
  }

  /** `must` turns that error into a panic. */
  ghost function PullVerdict(seg: seq<Exchange>): Option<Failure>
    requires seg != []
  {
    var err := PullError(seg);
    if err.Some? then Some(Panicked("must: " + err.value)) else None
  }

  method PullTrunk(h: Host, remote: string, trunk: string) returns (err: Option<string>, ghost seg: seq<Exchange>)
    modifies h`log
    ensures h.log == old(h.log) + seg
    ensures PullSeg(seg, remote, trunk)
    ensures err == PullError(seg)
  {
    var args := PullArgs(remote, trunk);
    seg := [];
    var k := 0;
    while k < 3
      invariant k == |seg| <= 3
      invariant h.log == old(h.log) + seg
      invariant forall j | 0 <= j < |seg| :: seg[j].call == Git(args[j]) && !seg[j].reply.Failed?
    {
      var r := h.Ask(Git(args[k]));
      seg := seg + [Exchange(Git(args[k]), r)];
      if r.Failed? {
        return ErrorOf(r), seg;
      }
      k := k + 1;
    }
    err := None;
  }

  // ---------------------------------------------------------------------
  // One PR

  /** The landing of `prs[i]`, from phase `stage` on, for a PR that
      started in auto mode `auto` and leaves the next one in `autoAfter`:
      each phase runs only when the ones before it did not stop the
      landing, and the first phase that fails gives `fail`. Each phase is
      the predicate named after it below. */
  ghost predicate LandedFrom(r: Run, cfg: LandConfig, prs: seq<PrInfo>, i: nat, auto: bool,
                             fail: Option<Failure>, autoAfter: bool, stage: nat)
    requires i < |prs|
    decreases 9 - stage, 1
  {
    if stage == 0 then AtMergeability(r, cfg, prs, i, auto, fail, autoAfter)
    else if stage == 1 then AtChecks(r, cfg, prs, i, auto, fail, autoAfter)
    else if stage == 2 then AtHead(r, cfg, prs, i, auto, fail, autoAfter)
    else if stage == 3 then AtMerge(r, cfg, prs, i, auto, fail, autoAfter)
    else if stage <= 5 then AtWait(r, cfg, prs, i, auto, fail, autoAfter)
    else if stage == 6 then AtBase(r, cfg, prs, i, auto, fail, autoAfter)
    else AtDelete(r, cfg, prs, i, auto, fail, autoAfter)
  }

  // checkPRMergeability, retried while UNKNOWN
  ghost predicate AtMergeability(r: Run, cfg: LandConfig, prs: seq<PrInfo>, i: nat, auto: bool,
                                 fail: Option<Failure>, autoAfter: bool)
    requires i < |prs|
    decreases 9, 0
  {
    var n := prs[i].number;
    MergeabilitySeg(r.mergeability, n) &&
    var v := MergeabilityVerdict(n, Last(r.mergeability).reply);
    if v.Some? then fail == v && autoAfter == auto && EmptyFrom(r, 1)
    else LandedFrom(r, cfg, prs, i, auto, fail, autoAfter, 1)
  }

  // waitForChecks, when checks are required
  ghost predicate AtChecks(r: Run, cfg: LandConfig, prs: seq<PrInfo>, i: nat, auto: bool,
                           fail: Option<Failure>, autoAfter: bool)
    requires i < |prs|
    decreases 8, 0
  {
    var n := prs[i].number;
    (cfg.requireChecks ==> PollSeg(r.checks, RequiredChecks(n), cfg.pollBudget, ForChecks)) &&
    (!cfg.requireChecks ==> r.checks == []) &&
    var err := if cfg.requireChecks then PollResult(r.checks, ForChecks) else None;
    if err.Some? then fail == Some(ChecksFailed(n, err.value)) && autoAfter == auto && EmptyFrom(r, 2)
    else LandedFrom(r, cfg, prs, i, auto, fail, autoAfter, 2)
  }

  // detectAutoGeneratedCommits
  ghost predicate AtHead(r: Run, cfg: LandConfig, prs: seq<PrInfo>, i: nat, auto: bool,
                         fail: Option<Failure>, autoAfter: bool)
    requires i < |prs|
    decreases 7, 0
  {
    var n := prs[i].number;
    |r.head| == 1 && r.head[0].call == ViewHead(n) &&
    var head := HeadOf(r.head[0].reply);
    if head.Err? then fail == Some(Panicked(head.error)) && autoAfter == auto && EmptyFrom(r, 3)
    else LandedFrom(r, cfg, prs, i, auto, fail, autoAfter, 3)
  }

  // mergePR, and its fallback without --auto
  ghost predicate AtMerge(r: Run, cfg: LandConfig, prs: seq<PrInfo>, i: nat, auto: bool,
                          fail: Option<Failure>, autoAfter: bool)
    requires i < |prs|
    decreases 6, 0
  {
    var pr := prs[i];
    MergeAttempts(r.merge, r.retry, pr.number, pr.title, pr.headSHA, auto, cfg.rx) &&
    autoAfter == (auto || r.retry != []) &&
    var v := MergeVerdict(pr.number, FinalMerge(r.merge, r.retry));
    if v.Some? then fail == v && EmptyFrom(r, 5)
    else LandedFrom(r, cfg, prs, i, auto, fail, autoAfter, 5)
  }

  // waitForMerge, in auto mode
  ghost predicate AtWait(r: Run, cfg: LandConfig, prs: seq<PrInfo>, i: nat, auto: bool,
                         fail: Option<Failure>, autoAfter: bool)
    requires i < |prs|
    decreases 4, 0
  {
    var n := prs[i].number;
    (autoAfter ==> PollSeg(r.wait, ViewState(n), cfg.pollBudget, ForMerge(n, prs[i].url))) &&
    (!autoAfter ==> r.wait == []) &&
    var err := if autoAfter then PollResult(r.wait, ForMerge(n, prs[i].url)) else None;
    if err.Some? then fail == Some(MergeNotCompleted(n, err.value)) && EmptyFrom(r, 6)
    else LandedFrom(r, cfg, prs, i, auto, fail, autoAfter, 6)
  }

  // updatePRBase of the next PR
  ghost predicate AtBase(r: Run, cfg: LandConfig, prs: seq<PrInfo>, i: nat, auto: bool,
                         fail: Option<Failure>, autoAfter: bool)
    requires i < |prs|
    decreases 3, 0
  {
    (i < |prs| - 1 ==> |r.base| == 1 && r.base[0].call == EditBase(prs[i + 1].number, cfg.trunk)) &&
    (i == |prs| - 1 ==> r.base == []) &&
    var v := if i < |prs| - 1 then BaseVerdict(prs[i + 1].number, ErrorOf(r.base[0].reply)) else None;
    if v.Some? then fail == v && EmptyFrom(r, 7)
    else LandedFrom(r, cfg, prs, i, auto, fail, autoAfter, 7)
  }

  // deleteRemoteBranch, then pull the trunk
  ghost predicate AtDelete(r: Run, cfg: LandConfig, prs: seq<PrInfo>, i: nat, auto: bool,
                           fail: Option<Failure>, autoAfter: bool)
    requires i < |prs|
    decreases 2, 0
  {
    var pr := prs[i];
    (cfg.deleteBranch && pr.headBranch != "" ==>
      |r.delete| == 1 && r.delete[0].call == Git(DeleteArgs(cfg.remote, pr.headBranch))) &&
    (!(cfg.deleteBranch && pr.headBranch != "") ==> r.delete == []) &&
    PullSeg(r.pull, cfg.remote, cfg.trunk) && fail == PullVerdict(r.pull)
  }

  ghost predicate Landed(r: Run, cfg: LandConfig, prs: seq<PrInfo>, i: nat, auto: bool, fail: Option<Failure>, autoAfter: bool)
    requires i < |prs|
  {
    AtMergeability(r, cfg, prs, i, auto, fail, autoAfter)
  }

  /** The body of `landStack`'s loop for `prs[i]`, outside dry-run mode.
      The methods below run its phases in turn, each one handing the run so
      far to the next. */
  method LandPR(h: Host, cfg: LandConfig, prs: seq<PrInfo>, i: nat, auto: bool)
    returns (fail: Option<Failure>, autoAfter: bool, ghost r: Run)
    requires i < |prs|
    modifies h`log
    ensures h.log == old(h.log) + Flat(r)
    ensures Landed(r, cfg, prs, i, auto, fail, autoAfter)
  {
    ghost var start := h.log;
    ghost var seg;
    fail, seg := MergeabilityPhase(h, prs[i].number);
    r := Run(seg, [], [], [], [], [], [], [], []);
    if fail.Some? {
      autoAfter := auto;
      assert Flat(r) == seg;
    } else {
      fail, autoAfter, r := LandFromChecks(h, cfg, prs, i, auto, r);
      AppendAssoc(start, seg, (r.checks + (r.head + (r.merge + (r.retry + (r.wait + (r.base + (r.delete + r.pull))))))));
    }
  }

  method LandFromChecks(h: Host, cfg: LandConfig, prs: seq<PrInfo>, i: nat, auto: bool, ghost r0: Run)
    returns (fail: Option<Failure>, autoAfter: bool, ghost r: Run)
    requires i < |prs| && EmptyFrom(r0, 1)
    modifies h`log
    ensures h.log == old(h.log) + (r.checks + (r.head + (r.merge + (r.retry + (r.wait + (r.base + (r.delete + r.pull)))))))
    ensures r.mergeability == r0.mergeability
    ensures AtChecks(r, cfg, prs, i, auto, fail, autoAfter)
  {
    ghost var start := h.log;
    var n := prs[i].number;
    r := r0;
    if cfg.requireChecks {
      var err;
      ghost var seg;
      err, seg := WaitForChecks(h, n, cfg.pollBudget);
      r := r.(checks := seg);
      if err.Some? {
        assert (r.checks + (r.head + (r.merge + (r.retry + (r.wait + (r.base + (r.delete + r.pull))))))) == seg;
        return Some(ChecksFailed(n, err.value)), auto, r;
      }
    } else {
      assert start + r.checks == start;
    }
    ghost var c := r.checks;
    fail, autoAfter, r := LandFromHead(h, cfg, prs, i, auto, r);
    AppendAssoc(start, c, (r.head + (r.merge + (r.retry + (r.wait + (r.base + (r.delete + r.pull)))))));
  }

  method LandFromHead(h: Host, cfg: LandConfig, prs: seq<PrInfo>, i: nat, auto: bool, ghost r0: Run)
    returns (fail: Option<Failure>, autoAfter: bool, ghost r: Run)
    requires i < |prs| && EmptyFrom(r0, 2)
    modifies h`log
    ensures h.log == old(h.log) + (r.head + (r.merge + (r.retry + (r.wait + (r.base + (r.delete + r.pull))))))
    ensures r.mergeability == r0.mergeability && r.checks == r0.checks
    ensures AtHead(r, cfg, prs, i, auto, fail, autoAfter)
  {
    ghost var start := h.log;
    var n := prs[i].number;
    var head, hasAutoCommits, e := DetectAutoGeneratedCommits(h, n);
    r := r0.(head := [e]);
    if head.Err? {
      assert (r.head + (r.merge + (r.retry + (r.wait + (r.base + (r.delete + r.pull)))))) == [e];
      return Some(Panicked(head.error)), auto, r;
    }
    fail, autoAfter, r := LandFromMerge(h, cfg, prs, i, auto, r);
    AppendAssoc(start, [e], (r.merge + (r.retry + (r.wait + (r.base + (r.delete + r.pull))))));
  }

  method LandFromMerge(h: Host, cfg: LandConfig, prs: seq<PrInfo>, i: nat, auto: bool, ghost r0: Run)
    returns (fail: Option<Failure>, autoAfter: bool, ghost r: Run)
    requires i < |prs| && EmptyFrom(r0, 3)
    modifies h`log
    ensures h.log == old(h.log) + (r.merge + (r.retry + (r.wait + (r.base + (r.delete + r.pull)))))
    ensures r.mergeability == r0.mergeability && r.checks == r0.checks && r.head == r0.head
    ensures AtMerge(r, cfg, prs, i, auto, fail, autoAfter)
  {
    ghost var start := h.log;
    var pr := prs[i];
    ghost var first, retry;
    fail, autoAfter, first, retry := MergeWithFallback(h, pr.number, pr.title, pr.headSHA, auto, cfg.rx);
    r := r0.(merge := first, retry := retry);
    if fail.Some? {
      assert (r.merge + (r.retry + (r.wait + (r.base + (r.delete + r.pull))))) == first + retry;
      return;
    }
    fail, r := LandFromWait(h, cfg, prs, i, auto, autoAfter, r);
    AppendAssoc(start, first + retry, (r.wait + (r.base + (r.delete + r.pull))));
    AppendAssoc(first, retry, (r.wait + (r.base + (r.delete + r.pull))));
  }

  method LandFromWait(h: Host, cfg: LandConfig, prs: seq<PrInfo>, i: nat, ghost auto: bool, autoAfter: bool, ghost r0: Run)
    returns (fail: Option<Failure>, ghost r: Run)
    requires i < |prs| && EmptyFrom(r0, 5)
    modifies h`log
    ensures h.log == old(h.log) + (r.wait + (r.base + (r.delete + r.pull)))
    ensures r.mergeability == r0.mergeability && r.checks == r0.checks && r.head == r0.head
    ensures r.merge == r0.merge && r.retry == r0.retry
    ensures AtWait(r, cfg, prs, i, auto, fail, autoAfter)
  {
    ghost var start := h.log;
    var n := prs[i].number;
    r := r0;
    if autoAfter {
      var err;
      ghost var seg;
      err, seg := WaitForMerge(h, n, prs[i].url, cfg.pollBudget);
      r := r.(wait := seg);
      if err.Some? {
        assert (r.wait + (r.base + (r.delete + r.pull))) == seg;
        return Some(MergeNotCompleted(n, err.value)), r;
      }
    } else {
      assert start + r.wait == start;
    }
    ghost var w := r.wait;
    fail, r := LandFromBase(h, cfg, prs, i, auto, autoAfter, r);
    AppendAssoc(start, w, (r.base + (r.delete + r.pull)));
  }

  method LandFromBase(h: Host, cfg: LandConfig, prs: seq<PrInfo>, i: nat, ghost auto: bool, ghost autoAfter: bool, ghost r0: Run)
    returns (fail: Option<Failure>, ghost r: Run)
    requires i < |prs| && EmptyFrom(r0, 6)
    modifies h`log
    ensures h.log == old(h.log) + (r.base + (r.delete + r.pull))
    ensures r.mergeability == r0.mergeability && r.checks == r0.checks && r.head == r0.head
    ensures r.merge == r0.merge && r.retry == r0.retry && r.wait == r0.wait
    ensures AtBase(r, cfg, prs, i, auto, fail, autoAfter)
  {
    ghost var start := h.log;
    r := r0;
    if i < |prs| - 1 {
      var next := prs[i + 1];
      var err;
      ghost var e;
      err, e := UpdatePRBase(h, next.number, cfg.trunk);
      r := r.(base := [e]);
      if err.Some? && Contains(err.value, "closed") {
        assert (r.base + (r.delete + r.pull)) == [e];
        return Some(BaseClosed(next.number, err.value)), r;
      }
    } else {
      assert start + r.base == start;
    }
    ghost var b := r.base;
    fail, r := LandFromDelete(h, cfg, prs, i, auto, autoAfter, r);
    AppendAssoc(start, b, (r.delete + r.pull));
  }

  method LandFromDelete(h: Host, cfg: LandConfig, prs: seq<PrInfo>, i: nat, ghost auto: bool, ghost autoAfter: bool, ghost r0: Run)
    returns (fail: Option<Failure>, ghost r: Run)
    requires i < |prs| && EmptyFrom(r0, 7)
    modifies h`log
    ensures h.log == old(h.log) + (r.delete + r.pull)
    ensures r.mergeability == r0.mergeability && r.checks == r0.checks && r.head == r0.head
    ensures r.merge == r0.merge && r.retry == r0.retry && r.wait == r0.wait && r.base == r0.base
    ensures AtDelete(r, cfg, prs, i, auto, fail, autoAfter)
  {
    ghost var start := h.log;
    var pr := prs[i];
    r := r0;
    if cfg.deleteBranch && pr.headBranch != "" {
      var err;
      ghost var e;
      err, e := DeleteRemoteBranch(h, cfg.remote, pr.headBranch);
      r := r.(delete := [e]);
    } else {
      assert start + r.delete == start;
    }
    ghost var d := r.delete;
    ghost var seg;
    var err;
    err, seg := PullTrunk(h, cfg.remote, cfg.trunk);
    fail := if err.Some? then Some(Panicked("must: " + err.value)) else None;
    r := r.(pull := seg);
    AppendAssoc(start, d, seg);
  }

  lemma AppendAssoc<T>(a: seq<T>, b: seq<T>, c: seq<T>)
    ensures a + b + c == a + (b + c)
  {
  }

  // ---------------------------------------------------------------------
  // What one PR's landing does

  /** Every command of `seg` is of one of the kinds `ks`. */
  ghost predicate KindsIn(seg: seq<Exchange>, ks: set<Kind>)
  {
    forall j | 0 <= j < |seg| :: KindOf(seg[j].call) in ks
  }

  /** The commands of every phase from `stage` on are of the phase's kind. */
  ghost predicate KindsFrom(r: Run, stage: nat)
    decreases 9 - stage
  {
    stage > 8 || (KindsIn(PhaseOf(r, stage), PhaseKinds(stage)) && KindsFrom(r, stage + 1))
  }

  function PhaseOf(r: Run, stage: nat): seq<Exchange>
  {
    match stage
    case 0 => r.mergeability
    case 1 => r.checks
    case 2 => r.head
    case 3 => r.merge
    case 4 => r.retry
    case 5 => r.wait
    case 6 => r.base
    case 7 => r.delete
    case _ => r.pull
  }

  function PhaseKinds(stage: nat): set<Kind>
  {
    match stage
    case 0 => {KMergeability}
    case 1 => {KRequiredChecks}
    case 2 => {KHead}
    case 3 => {KGetPR, KMerge}
    case 4 => {KGetPR, KMerge}
    case 5 => {KState}
    case 6 => {KEditBase}
    case _ => {KGit}
  }

  lemma {:induction false} EmptyKinds(r: Run, stage: nat)
    requires 1 <= stage && EmptyFrom(r, stage)
    ensures KindsFrom(r, stage)
    decreases 9 - stage
  {
    if stage <= 8 {
      EmptyKinds(r, stage + 1);
    }
  }

  /** The phases in order, each one reached only when the ones before it went
      through. */
  lemma UpToMerge(r: Run, cfg: LandConfig, prs: seq<PrInfo>, i: nat, auto: bool, fail: Option<Failure>, autoAfter: bool)
    requires i < |prs| && Landed(r, cfg, prs, i, auto, fail, autoAfter)
    ensures AtMerge(r, cfg, prs, i, auto, fail, autoAfter) || (fail.Some? && autoAfter == auto && EmptyFrom(r, 3))
  {
    if MergeabilityVerdict(prs[i].number, Last(r.mergeability).reply).None? {
      assert LandedFrom(r, cfg, prs, i, auto, fail, autoAfter, 1);
      assert AtChecks(r, cfg, prs, i, auto, fail, autoAfter);
      if (if cfg.requireChecks then PollResult(r.checks, ForChecks) else None).None? {
        assert LandedFrom(r, cfg, prs, i, auto, fail, autoAfter, 2);
        assert AtHead(r, cfg, prs, i, auto, fail, autoAfter);
        if HeadOf(r.head[0].reply).Ok? {
          assert LandedFrom(r, cfg, prs, i, auto, fail, autoAfter, 3);
        }
      }
    }
  }

  lemma MergeToBase(r: Run, cfg: LandConfig, prs: seq<PrInfo>, i: nat, auto: bool, fail: Option<Failure>, autoAfter: bool)
    requires i < |prs| && AtMerge(r, cfg, prs, i, auto, fail, autoAfter)
    ensures AtBase(r, cfg, prs, i, auto, fail, autoAfter) || (fail.Some? && EmptyFrom(r, 6))
  {
    if MergeVerdict(prs[i].number, FinalMerge(r.merge, r.retry)).None? {
      assert LandedFrom(r, cfg, prs, i, auto, fail, autoAfter, 5);
      assert AtWait(r, cfg, prs, i, auto, fail, autoAfter);
      if (if autoAfter then PollResult(r.wait, ForMerge(prs[i].number, prs[i].url)) else None).None? {
        assert LandedFrom(r, cfg, prs, i, auto, fail, autoAfter, 6);
      }
    }
  }

  lemma BaseToDelete(r: Run, cfg: LandConfig, prs: seq<PrInfo>, i: nat, auto: bool, fail: Option<Failure>, autoAfter: bool)
    requires i < |prs| && AtBase(r, cfg, prs, i, auto, fail, autoAfter)
    ensures AtDelete(r, cfg, prs, i, auto, fail, autoAfter) || (fail.Some? && EmptyFrom(r, 7))
    ensures r.base != [] ==> i < |prs| - 1 && |r.base| == 1
    ensures var v := if i < |prs| - 1 then BaseVerdict(prs[i + 1].number, ErrorOf(r.base[0].reply)) else None;
      (v.None? ==> AtDelete(r, cfg, prs, i, auto, fail, autoAfter)) && (v.Some? ==> fail == v && EmptyFrom(r, 7))
  {
    if (if i < |prs| - 1 then BaseVerdict(prs[i + 1].number, ErrorOf(r.base[0].reply)) else None).None? {
      assert LandedFrom(r, cfg, prs, i, auto, fail, autoAfter, 7);
    }
  }

  lemma MergeSegKinds(seg: seq<Exchange>, n: int, title: string, headSHA: string, auto: bool, rx: Regexes)
    requires MergeSeg(seg, n, title, headSHA, auto, rx) || seg == []
    ensures KindsIn(seg, {KGetPR, KMerge})
  {
  }

  lemma PullSegKinds(seg: seq<Exchange>, remote: string, trunk: string)
    requires PullSeg(seg, remote, trunk)
    ensures KindsIn(seg, {KGit})
  {
  }

  lemma KindsFromDelete(r: Run, cfg: LandConfig, prs: seq<PrInfo>, i: nat, auto: bool, fail: Option<Failure>, autoAfter: bool)
    requires i < |prs| && AtDelete(r, cfg, prs, i, auto, fail, autoAfter)
    ensures KindsFrom(r, 7)
  {
    PullSegKinds(r.pull, cfg.remote, cfg.trunk);
    assert KindsFrom(r, 9);
    assert KindsFrom(r, 8);
  }

  lemma KindsFromBase(r: Run, cfg: LandConfig, prs: seq<PrInfo>, i: nat, auto: bool, fail: Option<Failure>, autoAfter: bool)
    requires i < |prs| && AtBase(r, cfg, prs, i, auto, fail, autoAfter)
    ensures KindsFrom(r, 6)
  {
    BaseToDelete(r, cfg, prs, i, auto, fail, autoAfter);
    if AtDelete(r, cfg, prs, i, auto, fail, autoAfter) {
      KindsFromDelete(r, cfg, prs, i, auto, fail, autoAfter);
    } else {
      EmptyKinds(r, 7);
    }
  }

  lemma PollSegKinds(seg: seq<Exchange>, c: Call, budget: nat, p: Poller)
    requires PollSeg(seg, c, budget, p)
    ensures KindsIn(seg, {KindOf(c)})
  {
  }

  lemma KindsFromWait(r: Run, cfg: LandConfig, prs: seq<PrInfo>, i: nat, auto: bool, fail: Option<Failure>, autoAfter: bool)
    requires i < |prs| && AtWait(r, cfg, prs, i, auto, fail, autoAfter)
    ensures KindsFrom(r, 5)
  {
    if autoAfter {
      PollSegKinds(r.wait, ViewState(prs[i].number), cfg.pollBudget, ForMerge(prs[i].number, prs[i].url));
    }
    if (if autoAfter then PollResult(r.wait, ForMerge(prs[i].number, prs[i].url)) else None).None? {
      assert LandedFrom(r, cfg, prs, i, auto, fail, autoAfter, 6);
      KindsFromBase(r, cfg, prs, i, auto, fail, autoAfter);
    } else {
      EmptyKinds(r, 6);
    }
  }

  lemma KindsFromMerge(r: Run, cfg: LandConfig, prs: seq<PrInfo>, i: nat, auto: bool, fail: Option<Failure>, autoAfter: bool)
    requires i < |prs| && AtMerge(r, cfg, prs, i, auto, fail, autoAfter)
    ensures KindsFrom(r, 3)
  {
    var pr := prs[i];
    if MergeVerdict(pr.number, FinalMerge(r.merge, r.retry)).None? {
      assert LandedFrom(r, cfg, prs, i, auto, fail, autoAfter, 5);
      KindsFromWait(r, cfg, prs, i, auto, fail, autoAfter);
    } else {
      EmptyKinds(r, 5);
    }
    MergeSegKinds(r.merge, pr.number, pr.title, pr.headSHA, auto, cfg.rx);
    MergeSegKinds(r.retry, pr.number, pr.title, pr.headSHA, false, cfg.rx);
    assert KindsFrom(r, 4);
  }

  lemma KindsFromHead(r: Run, cfg: LandConfig, prs: seq<PrInfo>, i: nat, auto: bool, fail: Option<Failure>, autoAfter: bool)
    requires i < |prs| && AtHead(r, cfg, prs, i, auto, fail, autoAfter)
    ensures KindsFrom(r, 2)
  {
    if HeadOf(r.head[0].reply).Ok? {
      assert LandedFrom(r, cfg, prs, i, auto, fail, autoAfter, 3);
      KindsFromMerge(r, cfg, prs, i, auto, fail, autoAfter);
    } else {
      EmptyKinds(r, 3);
    }
  }

  /** The commands of each phase are of that phase's kind. */
  lemma RunKinds(r: Run, cfg: LandConfig, prs: seq<PrInfo>, i: nat, auto: bool, fail: Option<Failure>, autoAfter: bool)
    requires i < |prs| && Landed(r, cfg, prs, i, auto, fail, autoAfter)
    ensures KindsFrom(r, 0)
  {
    if MergeabilityVerdict(prs[i].number, Last(r.mergeability).reply).None? {
      assert LandedFrom(r, cfg, prs, i, auto, fail, autoAfter, 1);
      if (if cfg.requireChecks then PollResult(r.checks, ForChecks) else None).None? {
        assert LandedFrom(r, cfg, prs, i, auto, fail, autoAfter, 2);
        KindsFromHead(r, cfg, prs, i, auto, fail, autoAfter);
      } else {
        EmptyKinds(r, 2);
      }
    } else {
      EmptyKinds(r, 1);
    }
    assert KindsFrom(r, 1);
  }

  /** The phases' kinds, one at a time. */
  lemma RunKindsAt(r: Run, stage: nat)
    requires KindsFrom(r, 0) && stage <= 8
    ensures KindsIn(PhaseOf(r, stage), PhaseKinds(stage))
  {
    var k := 0;
    while k < stage
      invariant k <= stage && KindsFrom(r, k)
    {
      k := k + 1;
    }
  }

  /** A phase issues no command of a kind foreign to it. */
  lemma NoneAt(r: Run, k: Kind, stage: nat)
    requires KindsFrom(r, 0) && stage <= 8 && k !in PhaseKinds(stage)
    ensures Only(PhaseOf(r, stage), k) == []
  {
    RunKindsAt(r, stage);
    OnlyNone(PhaseOf(r, stage), k);
  }

  lemma AllAt(r: Run, k: Kind, stage: nat)
    requires KindsFrom(r, 0) && stage <= 8 && PhaseKinds(stage) == {k}
    ensures Only(PhaseOf(r, stage), k) == PhaseOf(r, stage)
  {
    RunKindsAt(r, stage);
    OnlyAll(PhaseOf(r, stage), k);
  }

  lemma OnlyFlat(r: Run, k: Kind)
    ensures Only(Flat(r), k) == Only(r.mergeability, k) + (Only(r.checks, k) + (Only(r.head, k) +
      (Only(r.merge, k) + (Only(r.retry, k) + (Only(r.wait, k) + (Only(r.base, k) +
      (Only(r.delete, k) + Only(r.pull, k))))))))
  {
    OnlyAppend(r.delete, r.pull, k);
    OnlyAppend(r.base, r.delete + r.pull, k);
    OnlyAppend(r.wait, r.base + (r.delete + r.pull), k);
    OnlyAppend(r.retry, r.wait + (r.base + (r.delete + r.pull)), k);
    OnlyAppend(r.merge, r.retry + (r.wait + (r.base + (r.delete + r.pull))), k);
    OnlyAppend(r.head, r.merge + (r.retry + (r.wait + (r.base + (r.delete + r.pull)))), k);
    OnlyAppend(r.checks, r.head + (r.merge + (r.retry + (r.wait + (r.base + (r.delete + r.pull))))), k);
    OnlyAppend(r.mergeability, r.checks + (r.head + (r.merge + (r.retry + (r.wait + (r.base + (r.delete + r.pull)))))), k);
  }

  /** The commands of kind `k` in a run are those of the one phase that
      issues them. */
  lemma OnlyOnePhase(r: Run, k: Kind, stage: nat)
    requires KindsFrom(r, 0)
    requires stage == 0 || stage == 6
    requires PhaseKinds(stage) == {k}
    ensures Only(Flat(r), k) == PhaseOf(r, stage)
  {
    OnlyFlat(r, k);
    AllAt(r, k, stage);
    NoneAt(r, k, 6 - stage);
    NoneAt(r, k, 1);
    NoneAt(r, k, 2);
    NoneAt(r, k, 3);
    NoneAt(r, k, 4);
    NoneAt(r, k, 5);
    NoneAt(r, k, 7);
    NoneAt(r, k, 8);
  }

  /** Mergeability is asked at most four times for a PR, and asked again
      only after an UNKNOWN answer. */
  lemma MergeabilityAskedAtMostFourTimes(r: Run, cfg: LandConfig, prs: seq<PrInfo>, i: nat, auto: bool, fail: Option<Failure>, autoAfter: bool)
    requires i < |prs| && Landed(r, cfg, prs, i, auto, fail, autoAfter)
    ensures var m := Only(Flat(r), KMergeability);
      1 <= |m| <= 4 &&
      (forall k | 0 <= k < |m| :: m[k].call == ViewMergeability(prs[i].number)) &&
      (forall k | 0 <= k < |m| - 1 :: MergeStatusOf(m[k].reply) == Ok("UNKNOWN"))
  {
    RunKinds(r, cfg, prs, i, auto, fail, autoAfter);
    OnlyOnePhase(r, KMergeability, 0);
    forall k | 0 <= k < |r.mergeability| - 1
      ensures MergeStatusOf(r.mergeability[k].reply) == Ok("UNKNOWN")
    {
      StillUnknownSpec(r.mergeability[k].reply);
    }
  }

  /** A PR whose last mergeability answer is CONFLICTING stops the landing
      with that reason, and nothing else is asked or run for it. */
  lemma ConflictingNeverMerges(r: Run, cfg: LandConfig, prs: seq<PrInfo>, i: nat, auto: bool, fail: Option<Failure>, autoAfter: bool)
    requires i < |prs| && Landed(r, cfg, prs, i, auto, fail, autoAfter)
    requires MergeStatusOf(Last(r.mergeability).reply) == Ok("CONFLICTING")
    ensures fail == Some(Conflicting(prs[i].number, "has merge conflicts that must be resolved"))
    ensures Flat(r) == r.mergeability
    ensures Only(Flat(r), KMerge) == []
  {
    assert EmptyFrom(r, 1);
    OnlyNone(r.mergeability, KMerge);
  }

  /** The merge commands of a `mergePR` call: none if the PR could not be
      fetched, else exactly the one after the fetch. */
  lemma OnlyMergeSeg(seg: seq<Exchange>, n: int, title: string, headSHA: string, auto: bool, rx: Regexes)
    requires MergeSeg(seg, n, title, headSHA, auto, rx)
    ensures Only(seg, KMerge) == seg[1..]
  {
    OnlyFetchThenMerge(seg);
  }

  lemma OnlyFetchThenMerge(seg: seq<Exchange>)
    requires 1 <= |seg| <= 2 && seg[0].call.GetPR? && (|seg| == 2 ==> seg[1].call.Merge?)
    ensures Only(seg, KMerge) == seg[1..]
  {
    assert Only(seg[..1], KMerge) == Only([], KMerge) + [];
    if |seg| == 2 {
      assert seg[..|seg| - 1] == seg[..1];
    }
  }

  /** The merge commands of a run are those of its two merge phases. */
  lemma OnlyMergePhases(r: Run)
    requires KindsFrom(r, 0)
    ensures Only(Flat(r), KMerge) == Only(r.merge, KMerge) + Only(r.retry, KMerge)
  {
    OnlyFlat(r, KMerge);
    NoneAt(r, KMerge, 0);
    NoneAt(r, KMerge, 1);
    NoneAt(r, KMerge, 2);
    NoneAt(r, KMerge, 5);
    NoneAt(r, KMerge, 6);
    NoneAt(r, KMerge, 7);
    NoneAt(r, KMerge, 8);
  }

  /** The merge commands of the two merge phases: the first one's, and the
      fallback's only after the auto-merge refusal. */
  ghost predicate TwoMergesAtMost(ms: seq<Exchange>, n: int, title: string, headSHA: string, auto: bool)
  {
    |ms| <= 2 &&
    (|ms| >= 1 ==> IsMergeCall(ms[0].call, n, title, headSHA, auto)) &&
    (|ms| == 2 ==> ms[0].reply.Failed? && Contains(OutputOf(ms[0].reply), AutoMergeMarker) &&
                   IsMergeCall(ms[1].call, n, title, headSHA, false))
  }

  lemma MergesOfAttempts(first: seq<Exchange>, retry: seq<Exchange>, n: int, title: string,
                         headSHA: string, auto: bool, rx: Regexes)
    requires MergeAttempts(first, retry, n, title, headSHA, auto, rx)
    ensures TwoMergesAtMost(Only(first, KMerge) + Only(retry, KMerge), n, title, headSHA, auto)
  {
    OnlyMergeSeg(first, n, title, headSHA, auto, rx);
    if retry != [] {
      OnlyMergeSeg(retry, n, title, headSHA, false, rx);
    } else {
      assert Only(retry, KMerge) == [];
    }
  }

  /** `gh pr merge` runs at most twice for a PR; a second run happens only
      after the first failed with the auto-merge refusal in its output, and
      it goes without `--auto`. */
  lemma AtMostTwoMerges(r: Run, cfg: LandConfig, prs: seq<PrInfo>, i: nat, auto: bool, fail: Option<Failure>, autoAfter: bool)
    requires i < |prs| && Landed(r, cfg, prs, i, auto, fail, autoAfter)
    ensures TwoMergesAtMost(Only(Flat(r), KMerge), prs[i].number, prs[i].title, prs[i].headSHA, auto)
  {
    var pr := prs[i];
    RunKinds(r, cfg, prs, i, auto, fail, autoAfter);
    OnlyMergePhases(r);
    UpToMerge(r, cfg, prs, i, auto, fail, autoAfter);
    if AtMerge(r, cfg, prs, i, auto, fail, autoAfter) {
      MergesOfAttempts(r.merge, r.retry, pr.number, pr.title, pr.headSHA, auto, cfg.rx);
    } else {
      assert Only(r.merge, KMerge) == [] && Only(r.retry, KMerge) == [];
    }
  }

  /** The auto mode the next PR starts in: switched on by a fallback, else
      unchanged. */
  lemma AutoModeAfter(r: Run, cfg: LandConfig, prs: seq<PrInfo>, i: nat, auto: bool, fail: Option<Failure>, autoAfter: bool)
    requires i < |prs| && Landed(r, cfg, prs, i, auto, fail, autoAfter)
    ensures autoAfter == (auto || r.retry != [])
  {
    UpToMerge(r, cfg, prs, i, auto, fail, autoAfter);
  }

  /** The next PR's base is moved only when there is a next PR, and only
      after the merge succeeded and, in auto mode, was seen MERGED. */
  lemma BaseUpdatedOnlyAfterMerge(r: Run, cfg: LandConfig, prs: seq<PrInfo>, i: nat, auto: bool, fail: Option<Failure>, autoAfter: bool)
    requires i < |prs| && Landed(r, cfg, prs, i, auto, fail, autoAfter)
    requires Only(Flat(r), KEditBase) != []
    ensures i < |prs| - 1
    ensures Only(Flat(r), KEditBase) == r.base && |r.base| == 1
    ensures r.base[0].call == EditBase(prs[i + 1].number, cfg.trunk)
    ensures var a := FinalMerge(r.merge, r.retry); r.merge != [] && a.MergeReplied? && a.err == None
    ensures autoAfter ==> r.wait != [] && Last(r.wait).reply.PRState? && Last(r.wait).reply.state == "MERGED"
  {
    RunKinds(r, cfg, prs, i, auto, fail, autoAfter);
    OnlyOnePhase(r, KEditBase, 6);
    UpToMerge(r, cfg, prs, i, auto, fail, autoAfter);
    MergeToBase(r, cfg, prs, i, auto, fail, autoAfter);
    assert AtWait(r, cfg, prs, i, auto, fail, autoAfter);
    if autoAfter {
      PollSucceeded(r.wait, ViewState(prs[i].number), cfg.pollBudget, ForMerge(prs[i].number, prs[i].url));
      MergePollSpec(prs[i].number, prs[i].url, Last(r.wait).reply);
    }
  }

  /** A failed base update stops the landing iff its error mentions
      "closed"; otherwise the landing goes on to pull the trunk. */
  lemma BaseErrorFatalOnlyWhenClosed(r: Run, cfg: LandConfig, prs: seq<PrInfo>, i: nat, auto: bool, fail: Option<Failure>, autoAfter: bool)
    requires i < |prs| && Landed(r, cfg, prs, i, auto, fail, autoAfter)
    requires r.base != []
    ensures i < |prs| - 1
    ensures var err := ErrorOf(r.base[0].reply);
      (err.Some? && Contains(err.value, "closed") ==>
        fail == Some(BaseClosed(prs[i + 1].number, err.value)) && r.delete == [] && r.pull == []) &&
      (!(err.Some? && Contains(err.value, "closed")) ==> r.pull != [] && fail == PullVerdict(r.pull))
  {
    UpToMerge(r, cfg, prs, i, auto, fail, autoAfter);
    MergeToBase(r, cfg, prs, i, auto, fail, autoAfter);
    BaseToDelete(r, cfg, prs, i, auto, fail, autoAfter);
  }

  /** A PR landed without failure was merged (and, in auto mode, seen
      MERGED), the next PR was offered the trunk as its base, and the trunk
      was fetched, checked out and pulled. */
  lemma LandedWithoutFailure(r: Run, cfg: LandConfig, prs: seq<PrInfo>, i: nat, auto: bool, fail: Option<Failure>, autoAfter: bool)
    requires i < |prs| && Landed(r, cfg, prs, i, auto, fail, autoAfter) && fail == None
    ensures var a := FinalMerge(r.merge, r.retry); r.merge != [] && a.MergeReplied? && a.err == None
    ensures autoAfter ==> r.wait != [] && Last(r.wait).reply.PRState? && Last(r.wait).reply.state == "MERGED"
    ensures i < |prs| - 1 ==> |r.base| == 1 && r.base[0].call == EditBase(prs[i + 1].number, cfg.trunk)
    ensures |r.pull| == 3 && forall k | 0 <= k < 3 :: !r.pull[k].reply.Failed?
  {
    UpToMerge(r, cfg, prs, i, auto, fail, autoAfter);
    MergeToBase(r, cfg, prs, i, auto, fail, autoAfter);
    assert AtWait(r, cfg, prs, i, auto, fail, autoAfter);
    if autoAfter {
      PollSucceeded(r.wait, ViewState(prs[i].number), cfg.pollBudget, ForMerge(prs[i].number, prs[i].url));
      MergePollSpec(prs[i].number, prs[i].url, Last(r.wait).reply);
    }
    BaseToDelete(r, cfg, prs, i, auto, fail, autoAfter);
  }

  // ---------------------------------------------------------------------
  // The stack

  /** One PR's landing: its exchanges, the auto mode it started in, how it
      ended and the auto mode it left for the next PR. */
  datatype Attempt = Attempt(run: Run, auto: bool, fail: Option<Failure>, autoAfter: bool)

  function FlatAll(ls: seq<Attempt>): seq<Exchange>
  {
    if ls == [] then [] else FlatAll(ls[..|ls| - 1]) + Flat(ls[|ls| - 1].run)
  }

  /** The attempts `ls` are how `landStack` went through `prs`: bottom
      first, each PR landed as `Landed` says, starting in the mode the one
      before it left, and only after every earlier PR went through. */
  ghost predicate StackSoFar(ls: seq<Attempt>, cfg: LandConfig, prs: seq<PrInfo>)
    decreases |ls|
  {
    |ls| <= |prs| &&
    (ls != [] ==>
      var j := |ls| - 1;
      Landed(ls[j].run, cfg, prs, j, ls[j].auto, ls[j].fail, ls[j].autoAfter) &&
      (j == 0 ==> ls[0].auto == cfg.autoMode) &&
      (j > 0 ==> ls[j - 1].fail == None && ls[j].auto == ls[j - 1].autoAfter) &&
      StackSoFar(ls[..j], cfg, prs))
  }

  /** What `StackSoFar` says of the attempt at `j`. */
  lemma {:induction false} StackAt(ls: seq<Attempt>, cfg: LandConfig, prs: seq<PrInfo>, j: nat)
    requires StackSoFar(ls, cfg, prs) && j < |ls|
    ensures j < |prs| && Landed(ls[j].run, cfg, prs, j, ls[j].auto, ls[j].fail, ls[j].autoAfter)
    ensures j == 0 ==> ls[0].auto == cfg.autoMode
    ensures j > 0 ==> ls[j - 1].fail == None && ls[j].auto == ls[j - 1].autoAfter
    decreases |ls|
  {
    if j < |ls| - 1 {
      StackAt(ls[..|ls| - 1], cfg, prs, j);
    }
  }

  /** The outcome of the whole stack: the first failure, if any. */
  ghost predicate StackLanded(ls: seq<Attempt>, cfg: LandConfig, prs: seq<PrInfo>, fail: Option<Failure>)
  {
    (cfg.dryRun ==> ls == [] && fail == None) &&
    (!cfg.dryRun ==>
      StackSoFar(ls, cfg, prs) &&
      fail == (if ls == [] then None else ls[|ls| - 1].fail) &&
      (fail == None ==> |ls| == |prs|))
  }

  lemma StackSnoc(ls: seq<Attempt>, a: Attempt, cfg: LandConfig, prs: seq<PrInfo>)
    requires StackSoFar(ls, cfg, prs) && |ls| < |prs|
    requires ls == [] || ls[|ls| - 1].fail == None
    requires a.auto == (if ls == [] then cfg.autoMode else ls[|ls| - 1].autoAfter)
    requires Landed(a.run, cfg, prs, |ls|, a.auto, a.fail, a.autoAfter)
    ensures StackSoFar(ls + [a], cfg, prs)
  {
    ghost var ls' := ls + [a];
    assert ls'[..|ls|] == ls && ls'[|ls|] == a;
    assert Landed(ls'[|ls|].run, cfg, prs, |ls|, ls'[|ls|].auto, ls'[|ls|].fail, ls'[|ls|].autoAfter);
  }

  /** `landStack` from the point where the PRs of the stack are known, in
      non-interactive mode. In dry-run mode it only reports. */
  method LandStack(h: Host, cfg: LandConfig, prs: seq<PrInfo>)
    returns (fail: Option<Failure>, ghost ls: seq<Attempt>)
    modifies h`log
    ensures h.log == old(h.log) + FlatAll(ls)
    ensures StackLanded(ls, cfg, prs, fail)
  {
    if cfg.dryRun {
      return None, [];
    }
    fail, ls := LandEach(h, cfg, prs);
  }

  /** The state of `landStack`'s loop after `ls`: the outcome so far and
      the auto mode for the next PR. */
  ghost predicate StackLoop(ls: seq<Attempt>, cfg: LandConfig, prs: seq<PrInfo>, fail: Option<Failure>, auto: bool)
  {
    StackSoFar(ls, cfg, prs) &&
    fail == (if ls == [] then None else ls[|ls| - 1].fail) &&
    auto == (if ls == [] then cfg.autoMode else ls[|ls| - 1].autoAfter)
  }

  /** The loop of `landStack` over the PRs, bottom first. */
  method LandEach(h: Host, cfg: LandConfig, prs: seq<PrInfo>)
    returns (fail: Option<Failure>, ghost ls: seq<Attempt>)
    requires !cfg.dryRun
    modifies h`log
    ensures h.log == old(h.log) + FlatAll(ls)
    ensures StackSoFar(ls, cfg, prs)
    ensures fail == if ls == [] then None else ls[|ls| - 1].fail
    ensures fail == None ==> |ls| == |prs|
  {
    ls := [];
    fail := None;
    var auto := cfg.autoMode;
    var i := 0;
    while i < |prs| && fail == None
      invariant i == |ls| <= |prs|
      invariant StackLoop(ls, cfg, prs, fail, auto)
      invariant h.log == old(h.log) + FlatAll(ls)
    {
      ghost var a;
      fail, auto, a := LandNext(h, cfg, prs, i, ls, auto);
      ls := ls + [a];
      i := i + 1;
    }
  }

  /** One turn of `landStack`'s loop: the next PR of the stack. */
  method LandNext(h: Host, cfg: LandConfig, prs: seq<PrInfo>, i: nat, ghost ls: seq<Attempt>, auto: bool)
    returns (fail: Option<Failure>, autoAfter: bool, ghost a: Attempt)
    requires i == |ls| < |prs| && StackLoop(ls, cfg, prs, None, auto)
    modifies h`log
    ensures StackLoop(ls + [a], cfg, prs, fail, autoAfter)
    ensures h.log == old(h.log) + Flat(a.run) && FlatAll(ls + [a]) == FlatAll(ls) + Flat(a.run)
    ensures fail == a.fail && autoAfter == a.autoAfter
  {
    ghost var r;
    fail, autoAfter, r := LandPR(h, cfg, prs, i, auto);
    a := Attempt(r, auto, fail, autoAfter);
    StackSnoc(ls, a, cfg, prs);
    FlatAllSnoc(ls, a);
  }

  lemma FlatAllSnoc(ls: seq<Attempt>, a: Attempt)
    ensures FlatAll(ls + [a]) == FlatAll(ls) + Flat(a.run)
  {
    assert (ls + [a])[..|ls|] == ls;
  }

  /** How auto mode passes from one attempt to the next. */
  ghost predicate AutoChain(ls: seq<Attempt>, cfg: LandConfig)
  {
    forall j | 0 <= j < |ls| ::
      ls[j].autoAfter == (ls[j].auto || ls[j].run.retry != []) &&
      (j == 0 ==> ls[j].auto == cfg.autoMode) &&
      (j > 0 ==> ls[j].auto == ls[j - 1].autoAfter)
  }

  lemma StackAutoChain(ls: seq<Attempt>, cfg: LandConfig, prs: seq<PrInfo>)
    requires StackSoFar(ls, cfg, prs)
    ensures AutoChain(ls, cfg)
  {
    forall j | 0 <= j < |ls|
      ensures ls[j].autoAfter == (ls[j].auto || ls[j].run.retry != [])
      ensures j == 0 ==> ls[j].auto == cfg.autoMode
      ensures j > 0 ==> ls[j].auto == ls[j - 1].autoAfter
    {
      StackAt(ls, cfg, prs, j);
      AutoModeAfter(ls[j].run, cfg, prs, j, ls[j].auto, ls[j].fail, ls[j].autoAfter);
    }
  }

  /** Auto mode is sticky: a PR starts in auto mode iff the stack started in
      it or an earlier PR fell back to an immediate merge. */
  lemma {:induction false} AutoModeSticky(ls: seq<Attempt>, cfg: LandConfig, j: nat)
    requires AutoChain(ls, cfg) && j < |ls|
    ensures ls[j].auto == (cfg.autoMode || exists k | 0 <= k < j :: ls[k].run.retry != [])
  {
    if j > 0 {
      AutoModeSticky(ls, cfg, j - 1);
      if ls[j - 1].run.retry != [] {
        assert exists k | 0 <= k < j :: ls[k].run.retry != [];
      } else if exists k | 0 <= k < j :: ls[k].run.retry != [] {
        var k :| 0 <= k < j && ls[k].run.retry != [];
        assert k < j - 1;
      }
    }
  }

  /** A stack that landed without failure landed every one of its PRs. */
  lemma StackLandedFully(ls: seq<Attempt>, cfg: LandConfig, prs: seq<PrInfo>, j: nat)
    requires StackLanded(ls, cfg, prs, None) && !cfg.dryRun && j < |prs|
    ensures |ls| == |prs| && ls[j].fail == None
    ensures var a := FinalMerge(ls[j].run.merge, ls[j].run.retry); a.MergeReplied? && a.err == None
  {
    LastAttempt(ls, cfg, prs, j);
    StackAt(ls, cfg, prs, j);
    LandedWithoutFailure(ls[j].run, cfg, prs, j, ls[j].auto, ls[j].fail, ls[j].autoAfter);
  }

  /** In a stack that went through, every attempt but none failed. */
  lemma LastAttempt(ls: seq<Attempt>, cfg: LandConfig, prs: seq<PrInfo>, j: nat)
    requires StackLanded(ls, cfg, prs, None) && !cfg.dryRun && j < |prs|
    ensures |ls| == |prs| && ls[j].fail == None
  {
    if j < |ls| - 1 {
      StackAt(ls, cfg, prs, j + 1);
    }
  }
}
