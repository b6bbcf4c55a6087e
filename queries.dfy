/** The single-PR questions and commands of land.go: mergeability, the
    required-check and merge poll loops, the `gh pr merge` command line,
    the base update and the branch deletion. Each one runs its commands on
    a `Host` and hands back, besides its answer, the exchanges it added to
    the host's log. */
module Queries {
  import opened Strs
  import opened Wrappers
  import opened Status
  import opened Body
  import opened Forge

  function Last(log: seq<Exchange>): Exchange
    requires log != []
  {
    log[|log| - 1]
  }

  // ---------------------------------------------------------------------
  // checkPRMergeability and checkPRConflicts

  /** The merge state status `checkPRMergeability` reads from an answer. */
  function MergeStatusOf(r: Reply): (s: Result<string>)
    ensures r.MergeInfo? <==> s.Ok?
    ensures s.Ok? ==> s.value == r.mergeStateStatus
  {
    match r
    case Failed(code, out) => Err("failed to check PR mergeability: " + ErrorText(code, out))
    case MergeInfo(_, status) => Ok(status)
    case _ => Err("failed to parse PR mergeability")
  }

  method CheckPRMergeability(h: Host, n: int) returns (status: Result<string>, reason: string, ghost e: Exchange)
    modifies h`log
    ensures h.log == old(h.log) + [e] && e.call == ViewMergeability(n)
    ensures status == MergeStatusOf(e.reply)
    ensures reason == if status.Ok? then MergeReason(status.value) else ""
  {
    var r := h.Ask(ViewMergeability(n));
    e := Exchange(ViewMergeability(n), r);
    status := MergeStatusOf(r);
    reason := if status.Ok? then MergeReason(status.value) else "";
  }

  /** What `checkPRConflicts` makes of an answer. */
  function ConflictsOf(r: Reply): (c: Result<bool>)
    ensures c.Ok? <==> r.MergeInfo?
    ensures c.Ok? ==> (c.value <==> HasConflicts(r.mergeable, r.mergeStateStatus))
  {
    match r
    case Failed(code, out) => Err(ErrorText(code, out))
    case MergeInfo(m, s) => Ok(HasConflicts(m, s))
    case _ => Err("failed to parse PR mergeability")
  }

  method CheckPRConflicts(h: Host, n: int) returns (c: Result<bool>, ghost e: Exchange)
    modifies h`log
    ensures h.log == old(h.log) + [e] && e.call == ViewMergeability(n)
    ensures c == ConflictsOf(e.reply)
  {
    var r := h.Ask(ViewMergeability(n));
    e := Exchange(ViewMergeability(n), r);
    c := ConflictsOf(r);
  }

  // ---------------------------------------------------------------------
  // Poll loops

  /** What one poll found: done, keep waiting, or a reason to give up. */
  datatype Poll = Passed | Waiting | Stopped(why: string)

  /** The two poll loops; the merge wait names its PR in its errors. */
  datatype Poller = ForChecks | ForMerge(n: int, url: string)

  /** What one poll of `p` makes of an answer. */
  function PollOf(p: Poller, r: Reply): Poll
  {
    match p
    case ForChecks => ChecksPoll(r)
    case ForMerge(n, url) => MergePoll(n, url, r)
  }

  function TimeoutOf(p: Poller): string
  {
    match p
    case ForChecks => "timeout waiting for checks"
    case ForMerge(n, url) => "timeout waiting for PR #" + Itoa(n) + " to merge" + CheckAt(url)
  }

  /** The exchanges of a poll loop with a budget of `budget` polls: all of
      them ask `c`, all but the last are answered "keep waiting", and the
      loop stops early only on an answer that is not "keep waiting". */
  ghost predicate PollSeg(seg: seq<Exchange>, c: Call, budget: nat, p: Poller)
  {
    |seg| <= budget &&
    (forall k | 0 <= k < |seg| :: seg[k].call == c) &&
    (forall k | 0 <= k < |seg| - 1 :: PollOf(p, seg[k].reply) == Waiting) &&
    (seg == [] || PollOf(p, Last(seg).reply) == Waiting ==> |seg| == budget)
  }

  /** How a poll loop with these exchanges ends: the last answer's verdict,
      or the timeout when the budget ran out while waiting. */
  ghost function PollResult(seg: seq<Exchange>, p: Poller): Option<string>
  {
    if seg == [] || PollOf(p, Last(seg).reply) == Waiting then Some(TimeoutOf(p))
    else if PollOf(p, Last(seg).reply) == Passed then None
    else Some(PollOf(p, Last(seg).reply).why)
  }

  /** The poll loop invariant survives one more "keep waiting" answer. */
  lemma WaitingSnoc(seg: seq<Exchange>, e: Exchange, c: Call, p: Poller)
    requires forall k | 0 <= k < |seg| :: seg[k].call == c && PollOf(p, seg[k].reply) == Waiting
    requires e.call == c && PollOf(p, e.reply) == Waiting
    ensures forall k | 0 <= k < |seg + [e]| :: (seg + [e])[k].call == c && PollOf(p, (seg + [e])[k].reply) == Waiting
  {
  }

  /** The exchanges of a loop that polled while waiting and then stopped
      on `e`, before its budget ran out. */
  lemma PollStopped(seg: seq<Exchange>, e: Exchange, c: Call, budget: nat, p: Poller)
    requires |seg| < budget
    requires forall k | 0 <= k < |seg| :: seg[k].call == c && PollOf(p, seg[k].reply) == Waiting
    requires e.call == c && PollOf(p, e.reply) != Waiting
    ensures PollSeg(seg + [e], c, budget, p)
    ensures PollResult(seg + [e], p) == if PollOf(p, e.reply) == Passed then None else Some(PollOf(p, e.reply).why)
  {
    assert Last(seg + [e]) == e;
    assert forall k | 0 <= k < |seg| :: (seg + [e])[k] == seg[k];
  }

  /** The exchanges of a loop that waited through its whole budget. */
  lemma PollTimedOut(seg: seq<Exchange>, c: Call, budget: nat, p: Poller)
    requires |seg| == budget
    requires forall k | 0 <= k < |seg| :: seg[k].call == c && PollOf(p, seg[k].reply) == Waiting
    ensures PollSeg(seg, c, budget, p)
    ensures PollResult(seg, p) == Some(TimeoutOf(p))
  {
  }

  predicate IsFailBucket(b: string)
  {
    b == "fail" || b == "cancel"
  }

  /** The names of the failed or cancelled checks, in order. */
  function FailedNames(cs: seq<CheckStatus>): (r: seq<string>)
    ensures |r| <= |cs|
  {
    if cs == [] then []
    else FailedNames(cs[..|cs| - 1]) + (if IsFailBucket(cs[|cs| - 1].bucket) then [cs[|cs| - 1].name] else [])
  }

  /** The names of the pending checks, in order. */
  function PendingNames(cs: seq<CheckStatus>): (r: seq<string>)
    ensures |r| <= |cs|
  {
    if cs == [] then []
    else PendingNames(cs[..|cs| - 1]) + (if cs[|cs| - 1].bucket == "pending" then [cs[|cs| - 1].name] else [])
  }

  lemma {:induction false} FailedNamesEmpty(cs: seq<CheckStatus>)
    ensures FailedNames(cs) == [] <==> forall k | 0 <= k < |cs| :: !IsFailBucket(cs[k].bucket)
  {
    if cs != [] {
      FailedNamesEmpty(cs[..|cs| - 1]);
      assert forall k | 0 <= k < |cs| - 1 :: cs[..|cs| - 1][k] == cs[k];
    }
  }

  lemma {:induction false} PendingNamesEmpty(cs: seq<CheckStatus>)
    ensures PendingNames(cs) == [] <==> forall k | 0 <= k < |cs| :: cs[k].bucket != "pending"
  {
    if cs != [] {
      PendingNamesEmpty(cs[..|cs| - 1]);
      assert forall k | 0 <= k < |cs| - 1 :: cs[..|cs| - 1][k] == cs[k];
    }
  }

  /** Every failed check's name is listed, and only those. */
  lemma {:induction false} FailedNamesListed(cs: seq<CheckStatus>, k: nat)
    requires k < |cs| && IsFailBucket(cs[k].bucket)
    ensures cs[k].name in FailedNames(cs)
  {
    if k < |cs| - 1 {
      assert cs[..|cs| - 1][k] == cs[k];
      FailedNamesListed(cs[..|cs| - 1], k);
    }
  }

  /** The sorting of one poll's checks into failed and pending names. */
  method SortChecks(cs: seq<CheckStatus>) returns (allPassed: bool, failed: seq<string>, pending: seq<string>)
    ensures failed == FailedNames(cs) && pending == PendingNames(cs)
    ensures allPassed <==> failed == [] && pending == []
  {
    allPassed := true;
    failed := [];
    pending := [];
    for i := 0 to |cs|
      invariant failed == FailedNames(cs[..i]) && pending == PendingNames(cs[..i])
      invariant allPassed <==> failed == [] && pending == []
    {
      assert cs[..i + 1][..i] == cs[..i];
      var b := cs[i].bucket;
      if b == "fail" || b == "cancel" {
        failed := failed + [cs[i].name];
        allPassed := false;
      } else if b == "pending" {
        pending := pending + [cs[i].name];
        allPassed := false;
      }
    }
    assert cs[..|cs|] == cs;
  }

  /** One poll of `waitForChecks`. A failing `gh pr checks` means no
      required checks are configured, which counts as success. */
  function ChecksPoll(r: Reply): Poll
  {
    match r
    case Failed(_, _) => Passed
    case Checks(cs) =>
      if FailedNames(cs) != [] then Stopped("required checks failed: " + Join(FailedNames(cs), ", "))
      else if PendingNames(cs) != [] then Waiting
      else Passed
    case _ => Stopped("failed to parse check status")
  }

  /** A poll stops on a failed or cancelled check, passes when nothing is
      failed, cancelled or pending (an empty list, or only "pass",
      "skipping" and unknown buckets), and waits otherwise. */
  lemma ChecksPollSpec(cs: seq<CheckStatus>)
    ensures ChecksPoll(Checks(cs)).Stopped? <==> exists k | 0 <= k < |cs| :: IsFailBucket(cs[k].bucket)
    ensures ChecksPoll(Checks(cs)) == Passed <==>
      forall k | 0 <= k < |cs| :: !IsFailBucket(cs[k].bucket) && cs[k].bucket != "pending"
    ensures ChecksPoll(Checks([])) == Passed
  {
    FailedNamesEmpty(cs);
    PendingNamesEmpty(cs);
    FailedNamesEmpty([]);
    PendingNamesEmpty([]);
  }

  /** `waitForChecks`: polls the required checks at most `budget` times. */
  method WaitForChecks(h: Host, n: int, budget: nat) returns (err: Option<string>, ghost seg: seq<Exchange>)
    modifies h`log
    ensures h.log == old(h.log) + seg
    ensures PollSeg(seg, RequiredChecks(n), budget, ForChecks)
    ensures err == PollResult(seg, ForChecks)
  {
    seg := [];
    var polls := 0;
    while polls < budget
      invariant polls == |seg| <= budget
      invariant h.log == old(h.log) + seg
      invariant forall k | 0 <= k < |seg| :: seg[k].call == RequiredChecks(n) && PollOf(ForChecks, seg[k].reply) == Waiting
    {
      var r := h.Ask(RequiredChecks(n));
      var e := Exchange(RequiredChecks(n), r);
      if r.Failed? {
        PollStopped(seg, e, RequiredChecks(n), budget, ForChecks);
        return None, seg + [e];
      }
      if !r.Checks? {
        PollStopped(seg, e, RequiredChecks(n), budget, ForChecks);
        return Some("failed to parse check status"), seg + [e];
      }
      var allPassed, failed, pending := SortChecks(r.checks);
      if |failed| > 0 {
        PollStopped(seg, e, RequiredChecks(n), budget, ForChecks);
        return Some("required checks failed: " + Join(failed, ", ")), seg + [e];
      }
      if allPassed {
        PollStopped(seg, e, RequiredChecks(n), budget, ForChecks);
        return None, seg + [e];
      }
      WaitingSnoc(seg, e, RequiredChecks(n), ForChecks);
      seg := seg + [e];
      polls := polls + 1;
    }
    PollTimedOut(seg, RequiredChecks(n), budget, ForChecks);
    err := Some(TimeoutOf(ForChecks));
  }

  /** The pointer to the PR that the merge wait's errors end with. */
  function CheckAt(url: string): string
  {
    "\n  Check PR at: " + url
  }

  /** One poll of `waitForMerge` for PR `n` at `url`. */
  function MergePoll(n: int, url: string, r: Reply): Poll
  {
    match r
    case Failed(code, out) => Stopped("failed to check PR #" + Itoa(n) + " status: " + ErrorText(code, out))
    case PRState(state, _) =>
      if state == "MERGED" then Passed
      else if state == "CLOSED" then Stopped("PR #" + Itoa(n) + " was closed without merging" + CheckAt(url))
      else Waiting
    case _ => Stopped("failed to parse PR status")
  }

  /** Only a MERGED state ends the wait successfully; CLOSED gives up and
      points at the PR. */
  lemma MergePollSpec(n: int, url: string, r: Reply)
    ensures MergePoll(n, url, r) == Passed <==> r.PRState? && r.state == "MERGED"
    ensures MergePoll(n, url, r) == Waiting <==> r.PRState? && r.state != "MERGED" && r.state != "CLOSED"
    ensures r.PRState? && r.state == "CLOSED" ==> MergePoll(n, url, r).Stopped? && HasSuffix(MergePoll(n, url, r).why, url)
  {
  }

  /** `waitForMerge`: polls the PR state at most `budget` times. */
  method WaitForMerge(h: Host, n: int, url: string, budget: nat) returns (err: Option<string>, ghost seg: seq<Exchange>)
    modifies h`log
    ensures h.log == old(h.log) + seg
    ensures PollSeg(seg, ViewState(n), budget, ForMerge(n, url))
    ensures err == PollResult(seg, ForMerge(n, url))
  {
    seg := [];
    var polls := 0;
    while polls < budget
      invariant polls == |seg| <= budget
      invariant h.log == old(h.log) + seg
      invariant forall k | 0 <= k < |seg| :: seg[k].call == ViewState(n) && PollOf(ForMerge(n, url), seg[k].reply) == Waiting
    {
      var r := h.Ask(ViewState(n));
      var e := Exchange(ViewState(n), r);
      if r.Failed? {
        PollStopped(seg, e, ViewState(n), budget, ForMerge(n, url));
        return Some("failed to check PR #" + Itoa(n) + " status: " + ErrorText(r.exitCode, r.output)), seg + [e];
      }
      if !r.PRState? {
        PollStopped(seg, e, ViewState(n), budget, ForMerge(n, url));
        return Some("failed to parse PR status"), seg + [e];
      }
      if r.state == "MERGED" {
        PollStopped(seg, e, ViewState(n), budget, ForMerge(n, url));
        return None, seg + [e];
      }
      if r.state == "CLOSED" {
        PollStopped(seg, e, ViewState(n), budget, ForMerge(n, url));
        return Some("PR #" + Itoa(n) + " was closed without merging" + CheckAt(url)), seg + [e];
      }
      WaitingSnoc(seg, e, ViewState(n), ForMerge(n, url));
      seg := seg + [e];
      polls := polls + 1;
    }
    PollTimedOut(seg, ViewState(n), budget, ForMerge(n, url));
    err := Some(TimeoutOf(ForMerge(n, url)));
  }

  /** A poll loop succeeds only on a last answer that passed. */
  lemma PollSucceeded(seg: seq<Exchange>, c: Call, budget: nat, p: Poller)
    requires PollSeg(seg, c, budget, p)
    requires PollResult(seg, p) == None
    ensures seg != [] && PollOf(p, Last(seg).reply) == Passed
  {
  }

  // ---------------------------------------------------------------------
  // detectAutoGeneratedCommits

  /** The head commit the PR's answer names; a command failure, or a head
      too short to print, panics. */
  function HeadOf(r: Reply): (s: Result<string>)
    ensures s.Ok? <==> r.Head? && |r.headRefOid| >= 8
  {
    if r.Failed? then Err("must: " + ErrorText(r.exitCode, r.output))
    else
      var oid := if r.Head? then r.headRefOid else "";
      if |oid| < 8 then Err("slice bounds out of range") else Ok(oid)
  }

  /** `detectAutoGeneratedCommits`: the PR's current head, and never a
      report of added commits. */
  method DetectAutoGeneratedCommits(h: Host, n: int) returns (head: Result<string>, hasAutoCommits: bool, ghost e: Exchange)
    modifies h`log
    ensures h.log == old(h.log) + [e] && e.call == ViewHead(n)
    ensures head == HeadOf(e.reply)
    ensures !hasAutoCommits
  {
    var r := h.Ask(ViewHead(n));
    e := Exchange(ViewHead(n), r);
    head := HeadOf(r);
    hasAutoCommits := false;
  }

  // ---------------------------------------------------------------------
  // mergePR

  /** The `gh pr merge` command line. */
  function MergeArgs(n: int, title: string, body: string, headSHA: string, auto: bool): seq<string>
  {
    ["pr", "merge", Itoa(n), "--squash", "--subject", title, "--body", body] +
    (if headSHA != "" then ["--match-head-commit", headSHA] else []) +
    (if auto then ["--auto"] else [])
  }

  /** The command always starts `pr merge N --squash --subject T --body B`,
      even for an empty body; `--match-head-commit` follows iff there is a
      head SHA, and `--auto` comes last iff auto mode is on. */
  lemma MergeArgsSpec(n: int, title: string, body: string, headSHA: string, auto: bool)
    ensures var args := MergeArgs(n, title, body, headSHA, auto);
      |args| == 8 + (if headSHA != "" then 2 else 0) + (if auto then 1 else 0) &&
      args[..8] == ["pr", "merge", Itoa(n), "--squash", "--subject", title, "--body", body] &&
      (headSHA != "" ==> args[8] == "--match-head-commit" && args[9] == headSHA) &&
      (auto ==> args[|args| - 1] == "--auto")
  {
    var args := MergeArgs(n, title, body, headSHA, auto);
    assert args[8..] == (if headSHA != "" then ["--match-head-commit", headSHA] else []) +
      (if auto then ["--auto"] else []);
  }

  /** `c` is a merge command for PR `n` with this title, head and mode. */
  predicate IsMergeCall(c: Call, n: int, title: string, headSHA: string, auto: bool)
  {
    c.Merge? && |c.args| >= 8 && c.args == MergeArgs(n, title, c.args[7], headSHA, auto)
  }

  /** `mergePR`'s outcome: the panic of `must` when the PR could not be
      fetched, carrying the fetch error, or the merge command's answer. */
  datatype MergeAnswer = MergePanicked(why: string) | MergeReplied(output: string, err: Option<string>)

  /** The error of a PR fetch that did not deliver the PR. */
  function FetchError(r: Reply): string
  {
    if r.Failed? then ErrorText(r.exitCode, r.output) else "failed to parse PR"
  }

  /** What `mergePR` hands back for its exchanges. */
  ghost function MergeAnswerOf(seg: seq<Exchange>): MergeAnswer
  {
    if |seg| == 2 then MergeReplied(OutputOf(seg[1].reply), ErrorOf(seg[1].reply))
    else MergePanicked(if seg == [] then "" else FetchError(seg[0].reply))
  }

  /** The exchanges of `mergePR`: the PR is fetched, and if it arrives its
      cleaned-up body is passed to one merge command. */
  ghost predicate MergeSeg(seg: seq<Exchange>, n: int, title: string, headSHA: string, auto: bool, rx: Regexes)
  {
    1 <= |seg| <= 2 && seg[0].call == GetPR(n) &&
    (|seg| == 2 <==> seg[0].reply.PRBody?) &&
    (|seg| == 2 ==> IsMergeCall(seg[1].call, n, title, headSHA, auto) &&
                    CleanedFrom(seg[0].reply.body, seg[1].call.args[7], rx))
  }

  /** `mergePR`. */
  method MergePR(h: Host, n: int, title: string, headSHA: string, auto: bool, rx: Regexes)
    returns (r: MergeAnswer, ghost seg: seq<Exchange>)
    modifies h`log
    ensures h.log == old(h.log) + seg
    ensures MergeSeg(seg, n, title, headSHA, auto, rx)
    ensures r == MergeAnswerOf(seg)
  {
    var pr := h.Ask(GetPR(n));
    seg := [Exchange(GetPR(n), pr)];
    if !pr.PRBody? {
      return MergePanicked(FetchError(pr)), seg;
    }
    var body := CleanupPRBodyForMerge(pr.body, rx);
    var args := MergeArgs(n, title, body, headSHA, auto);
    var out := h.Ask(Merge(args));
    seg := seg + [Exchange(Merge(args), out)];
    r := MergeReplied(OutputOf(out), ErrorOf(out));
  }

  // ---------------------------------------------------------------------
  // updatePRBase and deleteRemoteBranch

  method UpdatePRBase(h: Host, n: int, base: string) returns (err: Option<string>, ghost e: Exchange)
    modifies h`log
    ensures h.log == old(h.log) + [e] && e.call == EditBase(n, base)
    ensures err == ErrorOf(e.reply)
  {
    var r := h.Ask(EditBase(n, base));
    e := Exchange(EditBase(n, base), r);
    err := ErrorOf(r);
  }

  function DeleteArgs(remote: string, branch: string): seq<string>
  {
    ["push", remote, "--delete", branch]
  }

  method DeleteRemoteBranch(h: Host, remote: string, branch: string) returns (err: Option<string>, ghost e: Exchange)
    modifies h`log
    ensures h.log == old(h.log) + [e] && e.call == Git(DeleteArgs(remote, branch))
    ensures err == DeleteOutcome(ErrorOf(e.reply))
  {
    var r := h.Ask(Git(DeleteArgs(remote, branch)));
    e := Exchange(Git(DeleteArgs(remote, branch)), r);
    err := DeleteOutcome(ErrorOf(r));
  }
}
