/** PR status classification in land.go: how the check nodes of a status
    rollup fall into buckets, how buckets and reviews are summarised, the
    icon and status-text tables of the landing dashboard, and the small
    classifiers of mergeability, conflicts, branch deletion and commit
    matching. */
module Status {
  import opened Strs
  import opened Wrappers

  /** `checkStatus`: one check as `gh pr checks --json` reports it. */
  datatype CheckStatus = CheckStatus(name: string, state: string, bucket: string, workflow: string, description: string)

  /** One node of `statusCheckRollup.contexts` in the GraphQL answer; a
      check run fills `name`, `status` and `conclusion`, a status context
      `context` and `state`. */
  datatype CheckNode = CheckNode(typeName: string, name: string, context: string, status: string, state: string, conclusion: string)

  datatype Review = Review(state: string, author: string)

  /** One `pr<i>` entry of the batch answer. */
  datatype PRData = PRData(number: int, state: string, mergeable: string, mergeStateStatus: string,
                           reviewDecision: string, reviews: seq<Review>, nodes: seq<CheckNode>)

  /** `prInfo` without its commit pointer and its update time. */
  datatype PrInfo = PrInfo(number: int, title: string, url: string, headSHA: string, headBranch: string,
                           baseBranch: string, mergeable: string, mergeStatus: string, checksStatus: string,
                           checks: seq<CheckStatus>, state: string, reviewDecision: string, reviewStatus: string)

  // ---------------------------------------------------------------
  // Check buckets

  predicate IsFailConclusion(c: string)
  {
    c == "FAILURE" || c == "CANCELLED" || c == "TIMED_OUT" || c == "ACTION_REQUIRED"
  }

  /** The bucket the batch update files a node under. */
  function NodeBucket(n: CheckNode): string
  {
    if n.typeName == "CheckRun" then
      if n.conclusion == "SUCCESS" then "pass"
      else if IsFailConclusion(n.conclusion) then "fail"
      else if n.status == "COMPLETED" then "pass"
      else "pending"
    else if n.typeName == "StatusContext" then
      if n.state == "SUCCESS" then "pass"
      else if n.state == "FAILURE" || n.state == "ERROR" then "fail"
      else "pending"
    else ""
  }

  /** The bucket table: a check run passes on success or, when it has no
      failing conclusion, once it is completed; a status context passes
      only on success and fails on failure or error; anything else has no
      bucket at all. */
  lemma NodeBucketTable(n: CheckNode)
    ensures NodeBucket(n) in {"pass", "fail", "pending", ""}
    ensures NodeBucket(n) == "" <==> n.typeName != "CheckRun" && n.typeName != "StatusContext"
    ensures n.typeName == "CheckRun" ==>
      (NodeBucket(n) == "pass" <==> n.conclusion == "SUCCESS" || (!IsFailConclusion(n.conclusion) && n.status == "COMPLETED")) &&
      (NodeBucket(n) == "fail" <==> IsFailConclusion(n.conclusion))
    ensures n.typeName == "StatusContext" ==>
      (NodeBucket(n) == "pass" <==> n.state == "SUCCESS") &&
      (NodeBucket(n) == "fail" <==> n.state == "FAILURE" || n.state == "ERROR")
  {
  }

  /** The `checkStatus` the batch update appends for a node. */
  function NodeCheck(n: CheckNode): CheckStatus
  {
    var name := if n.typeName == "CheckRun" then n.name else if n.typeName == "StatusContext" then n.context else "";
    CheckStatus(name, "", NodeBucket(n), "", "")
  }

  /** The checks of a rollup, one per node and in node order. */
  function ChecksOf(nodes: seq<CheckNode>): (r: seq<CheckStatus>)
    ensures |r| == |nodes|
  {
    seq(|nodes|, k requires 0 <= k < |nodes| => NodeCheck(nodes[k]))
  }

  function Buckets(checks: seq<CheckStatus>): (r: seq<string>)
    ensures |r| == |checks|
  {
    seq(|checks|, k requires 0 <= k < |checks| => checks[k].bucket)
  }

  /** How many checks have bucket `b`. */
  function Count(checks: seq<CheckStatus>, b: string): nat
  {
    multiset(Buckets(checks))[b]
  }

  /** The loop of the batch update over the nodes of one PR: one check per
      node, in order, and the passing, failing and pending tallies. */
  method ClassifyChecks(nodes: seq<CheckNode>) returns (checks: seq<CheckStatus>, passing: nat, failing: nat, pending: nat)
    ensures checks == ChecksOf(nodes)
    ensures passing == Count(checks, "pass") && failing == Count(checks, "fail") && pending == Count(checks, "pending")
  {
    checks := [];
    passing, failing, pending := 0, 0, 0;
    for i := 0 to |nodes|
      invariant checks == ChecksOf(nodes[..i])
      invariant passing == Count(checks, "pass") && failing == Count(checks, "fail") && pending == Count(checks, "pending")
    {
      var cs := NodeCheck(nodes[i]);
      if cs.bucket == "pass" {
        passing := passing + 1;
      } else if cs.bucket == "fail" {
        failing := failing + 1;
      } else if cs.bucket == "pending" {
        pending := pending + 1;
      }
      ChecksOfSnoc(nodes, i);
      CountSnoc(checks, cs);
      checks := checks + [cs];
    }
    assert nodes[..|nodes|] == nodes;
  }

  lemma ChecksOfSnoc(nodes: seq<CheckNode>, i: nat)
    requires i < |nodes|
    ensures ChecksOf(nodes[..i + 1]) == ChecksOf(nodes[..i]) + [NodeCheck(nodes[i])]
  {
  }

  lemma CountSnoc(checks: seq<CheckStatus>, c: CheckStatus)
    ensures forall b :: Count(checks + [c], b) == Count(checks, b) + (if c.bucket == b then 1 else 0)
  {
    assert Buckets(checks + [c]) == Buckets(checks) + [c.bucket];
  }

  /** The overall status from the tallies: failing beats pending beats
      passing, and no counted check at all is "NONE". */
  function Aggregate(failing: nat, pending: nat, passing: nat): string
  {
    if failing > 0 then "FAILING"
    else if pending > 0 then "PENDING"
    else if passing > 0 then "PASSING"
    else "NONE"
  }

  function ChecksStatusOf(checks: seq<CheckStatus>): string
  {
    Aggregate(Count(checks, "fail"), Count(checks, "pending"), Count(checks, "pass"))
  }

  predicate HasBucket(checks: seq<CheckStatus>, b: string)
  {
    exists k | 0 <= k < |checks| :: checks[k].bucket == b
  }

  lemma CountPositive(checks: seq<CheckStatus>, b: string)
    ensures Count(checks, b) > 0 <==> HasBucket(checks, b)
  {
    var bs := Buckets(checks);
    if HasBucket(checks, b) {
      var k :| 0 <= k < |checks| && checks[k].bucket == b;
      assert bs[k] == b;
    } else {
      forall k | 0 <= k < |bs| ensures bs[k] != b {
        assert checks[k].bucket == bs[k];
      }
    }
  }

  /** The aggregate in terms of the checks themselves: FAILING when any
      check fails, else PENDING when any is pending, else PASSING when any
      passes, else NONE (checks of no bucket are counted nowhere). */
  lemma ChecksStatusSpec(checks: seq<CheckStatus>)
    ensures ChecksStatusOf(checks) == "FAILING" <==> HasBucket(checks, "fail")
    ensures ChecksStatusOf(checks) == "PENDING" <==> !HasBucket(checks, "fail") && HasBucket(checks, "pending")
    ensures ChecksStatusOf(checks) == "PASSING" <==>
      !HasBucket(checks, "fail") && !HasBucket(checks, "pending") && HasBucket(checks, "pass")
    ensures ChecksStatusOf(checks) == "NONE" <==>
      !HasBucket(checks, "fail") && !HasBucket(checks, "pending") && !HasBucket(checks, "pass")
  {
    CountPositive(checks, "fail");
    CountPositive(checks, "pending");
    CountPositive(checks, "pass");
  }

  /** Nodes that are neither check runs nor status contexts change nothing
      in the aggregate. */
  lemma OtherNodesIgnored(nodes: seq<CheckNode>, n: CheckNode)
    requires n.typeName != "CheckRun" && n.typeName != "StatusContext"
    ensures ChecksStatusOf(ChecksOf(nodes + [n])) == ChecksStatusOf(ChecksOf(nodes))
  {
    assert Buckets(ChecksOf(nodes + [n])) == Buckets(ChecksOf(nodes)) + [""];
  }

  // ---------------------------------------------------------------
  // Reviews

  function ReviewStates(reviews: seq<Review>): (r: seq<string>)
    ensures |r| == |reviews|
  {
    seq(|reviews|, k requires 0 <= k < |reviews| => reviews[k].state)
  }

  /** How many reviews are in state `st`. */
  function CountReviews(reviews: seq<Review>, st: string): nat
  {
    multiset(ReviewStates(reviews))[st]
  }

  /** The review loop of the batch update: the approved, changes-requested
      and commented tallies. */
  method TallyReviews(reviews: seq<Review>) returns (approved: nat, changesRequested: nat, commented: nat)
    ensures approved == CountReviews(reviews, "APPROVED")
    ensures changesRequested == CountReviews(reviews, "CHANGES_REQUESTED")
    ensures commented == CountReviews(reviews, "COMMENTED")
  {
    approved, changesRequested, commented := 0, 0, 0;
    for i := 0 to |reviews|
      invariant approved == CountReviews(reviews[..i], "APPROVED")
      invariant changesRequested == CountReviews(reviews[..i], "CHANGES_REQUESTED")
      invariant commented == CountReviews(reviews[..i], "COMMENTED")
    {
      assert ReviewStates(reviews[..i + 1]) == ReviewStates(reviews[..i]) + [reviews[i].state];
      var st := reviews[i].state;
      if st == "APPROVED" {
        approved := approved + 1;
      } else if st == "CHANGES_REQUESTED" {
        changesRequested := changesRequested + 1;
      } else if st == "COMMENTED" {
        commented := commented + 1;
      }
    }
    assert reviews[..|reviews|] == reviews;
  }

  /** The review line of the dashboard. */
  function ReviewSummary(approved: nat, changesRequested: nat, commented: nat, decision: string): string
  {
    if changesRequested > 0 then "❌ " + Itoa(changesRequested) + " changes requested"
    else if approved > 0 then "✅ " + Itoa(approved) + " approved"
    else if decision == "REVIEW_REQUIRED" then "⏳ Review required"
    else if commented > 0 then "💬 " + Itoa(commented) + " comments"
    else ""
  }

  function ReviewStatusOf(reviews: seq<Review>, decision: string): string
  {
    ReviewSummary(CountReviews(reviews, "APPROVED"), CountReviews(reviews, "CHANGES_REQUESTED"),
                  CountReviews(reviews, "COMMENTED"), decision)
  }

  predicate HasReview(reviews: seq<Review>, st: string)
  {
    exists k | 0 <= k < |reviews| :: reviews[k].state == st
  }

  lemma CountReviewsPositive(reviews: seq<Review>, st: string)
    ensures CountReviews(reviews, st) > 0 <==> HasReview(reviews, st)
  {
    var ss := ReviewStates(reviews);
    if HasReview(reviews, st) {
      var k :| 0 <= k < |reviews| && reviews[k].state == st;
      assert ss[k] == st;
    } else {
      forall k | 0 <= k < |ss| ensures ss[k] != st {
        assert reviews[k].state == ss[k];
      }
    }
  }

  /** Review priority: a change request outranks any approval, an approval
      outranks a required review, and that outranks comments; the line is
      empty exactly when none of these applies. */
  lemma ReviewPriority(reviews: seq<Review>, decision: string)
    ensures HasReview(reviews, "CHANGES_REQUESTED") ==>
      ReviewStatusOf(reviews, decision) == "❌ " + Itoa(CountReviews(reviews, "CHANGES_REQUESTED")) + " changes requested"
    ensures !HasReview(reviews, "CHANGES_REQUESTED") && HasReview(reviews, "APPROVED") ==>
      ReviewStatusOf(reviews, decision) == "✅ " + Itoa(CountReviews(reviews, "APPROVED")) + " approved"
    ensures !HasReview(reviews, "CHANGES_REQUESTED") && !HasReview(reviews, "APPROVED") && decision == "REVIEW_REQUIRED" ==>
      ReviewStatusOf(reviews, decision) == "⏳ Review required"
    ensures (!HasReview(reviews, "CHANGES_REQUESTED") && !HasReview(reviews, "APPROVED") && decision != "REVIEW_REQUIRED" &&
      HasReview(reviews, "COMMENTED")) ==>
      ReviewStatusOf(reviews, decision) == "💬 " + Itoa(CountReviews(reviews, "COMMENTED")) + " comments"
    ensures ReviewStatusOf(reviews, decision) == "" <==>
      !HasReview(reviews, "CHANGES_REQUESTED") && !HasReview(reviews, "APPROVED") && decision != "REVIEW_REQUIRED" &&
      !HasReview(reviews, "COMMENTED")
  {
    CountReviewsPositive(reviews, "CHANGES_REQUESTED");
    CountReviewsPositive(reviews, "APPROVED");
    CountReviewsPositive(reviews, "COMMENTED");
  }

  // ---------------------------------------------------------------
  // The batch update of one PR

  /** The response key the batch query gives the PR at index `i`. */
  function BatchKey(i: nat): string
  {
    "pr" + NatToString(i)
  }

  /** `pr` once the batch update has copied `d` into it: the four status
      fields, the review line, one check per node and their aggregate. */
  function Updated(pr: PrInfo, d: PRData): PrInfo
  {
    var checks := ChecksOf(d.nodes);
    pr.(state := d.state, mergeable := d.mergeable, mergeStatus := d.mergeStateStatus,
        reviewDecision := d.reviewDecision, reviewStatus := ReviewStatusOf(d.reviews, d.reviewDecision),
        checks := checks, checksStatus := ChecksStatusOf(checks))
  }

  /** The body of the batch update for one PR whose key is in the answer. */
  method UpdateFrom(pr: PrInfo, d: PRData) returns (r: PrInfo)
    ensures r == Updated(pr, d)
  {
    var approved, changesRequested, commented := TallyReviews(d.reviews);
    var reviewStatus := ReviewSummary(approved, changesRequested, commented, d.reviewDecision);
    var checks, passing, failing, pending := ClassifyChecks(d.nodes);
    var checksStatus := Aggregate(failing, pending, passing);
    r := pr.(state := d.state, mergeable := d.mergeable, mergeStatus := d.mergeStateStatus,
             reviewDecision := d.reviewDecision, reviewStatus := reviewStatus,
             checks := checks, checksStatus := checksStatus);
  }

  /** The update leaves the identity of the PR (number, title, URL, SHA,
      branches) alone and keeps exactly one check per node. */
  lemma UpdatedKeepsIdentity(pr: PrInfo, d: PRData)
    ensures var u := Updated(pr, d);
      u.number == pr.number && u.title == pr.title && u.url == pr.url && u.headSHA == pr.headSHA &&
      u.headBranch == pr.headBranch && u.baseBranch == pr.baseBranch && |u.checks| == |d.nodes| &&
      u.state == d.state && u.mergeable == d.mergeable && u.mergeStatus == d.mergeStateStatus
  {
  }

  // ---------------------------------------------------------------
  // The single-PR fallback

  /** The check status `updatePRStatus` derives from the conclusions of the
      rollup: "NONE" only for an empty rollup; success, neutral and skipped
      pass, the four failing conclusions fail, anything else is pending. */
  method RollupStatus(conclusions: seq<string>) returns (status: string)
    ensures status == "NONE" <==> conclusions == []
    ensures status == "FAILING" <==> exists k | 0 <= k < |conclusions| :: IsFailConclusion(conclusions[k])
    ensures status == "PENDING" <==>
      (forall k | 0 <= k < |conclusions| :: !IsFailConclusion(conclusions[k])) &&
      (exists k | 0 <= k < |conclusions| :: !IsFailConclusion(conclusions[k]) && !IsPassConclusion(conclusions[k]))
    ensures status == "PASSING" <==>
      conclusions != [] && forall k | 0 <= k < |conclusions| :: IsPassConclusion(conclusions[k])
  {
    if |conclusions| == 0 {
      return "NONE";
    }
    var passing, failing, pending := 0, 0, 0;
    for i := 0 to |conclusions|
      invariant passing + failing + pending == i
      invariant failing > 0 <==> exists k | 0 <= k < i :: IsFailConclusion(conclusions[k])
      invariant pending > 0 <==> exists k | 0 <= k < i :: !IsFailConclusion(conclusions[k]) && !IsPassConclusion(conclusions[k])
    {
      var c := conclusions[i];
      if IsPassConclusion(c) {
        passing := passing + 1;
      } else if IsFailConclusion(c) {
        failing := failing + 1;
      } else {
        pending := pending + 1;
      }
    }
    if failing > 0 {
      status := "FAILING";
    } else if pending > 0 {
      status := "PENDING";
    } else {
      status := "PASSING";
    }
  }

  predicate IsPassConclusion(c: string)
  {
    c == "SUCCESS" || c == "NEUTRAL" || c == "SKIPPED"
  }

  // ---------------------------------------------------------------
  // Dashboard tables

  /** `getPRStatusIcon`, the fallback on the merge state status. */
  function MergeStatusIcon(status: string): string
  {
    if status == "CONFLICTING" || status == "DIRTY" then "⚠️"
    else if status == "BLOCKED" then "🔒"
    else if status == "BEHIND" then "⬇️"
    else if status == "UNSTABLE" then "⏳"
    else if status == "UNKNOWN" then "❓"
    else if status == "DRAFT" then "📝"
    else if status == "HAS_HOOKS" || status == "MERGEABLE" || status == "CLEAN" then "🟢"
    else "◻️"
  }

  /** `getPRStatusIcon`: merged and closed first, then the mergeable field,
      then the merge state status. */
  function StatusIcon(pr: PrInfo): string
  {
    if pr.state == "MERGED" then "✅"
    else if pr.state == "CLOSED" then "❌"
    else if pr.mergeable == "CONFLICTING" then "⚠️"
    else if pr.mergeable == "MERGEABLE" then (if pr.mergeStatus == "UNSTABLE" then "🟡" else "🟢")
    else MergeStatusIcon(pr.mergeStatus)
  }

  const ConflictsText := "⚠️ Has conflicts - must be resolved"

  /** The merge-status line of `showDashboard`; "" means no line. */
  function StatusText(pr: PrInfo): string
  {
    if pr.state == "MERGED" then "✅ Already merged"
    else if pr.state == "CLOSED" then "❌ Closed (not merged)"
    else if pr.mergeable == "CONFLICTING" then ConflictsText
    else if pr.mergeable == "MERGEABLE" && pr.mergeStatus == "UNSTABLE" then
      "🟡 Mergeable but checks unstable (non-required checks failing)"
    else if pr.mergeStatus == "" then ""
    else if pr.mergeStatus == "CLEAN" || pr.mergeStatus == "MERGEABLE" || pr.mergeStatus == "HAS_HOOKS" then "🟢 Ready to merge"
    else if pr.mergeStatus == "CONFLICTING" || pr.mergeStatus == "DIRTY" then ConflictsText
    else if pr.mergeStatus == "BLOCKED" then "🔒 Blocked by branch protection"
    else if pr.mergeStatus == "BEHIND" then "↓ Behind base branch"
    else if pr.mergeStatus == "UNSTABLE" then "⏳ Checks pending or failing"
    else if pr.mergeStatus == "UNKNOWN" then "❓ Status unknown - computing..."
    else if pr.mergeStatus == "DRAFT" then "📝 Draft PR - not ready to merge"
    else pr.mergeStatus
  }

  /** The merge state statuses the dashboard tables know. */
  predicate KnownMergeStatus(status: string)
  {
    status == "" || status == "CLEAN" || status == "MERGEABLE" || status == "HAS_HOOKS" || status == "CONFLICTING" ||
    status == "DIRTY" || status == "BLOCKED" || status == "BEHIND" || status == "UNSTABLE" || status == "UNKNOWN" ||
    status == "DRAFT"
  }

  /** The icon and the status line tell the same story about merged and
      closed PRs. */
  lemma IconMatchesTextMergedClosed(pr: PrInfo)
    requires KnownMergeStatus(pr.mergeStatus)
    ensures StatusIcon(pr) == "✅" <==> pr.state == "MERGED"
    ensures StatusIcon(pr) == "✅" <==> StatusText(pr) == "✅ Already merged"
    ensures StatusIcon(pr) == "❌" <==> StatusText(pr) == "❌ Closed (not merged)"
  {
  }

  /** Unless the PR is reported mergeable, the icon shows conflicts exactly
      when the status line does. */
  lemma IconMatchesTextConflicts(pr: PrInfo)
    requires KnownMergeStatus(pr.mergeStatus) && pr.mergeable != "MERGEABLE"
    ensures StatusIcon(pr) == "⚠️" <==> StatusText(pr) == ConflictsText
  {
  }

  /** When the mergeable field is not decisive, icon and status line both
      follow the merge state status: blocked, unknown and ready go
      together. */
  lemma IconMatchesTextFallback(pr: PrInfo)
    requires KnownMergeStatus(pr.mergeStatus)
    requires pr.state != "MERGED" && pr.state != "CLOSED" && pr.mergeable != "MERGEABLE" && pr.mergeable != "CONFLICTING"
    ensures StatusIcon(pr) == "🔒" <==> StatusText(pr) == "🔒 Blocked by branch protection"
    ensures StatusIcon(pr) == "❓" <==> StatusText(pr) == "❓ Status unknown - computing..."
    ensures StatusIcon(pr) == "🟢" <==> StatusText(pr) == "🟢 Ready to merge"
  {
  }

  /** A merge state status the tables do not know is drawn as a blank
      square and printed as it is. */
  lemma UnknownMergeStatusShown(pr: PrInfo)
    requires !KnownMergeStatus(pr.mergeStatus)
    requires pr.state != "MERGED" && pr.state != "CLOSED" && pr.mergeable != "MERGEABLE" && pr.mergeable != "CONFLICTING"
    ensures StatusIcon(pr) == "◻️" && StatusText(pr) == pr.mergeStatus
  {
  }

  /** `getChecksIcon`. */
  function ChecksIcon(checksStatus: string): string
  {
    if checksStatus == "PASSING" then "✅"
    else if checksStatus == "FAILING" then "❌"
    else if checksStatus == "PENDING" then "⏳"
    else "  "
  }

  /** The icon `showDashboard` draws before one check. */
  function CheckLineIcon(bucket: string): string
  {
    if bucket == "pass" || bucket == "success" then "✅"
    else if bucket == "fail" || bucket == "failure" || bucket == "cancel" then "❌"
    else if bucket == "skipping" || bucket == "neutral" then "◻️"
    else "⏳"
  }

  /** The summary line `showDashboard` falls back on when a PR has no
      detailed checks. */
  function ChecksSummaryLine(checksStatus: string): Option<string>
  {
    if checksStatus == "NONE" || checksStatus == "" then None
    else if checksStatus == "FAILING" then Some("❌ Checks failing")
    else if checksStatus == "PENDING" then Some("⏳ Checks pending")
    else if checksStatus == "PASSING" then Some("✅ All checks passed")
    else None
  }

  /** The summary line, when there is one, starts with the icon
      `getChecksIcon` gives the same status, and the buckets the batch
      update writes get the icons of their status. */
  lemma ChecksIconsAgree(checksStatus: string)
    ensures ChecksSummaryLine(checksStatus).Some? <==> checksStatus == "FAILING" || checksStatus == "PENDING" || checksStatus == "PASSING"
    ensures ChecksSummaryLine(checksStatus).Some? ==> HasPrefix(ChecksSummaryLine(checksStatus).value, ChecksIcon(checksStatus))
    ensures CheckLineIcon("pass") == ChecksIcon("PASSING") && CheckLineIcon("fail") == ChecksIcon("FAILING")
    ensures CheckLineIcon("pending") == ChecksIcon("PENDING")
  {
  }

  /** `truncateTitle`: long titles are cut to `maxLen - 3` characters plus
      "..."; slicing with a negative bound panics. */
  function TruncateTitle(title: string, maxLen: int): (r: Result<string>)
    ensures r.Err? <==> |title| > maxLen && maxLen < 3
    ensures r.Ok? && |title| <= maxLen ==> r.value == title
    ensures r.Ok? && |title| > maxLen ==> |r.value| == maxLen && HasPrefix(title, r.value[..maxLen - 3]) && HasSuffix(r.value, "...")
  {
    if |title| <= maxLen then Ok(title)
    else if maxLen - 3 < 0 then Err("slice bounds out of range")
    else Ok(title[..maxLen - 3] + "...")
  }

  /** The title line of `showDashboard`: at most 80 characters. */
  function ShownTitle(title: string): string
  {
    if |title| > 80 then title[..77] + "..." else title
  }

  lemma ShownTitleIsTruncated(title: string)
    ensures TruncateTitle(title, 80) == Ok(ShownTitle(title))
    ensures |ShownTitle(title)| <= 80
  {
  }

  // ---------------------------------------------------------------
  // Dashboard counters

  datatype Category = Merged | Ready | Blocked | Uncounted

  /** Where the summary of `showDashboard` counts a PR. */
  function CategoryOf(pr: PrInfo): Category
  {
    if pr.state == "MERGED" then Merged
    else if pr.state == "OPEN" && pr.mergeable == "MERGEABLE" then Ready
    else if pr.state == "OPEN" then Blocked
    else Uncounted
  }

  function Tally(prs: seq<PrInfo>, c: Category): nat
  {
    if prs == [] then 0 else Tally(prs[..|prs| - 1], c) + (if CategoryOf(prs[|prs| - 1]) == c then 1 else 0)
  }

  /** The summary loop of `showDashboard`. */
  method SummaryCounts(prs: seq<PrInfo>) returns (merged: nat, ready: nat, blocked: nat)
    ensures merged == Tally(prs, Merged) && ready == Tally(prs, Ready) && blocked == Tally(prs, Blocked)
  {
    merged, ready, blocked := 0, 0, 0;
    for i := 0 to |prs|
      invariant merged == Tally(prs[..i], Merged) && ready == Tally(prs[..i], Ready) && blocked == Tally(prs[..i], Blocked)
    {
      assert prs[..i + 1][..i] == prs[..i];
      var pr := prs[i];
      if pr.state == "MERGED" {
        merged := merged + 1;
      } else if pr.state == "OPEN" && pr.mergeable == "MERGEABLE" {
        ready := ready + 1;
      } else if pr.state == "OPEN" {
        blocked := blocked + 1;
      }
    }
    assert prs[..|prs|] == prs;
  }

  /** Every PR is counted at most once: the three counters and the closed
      or otherwise uncounted PRs add up to the stack. */
  lemma {:induction false} TallyTotal(prs: seq<PrInfo>)
    ensures Tally(prs, Merged) + Tally(prs, Ready) + Tally(prs, Blocked) + Tally(prs, Uncounted) == |prs|
  {
    if prs != [] {
      TallyTotal(prs[..|prs| - 1]);
    }
  }

  /** Merged PRs are the ones drawn with the merged icon, and ready PRs
      are drawn green or yellow. */
  lemma CategoryMatchesIcon(pr: PrInfo)
    ensures CategoryOf(pr) == Merged <==> StatusIcon(pr) == "✅"
    ensures CategoryOf(pr) == Ready ==> StatusIcon(pr) == "🟢" || StatusIcon(pr) == "🟡"
  {
  }

  /** `allPRsMerged`. */
  method AllPRsMerged(prs: seq<PrInfo>) returns (all: bool)
    ensures all <==> forall k | 0 <= k < |prs| :: prs[k].state == "MERGED"
    ensures all <==> Tally(prs, Merged) == |prs|
  {
    MergedTally(prs);
    for i := 0 to |prs|
      invariant forall k | 0 <= k < i :: prs[k].state == "MERGED"
    {
      if prs[i].state != "MERGED" {
        return false;
      }
    }
    return true;
  }

  lemma {:induction false} MergedTally(prs: seq<PrInfo>)
    ensures Tally(prs, Merged) <= |prs|
    ensures Tally(prs, Merged) == |prs| <==> forall k | 0 <= k < |prs| :: prs[k].state == "MERGED"
  {
    if prs != [] {
      var init := prs[..|prs| - 1];
      MergedTally(init);
      assert forall k | 0 <= k < |init| :: init[k] == prs[k];
    }
  }

  // ---------------------------------------------------------------
  // Mergeability, conflicts, branch deletion and commit matching

  /** The reason `checkPRMergeability` gives for a merge state status. */
  function MergeReason(status: string): string
  {
    if status == "CONFLICTING" then "has merge conflicts that must be resolved"
    else if status == "BLOCKED" then "is blocked by branch protection rules or missing required reviews"
    else if status == "UNSTABLE" then "has failing or pending CI checks"
    else if status == "BEHIND" then "needs to be updated with the base branch"
    else if status == "UNKNOWN" then "merge status is being computed, please retry"
    else ""
  }

  /** Only the five states that stand in the way of a merge get a reason;
      mergeable, clean and unexpected states get none. */
  lemma MergeReasonSpec(status: string)
    ensures MergeReason(status) != "" <==>
      status == "CONFLICTING" || status == "BLOCKED" || status == "UNSTABLE" || status == "BEHIND" || status == "UNKNOWN"
  {
    var r := MergeReason(status);
    if status == "CONFLICTING" || status == "BLOCKED" || status == "UNSTABLE" || status == "BEHIND" || status == "UNKNOWN" {
      assert |r| > 30;
    } else {
      assert r == "";
    }
  }

  /** `checkPRConflicts`' predicate. */
  predicate HasConflicts(mergeable: string, mergeStateStatus: string)
  {
    mergeable == "CONFLICTING" || mergeStateStatus == "CONFLICTING" || mergeStateStatus == "DIRTY"
  }

  /** A PR the predicate calls conflicting is drawn with the conflict icon
      unless it is already merged or closed, or reported mergeable. */
  lemma ConflictsShowAsConflicts(pr: PrInfo)
    requires HasConflicts(pr.mergeable, pr.mergeStatus)
    requires pr.state != "MERGED" && pr.state != "CLOSED" && pr.mergeable != "MERGEABLE"
    ensures StatusIcon(pr) == "⚠️" && StatusText(pr) == ConflictsText
  {
  }

  /** `deleteRemoteBranch`: an error that says the branch is already gone
      counts as success; any other error is passed on. */
  function DeleteOutcome(err: Option<string>): (r: Option<string>)
    ensures r.None? <==> err.None? || Contains(err.value, "remote ref does not exist") || Contains(err.value, "unable to delete")
    ensures r.Some? ==> r == err
  {
    if err.Some? && (Contains(err.value, "remote ref does not exist") || Contains(err.value, "unable to delete")) then None
    else err
  }

  /** The SHA comparison of `verifyAndSyncCommit` and
      `checkAndConfirmLocalChanges`: either SHA starts with the other's
      first eight characters. The debug line in front of the test slices
      both SHAs, so either one being shorter than eight characters
      panics. */
  function ShaMatch(local: string, remote: string): Result<bool>
  {
    if |local| < 8 || |remote| < 8 then Err("slice bounds out of range")
    else Ok(HasPrefix(remote, local[..8]) || HasPrefix(local, remote[..8]))
  }

  /** For SHAs of at least eight characters the match is exactly agreement
      on the first eight, so it is symmetric. */
  lemma ShaMatchSpec(local: string, remote: string)
    requires |local| >= 8 && |remote| >= 8
    ensures ShaMatch(local, remote) == Ok(local[..8] == remote[..8])
    ensures ShaMatch(local, remote) == ShaMatch(remote, local)
  {
    assert HasPrefix(remote, local[..8]) <==> remote[..8] == local[..8];
    assert HasPrefix(local, remote[..8]) <==> local[..8] == remote[..8];
  }

  /** The comparison panics exactly when either SHA is too short to
      slice. */
  lemma ShaMatchPanics(local: string, remote: string)
    ensures ShaMatch(local, remote).Err? <==> |local| < 8 || |remote| < 8
  {
  }
}
