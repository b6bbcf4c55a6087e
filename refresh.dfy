/** The status refresh of the interactive dashboard in land.go: one GraphQL
    query for all PRs (`updatePRStatusBatch`), and when it fails, one
    `gh pr view` and one `gh pr checks` per PR (`updatePRStatus`). The
    dashboard's PR list is an array the refresh writes in place. */
module Refresh {
  import opened Strs
  import opened Wrappers
  import opened Status
  import opened Forge

  /** `dashboardState` without its display-only fields: the PR list, whose
      entries the refresh overwrites, and the error of the last refresh. */
  class DashboardState {
    const prs: array<PrInfo>
    var updateError: Option<string>

    constructor (prs: array<PrInfo>)
      ensures this.prs == prs && updateError == None
    {
      this.prs := prs;
      updateError := None;
    }
  }

  function Numbers(prs: seq<PrInfo>): (ns: seq<int>)
    ensures |ns| == |prs| && forall k | 0 <= k < |prs| :: ns[k] == prs[k].number
  {
    if prs == [] then [] else Numbers(prs[..|prs| - 1]) + [prs[|prs| - 1].number]
  }

  // ---------------------------------------------------------------------
  // updatePRStatusBatch

  /** The PR list once the batch answer `m` is copied in: the entry at
      index k changes only when the answer has the key "pr<k>", and then
      as `Updated` says. */
  function BatchApplied(prs: seq<PrInfo>, m: map<string, PRData>): (r: seq<PrInfo>)
    ensures |r| == |prs|
  {
    seq(|prs|, k requires 0 <= k < |prs| => BatchEntry(prs[k], m, k))
  }

  function BatchEntry(pr: PrInfo, m: map<string, PRData>, k: nat): PrInfo
  {
    if BatchKey(k) in m then Updated(pr, m[BatchKey(k)]) else pr
  }

  /** The error of the batch query for its answer. */
  function BatchError(r: Reply): Option<string>
  {
    match r
    case Failed(code, out) => Some(ErrorText(code, out))
    case Batch(_) => None
    case _ => Some("could not decode the GraphQL answer")
  }

  /** What the batch update does to a non-empty list: the owner and name
      come from splitting `repo` at '/', which must give two parts. */
  ghost predicate BatchRan(prs0: seq<PrInfo>, prs: seq<PrInfo>, repo: string, err: Option<string>, seg: seq<Exchange>)
  {
    var parts := Split(repo, '/');
    if |parts| != 2 then
      seg == [] && err == Some("invalid repo format: " + repo) && prs == prs0
    else
      |seg| == 1 && seg[0].call == StatusBatch(parts[0], parts[1], Numbers(prs0)) &&
      err == BatchError(seg[0].reply) &&
      prs == (if err.None? then BatchApplied(prs0, seg[0].reply.repository) else prs0)
  }

  /** `updatePRStatusBatch`: nothing for an empty list; otherwise one query
      and, only when its answer decodes, every PR updated from its own key.
      On any error the list is left as it was. */
  method UpdatePRStatusBatch(h: Host, repo: string, prs: array<PrInfo>)
    returns (err: Option<string>, ghost seg: seq<Exchange>)
    modifies prs, h`log
    ensures h.log == old(h.log) + seg
    ensures prs.Length == 0 ==> err == None && seg == []
    ensures prs.Length > 0 ==> BatchRan(old(prs[..]), prs[..], repo, err, seg)
  {
    if prs.Length == 0 {
      return None, [];
    }
    var parts := Split(repo, '/');
    if |parts| != 2 {
      return Some("invalid repo format: " + repo), [];
    }
    var numbers := Numbers(prs[..]);
    var call := StatusBatch(parts[0], parts[1], numbers);
    var r := h.Ask(call);
    seg := [Exchange(call, r)];
    err := BatchError(r);
    if err.Some? {
      return;
    }
    ApplyBatch(prs, r.repository);
  }

  /** The loop of `updatePRStatusBatch` over the PRs. */
  method ApplyBatch(prs: array<PrInfo>, m: map<string, PRData>)
    modifies prs
    ensures prs[..] == BatchApplied(old(prs[..]), m)
  {
    ghost var prs0 := prs[..];
    for i := 0 to prs.Length
      invariant forall k | 0 <= k < i :: prs[k] == BatchEntry(prs0[k], m, k)
      invariant forall k | i <= k < prs.Length :: prs[k] == prs0[k]
    {
      var key := BatchKey(i);
      if key in m {
        var u := UpdateFrom(prs[i], m[key]);
        prs[i] := u;
      }
      assert prs[i] == BatchEntry(prs0[i], m, i);
    }
    assert prs[..] == BatchApplied(prs0, m);
  }

  /** An answer without the key of a PR leaves that PR alone, and one with
      it changes neither the PR's identity nor the length of the list. */
  lemma BatchAppliedKeepsIdentity(prs: seq<PrInfo>, m: map<string, PRData>, k: nat)
    requires k < |prs|
    ensures BatchKey(k) !in m ==> BatchApplied(prs, m)[k] == prs[k]
    ensures BatchKey(k) in m ==> BatchApplied(prs, m)[k] == Updated(prs[k], m[BatchKey(k)])
    ensures var u := BatchApplied(prs, m)[k];
      u.number == prs[k].number && u.title == prs[k].title && u.headSHA == prs[k].headSHA &&
      u.headBranch == prs[k].headBranch
  {
    if BatchKey(k) in m {
      UpdatedKeepsIdentity(prs[k], m[BatchKey(k)]);
    }
  }

  // ---------------------------------------------------------------------
  // updatePRStatus

  /** The check status `updatePRStatus` gives a rollup. */
  function RollupOf(conclusions: seq<string>): string
  {
    if conclusions == [] then "NONE"
    else if exists k | 0 <= k < |conclusions| :: IsFailConclusion(conclusions[k]) then "FAILING"
    else if exists k | 0 <= k < |conclusions| :: !IsPassConclusion(conclusions[k]) then "PENDING"
    else "PASSING"
  }

  /** The PR after a successful refresh: the three states and the rollup
      from the view, and the checks from the second answer when it decodes
      (none otherwise). */
  function RefreshedFrom(pr: PrInfo, view: Reply, checks: Reply): PrInfo
    requires view.StatusView?
  {
    pr.(state := view.state, mergeable := view.mergeable, mergeStatus := view.mergeStateStatus,
        checksStatus := RollupOf(view.conclusions), checks := if checks.Checks? then checks.checks else [])
  }

  /** The exchanges of `updatePRStatus`: the view and, only when it
      decodes, the check list. */
  ghost predicate RefreshSeg(seg: seq<Exchange>, n: int)
  {
    1 <= |seg| <= 2 && seg[0].call == ViewStatus(n) &&
    (|seg| == 2 <==> seg[0].reply.StatusView?) &&
    (|seg| == 2 ==> seg[1].call == ListChecks(n))
  }

  /** The PR a refresh leaves: unchanged when the view failed. */
  ghost function RefreshOf(pr: PrInfo, seg: seq<Exchange>): PrInfo
    requires RefreshSeg(seg, pr.number)
  {
    if |seg| == 2 then RefreshedFrom(pr, seg[0].reply, seg[1].reply) else pr
  }

  method UpdatePRStatus(h: Host, pr: PrInfo) returns (p: PrInfo, err: Option<string>, ghost seg: seq<Exchange>)
    modifies h`log
    ensures h.log == old(h.log) + seg
    ensures RefreshSeg(seg, pr.number) && p == RefreshOf(pr, seg)
    ensures err.Some? <==> |seg| == 1
  {
    var view := h.Ask(ViewStatus(pr.number));
    seg := [Exchange(ViewStatus(pr.number), view)];
    if !view.StatusView? {
      err := if view.Failed? then Some(ErrorText(view.exitCode, view.output)) else Some("could not decode the PR status");
      return pr, err, seg;
    }
    var status := RollupStatus(view.conclusions);
    assert status == RollupOf(view.conclusions);
    p := pr.(state := view.state, mergeable := view.mergeable, mergeStatus := view.mergeStateStatus,
             checksStatus := status, checks := []);
    var checks := h.Ask(ListChecks(pr.number));
    seg := seg + [Exchange(ListChecks(pr.number), checks)];
    if checks.Checks? {
      p := p.(checks := checks.checks);
    }
    err := None;
  }

  /** A refresh rewrites only the status of a PR, never which PR it is or
      its review line, and its rollup is "NONE" only for an empty rollup and
      "FAILING" exactly when some check failed. */
  lemma RefreshKeepsIdentity(pr: PrInfo, seg: seq<Exchange>)
    requires RefreshSeg(seg, pr.number)
    ensures var p := RefreshOf(pr, seg);
      p.number == pr.number && p.title == pr.title && p.url == pr.url && p.headSHA == pr.headSHA &&
      p.headBranch == pr.headBranch && p.baseBranch == pr.baseBranch && p.reviewStatus == pr.reviewStatus
    ensures |seg| == 2 ==> var cs := seg[0].reply.conclusions;
      (RefreshOf(pr, seg).checksStatus == "NONE" <==> cs == []) &&
      (RefreshOf(pr, seg).checksStatus == "FAILING" <==> exists k | 0 <= k < |cs| :: IsFailConclusion(cs[k]))
  {
  }

  // ---------------------------------------------------------------------
  // updateAllPRStatus

  /** `p` is what the refresh with exchanges `seg` made of `p0`. */
  ghost predicate RefreshedBy(p0: PrInfo, p: PrInfo, seg: seq<Exchange>)
  {
    RefreshSeg(seg, p0.number) && p == RefreshOf(p0, seg)
  }

  /** The per-PR fallback after a failed batch: PR k was refreshed by the
      exchanges `segs[k]`. */
  ghost predicate RefreshedEach(prs0: seq<PrInfo>, prs: seq<PrInfo>, segs: seq<seq<Exchange>>)
  {
    |segs| == |prs0| == |prs| &&
    forall k | 0 <= k < |prs0| :: RefreshedBy(prs0[k], prs[k], segs[k])
  }

  /** `updateAllPRStatus`: the batch update, and when it fails, its error
      kept for the dashboard and every PR refreshed on its own. */
  method UpdateAllPRStatus(h: Host, repo: string, state: DashboardState)
    returns (ghost mid: seq<PrInfo>, ghost batch: seq<Exchange>, ghost segs: seq<seq<Exchange>>)
    modifies state`updateError, state.prs, h`log
    ensures h.log == old(h.log) + batch + Concat(segs)
    ensures state.prs.Length == 0 ==> state.updateError == None && batch == [] && segs == []
    ensures state.prs.Length > 0 ==> BatchRan(old(state.prs[..]), mid, repo, state.updateError, batch)
    ensures state.updateError.None? ==> segs == [] && state.prs[..] == mid
    ensures state.updateError.Some? ==> RefreshedEach(mid, state.prs[..], segs)
  {
    state.updateError := None;
    var err;
    err, batch := UpdatePRStatusBatch(h, repo, state.prs);
    mid := state.prs[..];
    if err.Some? {
      state.updateError := err;
      segs := RefreshAll(h, state.prs);
    } else {
      segs := [];
    }
  }

  /** The fallback loop of `updateAllPRStatus`; a PR whose refresh fails
      keeps its entry. */
  method RefreshAll(h: Host, prs: array<PrInfo>) returns (ghost segs: seq<seq<Exchange>>)
    modifies prs, h`log
    ensures h.log == old(h.log) + Concat(segs)
    ensures RefreshedEach(old(prs[..]), prs[..], segs)
  {
    ghost var prs0 := prs[..];
    segs := [];
    for i := 0 to prs.Length
      invariant |segs| == i
      invariant h.log == old(h.log) + Concat(segs)
      invariant RefreshedEach(prs0[..i], prs[..i], segs)
      invariant prs[i..] == prs0[i..]
    {
      ghost var done := prs[..i];
      var p, e;
      ghost var seg;
      p, e, seg := UpdatePRStatus(h, prs[i]);
      assert prs[i] == prs0[i] by { assert prs[i..][0] == prs0[i..][0]; }
      prs[i] := p;
      RefreshedEachSnoc(prs0[..i], done, segs, prs0[i], p, seg);
      assert prs0[..i + 1] == prs0[..i] + [prs0[i]];
      assert prs[..i + 1] == done + [p];
      assert prs[i + 1..] == prs0[i + 1..] by { assert prs0[i + 1..] == prs0[i..][1..]; }
      assert (segs + [seg])[..i] == segs;
      segs := segs + [seg];
    }
    assert prs[..] == prs[..prs.Length] && prs0 == prs0[..prs.Length];
  }

  lemma RefreshedEachSnoc(prs0: seq<PrInfo>, prs: seq<PrInfo>, segs: seq<seq<Exchange>>,
                          p0: PrInfo, p: PrInfo, seg: seq<Exchange>)
    requires RefreshedEach(prs0, prs, segs) && RefreshedBy(p0, p, seg)
    ensures RefreshedEach(prs0 + [p0], prs + [p], segs + [seg])
  {
  }
}
