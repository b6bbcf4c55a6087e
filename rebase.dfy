/** `rebaseRemainingPRs` of land.go: after a merged PR left the next one in
    conflict, the trunk is brought up to date and the remaining PRs of the
    stack are rebased onto it and force-pushed one by one, bottom first,
    stopping at the first that fails. */
module Rebase {
  import opened Strs
  import opened Wrappers
  import opened Status
  import opened Forge
  import opened Queries
  import opened Landing

  datatype RebaseError =
    | TrunkFailed(why: string)
    | BranchFailed(branch: string, why: string)
    | RebaseConflicts(pr: int)
    | RebaseFailed(pr: int, why: string)
    | PushFailed(pr: int, why: string)
    | ShortHead                         // the new head is printed by slicing its first eight characters

  /** The exchanges of one call: the current branch, the trunk update (the
      same three commands `landStack` pulls with), one part per PR handled,
      and the final checkout. */
  datatype RebaseRun = RebaseRun(current: Exchange, trunk: seq<Exchange>, parts: seq<seq<Exchange>>, tail: seq<Exchange>)

  function FlatRebase(rr: RebaseRun): seq<Exchange>
  {
    [rr.current] + (rr.trunk + (Concat(rr.parts) + rr.tail))
  }

  const CurrentBranchArgs: seq<string> := ["rev-parse", "--abbrev-ref", "HEAD"]

  /** The branch the repository was on: empty when that could not be read. */
  function CurrentOf(r: Reply): string
  {
    if r.Failed? then "" else OutputOf(r)
  }

  function CheckoutArgs(remote: string, branch: string, local: bool): seq<string>
  {
    if local then ["checkout", branch] else ["checkout", "-b", branch, remote + "/" + branch]
  }

  function PushArgs(remote: string, branch: string): seq<string>
  {
    ["push", "-f", remote, branch]
  }

  function FetchArgs(remote: string, branch: string): seq<string>
  {
    ["fetch", remote, branch]
  }

  function ListArgs(branch: string): seq<string>
  {
    ["branch", "--list", branch]
  }

  function RebaseArgs(remote: string, trunk: string): seq<string>
  {
    ["rebase", remote + "/" + trunk]
  }

  const AbortArgs: seq<string> := ["rebase", "--abort"]

  /** The error text of a failed command, empty for one that succeeded. */
  function Why(r: Reply): string
  {
    if r.Failed? then ErrorText(r.exitCode, r.output) else ""
  }

  /** A failed rebase that reports a conflict, in its output or its error. */
  predicate IsConflict(r: Reply)
  {
    r.Failed? && (Contains(OutputOf(r), "CONFLICT") || Contains(Why(r), "conflict"))
  }

  // ---------------------------------------------------------------------
  // One PR

  /** The exchanges for one remaining PR: fetch its branch, look for a local
      one, check it out (creating it from the remote when missing), rebase
      onto the remote trunk, then either abort a conflicting rebase or
      force-push. A failed checkout or rebase ends the part. */
  ghost predicate PartSeg(seg: seq<Exchange>, remote: string, trunk: string, pr: PrInfo)
  {
    3 <= |seg| <= 5 && CheckoutSeg(seg[..3], remote, pr.headBranch) &&
    (|seg| == 3 <==> seg[2].reply.Failed?) &&
    (|seg| > 3 ==> RebaseSeg(seg[3..], remote, trunk, pr.headBranch))
  }

  /** Fetch the branch, look for a local one, and check it out, creating it
      from the remote one when there is no local branch. */
  ghost predicate CheckoutSeg(seg: seq<Exchange>, remote: string, b: string)
  {
    |seg| == 3 && seg[0].call == Git(FetchArgs(remote, b)) && seg[1].call == Git(ListArgs(b)) &&
    seg[2].call == Git(CheckoutArgs(remote, b, Contains(OutputOf(seg[1].reply), b)))
  }

  /** Rebase onto the remote trunk, then abort a conflicting rebase or
      force-push a successful one. */
  ghost predicate RebaseSeg(seg: seq<Exchange>, remote: string, trunk: string, b: string)
  {
    1 <= |seg| <= 2 && seg[0].call == Git(RebaseArgs(remote, trunk)) &&
    (|seg| == 1 <==> seg[0].reply.Failed? && !IsConflict(seg[0].reply)) &&
    (|seg| == 2 ==> seg[1].call == Git(if IsConflict(seg[0].reply) then AbortArgs else PushArgs(remote, b)))
  }

  /** How a part ended: the first failing command names the error. */
  function PartError(seg: seq<Exchange>, pr: PrInfo): Option<RebaseError>
  {
    if |seg| < 4 then Some(BranchFailed(pr.headBranch, if |seg| == 3 then Why(seg[2].reply) else ""))
    else RebaseStepError(seg[3..], pr)
  }

  function RebaseStepError(seg: seq<Exchange>, pr: PrInfo): Option<RebaseError>
    requires seg != []
  {
    if IsConflict(seg[0].reply) then Some(RebaseConflicts(pr.number))
    else if |seg| < 2 then Some(RebaseFailed(pr.number, Why(seg[0].reply)))
    else if seg[1].reply.Failed? then Some(PushFailed(pr.number, Why(seg[1].reply)))
    else None
  }

  /** One turn of the loop over the remaining PRs. */
  method RebaseOne(h: Host, remote: string, trunk: string, pr: PrInfo)
    returns (err: Option<RebaseError>, ghost seg: seq<Exchange>)
    modifies h`log
    ensures h.log == old(h.log) + seg
    ensures PartSeg(seg, remote, trunk, pr) && err == PartError(seg, pr)
  {
    var why;
    ghost var co;
    ghost var log0 := h.log;
    why, co := CheckoutBranch(h, remote, pr.headBranch);
    if why.Some? {
      CheckoutEndsPart(co, remote, trunk, pr);
      return Some(BranchFailed(pr.headBranch, why.value)), co;
    }
    ghost var rb;
    err, rb := RebaseAndPush(h, remote, trunk, pr);
    seg := co + rb;
    AppendAssoc(log0, co, rb);
    RebaseEndsPart(co, rb, remote, trunk, pr);
  }

  lemma CheckoutEndsPart(co: seq<Exchange>, remote: string, trunk: string, pr: PrInfo)
    requires CheckoutSeg(co, remote, pr.headBranch) && co[2].reply.Failed?
    ensures PartSeg(co, remote, trunk, pr) && PartError(co, pr) == Some(BranchFailed(pr.headBranch, Why(co[2].reply)))
  {
    assert co[..3] == co;
  }

  lemma RebaseEndsPart(co: seq<Exchange>, rb: seq<Exchange>, remote: string, trunk: string, pr: PrInfo)
    requires CheckoutSeg(co, remote, pr.headBranch) && !co[2].reply.Failed?
    requires RebaseSeg(rb, remote, trunk, pr.headBranch)
    ensures PartSeg(co + rb, remote, trunk, pr) && PartError(co + rb, pr) == RebaseStepError(rb, pr)
  {
    var seg := co + rb;
    assert seg[..3] == co && seg[3..] == rb;
    assert seg[2] == co[2];
  }

  method CheckoutBranch(h: Host, remote: string, b: string) returns (why: Option<string>, ghost seg: seq<Exchange>)
    modifies h`log
    ensures h.log == old(h.log) + seg
    ensures CheckoutSeg(seg, remote, b) && why == if seg[2].reply.Failed? then Some(Why(seg[2].reply)) else None
  {
    var f := h.Ask(Git(FetchArgs(remote, b)));
    var l := h.Ask(Git(ListArgs(b)));
    var checkout := CheckoutArgs(remote, b, Contains(OutputOf(l), b));
    var c := h.Ask(Git(checkout));
    seg := [Exchange(Git(FetchArgs(remote, b)), f), Exchange(Git(ListArgs(b)), l), Exchange(Git(checkout), c)];
    why := if c.Failed? then Some(Why(c)) else None;
  }

  method RebaseAndPush(h: Host, remote: string, trunk: string, pr: PrInfo)
    returns (err: Option<RebaseError>, ghost seg: seq<Exchange>)
    modifies h`log
    ensures h.log == old(h.log) + seg
    ensures RebaseSeg(seg, remote, trunk, pr.headBranch) && err == RebaseStepError(seg, pr)
  {
    var rb := h.Ask(Git(RebaseArgs(remote, trunk)));
    seg := [Exchange(Git(RebaseArgs(remote, trunk)), rb)];
    if rb.Failed? {
      if IsConflict(rb) {
        var a := h.Ask(Git(AbortArgs));
        seg := seg + [Exchange(Git(AbortArgs), a)];
        return Some(RebaseConflicts(pr.number)), seg;
      }
      return Some(RebaseFailed(pr.number, Why(rb))), seg;
    }
    var p := h.Ask(Git(PushArgs(remote, pr.headBranch)));
    seg := seg + [Exchange(Git(PushArgs(remote, pr.headBranch)), p)];
    err := if p.Failed? then Some(PushFailed(pr.number, Why(p))) else None;
  }

  /** The part pushed the PR's rebased branch. */
  ghost predicate Pushed(seg: seq<Exchange>, remote: string, pr: PrInfo)
  {
    |seg| == 5 && seg[4].call == Git(PushArgs(remote, pr.headBranch)) && !seg[4].reply.Failed?
  }

  /** A part succeeds exactly when it force-pushed the branch, and a
      conflicting rebase is always aborted. */
  lemma PartSucceedsIffPushed(seg: seq<Exchange>, remote: string, trunk: string, pr: PrInfo)
    requires PartSeg(seg, remote, trunk, pr)
    ensures PartError(seg, pr).None? <==> Pushed(seg, remote, pr)
    ensures PartError(seg, pr) == Some(RebaseConflicts(pr.number)) ==>
      |seg| == 5 && seg[4].call == Git(AbortArgs)
  {
    if |seg| > 3 {
      assert seg[3..][0] == seg[3];
      if |seg| == 5 {
        assert seg[3..][1] == seg[4];
      }
    }
  }

  // ---------------------------------------------------------------------
  // The loop

  /** Each element of `xs` is `ok` with the PR at its position, and each
      one but the last is `done`: the shape of a loop over the remaining
      PRs that goes on only after a success. */
  ghost predicate InOrder<T>(xs: seq<T>, prs: seq<PrInfo>, ok: (T, PrInfo) -> bool, done: (T, PrInfo) -> bool)
  {
    |xs| <= |prs| &&
    (forall k | 0 <= k < |xs| :: ok(xs[k], prs[k])) &&
    (forall k | 0 <= k < |xs| - 1 :: done(xs[k], prs[k]))
  }

  lemma InOrderSnoc<T>(xs: seq<T>, x: T, prs: seq<PrInfo>, ok: (T, PrInfo) -> bool, done: (T, PrInfo) -> bool)
    requires InOrder(xs, prs, ok, done) && |xs| < |prs| && ok(x, prs[|xs|])
    requires xs != [] ==> done(xs[|xs| - 1], prs[|xs| - 1])
    ensures InOrder(xs + [x], prs, ok, done)
  {
    var next := xs + [x];
    forall k | 0 <= k < |next| ensures ok(next[k], prs[k]) {
      if k < |xs| {
        assert next[k] == xs[k];
      }
    }
    forall k | 0 <= k < |next| - 1 ensures done(next[k], prs[k]) {
      assert next[k] == xs[k];
    }
  }

  ghost function PartOk(remote: string, trunk: string): (seq<Exchange>, PrInfo) -> bool
  {
    (seg, pr) => PartSeg(seg, remote, trunk, pr)
  }

  ghost function PartPushed(remote: string): (seq<Exchange>, PrInfo) -> bool
  {
    (seg, pr) => Pushed(seg, remote, pr)
  }

  /** The parts so far went through `prs` in order, each one after the one
      before it force-pushed its branch. */
  ghost predicate PartsInOrder(parts: seq<seq<Exchange>>, remote: string, trunk: string, prs: seq<PrInfo>)
  {
    InOrder(parts, prs, PartOk(remote, trunk), PartPushed(remote))
  }

  /** What `PartsInOrder` says of the part at `k`. */
  lemma PartAt(parts: seq<seq<Exchange>>, remote: string, trunk: string, prs: seq<PrInfo>, k: nat)
    requires PartsInOrder(parts, remote, trunk, prs) && k < |parts|
    ensures k < |prs| && PartSeg(parts[k], remote, trunk, prs[k])
    ensures k < |parts| - 1 ==> Pushed(parts[k], remote, prs[k])
  {
    assert PartOk(remote, trunk)(parts[k], prs[k]);
  }

  ghost function PartsError(parts: seq<seq<Exchange>>, remote: string, trunk: string, prs: seq<PrInfo>): Option<RebaseError>
    requires PartsInOrder(parts, remote, trunk, prs)
  {
    if parts == [] then None else PartError(parts[|parts| - 1], prs[|parts| - 1])
  }

  lemma LastPartPushed(parts: seq<seq<Exchange>>, remote: string, trunk: string, prs: seq<PrInfo>)
    requires PartsInOrder(parts, remote, trunk, prs) && parts != []
    ensures PartsError(parts, remote, trunk, prs).None? <==> Pushed(parts[|parts| - 1], remote, prs[|parts| - 1])
  {
    var j := |parts| - 1;
    PartAt(parts, remote, trunk, prs, j);
    PartSucceedsIffPushed(parts[j], remote, trunk, prs[j]);
  }

  lemma PartsSnoc(parts: seq<seq<Exchange>>, seg: seq<Exchange>, remote: string, trunk: string, prs: seq<PrInfo>)
    requires PartsInOrder(parts, remote, trunk, prs) && |parts| < |prs|
    requires PartsError(parts, remote, trunk, prs).None?
    requires PartSeg(seg, remote, trunk, prs[|parts|])
    ensures PartsInOrder(parts + [seg], remote, trunk, prs)
    ensures PartsError(parts + [seg], remote, trunk, prs) == PartError(seg, prs[|parts|])
  {
    assert PartOk(remote, trunk)(seg, prs[|parts|]);
    if parts != [] {
      var j := |parts| - 1;
      LastPartPushed(parts, remote, trunk, prs);
      assert PartPushed(remote)(parts[j], prs[j]);
    }
    InOrderSnoc(parts, seg, prs, PartOk(remote, trunk), PartPushed(remote));
  }

  method RebaseEach(h: Host, remote: string, trunk: string, prs: seq<PrInfo>)
    returns (err: Option<RebaseError>, ghost parts: seq<seq<Exchange>>)
    modifies h`log
    ensures h.log == old(h.log) + Concat(parts)
    ensures PartsInOrder(parts, remote, trunk, prs) && err == PartsError(parts, remote, trunk, prs)
    ensures err.None? ==> |parts| == |prs|
  {
    parts := [];
    err := None;
    var i := 0;
    ghost var log0 := h.log;
    while i < |prs| && err.None?
      invariant i == |parts| <= |prs|
      invariant h.log == log0 + Concat(parts)
      invariant PartsInOrder(parts, remote, trunk, prs) && err == PartsError(parts, remote, trunk, prs)
    {
      ghost var seg;
      err, seg := RebaseOne(h, remote, trunk, prs[i]);
      ConcatSnoc(parts, seg);
      AppendAssoc(log0, Concat(parts), seg);
      PartsSnoc(parts, seg, remote, trunk, prs);
      parts := parts + [seg];
      i := i + 1;
    }
  }

  // ---------------------------------------------------------------------
  // The whole call

  /** The final checkout: the last rebased branch (and its new head, which
      is printed by its first eight characters), or when that fails, the
      original branch or else the trunk. With nothing rebased, the original
      branch is restored if there was one other than the trunk. */
  ghost predicate TailSeg(tail: seq<Exchange>, trunk: string, prs: seq<PrInfo>, current: string)
  {
    var back := current != "" && current != trunk;
    if prs != [] then
      |tail| == 2 && tail[0].call == Git(["checkout", prs[|prs| - 1].headBranch]) &&
      tail[1].call == Git(if !tail[0].reply.Failed? then ["rev-parse", "HEAD"]
                          else if back then ["checkout", current] else ["checkout", trunk])
    else if back then
      1 <= |tail| <= 2 && tail[0].call == Git(["checkout", current]) &&
      (|tail| == 2 <==> tail[0].reply.Failed?) &&
      (|tail| == 2 ==> tail[1].call == Git(["checkout", trunk]))
    else tail == []
  }

  ghost function TailError(tail: seq<Exchange>, trunk: string, prs: seq<PrInfo>, current: string): Option<RebaseError>
    requires TailSeg(tail, trunk, prs, current)
  {
    if prs != [] && !tail[0].reply.Failed? && |OutputOf(tail[1].reply)| < 8 then Some(ShortHead) else None
  }

  method RestoreBranch(h: Host, trunk: string, prs: seq<PrInfo>, current: string)
    returns (err: Option<RebaseError>, ghost tail: seq<Exchange>)
    modifies h`log
    ensures h.log == old(h.log) + tail
    ensures TailSeg(tail, trunk, prs, current) && err == TailError(tail, trunk, prs, current)
  {
    var back := current != "" && current != trunk;
    if prs != [] {
      var last := ["checkout", prs[|prs| - 1].headBranch];
      var c := h.Ask(Git(last));
      var next := if !c.Failed? then ["rev-parse", "HEAD"] else if back then ["checkout", current] else ["checkout", trunk];
      var r := h.Ask(Git(next));
      tail := [Exchange(Git(last), c), Exchange(Git(next), r)];
      err := if !c.Failed? && |OutputOf(r)| < 8 then Some(ShortHead) else None;
    } else if back {
      var c := h.Ask(Git(["checkout", current]));
      tail := [Exchange(Git(["checkout", current]), c)];
      if c.Failed? {
        var r := h.Ask(Git(["checkout", trunk]));
        tail := tail + [Exchange(Git(["checkout", trunk]), r)];
      }
      err := None;
    } else {
      tail := [];
      err := None;
    }
  }

  /** What a whole call did: the trunk update, then, only if it went
      through, the PRs in order, then, only if all of them went through,
      the final checkout. */
  ghost predicate Rebased(rr: RebaseRun, remote: string, trunk: string, prs: seq<PrInfo>)
  {
    rr.current.call == Git(CurrentBranchArgs) &&
    PullSeg(rr.trunk, remote, trunk) &&
    (PullError(rr.trunk).Some? ==> rr.parts == [] && rr.tail == []) &&
    (PullError(rr.trunk).None? ==>
      PartsInOrder(rr.parts, remote, trunk, prs) &&
      (PartsError(rr.parts, remote, trunk, prs).Some? ==> rr.tail == []) &&
      (PartsError(rr.parts, remote, trunk, prs).None? ==>
        |rr.parts| == |prs| && TailSeg(rr.tail, trunk, prs, CurrentOf(rr.current.reply))))
  }

  ghost function RebaseOutcome(rr: RebaseRun, remote: string, trunk: string, prs: seq<PrInfo>): Option<RebaseError>
    requires Rebased(rr, remote, trunk, prs)
  {
    if PullError(rr.trunk).Some? then Some(TrunkFailed(PullError(rr.trunk).value))
    else if PartsError(rr.parts, remote, trunk, prs).Some? then PartsError(rr.parts, remote, trunk, prs)
    else TailError(rr.tail, trunk, prs, CurrentOf(rr.current.reply))
  }

  /** `rebaseRemainingPRs`, without its closing five-second wait. */
  method RebaseRemainingPRs(h: Host, remote: string, trunk: string, prs: seq<PrInfo>)
    returns (err: Option<RebaseError>, ghost rr: RebaseRun)
    modifies h`log
    ensures h.log == old(h.log) + FlatRebase(rr)
    ensures Rebased(rr, remote, trunk, prs) && err == RebaseOutcome(rr, remote, trunk, prs)
  {
    ghost var start := h.log;
    var cr := h.Ask(Git(CurrentBranchArgs));
    ghost var c := Exchange(Git(CurrentBranchArgs), cr);
    var current := CurrentOf(cr);
    var perr;
    ghost var trunkSeg;
    perr, trunkSeg := PullTrunk(h, remote, trunk);
    rr := RebaseRun(c, trunkSeg, [], []);
    if perr.Some? {
      RebaseLog(start, c, trunkSeg, [], []);
      return Some(TrunkFailed(perr.value)), rr;
    }
    ghost var parts;
    err, parts := RebaseEach(h, remote, trunk, prs);
    rr := rr.(parts := parts);
    if err.Some? {
      RebaseLog(start, c, trunkSeg, parts, []);
      return;
    }
    ghost var tail;
    err, tail := RestoreBranch(h, trunk, prs, current);
    rr := rr.(tail := tail);
    RebaseLog(start, c, trunkSeg, parts, tail);
  }

  lemma RebaseLog(start: seq<Exchange>, c: Exchange, t: seq<Exchange>, parts: seq<seq<Exchange>>, tail: seq<Exchange>)
    ensures start + [c] + t + Concat(parts) + tail == start + FlatRebase(RebaseRun(c, t, parts, tail))
    ensures parts == [] && tail == [] ==> start + [c] + t == start + FlatRebase(RebaseRun(c, t, parts, tail))
    ensures tail == [] ==> start + [c] + t + Concat(parts) == start + FlatRebase(RebaseRun(c, t, parts, tail))
  {
    var p := Concat(parts);
    AppendAssoc(start + [c] + t, p, tail);
    AppendAssoc(start + [c], t, p + tail);
    AppendAssoc(start, [c], t + (p + tail));
    if parts == [] && tail == [] {
      assert p + tail == [];
      assert t + [] == t;
    }
    if tail == [] {
      assert p + tail == p;
    }
  }

  /** Every part before the last force-pushed its branch, and the last one
      did exactly when the loop ended without an error. */
  lemma PartsPushed(parts: seq<seq<Exchange>>, remote: string, trunk: string, prs: seq<PrInfo>)
    requires PartsInOrder(parts, remote, trunk, prs)
    ensures forall k | 0 <= k < |parts| - 1 :: Pushed(parts[k], remote, prs[k])
    ensures PartsError(parts, remote, trunk, prs).Some? ==>
      parts != [] && !Pushed(parts[|parts| - 1], remote, prs[|parts| - 1])
    ensures PartsError(parts, remote, trunk, prs).None? ==>
      forall k | 0 <= k < |parts| :: Pushed(parts[k], remote, prs[k])
  {
    var last := PartsError(parts, remote, trunk, prs).None?;
    if parts != [] {
      LastPartPushed(parts, remote, trunk, prs);
    }
    forall k | 0 <= k < |parts| && (k < |parts| - 1 || last) ensures Pushed(parts[k], remote, prs[k]) {
      if k < |parts| - 1 {
        assert PartPushed(remote)(parts[k], prs[k]);
      }
    }
  }

  /** The remaining PRs are handled in stack order, each only after the one
      before it was pushed: when the rebase stops at a PR, every PR before
      it was force-pushed and it was not; when it does not stop, all were. */
  lemma RebaseStopsAtFirstFailure(rr: RebaseRun, remote: string, trunk: string, prs: seq<PrInfo>)
    requires Rebased(rr, remote, trunk, prs)
    ensures forall k | 0 <= k < |rr.parts| - 1 :: Pushed(rr.parts[k], remote, prs[k])
    ensures PartsError(rr.parts, remote, trunk, prs).Some? ==>
      rr.parts != [] && !Pushed(rr.parts[|rr.parts| - 1], remote, prs[|rr.parts| - 1]) && rr.tail == []
    ensures RebaseOutcome(rr, remote, trunk, prs).None? ==>
      |rr.parts| == |prs| && forall k | 0 <= k < |prs| :: Pushed(rr.parts[k], remote, prs[k])
  {
    if PullError(rr.trunk).None? {
      PartsPushed(rr.parts, remote, trunk, prs);
    }
  }
}
