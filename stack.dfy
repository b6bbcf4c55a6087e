/** main.go: preparing the stack for submission — the duplicate
    remote-ref check, assigning remote refs to commits lacking one, the two
    ways of picking a commit's predecessor, the commit rewrite that adds the
    new trailers, and the small string helpers. */
module Stack {
  import opened Strs
  import opened Wrappers
  import opened KeyVals
  import opened Types

  // ---------------------------------------------------------------
  // The duplicate remote-ref check

  /** Commits `i < j` of the stack share a non-empty remote ref. */
  predicate DuplicateAt(list: seq<Commit>, i: nat, j: nat)
    reads list
  {
    i < j < |list| && list[i].GetRemoteRef() != "" && list[i].GetRemoteRef() == list[j].GetRemoteRef()
  }

  /** No two of the first `n` commits share a non-empty remote ref. */
  predicate UniqueRefs(list: seq<Commit>, n: nat)
    reads list
  {
    forall i, j | 0 <= i < j < n :: !DuplicateAt(list, i, j)
  }

  /** Every commit of the stack has a hash long enough for `ShortHash`,
      as the 40-digit hashes of the log parser are. */
  predicate HashesLongEnough(list: seq<Commit>)
    reads list
  {
    forall k | 0 <= k < |list| :: |list[k].hash| >= 8
  }

  function DuplicateMessage(ref: string, first: string, second: string): string
  {
    "duplicated remote ref " + Quote(ref) + " found for " + Quote(first) + " and " + Quote(second)
  }

  /** The check before submitting: the run stops exactly when two commits
      share a non-empty remote ref, naming the ref and the short hashes of
      the first such pair the scan meets — the earlier commit and the
      first later one repeating an earlier ref. Empty refs are ignored. */
  method CheckDuplicateRefs(list: seq<Commit>) returns (r: Result<()>)
    requires HashesLongEnough(list)
    ensures r.Ok? <==> UniqueRefs(list, |list|)
    ensures r.Err? ==>
      exists i: nat, j: nat | DuplicateAt(list, i, j) ::
        UniqueRefs(list, j) &&
        r.error == DuplicateMessage(list[j].GetRemoteRef(), list[i].ShortHash(), list[j].ShortHash())
  {
    var mapRefs: map<string, Commit> := map[];
    ghost var at: map<string, nat> := map[];
    var k := 0;
    while k < |list|
      invariant 0 <= k <= |list|
      invariant UniqueRefs(list, k)
      invariant mapRefs.Keys == at.Keys
      invariant forall ref | ref in at ::
        at[ref] < k && list[at[ref]].GetRemoteRef() == ref && mapRefs[ref] == list[at[ref]]
      invariant forall t | 0 <= t < k && list[t].GetRemoteRef() != "" :: list[t].GetRemoteRef() in at
    {
      var commit := list[k];
      var ref := commit.GetRemoteRef();
      if ref != "" {
        if ref in mapRefs {
          var last := mapRefs[ref];
          assert DuplicateAt(list, at[ref], k);
          return Err(DuplicateMessage(last.GetRemoteRef(), last.ShortHash(), commit.ShortHash()));
        }
        mapRefs := mapRefs[ref := commit];
        at := at[ref := k];
      }
      k := k + 1;
    }
    return Ok(());
  }

  // ---------------------------------------------------------------
  // Commits without a remote ref

  /** A commit `findCommitsWithoutRemoteRef` yields: pushed, and without a
      remote ref yet. */
  predicate NeedsRef(c: Commit)
    reads c`skip, c`attrs
  {
    !c.skip && Lookup(c.attrs, KeyRemoteRef) == ""
  }

  /** The commits `findCommitsWithoutRemoteRef` yields, in stack order. */
  function WithoutRemoteRef(list: seq<Commit>): seq<Commit>
    reads list
  {
    if list == [] then []
    else WithoutRemoteRef(list[..|list| - 1]) + (if NeedsRef(list[|list| - 1]) then [list[|list| - 1]] else [])
  }

  /** The yielded commits are exactly the stack's commits that need a ref. */
  lemma {:induction false} WithoutRemoteRefMembers(list: seq<Commit>)
    ensures forall c :: c in WithoutRemoteRef(list) <==> c in list && NeedsRef(c)
  {
    if list != [] {
      var init := list[..|list| - 1];
      WithoutRemoteRefMembers(init);
      assert list == init + [list[|list| - 1]];
    }
  }

  /** Filtering keeps stack order: it distributes over concatenation. */
  lemma {:induction false} WithoutRemoteRefAppend(a: seq<Commit>, b: seq<Commit>)
    ensures WithoutRemoteRef(a + b) == WithoutRemoteRef(a) + WithoutRemoteRef(b)
    decreases |b|
  {
    if b != [] {
      var init := b[..|b| - 1];
      assert (a + b)[..|a + b| - 1] == a + init;
      WithoutRemoteRefAppend(a, init);
    } else {
      assert a + b == a;
    }
  }

  /** `findCommitsWithoutRemoteRef`, with the values it yields collected. */
  method FindCommitsWithoutRemoteRef(commits: seq<Commit>) returns (r: seq<Commit>)
    ensures r == WithoutRemoteRef(commits)
  {
    r := [];
    var k := 0;
    while k < |commits|
      invariant 0 <= k <= |commits|
      invariant r == WithoutRemoteRef(commits[..k])
    {
      assert commits[..k + 1][..k] == commits[..k];
      var commit := commits[k];
      if !commit.skip && commit.GetRemoteRef() == "" {
        r := r + [commit];
      }
      k := k + 1;
    }
    assert commits[..k] == commits;
  }

  /** Hashes are unique in the stack, as git's are. */
  predicate DistinctHashes(list: seq<Commit>)
    reads list
  {
    forall i, j | 0 <= i < j < |list| :: list[i].hash != list[j].hash
  }

  /** The remote ref given to a commit that lacks one: the user, a
      slash, and the short hash. */
  function NewRemoteRef(user: string, hash: string): string
    requires |hash| >= 8
  {
    user + "/" + hash[..8]
  }

  /** The trailers a commit ends up with: `SetAttr` of its new remote ref
      when it needed one, its own otherwise. */
  function Assigned(attrs: seq<KeyVal>, needs: bool, ref: string): seq<KeyVal>
  {
    if needs then WithAttr(attrs, KeyRemoteRef, ref) else attrs
  }

  /** A commit that needed a ref has one afterwards, and one that did not
      keeps its own. */
  lemma AssignedRef(attrs: seq<KeyVal>, needs: bool, ref: string)
    ensures needs ==> Lookup(Assigned(attrs, needs, ref), KeyRemoteRef) == ref
    ensures !needs ==> Assigned(attrs, needs, ref) == attrs
  {
    if needs {
      WithAttrSpec(attrs, KeyRemoteRef, ref);
    }
  }

  /** The body of the assignment loop for one commit: give it its new
      remote ref if it needs one, and say whether it did. */
  method AssignRef(commit: Commit, user: string) returns (updated: bool)
    requires |commit.hash| >= 8
    modifies commit`attrs
    ensures updated == old(NeedsRef(commit))
    ensures commit.attrs == Assigned(old(commit.attrs), updated, NewRemoteRef(user, commit.hash))
  {
    updated := !commit.skip && commit.GetRemoteRef() == "";
    if updated {
      var suffix := commit.ShortHash();
      var remoteRef := user + "/" + suffix;
      commit.SetAttr(KeyRemoteRef, remoteRef);
    }
  }

  /** The hashes of the stack, in order. */
  function Hashes(list: seq<Commit>): (r: seq<string>)
    reads list
    ensures |r| == |list|
  {
    seq(|list|, t requires 0 <= t < |list| reads list => list[t].hash)
  }

  /** The flags of the commits that need a remote ref. */
  function NeedsFlags(list: seq<Commit>): (r: seq<bool>)
    reads list
    ensures |r| == |list|
  {
    seq(|list|, t requires 0 <= t < |list| reads list => NeedsRef(list[t]))
  }

  /** Assigning remote refs (main.go, the loop over
      `findCommitsWithoutRemoteRef`): each yielded commit gets
      `user/<short hash>` through `SetAttr` and is recorded by hash; every
      other commit keeps its trailers. */
  method FillRemoteRefs(list: seq<Commit>, user: string) returns (toUpdate: map<string, Commit>)
    requires HashesLongEnough(list) && DistinctHashes(list)
    modifies list`attrs
    ensures forall k | 0 <= k < |list| ::
      list[k].attrs == Assigned(old(list[k].attrs), old(NeedsRef(list[k])), NewRemoteRef(user, list[k].hash))
    ensures forall k | 0 <= k < |list| :: list[k].hash in toUpdate <==> old(NeedsRef(list[k]))
    ensures forall h | h in toUpdate :: toUpdate[h].hash == h && toUpdate[h] in list
  {
    ghost var before := seq(|list|, t requires 0 <= t < |list| reads list => list[t].attrs);
    ghost var needs := NeedsFlags(list);
    ghost var hashes := Hashes(list);
    toUpdate := map[];
    var k := 0;
    while k < |list|
      invariant 0 <= k <= |list|
      invariant forall t | 0 <= t < |list| :: list[t].hash == hashes[t]
      invariant forall t | 0 <= t < k :: list[t].attrs == Assigned(before[t], needs[t], NewRemoteRef(user, hashes[t]))
      invariant forall t | k <= t < |list| :: list[t].attrs == before[t]
      invariant forall t | 0 <= t < |list| :: hashes[t] in toUpdate <==> t < k && needs[t]
      invariant forall h | h in toUpdate :: toUpdate[h].hash == h && toUpdate[h] in list
    {
      var commit := list[k];
      assert forall t | 0 <= t < |list| && t != k :: list[t] != commit;
      var updated := AssignRef(commit, user);
      if updated {
        toUpdate := toUpdate[commit.hash := commit];
      }
      k := k + 1;
    }
  }

  /** After the assignment every pushed commit has a non-empty remote ref,
      and exactly the commits `findCommitsWithoutRemoteRef` yields were
      changed. */
  lemma AssignedRefsComplete(list: seq<Commit>, user: string, k: nat)
    requires k < |list| && |list[k].hash| >= 8
    ensures var a := Assigned(list[k].attrs, NeedsRef(list[k]), NewRemoteRef(user, list[k].hash));
      (!list[k].skip ==> Lookup(a, KeyRemoteRef) != "") &&
      (list[k] !in WithoutRemoteRef(list) ==> a == list[k].attrs)
  {
    WithoutRemoteRefMembers(list);
    AssignedRef(list[k].attrs, NeedsRef(list[k]), NewRemoteRef(user, list[k].hash));
  }

  // ---------------------------------------------------------------
  // The commit before a given one

  /** Position of the first occurrence of `c` in `list`, by identity;
      -1 if absent. */
  function Find(list: seq<Commit>, c: Commit): (r: int)
    ensures -1 <= r < |list|
    ensures r == -1 <==> c !in list
    ensures r >= 0 ==> list[r] == c && c !in list[..r]
  {
    if list == [] then -1
    else if list[0] == c then 0
    else
      var k := Find(list[1..], c);
      if k == -1 then -1
      else assert list[..k + 1] == [list[0]] + list[1..][..k]; k + 1
  }

  /** The last pushed commit among the first `n`. */
  function LastUnskipped(list: seq<Commit>, n: nat): Option<Commit>
    reads list
    requires n <= |list|
  {
    if n == 0 then None
    else if list[n - 1].skip then LastUnskipped(list, n - 1)
    else Some(list[n - 1])
  }

  /** The first pushed commit among the first `n`. */
  function FirstUnskipped(list: seq<Commit>, n: nat): Option<Commit>
    reads list
    requires n <= |list|
  {
    if n == 0 then None
    else if list[0].skip then FirstUnskipped(list[1..], n - 1)
    else Some(list[0])
  }

  /** `LastUnskipped` picks the pushed commit closest below `n`, and is
      absent exactly when all of them are skipped. */
  lemma {:induction false} LastUnskippedSpec(list: seq<Commit>, n: nat)
    requires n <= |list|
    ensures LastUnskipped(list, n).None? <==> forall t | 0 <= t < n :: list[t].skip
    ensures LastUnskipped(list, n).Some? ==>
      exists j | 0 <= j < n :: list[j] == LastUnskipped(list, n).value && !list[j].skip &&
        forall t | j < t < n :: list[t].skip
  {
    if n > 0 && list[n - 1].skip {
      LastUnskippedSpec(list, n - 1);
    }
  }

  /** `FirstUnskipped` picks the pushed commit closest to the bottom of
      the stack, and is absent exactly when all of them are skipped. */
  lemma {:induction false} FirstUnskippedSpec(list: seq<Commit>, n: nat)
    requires n <= |list|
    ensures FirstUnskipped(list, n).None? <==> forall t | 0 <= t < n :: list[t].skip
    ensures FirstUnskipped(list, n).Some? ==>
      exists j | 0 <= j < n :: list[j] == FirstUnskipped(list, n).value && !list[j].skip &&
        forall t | 0 <= t < j :: list[t].skip
  {
    if n > 0 && list[0].skip {
      FirstUnskippedSpec(list[1..], n - 1);
      forall t | 1 <= t < n ensures list[t] == list[1..][t - 1] { }
      if FirstUnskipped(list, n).Some? {
        var j :| 0 <= j < n - 1 && list[1..][j] == FirstUnskipped(list, n).value && !list[1..][j].skip &&
          forall t | 0 <= t < j :: list[1..][t].skip;
        assert list[j + 1] == FirstUnskipped(list, n).value && !list[j + 1].skip;
        assert forall t | 0 <= t < j + 1 :: list[t].skip by {
          forall t | 0 <= t < j + 1 ensures list[t].skip {
            if t > 0 { assert list[t] == list[1..][t - 1]; }
          }
        }
      }
    }
  }

  /** `prevCommit`: the last pushed commit strictly before `commit` (the
      first occurrence, by identity), absent if there is none; a commit
      not in the stack makes it panic. */
  method PrevCommit(list: seq<Commit>, commit: Commit) returns (r: Result<Option<Commit>>)
    ensures r.Err? <==> commit !in list
    ensures r.Ok? ==> r.value == LastUnskipped(list, Find(list, commit))
  {
    var prev: Option<Commit> := None;
    var k := 0;
    while k < |list|
      invariant 0 <= k <= |list|
      invariant commit !in list[..k]
      invariant prev == LastUnskipped(list, k)
    {
      var cm := list[k];
      if cm == commit {
        return Ok(prev);
      }
      assert list[..k + 1] == list[..k] + [cm];
      if !cm.skip {
        prev := Some(cm);
      }
      k := k + 1;
    }
    assert list[..k] == list;
    return Err("not found");
  }

  /** The predecessor chosen where PR numbers are looked up (main.go,
      the inner loop over `j < i`): the first pushed commit below
      position `i`, not the closest one. */
  method PrevForPRNumber(list: seq<Commit>, i: nat) returns (prev: Option<Commit>)
    requires i <= |list|
    ensures prev == FirstUnskipped(list, i)
  {
    prev := None;
    var j := 0;
    while j < i
      invariant 0 <= j <= i
      invariant forall t | 0 <= t < j :: list[t].skip
      invariant FirstUnskipped(list, i) == FirstUnskipped(list[j..], i - j)
    {
      var cm := list[j];
      assert list[j..][1..] == list[j + 1..];
      if !cm.skip {
        prev := Some(cm);
        break;
      }
      j := j + 1;
    }
  }

  /** The two choices differ once two commits below are pushed: for a
      third commit, `prevCommit` answers the second and the PR-number
      lookup the first. */
  lemma PrevChoicesDiffer(list: seq<Commit>)
    requires |list| == 3 && !list[0].skip && !list[1].skip
    ensures LastUnskipped(list, 2) == Some(list[1])
    ensures FirstUnskipped(list, 2) == Some(list[0])
  {
  }

  // ---------------------------------------------------------------
  // Rewriting the commits

  /** `recreateCommit` as an oracle: the hash `git commit-tree` prints for
      the commit with the given hash, recreated on the given parent with
      the given message ("" keeps the original message). */
  type Recreate = (string, string, string) -> string

  /** The hash of the commit `recreate` creates for `hash` with the given
      parent and message (an empty message keeps the original one). */
  function Recreated(recreate: Recreate, hash: string, parent: string, message: string): string
  {
    recreate(hash, parent, message)
  }

  /** The parent the rewrite gives commit `k`: the original parent of the
      first commit, otherwise the previous commit's replacement if it has
      one, or its original hash. */
  function ParentFor(hashes: seq<string>, first: string, r: map<string, string>, k: nat): string
    requires k < |hashes|
  {
    if k == 0 then first
    else if hashes[k - 1] in r then r[hashes[k - 1]]
    else hashes[k - 1]
  }

  /** Whether the previous commit was replaced by a non-empty hash. */
  predicate ParentChanged(hashes: seq<string>, r: map<string, string>, k: nat)
    requires k < |hashes|
  {
    k > 0 && hashes[k - 1] in r && r[hashes[k - 1]] != ""
  }

  /** One turn of the rewrite loop: commit `k` is recreated when it needs
      a remote ref (its new message is in `msgs`) or its parent changed. */
  function RewriteStep(hashes: seq<string>, msgs: map<string, string>, first: string, recreate: Recreate,
                       r: map<string, string>, k: nat): map<string, string>
    requires k < |hashes|
  {
    var h := hashes[k];
    if h in msgs || ParentChanged(hashes, r, k) then
      r[h := Recreated(recreate, h, ParentFor(hashes, first, r, k), if h in msgs then msgs[h] else "")]
    else r
  }

  /** The replacement map after the first `n` turns. */
  function Rewrite(hashes: seq<string>, msgs: map<string, string>, first: string, recreate: Recreate, n: nat): map<string, string>
    requires n <= |hashes|
  {
    if n == 0 then map[]
    else RewriteStep(hashes, msgs, first, recreate, Rewrite(hashes, msgs, first, recreate, n - 1), n - 1)
  }

  predicate Distinct(hashes: seq<string>)
  {
    forall i, j | 0 <= i < j < |hashes| :: hashes[i] != hashes[j]
  }

  /** Only hashes of the stack are replaced. */
  lemma {:induction false} RewriteKeys(hashes: seq<string>, msgs: map<string, string>, first: string, recreate: Recreate, n: nat)
    requires n <= |hashes|
    ensures forall h | h in Rewrite(hashes, msgs, first, recreate, n) :: h in hashes[..n]
  {
    if n > 0 {
      RewriteKeys(hashes, msgs, first, recreate, n - 1);
      assert hashes[..n] == hashes[..n - 1] + [hashes[n - 1]];
    }
  }

  /** Once turn `k` is over, later turns leave commit `k`'s entry alone. */
  lemma {:induction false} RewriteStable(hashes: seq<string>, msgs: map<string, string>, first: string, recreate: Recreate,
                                         k: nat, n: nat)
    requires Distinct(hashes) && k < n <= |hashes|
    ensures var r, s := Rewrite(hashes, msgs, first, recreate, n), Rewrite(hashes, msgs, first, recreate, k + 1);
      (hashes[k] in r <==> hashes[k] in s) && (hashes[k] in r ==> r[hashes[k]] == s[hashes[k]])
    decreases n
  {
    if n > k + 1 {
      RewriteStable(hashes, msgs, first, recreate, k, n - 1);
      assert hashes[n - 1] != hashes[k];
    }
  }

  /** Commit `k` is replaced exactly when it needs a remote ref or the
      commit before it was replaced by a non-empty hash, and its
      replacement is the commit recreated on the parent `ParentFor` picks,
      judged on the final map. */
  lemma RewriteReplaced(hashes: seq<string>, msgs: map<string, string>, first: string, recreate: Recreate, k: nat)
    requires Distinct(hashes) && k < |hashes|
    ensures var r := Rewrite(hashes, msgs, first, recreate, |hashes|);
      (hashes[k] in r <==> hashes[k] in msgs || ParentChanged(hashes, r, k)) &&
      (hashes[k] in r ==>
        r[hashes[k]] == Recreated(recreate, hashes[k], ParentFor(hashes, first, r, k), if hashes[k] in msgs then msgs[hashes[k]] else ""))
  {
    var n := |hashes|;
    var before := Rewrite(hashes, msgs, first, recreate, k);
    RewriteKeys(hashes, msgs, first, recreate, k);
    assert hashes[k] !in before by {
      forall j | 0 <= j < k ensures hashes[..k][j] != hashes[k] { }
    }
    RewriteStable(hashes, msgs, first, recreate, k, n);
    if k > 0 {
      RewriteStable(hashes, msgs, first, recreate, k - 1, n);
      RewriteStable(hashes, msgs, first, recreate, k - 1, k);
    }
  }

  /** A commit before the first that needs a remote ref keeps its hash. */
  lemma {:induction false} RewriteKeepsPrefix(hashes: seq<string>, msgs: map<string, string>, first: string, recreate: Recreate, n: nat)
    requires n <= |hashes| && forall t | 0 <= t < n :: hashes[t] !in msgs
    ensures Rewrite(hashes, msgs, first, recreate, n) == map[]
  {
    if n > 0 {
      RewriteKeepsPrefix(hashes, msgs, first, recreate, n - 1);
    }
  }

  /** When `git commit-tree` always prints a hash, a replaced commit has
      every later commit replaced too. */
  lemma {:induction false} RewritePropagates(hashes: seq<string>, msgs: map<string, string>, first: string, recreate: Recreate,
                                             k: nat, j: nat)
    requires Distinct(hashes) && k <= j < |hashes|
    requires forall h, p, m :: recreate(h, p, m) != ""
    requires hashes[k] in Rewrite(hashes, msgs, first, recreate, |hashes|)
    ensures hashes[j] in Rewrite(hashes, msgs, first, recreate, |hashes|)
    decreases j - k
  {
    if j > k {
      RewritePropagates(hashes, msgs, first, recreate, k, j - 1);
      RewriteReplaced(hashes, msgs, first, recreate, j - 1);
      RewriteReplaced(hashes, msgs, first, recreate, j);
    }
  }

  /** When `git commit-tree` always prints a hash, some commit is replaced
      exactly when the last one is: HEAD moves iff anything was rewritten. */
  lemma RewriteMovesHead(hashes: seq<string>, msgs: map<string, string>, first: string, recreate: Recreate)
    requires Distinct(hashes) && |hashes| > 0
    requires forall h, p, m :: recreate(h, p, m) != ""
    ensures var r := Rewrite(hashes, msgs, first, recreate, |hashes|);
      |r| > 0 <==> hashes[|hashes| - 1] in r
  {
    var r := Rewrite(hashes, msgs, first, recreate, |hashes|);
    if |r| > 0 {
      var h :| h in r;
      RewriteKeys(hashes, msgs, first, recreate, |hashes|);
      assert hashes[..|hashes|] == hashes;
      var k :| 0 <= k < |hashes| && hashes[k] == h;
      RewritePropagates(hashes, msgs, first, recreate, k, |hashes| - 1);
    }
  }

  /** The text `FullMessage` renders for a commit. */
  function Rendered(c: Commit): string
    reads c
  {
    MessageText(c.title, c.message, SortAttrs(c.attrs, true))
  }

  /** The messages `FullMessage` produces for the commits to update. */
  function Messages(toUpdate: map<string, Commit>): map<string, string>
    reads toUpdate.Values
  {
    map h | h in toUpdate :: Rendered(toUpdate[h])
  }

  /** `msgs` holds the message each commit to update renders to with the
      trailers it had in `before`. */
  predicate MessagesFrom(toUpdate: map<string, Commit>, before: map<string, seq<KeyVal>>, msgs: map<string, string>)
    reads toUpdate.Values`title, toUpdate.Values`message
  {
    forall h | h in toUpdate ::
      h in before && h in msgs && msgs[h] == MessageText(toUpdate[h].title, toUpdate[h].message, SortAttrs(before[h], true))
  }

  /** Each commit to update holds either the trailers it had in `before`
      or those trailers sorted. */
  predicate SortedOrKept(toUpdate: map<string, Commit>, before: map<string, seq<KeyVal>>)
    reads toUpdate.Values`attrs
  {
    forall h | h in toUpdate :: h in before && (toUpdate[h].attrs == before[h] || toUpdate[h].attrs == SortAttrs(before[h], true))
  }

  /** Renders the new message of the commit to update under `hash` with
      `FullMessage`, which sorts its trailers. Sorting is idempotent, so the
      message is the one its original trailers render to. */
  method RenderMessage(commitToUpdate: Commit, toUpdate: map<string, Commit>, hash: string,
                       ghost msgs: map<string, string>, ghost before: map<string, seq<KeyVal>>)
    returns (message: string)
    requires hash in toUpdate && toUpdate[hash] == commitToUpdate
    requires forall h | h in toUpdate :: toUpdate[h].hash == h
    requires MessagesFrom(toUpdate, before, msgs) && SortedOrKept(toUpdate, before)
    modifies commitToUpdate`attrs
    ensures message == msgs[hash]
    ensures MessagesFrom(toUpdate, before, msgs) && SortedOrKept(toUpdate, before)
  {
    message := commitToUpdate.FullMessage();
    SortAttrsIdempotent(before[hash], true);
    forall h | h in toUpdate && h != hash
      ensures toUpdate[h] != commitToUpdate
    {
      assert toUpdate[h].hash == h;
    }
  }

  /** One turn of the rewrite loop (the body of the loop over the stack
      in `gitRewriteCommits`): picks the parent, decides whether commit `i`
      is recreated, and if it needs a remote ref renders its new message. */
  method RewriteTurn(stacked: seq<Commit>, i: nat, toUpdate: map<string, Commit>, replacements: map<string, string>,
                     firstParent: string, recreate: Recreate,
                     ghost hashes: seq<string>, ghost msgs: map<string, string>, ghost before: map<string, seq<KeyVal>>)
    returns (next: map<string, string>)
    requires i < |stacked| == |hashes|
    requires forall t | 0 <= t < |stacked| :: stacked[t].hash == hashes[t]
    requires forall h | h in toUpdate :: toUpdate[h].hash == h
    requires forall h :: h in msgs <==> h in toUpdate
    requires MessagesFrom(toUpdate, before, msgs) && SortedOrKept(toUpdate, before)
    requires replacements == Rewrite(hashes, msgs, firstParent, recreate, i)
    modifies toUpdate.Values`attrs
    ensures next == Rewrite(hashes, msgs, firstParent, recreate, i + 1)
    ensures MessagesFrom(toUpdate, before, msgs) && SortedOrKept(toUpdate, before)
  {
    var hash := stacked[i].hash;
    var parent;
    if i == 0 {
      parent := firstParent;
    } else {
      var prevHash := stacked[i - 1].hash;
      if prevHash in replacements {
        parent := replacements[prevHash];
      } else {
        parent := prevHash;
      }
    }
    var needsRemoteRef := hash in toUpdate;
    var parentChanged := i > 0 && stacked[i - 1].hash in replacements && replacements[stacked[i - 1].hash] != "";
    assert parent == ParentFor(hashes, firstParent, replacements, i);
    assert needsRemoteRef == (hashes[i] in msgs) && parentChanged == ParentChanged(hashes, replacements, i);
    ghost var step := RewriteStep(hashes, msgs, firstParent, recreate, replacements, i);
    assert Rewrite(hashes, msgs, firstParent, recreate, i + 1) == step;
    next := replacements;
    if needsRemoteRef || parentChanged {
      var message := "";
      if needsRemoteRef {
        message := RenderMessage(toUpdate[hash], toUpdate, hash, msgs, before);
      }
      assert message == if hashes[i] in msgs then msgs[hashes[i]] else "";
      var newCommit := Recreated(recreate, hash, parent, message);
      next := replacements[hash := newCommit];
    }
    assert next == step;
  }

  /** The loop of `gitRewriteCommits` over the whole stack, proved against
      the snapshots taken before it: the hashes of the stack, the messages
      of the commits to update and their trailers. */
  method RewriteAll(stacked: seq<Commit>, toUpdate: map<string, Commit>, firstParent: string, recreate: Recreate,
                    ghost hashes: seq<string>, ghost msgs: map<string, string>, ghost before: map<string, seq<KeyVal>>)
    returns (replacements: map<string, string>)
    requires |stacked| == |hashes|
    requires forall t | 0 <= t < |stacked| :: stacked[t].hash == hashes[t]
    requires forall h | h in toUpdate :: toUpdate[h].hash == h
    requires forall h :: h in msgs <==> h in toUpdate
    requires MessagesFrom(toUpdate, before, msgs) && SortedOrKept(toUpdate, before)
    modifies toUpdate.Values`attrs
    ensures replacements == Rewrite(hashes, msgs, firstParent, recreate, |stacked|)
    ensures SortedOrKept(toUpdate, before)
  {
    replacements := map[];
    var i := 0;
    while i < |stacked|
      invariant 0 <= i <= |stacked|
      invariant replacements == Rewrite(hashes, msgs, firstParent, recreate, i)
      invariant MessagesFrom(toUpdate, before, msgs) && SortedOrKept(toUpdate, before)
    {
      replacements := RewriteTurn(stacked, i, toUpdate, replacements, firstParent, recreate, hashes, msgs, before);
      i := i + 1;
    }
  }

  /** `gitRewriteCommits` up to the reload: walks the stack oldest first,
      recreating each commit that needs a remote ref (with the message
      `FullMessage` renders, which also re-sorts its trailers) or whose
      parent was replaced, and returns the replacement map together with
      the hash HEAD is moved to, if any. */
  method GitRewriteCommits(stacked: seq<Commit>, toUpdate: map<string, Commit>, firstParent: string, recreate: Recreate)
    returns (replacements: map<string, string>, newHead: Option<string>)
    requires forall h | h in toUpdate :: toUpdate[h].hash == h
    modifies toUpdate.Values`attrs
    ensures replacements == Rewrite(old(Hashes(stacked)), old(Messages(toUpdate)), firstParent, recreate, |stacked|)
    ensures newHead.Some? <==> |replacements| > 0 && stacked[|stacked| - 1].hash in replacements
    ensures newHead.Some? ==> newHead.value == replacements[stacked[|stacked| - 1].hash]
    ensures forall h | h in toUpdate ::
      toUpdate[h].attrs == old(toUpdate[h].attrs) || toUpdate[h].attrs == SortAttrs(old(toUpdate[h].attrs), true)
  {
    ghost var hashes := Hashes(stacked);
    ghost var msgs := Messages(toUpdate);
    ghost var before := map h | h in toUpdate :: toUpdate[h].attrs;
    replacements := RewriteAll(stacked, toUpdate, firstParent, recreate, hashes, msgs, before);
    newHead := None;
    if |replacements| > 0 {
      var lastCommit := stacked[|stacked| - 1];
      if lastCommit.hash in replacements {
        newHead := Some(replacements[lastCommit.hash]);
      }
    }
  }

  // ---------------------------------------------------------------
  // String helpers

  /** `splitEmail`: everything before the first `@`, and the rest from the
      `@` on; the whole address and "" when there is no `@`. */
  function SplitEmail(email: string): (r: (string, string))
  {
    var idx := IndexOf(email, '@');
    if idx >= 0 then (email[..idx], email[idx..]) else (email, "")
  }

  /** The two parts concatenate back to the address, the first has no
      `@`, and the second is non-empty exactly when there is an `@`, in
      which case it starts with it. */
  lemma SplitEmailSpec(email: string)
    ensures SplitEmail(email).0 + SplitEmail(email).1 == email
    ensures '@' !in SplitEmail(email).0
    ensures SplitEmail(email).1 != "" <==> '@' in email
    ensures SplitEmail(email).1 != "" ==> SplitEmail(email).1[0] == '@'
  {
    var idx := IndexOf(email, '@');
    if idx >= 0 {
      assert email[..idx] + email[idx..] == email;
    }
  }

  const MaxTitle := 36

  /** `shortenTitle`: titles of at most 36 characters are kept; a longer
      one is cut to 36 and then either cut again at its last space with
      " ..." appended, or given "..." when the 36 kept characters hold no
      space. */
  function ShortenTitle(title: string): string
  {
    if |title| <= MaxTitle then title
    else
      var cut := title[..MaxTitle];
      var idx := LastIndexOf(cut, ' ');
      if idx == -1 then cut + "..." else cut[..idx] + " ..."
  }

  lemma ShortenTitleSpec(title: string)
    ensures |title| <= MaxTitle ==> ShortenTitle(title) == title
    ensures |title| > MaxTitle && ' ' !in title[..MaxTitle] ==>
      ShortenTitle(title) == title[..MaxTitle] + "..." && |ShortenTitle(title)| == MaxTitle + 3
    ensures |title| > MaxTitle && ' ' in title[..MaxTitle] ==>
      exists idx | 0 <= idx < MaxTitle ::
        title[idx] == ' ' && (forall t | idx < t < MaxTitle :: title[t] != ' ') &&
        ShortenTitle(title) == title[..idx] + " ..."
    ensures |ShortenTitle(title)| <= MaxTitle + 3
    ensures |title| > MaxTitle ==> HasSuffix(ShortenTitle(title), "...")
  {
    if |title| > MaxTitle {
      var cut := title[..MaxTitle];
      var idx := LastIndexOf(cut, ' ');
      if idx != -1 {
        assert cut[..idx] == title[..idx];
        forall t | idx < t < MaxTitle ensures title[t] != ' ' {
          assert title[t] == cut[idx + 1..][t - idx - 1];
        }
      }
    }
  }

  /** The cases of the title tests: short titles are kept, and a
      50-letter title without spaces becomes 39 characters. */
  lemma ShortenTitleExamples()
    ensures ShortenTitle("fix: bug") == "fix: bug"
    ensures ShortenTitle("fix: this is exactly thirty-six!") == "fix: this is exactly thirty-six!"
    ensures |ShortenTitle(seq(50, _ => 'a'))| == 39
  {
    ShortenTitleSpec(seq(50, _ => 'a'));
    var a50 := seq(50, _ => 'a');
    assert forall t | 0 <= t < MaxTitle :: a50[..MaxTitle][t] == 'a';
  }

  /** `coalesce`: the first argument unless it is empty. */
  function Coalesce(a: string, b: string): (r: string)
    ensures a != "" ==> r == a
    ensures a == "" ==> r == b
  {
    if a != "" then a else b
  }
}
