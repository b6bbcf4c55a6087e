/** The outside world of the landing code in land.go: every `gh` and `git`
    command the sequencer runs, with the answer it got. A `Host` keeps the
    log of these exchanges; the answer to a call is a fixed function of the
    log so far and the call, so the forge, the repository and time are all
    in that function. Answers that `gh` would hand over as JSON arrive
    already decoded. */
module Forge {
  import opened Strs
  import opened Wrappers
  import opened Status

  datatype Call =
    | ViewMergeability(pr: int)          // gh pr view N --json mergeable,mergeStateStatus
    | RequiredChecks(pr: int)            // gh pr checks N --required --json name,state,bucket
    | ViewHead(pr: int)                  // gh pr view N --json headRefOid
    | GetPR(pr: int)                     // githubGetPRByNumber
    | Merge(args: seq<string>)           // gh pr merge ...
    | ViewState(pr: int)                 // gh pr view N --json state,mergeStateStatus
    | EditBase(pr: int, base: string)    // gh pr edit N --base B
    | StatusBatch(owner: string, name: string, numbers: seq<int>) // gh api graphql, one pr<i> entry per PR
    | ViewStatus(pr: int)                // gh pr view N --json state,mergeable,mergeStateStatus,statusCheckRollup
    | ListChecks(pr: int)                // gh pr checks N --json name,state,bucket,workflow,description
    | SyncCommit(pr: int, isFirst: bool) // verifyAndSyncCommit
    | Git(args: seq<string>)

  datatype Reply =
    | Failed(exitCode: int, output: string)   // the command exited non-zero
    | Output(output: string)                  // the command succeeded
    | MergeInfo(mergeable: string, mergeStateStatus: string)
    | PRState(state: string, mergeStateStatus: string)
    | Checks(checks: seq<CheckStatus>)
    | Head(headRefOid: string)
    | PRBody(body: string)
    | Batch(repository: map<string, PRData>)
    | StatusView(state: string, mergeable: string, mergeStateStatus: string, conclusions: seq<string>)
    | Synced(needsRebase: bool, headSHA: string)
    | Garbled                                 // output the JSON decoding rejects

  datatype Exchange = Exchange(call: Call, reply: Reply)

  /** The error text of a failed command (`execError.Error`). */
  function ErrorText(exitCode: int, output: string): string
  {
    "exit code " + Itoa(exitCode) + (if output == "" then "" else "\n" + TrimSpace(output))
  }

  /** The `(output, error)` pair `git` and `gh` return for a plain command:
      the trimmed output and, on failure, the error. An answer of another
      shape is read as success without output. */
  function OutputOf(r: Reply): string
  {
    match r
    case Failed(_, out) => TrimSpace(out)
    case Output(out) => TrimSpace(out)
    case _ => ""
  }

  function ErrorOf(r: Reply): Option<string>
  {
    if r.Failed? then Some(ErrorText(r.exitCode, r.output)) else None
  }

  /** A failed command's error text always starts with its exit code, so a
      word found in it past that prefix comes from the command's output. */
  lemma ErrorTextStartsWithExitCode(r: Reply)
    requires r.Failed?
    ensures ErrorOf(r).Some? && HasPrefix(ErrorOf(r).value, "exit code " + Itoa(r.exitCode))
  {
  }

  /** The kinds of call, for counting them in a log. */
  datatype Kind = KMergeability | KRequiredChecks | KHead | KGetPR | KMerge | KState | KEditBase
                | KBatch | KViewStatus | KListChecks | KSync | KGit

  function KindOf(c: Call): Kind
  {
    match c
    case ViewMergeability(_) => KMergeability
    case RequiredChecks(_) => KRequiredChecks
    case ViewHead(_) => KHead
    case GetPR(_) => KGetPR
    case Merge(_) => KMerge
    case ViewState(_) => KState
    case EditBase(_, _) => KEditBase
    case StatusBatch(_, _, _) => KBatch
    case ViewStatus(_) => KViewStatus
    case ListChecks(_) => KListChecks
    case SyncCommit(_, _) => KSync
    case Git(_) => KGit
  }

  /** The exchanges of `log` whose call is of kind `k`, in log order. */
  function Only(log: seq<Exchange>, k: Kind): (r: seq<Exchange>)
    ensures |r| <= |log|
    ensures forall j | 0 <= j < |r| :: KindOf(r[j].call) == k
  {
    if log == [] then []
    else Only(log[..|log| - 1], k) + (if KindOf(log[|log| - 1].call) == k then [log[|log| - 1]] else [])
  }

  lemma {:induction false} OnlyAppend(a: seq<Exchange>, b: seq<Exchange>, k: Kind)
    ensures Only(a + b, k) == Only(a, k) + Only(b, k)
    decreases |b|
  {
    if b != [] {
      assert (a + b)[..|a + b| - 1] == a + b[..|b| - 1];
      OnlyAppend(a, b[..|b| - 1], k);
    } else {
      assert a + b == a;
    }
  }

  lemma {:induction false} OnlyAll(log: seq<Exchange>, k: Kind)
    requires forall j | 0 <= j < |log| :: KindOf(log[j].call) == k
    ensures Only(log, k) == log
  {
    if log != [] {
      OnlyAll(log[..|log| - 1], k);
    }
  }

  lemma {:induction false} OnlyNone(log: seq<Exchange>, k: Kind)
    requires forall j | 0 <= j < |log| :: KindOf(log[j].call) != k
    ensures Only(log, k) == []
  {
    if log != [] {
      OnlyNone(log[..|log| - 1], k);
    }
  }

  /** The exchanges of several steps, one after the other. */
  function Concat(ss: seq<seq<Exchange>>): seq<Exchange>
  {
    if ss == [] then [] else Concat(ss[..|ss| - 1]) + ss[|ss| - 1]
  }

  lemma ConcatSnoc(ss: seq<seq<Exchange>>, s: seq<Exchange>)
    ensures Concat(ss + [s]) == Concat(ss) + s
  {
    assert (ss + [s])[..|ss|] == ss;
  }

  /** The machine the landing code talks to. */
  class Host {
    var log: seq<Exchange>
    const respond: (seq<Exchange>, Call) -> Reply

    constructor (respond: (seq<Exchange>, Call) -> Reply)
      ensures this.respond == respond && log == []
    {
      this.respond := respond;
      log := [];
    }

    /** Runs one command: its answer is what `respond` gives for the log so
        far, and the exchange is logged. */
    method Ask(c: Call) returns (r: Reply)
      modifies this`log
      ensures r == respond(old(log), c)
      ensures log == old(log) + [Exchange(c, r)]
    {
      r := respond(log, c);
      log := log + [Exchange(c, r)];
    }
  }
}
