# git-pr core, modelled in Dafny

git-pr submits a stack of local git commits as a chain of GitHub pull
requests, one per commit, and lands that chain bottom first. This project
models the deterministic parts that sit between its `git` and `gh` calls:

- the `git log` parser (git.go);
- the commit and trailer model (types.go), with the helpers it uses
  (utils.go);
- the preparation of a stack before it is submitted (main.go): the
  duplicate remote-ref check, assigning remote refs, choosing a
  predecessor, and the commit rewrite;
- the configuration helpers (config.go);
- the landing side (land.go):
  - the clean-up of a PR body for the squash commit;
  - the classification of checks, reviews and merge states;
  - the dashboard's decision tables;
  - the `landStack` and `landStackFromDashboard` sequencers, with their
    poll loops, the rebase of the remaining PRs, and the interactive
    prompt.

Every call to `git` or `gh` goes through `Forge.Host.Ask`. `Ask` returns
what a function of the exchanges so far gives for the command, and appends
the command and its answer to the host's log. Each sequencer is proved
against a specification of the log it leaves: which commands it issues,
in which order, and which answer stops it.

- Time is a poll budget.
- Operator input is a sequence of strings.
- The four cleanup regular expressions whose `\s*` may span lines are
  parameters (`Body.Regexes`).

The files:

- `wrappers.dfy`: `Option` and `Result`. `Err` stands for a Go error, a
  panic or `os.Exit`.
- `strs.dfy`: the parts of Go's `strings` package used here.
- `utils.dfy`, `keyvals.dfy` and `types.dfy`: utils.go and types.go.
- `git.dfy`: git.go.
- `config.dfy`: config.go.
- `stack.dfy`: main.go.
- `body.dfy`: the PR-body clean-up.
- `status.dfy`: status classification and dashboard tables.
- `forge.dfy`: the command oracle.
- `queries.dfy`: the single-command helpers and poll loops.
- `landing.dfy`: `landStack`.
- `rebase.dfy`: `rebaseRemainingPRs`.
- `refresh.dfy`: `updateAllPRStatus` and its two updates.
- `dashboard.dfy`: `landStackFromDashboard` and `landStackInteractive`.

## Model

| member | source | states |
|---|---|---|
| Utils.Revert | utils.go:63-69 | The result is the input list in reverse order. |
| Utils.ReversedTwice | utils.go:63-69 | Reversing twice gives the list back. |
| Utils.FormatKey | utils.go:71-85 | The result is the lower-cased key with the first letter of every `-`-separated word upper-cased and every `-` kept. |
| Utils.CapWordsSplit | utils.go:74-83 | Splitting at `-`, capitalising each word and joining with `-` is the same as capitalising each character that starts a word. |
| Utils.FormatKeyShape | utils.go:71-85 | Formatting keeps the length of the key and the positions of its `-`. |
| Utils.FormatKeyRemoteRef | utils_test.go:5-10 | `remote-ref` formats to `Remote-Ref`. |
| Utils.FormatKeyIdempotent | utils.go:71-85 | Formatting an already formatted key changes nothing. |
| Utils.MaxAttrsLength | utils.go:87-95 | The result is 0 for no trailers; otherwise it is at least every key's length and equal to one of them. |
| Utils.Wrapf | utils.go:31-36 | No error stays no error; an error becomes the message, `: `, then the error. |
| Utils.Must | utils.go:49-54 | Gives the value when there is no error and a panic when there is one. |
| KeyVals.KeyIndexSpec | types.go:51-58 | The index is -1 exactly when no trailer has the key; otherwise it is the first trailer that has it. |
| KeyVals.LookupFirst | types.go:51-58 | `GetAttr` returns the value of the first trailer with exactly that key, or "" if there is none. |
| KeyVals.StrLessIrreflexive | types.go:90-92 | Go's string `<` never holds between a string and itself. |
| KeyVals.StrLessTotal | types.go:90-92 | Of two different strings, one is `<` the other. |
| KeyVals.StrLessTransitive | types.go:90-92 | String `<` is transitive. |
| KeyVals.FullMessageLessIsGroupOrder | types.go:98-106 | The `FullMessage` comparator is "non-remote-ref before remote-ref, otherwise by key". |
| KeyVals.LeTotal | types.go:98-106 | The order used for sorting is total. |
| KeyVals.LeTransitive | types.go:98-106 | The order used for sorting is transitive. |
| KeyVals.InsertSorted | types.go:90-92 | Inserting into a sorted list keeps it sorted. |
| KeyVals.SortAttrsSpec | types.go:90-92 | The sort returns a sorted permutation of its input. |
| KeyVals.SortAttrsSorted | types.go:98-106 | A list that is already sorted is left exactly as it is. |
| KeyVals.SortAttrsIdempotent | types.go:98-106 | Sorting twice is the same as sorting once. |
| Types.WithAttrSpec | types.go:82-93 | For an existing key, only the value of its first entry changes, and keys and order are kept. For a new key, the result is sorted by key and is the old entries plus the new one as a permutation. Either way the lookup gives the new value. |
| Types.WithAttrExisting | types.go:83-88 | Overwriting in place changes only the first entry with the key, and that entry keeps its key. |
| Types.WithAttrNew | types.go:89-92 | An appended key ends up sorted in, and the lookup finds it. |
| Types.Commit.SetAttr | types.go:82-93 | The trailers become `WithAttr` of the old ones, and `GetAttr(key)` returns the value afterwards. |
| Types.TagPiecesTrimmed | types.go:67-71 | Every tag taken from the trailer is non-empty and has no surrounding white space. |
| Types.TagsAsWritten | types.go:64-80 | The defaults come first, then exactly one entry per non-empty trimmed piece. |
| Types.Commit.GetTags | types.go:64-80 | Returns the tag list as written for the defaults and the `tags` trailer. |
| Types.GetTagsKeepsDuplicates | types.go:72-76 | As written, `tags: a,a` gives two `a`s; the corrected version gives one. |
| Types.TagsDedupedNoDuplicates | types.go:72-77 | When the defaults hold no tag twice, the corrected tag list holds no tag twice either, and holds exactly the defaults and the pieces. |
| Types.AttrLineLayout | types.go:108-110 | A trailer line is the formatted key right-aligned in the key column, never cut, followed by `: ` and the value. |
| Types.MaxKeyLen | types.go:107 | The column width is 0 for no trailers; otherwise it bounds every key and equals one of them. |
| Types.MaxKeyLenUnique | types.go:107 | Any number that bounds every key and equals one of them is the column width, so `maxAttrsLength` computes it. |
| Types.WriteAttrs | types.go:109-111 | The builder gains one aligned line per trailer, in trailer order. |
| Types.MessageText | types.go:95-115 | The message has no leading or trailing white space. |
| Types.Commit.constructor | types.go:13-24 | A new commit holds the given fields, has no PR number and is not skipped. |
| Types.Commit.ShortHash | types.go:47-49 | The short hash has 8 characters and is a prefix of the hash. |
| Types.Commit.String | types.go:26-32 | The string is the short hash, a space, the remote ref in parentheses or nothing, a space, then the title. |
| Types.Commit.FullMessage | types.go:95-116 | The trailers are re-sorted in place (remote-ref last). The text is title, message and aligned trailer lines, trimmed. |
| Types.FullMessageOrder | types.go:98-106 | After the sort, every non-remote-ref trailer comes first in key order, remote-ref entries come last, and nothing is lost. |
| Types.FindHash | types.go:125-135 | A hash shorter than 8 characters panics. Otherwise the result is the first commit whose hash has the argument as a prefix, or -1 when no hash has it. |
| Types.ByHash | types.go:120-123 | Agrees with `FindHash`: the same panic, the commit it points at, or none. |
| Types.LatestCommitByAuthor | types.go:137-144 | The first commit with that e-mail, or none exactly when no commit has it. |
| Git.MatchCommitHashSpec | git.go:13 | A line is a header exactly when it is `commit ` followed by 40 lower-case hex digits, and those digits are the hash. |
| Git.MatchAuthorSpec | git.go:14 | A matched author line is `Author: <name> <<email>>`. |
| Git.MatchAuthorGreedy | git.go:14 | The name runs up to the last ` <` that still leaves the closing `>` at the end. |
| Git.MatchAuthorTotal | git.go:14 | Every line of the author shape matches. |
| Git.MatchDateSpec | git.go:15 | A date line is one that starts with `Date:` and three spaces; the rest of the line is the date. |
| Git.MatchKeyValSpec | git.go:16 | A trailer line is four spaces, a non-empty key of letters, digits and `-`, then `: ` and the value. |
| Git.FirstEmptyIs | git.go:82-86 | The header ends at the first exactly-empty line. |
| Git.ScanHeaderLines | git.go:81-101 | The header is read from the lines before the first empty line, and the body starts on the line after it (0 if there is none). |
| Git.ScanHeaderHash | git.go:87-89 | The header holds either no hash or a 40-character one. |
| Git.FindBodyEnd | git.go:103-110 | Finds the last exactly-empty line, or 0 if there is none. |
| Git.ScanTrailers | git.go:112-121 | The bottom-up trailer loop computes the trailers and the end of the body as specified. |
| Git.LineTrailer | git.go:113-116 | One line's trailer has its key lower-cased and its value trimmed. |
| Git.TrailersFromSpec | git.go:112-121 | Trailer k comes from line i-1-k. The scan stops at the first non-trailer from the bottom, and the body ends there. |
| Git.NormalizeLower | git.go:115 | A stored key has no upper-case letter and a stored value is trimmed. |
| Git.ParseBody | git.go:131-142 | The title is the trimmed first line. The message is the other lines, each trimmed and followed by a newline, then trimmed as a whole. |
| Git.ParseLogsCommit | git.go:74-129 | The result is the specified parse of one block. When the body would start after the end of the trailer block, the slice panics. A missing hash, author name, e-mail or title panics with the whole block in the message. |
| Git.ParsedCommitValid | git.go:125-127 | A commit the parser returns has a 40-character hash, an author name and e-mail, and a non-empty trimmed title. |
| Git.FirstEmptyBefore | git.go:81-86 | Lines added after an empty line do not move the header's end. |
| Git.LastEmptyAfter | git.go:103-110 | Lines without an empty one, added after an empty line, leave that line the last empty one. |
| Git.DiscardsAfterLastEmpty | git.go:103-110 | Such added lines change neither whether the block parses nor what it parses to. |
| Git.BlocksPartition | git.go:51-65 | The blocks, read in order, are exactly the input lines. Each block is non-empty, and each block after the first starts with a header line. |
| Git.BlocksCount | git.go:53-65 | When the log starts with a header line, there is one block per header line. |
| Git.ParseAllCount | git.go:55-70 | A successful parse gives one commit per block. |
| Git.LogsCount | git.go:51-71 | When the log starts with a header line, a successful parse gives one commit per header line. |
| Git.NotBlank | git.go:48-50 | A log that starts with a header line is not blank, so it is not mistaken for an empty log. |
| Git.ParseAllPrefixErr | git.go:56-59 | An error in an earlier block is the error of the whole parse. |
| Git.FeedParsesBlocks | git.go:53-71 | The loop from any point equals parsing the blocks. |
| Git.ParseLines | git.go:51-71 | The accumulation loop parses exactly the blocks, in order, and stops at the first error. |
| Git.ParseLogs | git.go:47-72 | A blank log gives no commits; any other log gives its lines parsed block by block. |
| Git.NewCommits | git.go:60 | One new, distinct commit object per parsed commit, in order. |
| Git.OldestFirst | git.go:153-154 | New commit objects for the parsed commits, in reverse order. |
| Git.GetStackedCommits | git.go:144-155 | A failed `git log` is wrapped as "failed to find common ancestor". A parse error is passed on. Otherwise the result is the parsed commits as distinct objects, oldest first. |
| Config.ExpandPathSpec | config.go:120-128 | "" stays "". A path starting with `~` becomes HOME followed by the rest of the path. Any other path is unchanged. |
| Config.ExpandPathIdempotent | config.go:120-128 | With a HOME that does not start with `~`, expanding twice is the same as expanding once. |
| Config.UrlAtSpec | config.go:54 | A match at a position gives a non-empty host without `:`, a non-empty owner without `/` and a non-empty name without a newline, laid out as `git@host:owner/name.git` from that position. |
| Config.UrlRoundTrip | config.go:54-60 | A remote URL written out from its parts parses back to those parts. |
| Config.UrlFirst | config.go:54-55 | A URL at the start of the text is the match `FindStringSubmatch` reports. |
| Config.MatchUrlSpec | config.go:54-60 | Every reported match has a non-empty host without `:`, a non-empty owner without `/` and a non-empty name without a newline. |
| Config.MatchUrlLeftmost | config.go:55 | The reported match is the leftmost one, and there is none exactly when no position matches. |
| Config.ParseRemoteSpec | config.go:50-60 | A failed `git remote show` exits with "not a git repository". No match exits with "failed to parse remote url". Otherwise the host and `owner/name` come from the match. |
| Config.ValidateConfig | config.go:130-135 | Exits with `missing config "<name>"` exactly when the value is its type's zero value. |
| Config.ValidateIdentity | config.go:83-85 | User, token and e-mail are checked in that order, and the first empty one is reported. |
| Body.ReplaceCRLFDropsCR | land.go:1191 | Replacing each `\r\n` deletes exactly every `\r` that is directly followed by `\n`. |
| Body.ReplaceCRLFWithoutCR | land.go:1191 | A text without `\r` is left alone. |
| Body.RemoveHtmlComments | land.go:1163 | The result is never longer than the input. |
| Body.RemoveHtmlCommentsUnchanged | land.go:1213 | The text changes exactly when it contains a comment, and then it loses at least the seven delimiter characters. |
| Body.HasStackInfoAfter | land.go:1272-1279 | True exactly when some later trimmed line is a PR reference: `*`, then `#` and a digit. |
| Body.FindFirstEmptyLineBefore | land.go:1282-1292 | Returns the start of the run of blank lines directly above the line: that line itself when there is none, else the start of the run (0, or just after a non-blank line). |
| Body.FindStackFooterStart | land.go:1236-1256 | Returns -1 exactly when no line is a footer separator (`---` under a blank line, followed by a PR reference). Otherwise it returns the start of the blank run above the first separator, which lies before it. |
| Body.FooterCut | land.go:1222-1229 | Cutting at that start strips the footer and leaves a prefix of the body. |
| Body.RemoveStackFooter | land.go:1222-1232 | The result is the body without its footer, and always a prefix of the body. |
| Body.FooterStrippedDropsSeparator | land.go:1224-1228 | The kept lines stop above a separator, so the separator never survives. |
| Body.CollapseNoTriple | land.go:1297 | After the collapse, no three newlines in a row are left. |
| Body.CollapseWithoutTriple | land.go:1172 | A text without three newlines in a row is unchanged, so runs of one or two are kept. |
| Body.CollapseShortens | land.go:1172 | A text with three newlines in a row gets shorter. |
| Body.CollapseUnchanged | land.go:1297 | The collapse changes the text exactly when it holds three newlines in a row. |
| Body.CleanupPRBodyForMerge | land.go:1185-1208 | An empty body stays empty. Otherwise the body is normalised, loses its comments and footer, and is formatted, then either found empty or trimmed. The result is always trimmed, and a non-empty result is neither an empty template nor headings only. |
| Status.NodeBucketTable | land.go:644-676 | The bucket of a check node: CheckRun passes on SUCCESS, fails on the four failing conclusions, and otherwise passes iff COMPLETED, else pending. StatusContext passes on SUCCESS, fails on FAILURE or ERROR, else pending. Any other node has no bucket. |
| Status.ClassifyChecks | land.go:635-679 | One check per node, in node order, and the three tallies count exactly the pass, fail and pending buckets. |
| Status.CountPositive | land.go:682-689 | A tally is positive exactly when some check has that bucket. |
| Status.ChecksStatusSpec | land.go:681-690 | The aggregate is FAILING iff some check fails, else PENDING iff some is pending, else PASSING iff some passes, else NONE. |
| Status.OtherNodesIgnored | land.go:644-678 | A node that is neither a check run nor a status context does not change the aggregate. |
| Status.TallyReviews | land.go:609-621 | The three counters count exactly the APPROVED, CHANGES_REQUESTED and COMMENTED reviews. |
| Status.CountReviewsPositive | land.go:622-632 | A review counter is positive exactly when some review has that state. |
| Status.ReviewPriority | land.go:622-632 | Changes requested beats approved, which beats a required review, which beats comments. The line is empty exactly when none of these applies. |
| Status.UpdateFrom | land.go:601-690 | The entry becomes `Updated` of the batch answer. |
| Status.UpdatedKeepsIdentity | land.go:601-690 | The batch update leaves the PR's number, title, URL, SHA and branches alone, and keeps exactly one check per node. |
| Status.RollupStatus | land.go:726-752 | NONE exactly for an empty rollup. FAILING exactly when a conclusion fails. PENDING when none fails and some is neither passing nor failing. PASSING otherwise. |
| Status.IconMatchesTextMergedClosed | land.go:769-810 | The icon and the status line agree on merged and on closed PRs. |
| Status.IconMatchesTextConflicts | land.go:769-810 | Unless the PR is reported mergeable, the icon shows conflicts exactly when the status line does. |
| Status.IconMatchesTextFallback | land.go:769-810 | For the rest, blocked, unknown and ready are shown the same way by icon and by text. |
| Status.UnknownMergeStatusShown | land.go:769-810 | An unknown merge state is drawn as a blank square, and its text is printed as it is. |
| Status.ChecksIconsAgree | land.go:812-823 | The checks summary line exists exactly for FAILING, PENDING and PASSING, and it starts with the matching icon. Per-check icons agree with the buckets. |
| Status.TruncateTitle | land.go:825-830 | A title that fits is kept. A longer one becomes exactly `maxLen` characters ending in `...`. The slice panics when `maxLen` < 3. |
| Status.ShownTitleIsTruncated | land.go:367-370 | The dashboard title line is the title truncated to 80 characters, without a panic. |
| Status.SummaryCounts | land.go:447-458 | The three dashboard counters count the merged, ready and blocked PRs. |
| Status.TallyTotal | land.go:447-458 | Every PR falls in exactly one category: merged, ready, blocked or not counted. |
| Status.CategoryMatchesIcon | land.go:447-458 | Merged PRs are exactly the ones drawn with the merged icon, and ready ones are drawn green or yellow. |
| Status.AllPRsMerged | land.go:832-839 | True exactly when every PR's state is MERGED, which is when the merged count equals the number of PRs. |
| Status.MergedTally | land.go:832-839 | The merged count reaches the number of PRs exactly when every PR is merged. |
| Status.MergeReasonSpec | land.go:1421-1439 | A reason is given exactly for CONFLICTING, BLOCKED, UNSTABLE, BEHIND and UNKNOWN. |
| Status.ConflictsShowAsConflicts | land.go:1481-1483 | A PR the conflict predicate accepts is drawn as conflicting unless it is merged, closed or reported mergeable. |
| Status.DeleteOutcome | land.go:1451-1463 | An error saying the ref does not exist or cannot be deleted counts as success. Any other error is passed on. |
| Status.ShaMatchSpec | land.go:1564 | For SHAs of at least 8 characters, two SHAs match exactly when their first 8 agree, so the match is symmetric. |
| Status.ShaMatchPanics | land.go:1561-1564 | The comparison panics exactly when either SHA is shorter than 8 characters, since the debug line before the test slices both. |
| Queries.MergeStatusOf | land.go:1403-1416 | A decodable answer gives its merge state status; anything else is an error. |
| Queries.CheckPRMergeability | land.go:1403-1442 | Exactly one `gh pr view`. The status comes from the answer, and the reason from the table. |
| Queries.ConflictsOf | land.go:1466-1489 | A PR conflicts exactly when `mergeable` is CONFLICTING or its state status is CONFLICTING or DIRTY. An undecodable answer is an error. |
| Queries.CheckPRConflicts | land.go:1466-1489 | Exactly one `gh pr view`, read by `ConflictsOf`. |
| Queries.FailedNamesEmpty | land.go:1069-1080 | No failed names exactly when no check's bucket is fail or cancel. |
| Queries.PendingNamesEmpty | land.go:1069-1080 | No pending names exactly when no check is pending. |
| Queries.FailedNamesListed | land.go:1069-1080 | Every failed check's name is listed. |
| Queries.SortChecks | land.go:1065-1080 | Splits the checks into failed and pending names in input order. "All passed" means both lists are empty. |
| Queries.ChecksPollSpec | land.go:1052-1089 | A checks poll stops exactly when a check failed or was cancelled. It passes exactly when none failed, was cancelled or is pending, so an empty list passes. |
| Queries.PollStopped | land.go:1044-1097 | A loop that waited and then stopped on an answer ends with that answer's verdict. |
| Queries.PollTimedOut | land.go:1044-1097 | A loop that waited through its whole budget ends with the timeout error. |
| Queries.WaitForChecks | land.go:1040-1098 | At most `budget` checks queries, each made while the previous one said wait. The error is the verdict of the last answer, or the timeout. |
| Queries.MergePollSpec | land.go:1361-1371 | Only MERGED ends the wait successfully. Any other decoded state except CLOSED waits. CLOSED or an undecodable answer gives up, and the CLOSED error ends with the PR's URL. |
| Queries.WaitForMerge | land.go:1323-1400 | The same poll loop over the PR's state; its timeout, fetch and closed errors name the PR, and the timeout and closed errors point at its URL. |
| Queries.PollSucceeded | land.go:1323-1400 | A poll loop succeeds only on a last answer that passed. |
| Queries.HeadOf | land.go:1104-1111 | The head SHA of a decodable answer with at least 8 characters; anything else panics. |
| Queries.DetectAutoGeneratedCommits | land.go:1101-1116 | One `gh pr view`. The head is the answer's, and added commits are never reported. |
| Queries.MergeArgsSpec | land.go:1128-1153 | The arguments are always `pr merge N --squash --subject <title> --body <body>`, even for an empty body. `--match-head-commit` is added iff there is a head SHA, and `--auto` comes last iff auto mode is on. |
| Queries.MergePR | land.go:1119-1158 | Fetches the PR, cleans its body and runs `gh pr merge` with those arguments. A failed fetch panics with the fetch error before the merge. |
| Queries.UpdatePRBase | land.go:1445-1448 | One `gh pr edit --base`; its error is returned as it is. |
| Queries.DeleteRemoteBranch | land.go:1451-1463 | One `git push --delete`, read by `DeleteOutcome`. |
| Forge.ErrorTextStartsWithExitCode | exec.go:23-31 | A failed command's error text starts with `exit code N`. |
| Forge.OnlyAppend | land.go:143-288 | Filtering the log by command kind distributes over concatenation. |
| Forge.Host.constructor | exec.go:10-11 | A new host has run no commands yet. |
| Forge.Host.Ask | exec.go:33-64 | The answer is what the oracle gives for the log so far, and the exchange is appended to the log. |
| Landing.StillUnknownSpec | land.go:165-167 | An answer counts as still unknown exactly when its status decodes to UNKNOWN. |
| Landing.MergeabilityPhase | land.go:155-177 | One query, then up to three retries while the status is UNKNOWN. The last answer decides: an error or CONFLICTING stops the landing. |
| Landing.RetryWhileUnknown | land.go:165-174 | The retries stop at an error or a known status, and there are at most three. |
| Landing.MergeWithFallback | land.go:216-230 | A second merge without `--auto` runs only after the auto-merge refusal. The merge that counts decides the failure, and auto mode is on afterwards iff it was on before or the fallback ran. |
| Landing.PullTrunk | land.go:277-283 | Fetch, checkout and pull run in that order and stop at the first failure. |
| Landing.LandPR | land.go:153-287 | The landing of one PR leaves exactly the run that `Landed` describes: each phase runs only when the earlier ones did not stop it. |
| Landing.LandFromChecks | land.go:190-199 | From the checks phase on, as `Landed` says. |
| Landing.LandFromHead | land.go:201-209 | From the head detection on. |
| Landing.LandFromMerge | land.go:211-230 | From the merge on. |
| Landing.LandFromWait | land.go:232-243 | From the wait for the merge on. |
| Landing.LandFromBase | land.go:245-262 | From the base update on. |
| Landing.LandFromDelete | land.go:264-283 | From the branch deletion on. |
| Landing.UpToMerge | land.go:155-209 | A landing that did not fail before the merge reached it; otherwise nothing from the merge on ran. |
| Landing.MergeToBase | land.go:211-243 | The base phase is reached only after the merge and the wait. |
| Landing.BaseToDelete | land.go:245-262 | The base update runs only when there is a next PR, and only once. Only its closed-PR error stops the landing. |
| Landing.RunKinds | land.go:143-288 | Every phase issues only commands of its own kind. |
| Landing.OnlyOnePhase | land.go:143-288 | Commands of a phase's kind come from that phase alone. |
| Landing.MergeabilityAskedAtMostFourTimes | land.go:155-177 | Mergeability is asked 1 to 4 times for the PR, and asked again only after an UNKNOWN answer. |
| Landing.ConflictingNeverMerges | land.go:162-164 | A last answer of CONFLICTING stops the landing with the conflict reason. Nothing else runs, and in particular no merge. |
| Landing.MergesOfAttempts | land.go:216-225 | The merge commands of the two attempts: the first one, and the fallback only after the refusal. |
| Landing.AtMostTwoMerges | land.go:216-225 | `gh pr merge` runs at most twice. The second run comes only after the auto-merge refusal and goes without `--auto`. |
| Landing.AutoModeAfter | land.go:222-224 | The next PR starts in auto mode iff this one did or it fell back. |
| Landing.BaseUpdatedOnlyAfterMerge | land.go:245-262 | The next PR's base is edited only when there is a next PR, once, and only after a successful merge that auto mode saw MERGED. |
| Landing.BaseErrorFatalOnlyWhenClosed | land.go:249-256 | A base-update error stops the landing iff it mentions "closed". Otherwise the trunk is pulled. |
| Landing.LandedWithoutFailure | land.go:211-287 | A PR landed without failure was merged (and seen MERGED in auto mode). The next PR was offered the trunk, and the trunk was fetched, checked out and pulled. |
| Landing.StackAt | land.go:143-288 | Each attempt landed its own PR, starting in the mode the previous one left, and only after the previous one went through. |
| Landing.StackSnoc | land.go:143-288 | One more attempt extends the stack's run. |
| Landing.LandStack | land.go:143-295 | Outside dry-run mode, the PRs are landed bottom first until the first failure. In dry-run mode nothing is asked. |
| Landing.LandEach | land.go:143-288 | The loop lands PRs in order. The outcome is the last attempt's, and a run without failure covers every PR. |
| Landing.LandNext | land.go:143-288 | One more PR extends the loop state. |
| Landing.StackAutoChain | land.go:222-224 | Auto mode passes from one attempt to the next. |
| Landing.AutoModeSticky | land.go:222-224 | A PR starts in auto mode iff the stack did or an earlier PR fell back. |
| Landing.StackLandedFully | land.go:143-295 | A stack landed without failure has merged every one of its PRs. |
| Landing.LastAttempt | land.go:143-295 | In such a stack no attempt failed. |
| Rebase.RebaseOne | land.go:1857-1915 | One turn of the loop does as `PartSeg` says, and its error is the one that turn meets. |
| Rebase.CheckoutBranch | land.go:1860-1882 | Fetches the branch, lists local branches, then checks out the existing branch or creates it from the remote. |
| Rebase.RebaseAndPush | land.go:1884-1912 | Rebases onto the trunk. A conflict is aborted and reported as a conflict. Other failures are passed on. Success is force-pushed. |
| Rebase.CheckoutEndsPart | land.go:1869-1881 | A failed checkout ends the turn with that branch's error. |
| Rebase.RebaseEndsPart | land.go:1884-1912 | Otherwise the rebase step decides the turn. |
| Rebase.PartSucceedsIffPushed | land.go:1884-1912 | A turn succeeds exactly when it force-pushed the branch, and a conflicting rebase is always aborted. |
| Rebase.RebaseEach | land.go:1857-1915 | The PRs are processed in order, stopping at the first failure. Without failure, every PR was processed. |
| Rebase.PartsPushed | land.go:1857-1915 | Every turn before the last force-pushed its branch, and the last did exactly when the loop ended without error. |
| Rebase.RestoreBranch | land.go:1917-1941 | Checks out the last PR's branch and reads its new head, which panics when shorter than 8 characters. When that checkout fails, it falls back to the saved branch or the trunk. With no PRs, it restores the saved branch if it is not the trunk. |
| Rebase.RebaseRemainingPRs | land.go:1820-1950 | Saves the branch, then fetches, checks out and pulls the trunk, stopping at a failure. Then the per-PR loop and the branch restore. |
| Rebase.RebaseStopsAtFirstFailure | land.go:1857-1915 | When the rebase stops at a PR, every PR before it was pushed and that one was not, and no restore followed. |
| Refresh.DashboardState.constructor | land.go:300-307 | The dashboard starts with the given PR list and no error. |
| Refresh.Numbers | land.go:477-480 | One PR number per entry, in order. |
| Refresh.UpdatePRStatusBatch | land.go:497-695 | Does nothing for an empty list. Otherwise one query, and only when its answer decodes is every PR updated from its own key. On an error the list is unchanged. |
| Refresh.ApplyBatch | land.go:598-692 | Entry k changes only when the answer has the key `pr<k>`, and then as `Updated` says. |
| Refresh.BatchAppliedKeepsIdentity | land.go:599-606 | An answer without a PR's key leaves the PR alone. One with it never changes which PR it is. |
| Refresh.UpdatePRStatus | land.go:698-765 | Sends the view query, and the checks query only when the view decodes. It reports an error exactly when only the view query was sent, and the PR changes as `RefreshOf` says. |
| Refresh.RefreshKeepsIdentity | land.go:721-761 | A refresh rewrites only the status, never the PR's identity or review line. The rollup is NONE only when empty and FAILING exactly when a check failed. |
| Refresh.UpdateAllPRStatus | land.go:472-494 | The batch update runs first. When it fails, its error is kept and every PR is refreshed on its own. |
| Refresh.RefreshAll | land.go:488-492 | Each PR is refreshed by its own exchanges, and a failed refresh keeps its entry. |
| Refresh.RefreshedEachSnoc | land.go:488-492 | One more refreshed PR extends the fallback loop. |
| Stack.CheckDuplicateRefs | main.go:66-77 | Stops exactly when two commits share a non-empty remote ref, naming the ref and the short hashes of the first such pair, each quoted as `%q` quotes. Empty refs are ignored. |
| Strs.UnescapeEscape | main.go:74 | What `%q` writes between the quotes reads back as the original text. |
| Strs.QuotePlain | main.go:74 | Text without quotes, backslashes or control characters is quoted as it is. |
| Strs.Quote | main.go:74 | The quoted text begins and ends with a double quote. |
| Stack.WithoutRemoteRefMembers | main.go:319-330 | The yielded commits are exactly the pushed commits without a remote ref. |
| Stack.WithoutRemoteRefAppend | main.go:319-330 | The filter keeps stack order. |
| Stack.FindCommitsWithoutRemoteRef | main.go:319-330 | Yields exactly the filter's commits, in stack order. |
| Stack.AssignedRef | main.go:82-86 | A commit that needed a ref has `user/<short hash>` afterwards. One that did not keeps its trailers. |
| Stack.AssignRef | main.go:82-86 | One commit gets its new remote ref through `SetAttr` iff it needed one. |
| Stack.FillRemoteRefs | main.go:79-87 | Every commit that needs a ref gets one and is recorded by its hash. Every other commit keeps its trailers. |
| Stack.AssignedRefsComplete | main.go:79-87 | Afterwards every pushed commit has a non-empty remote ref, and only the yielded commits changed. |
| Stack.Find | main.go:108-111 | The first position of the commit by identity, or -1 when absent. |
| Stack.LastUnskippedSpec | main.go:107-118 | The chosen commit is the pushed commit closest below. It is absent exactly when all below are skipped. |
| Stack.FirstUnskippedSpec | main.go:200-208 | The chosen commit is the lowest pushed commit below. It is absent exactly when all are skipped. |
| Stack.PrevCommit | main.go:107-118 | Panics exactly when the commit is not in the stack. Otherwise returns the last pushed commit before its first occurrence. |
| Stack.PrevForPRNumber | main.go:200-208 | The PR-number lookup takes the first pushed commit below position i. |
| Stack.PrevChoicesDiffer | main.go:107-118 | The two choices differ for the third of three pushed commits. |
| Stack.RewriteKeys | main.go:374-410 | Only hashes of the stack are replaced. |
| Stack.RewriteStable | main.go:374-410 | Once a commit's turn is over, later turns leave its entry alone. |
| Stack.RewriteReplaced | main.go:374-410 | A commit is recreated exactly when it is one of the commits to update or the commit before it was replaced by a non-empty hash. Its parent is the previous commit's replacement, or its original hash. |
| Stack.RewriteKeepsPrefix | main.go:374-410 | Commits before the first commit to update keep their hash. |
| Stack.RewritePropagates | main.go:392-402 | When `git commit-tree` always prints a hash, every commit after a recreated one is recreated too. |
| Stack.RewriteMovesHead | main.go:413-419 | Then HEAD moves exactly when anything was rewritten. |
| Stack.RenderMessage | main.go:397-399 | The rendered message is the one the commit's original trailers give, since sorting is idempotent. |
| Stack.RewriteTurn | main.go:374-410 | One turn of the loop extends the replacement map as specified. |
| Stack.RewriteAll | main.go:374-410 | The loop yields the specified replacement map. |
| Stack.GitRewriteCommits | main.go:332-419 | The replacement map is the specified rewrite over the stack's hashes and messages. The new HEAD is the last commit's replacement, present exactly when it was replaced. |
| Stack.SplitEmailSpec | main.go:434-439 | The two parts concatenate back to the address. The first has no `@`. The second is non-empty exactly when there is an `@`, and then it starts with it. |
| Stack.ShortenTitleSpec | main.go:441-453 | Titles of at most 36 characters are kept. Longer ones are cut at the last space within 36 with " ..." added, or, with no space, cut to 36 with "..." added. The result is at most 39 characters. |
| Stack.ShortenTitleExamples | git_test.go:322-348 | Short titles are kept, and a 50-letter title without spaces becomes 39 characters. |
| Stack.Coalesce | main.go:455-460 | The first argument unless it is empty, otherwise the second. |
| Dashboard.ForcePushAll | land.go:1020-1024 | One force-push per remaining PR, in stack order. |
| Dashboard.Restack | land.go:999-1030 | Checks out the top branch and, if that worked, rebases it onto the trunk and then pushes every branch. Only a rebase failure counts as an error. |
| Dashboard.DashPR | land.go:846-1033 | One turn of the dashboard loop leaves exactly the run `DashedPR` describes. The dashboard entry is replaced only when the refresh after the sync succeeded. |
| Dashboard.DashSync | land.go:856-871 | Syncs the commit; a sync error stops the landing. |
| Dashboard.DashAfterSync | land.go:861-877 | After the sync: the refresh when needed, then the local copy's merge status. |
| Dashboard.RefreshAfterSync | land.go:861-871 | The PR is refreshed exactly when the sync asked for it. The entry is replaced exactly when that refresh succeeded. |
| Dashboard.DashFromChecks | land.go:879-887 | From the checks phase on. |
| Dashboard.DashFromHead | land.go:889-895 | From the head detection on. |
| Dashboard.DashFromMerge | land.go:897-913 | From the merge on. |
| Dashboard.DashFromWait | land.go:915-926 | From the wait on. |
| Dashboard.DashFromBase | land.go:928-977 | From the base update on. |
| Dashboard.DashUpdateBase | land.go:930-944 | Edits the next PR's base. A closed-PR error is fatal. Any other error skips to the deletion. Success is followed by the conflict query. |
| Dashboard.DashFromConflicts | land.go:946-975 | Only a definite "conflicting" answer leads to the rebase. |
| Dashboard.DashFromRebase | land.go:952-963 | Rebases the rest of the stack as the dashboard listed it. A new head too short to print is a slice panic (land.go:1933); any other rebase failure ends the landing as conflicts to resolve by hand. |
| Dashboard.RebaseFailure | land.go:956-962 | The landing ends in a panic exactly when the rebase failed on a new head too short to print. |
| Dashboard.DashFromRecheck | land.go:965-974 | Asks again: still conflicting is fatal, and an error is only reported. |
| Dashboard.DashFromDelete | land.go:979-989 | The deletion of the merged branch; it is never fatal. |
| Dashboard.DashFromPull | land.go:991-1030 | The pull, then the restack of the rest. |
| Dashboard.DUpToMerge | land.go:846-913 | A turn that did not fail before the merge reached it. |
| Dashboard.DMergeToBase | land.go:897-926 | The base phase is reached only after the merge and the wait. |
| Dashboard.DBaseToDelete | land.go:928-977 | The deletion is reached unless the base update or the conflict handling stopped the turn. |
| Dashboard.DConflictsToDelete | land.go:946-975 | The conflict handling either stops the turn or reaches the deletion. |
| Dashboard.DRebaseToDelete | land.go:955-975 | The rebase either stops the turn or reaches the deletion. |
| Dashboard.DConflictsToRebase | land.go:946-956 | The rebase runs only after a definite "conflicting" answer, on the rest of the stack. |
| Dashboard.DSyncToChecks | land.go:846-887 | A merged PR is skipped without a failure. Otherwise the sync runs once. A local copy marked CONFLICTING stops the turn, and otherwise the checks follow. |
| Dashboard.DashSkipsMerged | land.go:848-851 | A PR shown as merged is skipped without a single exchange; every other turn starts with the sync. |
| Dashboard.DashConflictingNeverMerges | land.go:874-877 | A local copy marked conflicting is never merged: the turn fails before the checks. |
| Dashboard.DashAutoModeAfter | land.go:905-907 | The next PR starts in auto mode iff this one did or it fell back. |
| Dashboard.DashMergesLocalCopy | land.go:897-906 | The merge uses the title and head SHA of the synced and refreshed local copy. |
| Dashboard.DPRToWait | land.go:897-926 | A turn that got past the merge merged a PR that was not yet merged, and then waited. |
| Dashboard.DWaitPassed | land.go:915-926 | A wait that let the turn go on saw MERGED in auto mode. |
| Dashboard.DashBaseUpdatedOnlyAfterMerge | land.go:928-944 | The next PR's base is edited only when there is a next PR, once, and only after a successful merge that auto mode saw MERGED. |
| Dashboard.DashRebaseOnlyOnConflict | land.go:944-963 | The rest of the stack is rebased only after the base was moved and the forge answered, definitely, that the next PR conflicts. The rebase covers the rest as the dashboard listed it. |
| Dashboard.DashLandedWithoutFailure | land.go:897-1030 | A turn without failure merged the PR (and saw it MERGED in auto mode). It offered the next PR the trunk, pulled the trunk, and restacked the rest without a failed rebase. |
| Dashboard.DDeleteToEnd | land.go:979-1030 | After the deletion, the pull and the restack decide the turn. |
| Dashboard.DashAt | land.go:846-1033 | Each turn handled its own PR, starting in the mode the previous one left, and only after the previous one went through. |
| Dashboard.EntriesSnoc | land.go:869 | One more turn extends the list of entries. |
| Dashboard.LandStackFromDashboard | land.go:842-1037 | The PRs are handled bottom first until one fails. An entry is replaced by its refreshed copy only after a successful refresh; no other entry changes. |
| Dashboard.ListedParts | land.go:846-869 | The dashboard's array is the handled entries followed by the rest, unchanged. |
| Dashboard.SetEntry | land.go:869 | `state.prs[i] = pr` exactly when the refresh succeeded. |
| Dashboard.DashNext | land.go:846-1033 | One more turn extends the loop state. |
| Dashboard.DashSnoc | land.go:846-1033 | A turn that starts where the loop stands extends it. |
| Dashboard.DashStackAutoChain | land.go:905-907 | Auto mode passes from one turn to the next. |
| Dashboard.DashAutoModeSticky | land.go:905-907 | A turn starts in auto mode iff the landing did or an earlier turn fell back. |
| Dashboard.DashLandedFully | land.go:842-1037 | A landing without failure went through every PR. A merged PR was skipped without an exchange, and every other PR was merged. |
| Dashboard.EntryAfterKeepsIdentity | land.go:857-869 | A turn's new entry is still the same PR. |
| Dashboard.ActionIgnoresCase | land.go:329 | Case does not matter to the prompt. |
| Dashboard.ActionIgnoresSpace | land.go:329 | White space around the answer, such as its newline, does not matter either. |
| Dashboard.ActionOfYes | land.go:332 | `Yes` followed by a newline means land. |
| Dashboard.ActionOfQuit | land.go:343 | ` Q` means quit. |
| Dashboard.ActionOfOther | land.go:348-349 | `land` is an unknown answer. |
| Dashboard.Answers | land.go:328-329 | One action per input line. |
| Dashboard.TurnAt | land.go:312-351 | Each turn starts where the previous one ended and is what the previous answer asked for. |
| Dashboard.TurnsSnoc | land.go:315-351 | One more turn extends the turns and their log. |
| Dashboard.LandStackInteractive | land.go:299-352 | Refreshes, then reads answers until every PR is merged, or until the answers given to the model run out (the source never stops there: at end of input it re-prompts forever). "y" lands the stack from the list as refreshed, "r" refreshes again, "q" cancels with an error, and anything else asks again. |
| Dashboard.Prompt | land.go:315-351 | The prompt loop over the answers stops at all-merged or at an answer other than refresh or unknown; `InputEnded` marks only that the answers given ran out. |
| Dashboard.PromptTurn | land.go:325-350 | One more answer read. |
| Dashboard.FirstRound | land.go:312 | The first refresh, and whether every PR is merged after it. |
| Dashboard.Turn | land.go:336-341 | A refresh for "r", nothing for any other answer. |
| Dashboard.RefreshRound | land.go:340 | `updateAllPRStatus`, recorded as one round. |
| Dashboard.RoundRanBy | land.go:472-494 | The facts `updateAllPRStatus` gives, read as one round. |

## Left out

- Strings are sequences of characters, not of UTF-8 bytes. Lengths and slices therefore agree with Go only for ASCII text, and case mapping covers ASCII letters only.
- Four cleanup regular expressions are given as parameters (`Body.Regexes`) and are not modelled:
  - `markdownCommentRegex`;
  - `trailingBrRegex`;
  - `emptyTemplateRegex`;
  - `onlyHeadersRegex`.

  Their `\s*` may span lines, which would mean implementing RE2's leftmost-first matching.
- Process execution, `gh` and `git` output, JSON decoding and GraphQL query text are out. Each command is one oracle exchange (`Forge.Host.Ask`), and its decoded answer is a `Reply` value.
- `time.Sleep`, `time.Now`, timeouts, the spinner and all printing are out. A timeout is a poll budget, a number of polls allowed.
- The 2-second and 5-second pauses are out, including the final wait of `rebaseRemainingPRs`.
- `verifyAndSyncCommit` and `checkAndConfirmLocalChanges` (land.go:1493-1819) are out, apart from the SHA prefix match (`Status.ShaMatch`). Their sync is one oracle exchange whose answer says whether the PR must be refreshed and what its new head is.
- `landStack` before its loop (land.go:82-140) is out: the clean-tree check, reading the stack and looking up each PR's number. `Landing.LandStack` starts from the PR list.
- The goroutine fan-out of main.go (main.go:139-164, 193-214, 222-316) is out, and so is PR-body generation (main.go:239-297). Only the predecessor choice of the PR-number loop is modelled.
- `time.Parse` of the commit date (git.go:94-100) is not modelled. The date is kept as the text after `Date:`, so its parse panic is not modelled either.
- `LoadConfig`'s flags and hosts file (config.go:31-118) are out. Only the remote-URL match, `expandPath` and `validateConfig` are modelled.
- `validateGitStatusClean` and `isMyOwnCommit` (main.go:425-432) are out: they are a `git status` call and an e-mail comparison against global configuration.
- `recreateCommit` (main.go:334-368) is a function parameter that gives the new hash for a commit, parent and message. The `git` calls inside it are not modelled.
- The reload at the end of `gitRewriteCommits` (main.go:422) is out.
- The original parent of the first commit (`git rev-parse <hash>^`, main.go:379) is a parameter of `Stack.GitRewriteCommits`. The debug lines that slice new hashes (main.go:405-407) are not modelled.
- Dry-run mode in `landStack` is modelled as skipping every PR. The dry-run branch of the rewrite in main.go (main.go:91-97) only prints, and is out.
- `os.Exit`, `panic` and `exitf` become an `Err` value or a failure value; the process does not end.
- KeyVals.SortAttrs: models `sort.Slice` as a stable insertion sort. Go's `sort.Slice` is an insertion sort only for short slices and is not stable in general, so the order of entries with equal keys may differ from Go's for long trailer lists.
- Stack.GitRewriteCommits: states that each commit to update keeps its trailers or has them sorted. It does not state which one happens, because the commit objects are discarded by the reload.
- Types.Commit.ShortHash: requires a hash of at least 8 characters instead of modelling the slice panic. Every hash the parser produces has 40.
- Types.Commit.String: requires a hash of at least 8 characters, for the same reason.
- Queries.DetectAutoGeneratedCommits: reports no added commits, exactly as the source does.
- Dashboard.Prompt: at end of input `ReadString` returns "", an unknown answer, so `landStackInteractive` re-prompts forever. The model's answers are a finite sequence, and `InputEnded` stands for running out of them. Lines a pipe delivered ahead of time may also be lost, because a new `bufio.Reader` is made for each prompt; the model reads one answer per prompt.
- Some error texts are shorter than the source's:
  - the timeouts of `waitForChecks` and `waitForMerge` leave out `after <timeout>`, since time is a poll budget;
  - the JSON decoding errors (`failed to parse ...`) leave out the decoder's message.
- `githubGetPRByNumber` is not part of this model. When its answer cannot be decoded, the panic of `mergePR` carries the text `failed to parse PR` in place of its error.
- `%q` (`Strs.Quote`) escapes ASCII control characters, quotes and backslashes as Go does. Every other character is written as itself, whereas Go writes non-printable non-ASCII characters as `\u` escapes.

## Findings

| source | as written | input that shows it | evidently intended | confidence | as-written member | corrected member |
|---|---|---|---|---|---|---|
| types.go:72-76 | The inner loop's `continue` only continues the inner loop, so a tag already in the list is appended again. | A commit with the trailer `tags: a,a` and no defaults: `GetTags()` returns `["a", "a"]`. | A tag already present is skipped, giving `["a"]`. | not executed | Types.GetTagsKeepsDuplicates | Types.TagsDedupedNoDuplicates |
