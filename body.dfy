/** land.go, `cleanupPRBodyForMerge` and its helpers: turning a pull
    request's description into the body of the squash commit. Line endings
    are normalised, comments removed, the stack footer cut off, runs of
    blank lines collapsed and template-only bodies treated as empty. */
module Body {
  import opened Strs

  /** The four regular expressions of the cleanup whose `\s*` may span
      lines; they are given, not modelled: the result of
      `ReplaceAllString(s, "")` for the markdown-comment and trailing-`<br>`
      patterns, and `MatchString` for the two emptiness patterns. */
  datatype Regexes = Regexes(
    markdownComments: string -> string,
    trailingBr: string -> string,
    emptyTemplate: string -> bool,
    onlyHeaders: string -> bool)

  // ---------------------------------------------------------------
  // Line endings

  /** `s` without every carriage return directly followed by a line feed. */
  function DropCRBeforeLF(s: string): string
  {
    if s == [] then []
    else if s[0] == '\r' && |s| >= 2 && s[1] == '\n' then DropCRBeforeLF(s[1..])
    else [s[0]] + DropCRBeforeLF(s[1..])
  }

  /** Replacing each `\r\n` pair left to right is deleting every `\r`
      that precedes a `\n` (the pairs cannot overlap). */
  lemma {:induction false} ReplaceCRLFDropsCR(s: string)
    ensures ReplaceCRLF(s) == DropCRBeforeLF(s)
  {
    if |s| >= 2 && s[0] == '\r' && s[1] == '\n' {
      ReplaceCRLFDropsCR(s[2..]);
      assert s[1..][1..] == s[2..];
    } else if s != [] {
      ReplaceCRLFDropsCR(s[1..]);
    }
  }

  lemma {:induction false} ReplaceCRLFWithoutCR(s: string)
    requires '\r' !in s
    ensures ReplaceCRLF(s) == s
  {
    if s != [] {
      assert '\r' !in s[1..];
      ReplaceCRLFWithoutCR(s[1..]);
    }
  }

  // ---------------------------------------------------------------
  // HTML comments

  /** `htmlCommentRegex.ReplaceAllString(s, "")` for `(?s)<!--.*?-->`:
      from the leftmost `<!--`, the shortest text up to a `-->` that starts
      after it is removed, and the search goes on after that `-->`. */
  function RemoveHtmlComments(s: string): (r: string)
    ensures |r| <= |s|
    decreases |s|
  {
    var p := Index(s, "<!--");
    if p < 0 then s
    else
      var q := Index(s[p + 4..], "-->");
      if q < 0 then s
      else s[..p] + RemoveHtmlComments(s[p + 4 + q + 3..])
  }

  /** `s` holds a complete comment: an opening `<!--` and a closing `-->`
      that starts after it. */
  predicate HasHtmlComment(s: string)
  {
    exists i, j | 0 <= i && i + 4 <= j <= |s| :: OccursAt(s, "<!--", i) && OccursAt(s, "-->", j)
  }

  /** The removal changes the text exactly when it holds a complete
      comment, and then removes at least the seven characters of its
      delimiters. */
  lemma RemoveHtmlCommentsUnchanged(s: string)
    ensures RemoveHtmlComments(s) == s <==> !HasHtmlComment(s)
    ensures HasHtmlComment(s) ==> |RemoveHtmlComments(s)| <= |s| - 7
  {
    IndexSpec(s, "<!--");
    var p := Index(s, "<!--");
    if p >= 0 {
      var t := s[p + 4..];
      IndexSpec(t, "-->");
      var q := Index(t, "-->");
      if q >= 0 {
        OccursAtShift(s, "-->", p + 4, q);
        assert OccursAt(s, "<!--", p) && OccursAt(s, "-->", q + p + 4);
      } else if HasHtmlComment(s) {
        var i, j :| 0 <= i && i + 4 <= j <= |s| && OccursAt(s, "<!--", i) && OccursAt(s, "-->", j);
        OccursAtShift(s, "-->", p + 4, j - (p + 4));
        assert false;
      }
    }
  }

  /** `removeComments`: HTML comments, then markdown reference comments. */
  function RemoveComments(s: string, rx: Regexes): string
  {
    rx.markdownComments(RemoveHtmlComments(s))
  }

  // ---------------------------------------------------------------
  // The stack footer

  predicate IsBlank(line: string)
  {
    TrimSpace(line) == ""
  }

  /** `prReferenceRegex.MatchString` for `^\*.*#\d+`: a leading `*`, then
      (without crossing a line feed) a `#` followed by an ASCII digit. */
  predicate IsPrReference(t: string)
  {
    |t| >= 1 && t[0] == '*' &&
    exists k | 1 <= k < |t| - 1 :: t[k] == '#' && IsDigit(t[k + 1]) && '\n' !in t[1..k]
  }

  /** `hasPrecedingEmptyLine`: its loop returns in its first round, so it
      only looks at the line directly above `i`. */
  predicate HasPrecedingEmptyLine(lines: seq<string>, i: nat)
    requires i <= |lines|
  {
    i > 0 && IsBlank(lines[i - 1])
  }

  /** A later line is a pull request reference. */
  predicate StackInfoAfter(lines: seq<string>, i: nat)
  {
    exists j | i < j < |lines| :: IsPrReference(TrimSpace(lines[j]))
  }

  /** Line `i` is where the footer's `---` separator stands: it trims to
      `---`, the line above it is blank and a pull request reference
      follows. */
  predicate IsFooterSeparator(lines: seq<string>, i: nat)
    requires i < |lines|
  {
    TrimSpace(lines[i]) == "---" && HasPrecedingEmptyLine(lines, i) && StackInfoAfter(lines, i)
  }

  predicate FirstFooterSeparator(lines: seq<string>, i: nat)
    requires i < |lines|
  {
    IsFooterSeparator(lines, i) && forall k | 0 <= k < i :: !IsFooterSeparator(lines, k)
  }

  /** Lines `r` up to `i` are the whole run of blank lines directly above
      line `i`. */
  predicate BlankRunAbove(lines: seq<string>, r: nat, i: nat)
    requires i <= |lines|
  {
    r <= i && (forall k | r <= k < i :: IsBlank(lines[k])) && (r == 0 || !IsBlank(lines[r - 1]))
  }

  /** `hasStackInfoAfter`. */
  method HasStackInfoAfter(lines: seq<string>, i: nat) returns (found: bool)
    ensures found <==> StackInfoAfter(lines, i)
  {
    var j := i + 1;
    while j < |lines|
      invariant i + 1 <= j
      invariant forall k | i < k < j && k < |lines| :: !IsPrReference(TrimSpace(lines[k]))
    {
      if IsPrReference(TrimSpace(lines[j])) {
        return true;
      }
      j := j + 1;
    }
    return false;
  }

  /** `findFirstEmptyLineBefore`: walks up from line `i` over blank lines
      and returns where the run starts (`i` itself when the line above is
      not blank). */
  method FindFirstEmptyLineBefore(lines: seq<string>, i: nat) returns (r: nat)
    requires i <= |lines|
    ensures BlankRunAbove(lines, r, i)
  {
    var j := i - 1;
    while j >= 0
      invariant -1 <= j < i
      invariant j >= 0 || i == 0
      invariant forall k | j < k < i :: IsBlank(lines[k])
    {
      if !IsBlank(lines[j]) {
        return j + 1;
      }
      if j == 0 {
        return 0;
      }
      j := j - 1;
    }
    return i;
  }

  /** `findStackFooterStart`: the start of the blank run above the first
      footer separator, -1 if there is none. */
  method FindStackFooterStart(lines: seq<string>) returns (r: int)
    ensures -1 <= r < |lines|
    ensures r == -1 <==> forall i | 0 <= i < |lines| :: !IsFooterSeparator(lines, i)
    ensures r >= 0 ==> exists i | 0 <= i < |lines| :: FirstFooterSeparator(lines, i) && BlankRunAbove(lines, r, i) && r < i
  {
    for i := 0 to |lines|
      invariant forall k | 0 <= k < i :: !IsFooterSeparator(lines, k)
    {
      if TrimSpace(lines[i]) != "---" {
        continue;
      }
      if !HasPrecedingEmptyLine(lines, i) {
        continue;
      }
      var info := HasStackInfoAfter(lines, i);
      if info {
        var start := FindFirstEmptyLineBefore(lines, i);
        assert FirstFooterSeparator(lines, i) && start < i;
        return start;
      }
    }
    return -1;
  }

  function Lines(s: string): seq<string>
  {
    Split(s, '\n')
  }

  /** `f` is `s` with its stack footer cut off: `s` itself when no line is
      a footer separator, otherwise the lines above the blank run that
      precedes the first separator, joined again. */
  predicate FooterStripped(s: string, f: string)
  {
    var lines := Lines(s);
    ((forall i | 0 <= i < |lines| :: !IsFooterSeparator(lines, i)) && f == s) ||
    (exists n: nat, i: nat | n < i < |lines| ::
      FirstFooterSeparator(lines, i) && BlankRunAbove(lines, n, i) && f == Join(lines[..n], "\n"))
  }

  /** Cutting the lines off at the start of the blank run above the first
      separator strips the footer and leaves a prefix of `s`. */
  lemma FooterCut(s: string, n: nat, i: nat)
    requires n < i < |Lines(s)|
    requires FirstFooterSeparator(Lines(s), i) && BlankRunAbove(Lines(s), n, i)
    ensures FooterStripped(s, Join(Lines(s)[..n], "\n"))
    ensures HasPrefix(s, Join(Lines(s)[..n], "\n"))
  {
    JoinPrefix(Lines(s), n, "\n");
    JoinSplit(s, '\n');
  }

  /** `removeStackFooter`: the result is always a prefix of the body. */
  method RemoveStackFooter(body: string) returns (r: string)
    ensures FooterStripped(body, r)
    ensures HasPrefix(body, r)
  {
    var lines := Split(body, '\n');
    var footerStart := FindStackFooterStart(lines);
    if footerStart == -1 {
      assert body[..|body|] == body;
      return body;
    }
    ghost var i :| 0 <= i < |lines| && FirstFooterSeparator(lines, i) && BlankRunAbove(lines, footerStart, i) && footerStart < i;
    FooterCut(body, footerStart, i);
    return Join(lines[..footerStart], "\n");
  }

  /** The footer separator never survives: the kept lines stop above it. */
  lemma FooterStrippedDropsSeparator(s: string, f: string)
    requires FooterStripped(s, f) && f != s
    ensures exists n: nat, i: nat | n < i < |Lines(s)| ::
      IsFooterSeparator(Lines(s), i) && f == Join(Lines(s)[..n], "\n")
  {
  }

  // ---------------------------------------------------------------
  // Blank lines

  /** The number of line feeds `s` starts with. */
  function LeadingNewlines(s: string): (n: nat)
    ensures n <= |s|
  {
    if s != [] && s[0] == '\n' then 1 + LeadingNewlines(s[1..]) else 0
  }

  lemma {:induction false} LeadingNewlinesSpec(s: string)
    ensures forall k | 0 <= k < LeadingNewlines(s) :: s[k] == '\n'
    ensures LeadingNewlines(s) == |s| || s[LeadingNewlines(s)] != '\n'
  {
    if s != [] && s[0] == '\n' {
      LeadingNewlinesSpec(s[1..]);
    }
  }

  /** `multipleBlankLinesRegex.ReplaceAllString(s, "\n\n")` for `\n{3,}`:
      every maximal run of three or more line feeds becomes two. */
  function CollapseBlankLines(s: string): (r: string)
    ensures |r| <= |s|
    decreases |s|
  {
    if s == [] then []
    else if s[0] != '\n' then [s[0]] + CollapseBlankLines(s[1..])
    else
      var n := LeadingNewlines(s);
      (if n >= 3 then "\n\n" else s[..n]) + CollapseBlankLines(s[n..])
  }

  predicate HasTripleNewline(s: string)
  {
    exists k | 0 <= k <= |s| :: OccursAt(s, "\n\n\n", k)
  }

  /** The collapse starts with the same character as its input. */
  lemma CollapseHead(s: string)
    requires s != []
    ensures CollapseBlankLines(s) != [] && CollapseBlankLines(s)[0] == s[0]
  {
  }

  /** A character other than a line feed in front of a text without three
      line feeds in a row does not create them. */
  lemma NoTripleAfterChar(c: char, b: string)
    requires c != '\n' && !HasTripleNewline(b)
    ensures !HasTripleNewline([c] + b)
  {
    forall k | 0 <= k <= |[c] + b| ensures !OccursAt([c] + b, "\n\n\n", k) {
      if k == 0 {
        if 3 <= |[c] + b| {
          assert ([c] + b)[0..3][0] == c;
        }
      } else {
        assert ([c] + b)[1..] == b;
        OccursAtShift([c] + b, "\n\n\n", 1, k - 1);
      }
    }
  }

  /** One or two line feeds in front of a text that has no three in a row
      and does not start with a line feed do not create three. */
  lemma NoTripleAfterNewlines(a: string, b: string)
    requires |a| <= 2 && !HasTripleNewline(b) && (b == [] || b[0] != '\n')
    ensures !HasTripleNewline(a + b)
  {
    forall k | 0 <= k <= |a + b| ensures !OccursAt(a + b, "\n\n\n", k) {
      if k >= |a| {
        assert (a + b)[|a|..] == b;
        OccursAtShift(a + b, "\n\n\n", |a|, k - |a|);
      } else if k + 3 <= |a + b| {
        assert (a + b)[k..k + 3][|a| - k] == b[0];
      }
    }
  }

  /** The collapse leaves no three line feeds in a row. */
  lemma {:induction false} CollapseNoTriple(s: string)
    ensures !HasTripleNewline(CollapseBlankLines(s))
    decreases |s|
  {
    if s == [] {
    } else if s[0] != '\n' {
      CollapseNoTriple(s[1..]);
      NoTripleAfterChar(s[0], CollapseBlankLines(s[1..]));
    } else {
      var n := LeadingNewlines(s);
      LeadingNewlinesSpec(s);
      var rest := s[n..];
      CollapseNoTriple(rest);
      if rest != [] {
        CollapseHead(rest);
      }
      NoTripleAfterNewlines(if n >= 3 then "\n\n" else s[..n], CollapseBlankLines(rest));
    }
  }

  /** A text without three line feeds in a row is left as it is; runs of
      one or two line feeds are kept. */
  lemma {:induction false} CollapseWithoutTriple(s: string)
    requires !HasTripleNewline(s)
    ensures CollapseBlankLines(s) == s
    decreases |s|
  {
    if s != [] {
      if s[0] != '\n' {
        NoTripleInSuffix(s, 1);
        CollapseWithoutTriple(s[1..]);
      } else {
        var n := LeadingNewlines(s);
        LeadingNewlinesSpec(s);
        if n >= 3 {
          assert OccursAt(s, "\n\n\n", 0);
        }
        NoTripleInSuffix(s, n);
        CollapseWithoutTriple(s[n..]);
        assert s == s[..n] + s[n..];
      }
    }
  }

  lemma NoTripleInSuffix(s: string, d: nat)
    requires d <= |s| && !HasTripleNewline(s)
    ensures !HasTripleNewline(s[d..])
  {
    if HasTripleNewline(s[d..]) {
      var k :| 0 <= k <= |s[d..]| && OccursAt(s[d..], "\n\n\n", k);
      OccursAtShift(s, "\n\n\n", d, k);
    }
  }

  /** A text with three line feeds in a row gets shorter. */
  lemma {:induction false} CollapseShortens(s: string)
    requires HasTripleNewline(s)
    ensures |CollapseBlankLines(s)| < |s|
    decreases |s|
  {
    var k :| 0 <= k <= |s| && OccursAt(s, "\n\n\n", k);
    if s[0] != '\n' {
      assert k > 0;
      OccursAtShift(s, "\n\n\n", 1, k - 1);
      CollapseShortens(s[1..]);
    } else {
      var n := LeadingNewlines(s);
      LeadingNewlinesSpec(s);
      if n < 3 {
        forall k' | 0 <= k' < n && k' + 3 <= |s| ensures !OccursAt(s, "\n\n\n", k') {
          assert s[k'..k' + 3][n - k'] == s[n];
        }
        OccursAtShift(s, "\n\n\n", n, k - n);
        CollapseShortens(s[n..]);
      }
    }
  }

  /** The collapse changes the text exactly when it has three line feeds
      in a row. */
  lemma CollapseUnchanged(s: string)
    ensures CollapseBlankLines(s) == s <==> !HasTripleNewline(s)
  {
    if HasTripleNewline(s) {
      CollapseShortens(s);
    } else {
      CollapseWithoutTriple(s);
    }
  }

  // ---------------------------------------------------------------
  // The whole cleanup

  /** `cleanupFormatting`. */
  function CleanupFormatting(s: string, rx: Regexes): string
  {
    rx.trailingBr(CollapseBlankLines(s))
  }

  /** `isEmptyBody`: the trimmed body is an empty template or holds only
      headings. */
  predicate IsEmptyBody(s: string, rx: Regexes)
  {
    rx.emptyTemplate(TrimSpace(s)) || rx.onlyHeaders(TrimSpace(s))
  }

  /** `r` is what the cleanup makes of `body`: an empty body stays empty;
      otherwise the body, with line endings normalised, comments removed
      and its stack footer cut off, is formatted and then either found
      empty or trimmed. The result is trimmed, and a non-empty result is
      neither an empty template nor headings only. */
  ghost predicate CleanedFrom(body: string, r: string, rx: Regexes)
  {
    (body == "" ==> r == "") &&
    (body != "" ==> exists f ::
      FooterStripped(RemoveComments(ReplaceCRLF(body), rx), f) &&
      (IsEmptyBody(CleanupFormatting(f, rx), rx) ==> r == "") &&
      (!IsEmptyBody(CleanupFormatting(f, rx), rx) ==> r == TrimSpace(CleanupFormatting(f, rx)))) &&
    Trimmed(r) &&
    (r != "" ==> !rx.emptyTemplate(r) && !rx.onlyHeaders(r))
  }

  /** `cleanupPRBodyForMerge`. */
  method CleanupPRBodyForMerge(body: string, rx: Regexes) returns (r: string)
    ensures CleanedFrom(body, r, rx)
  {
    if body == "" {
      return "";
    }
    var normalized := ReplaceCRLF(body);
    var uncommented := RemoveComments(normalized, rx);
    var stripped := RemoveStackFooter(uncommented);
    var formatted := CleanupFormatting(stripped, rx);
    if IsEmptyBody(formatted, rx) {
      return "";
    }
    r := TrimSpace(formatted);
    TrimSpaceTrimmed(formatted);
  }
}
