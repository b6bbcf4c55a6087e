/** git.go: `parseLogs`, `parseLogsCommit`, `parseBody` and the ordering
    of `getStackedCommits`. The four line regexes are written out as
    matchers; the date text is kept as it appears in the log. */
module Git {
  import opened Strs
  import opened Wrappers
  import opened KeyVals
  import opened Utils
  import opened Types

  /** A commit as `parseLogsCommit` fills it in, before it is handed out as
      a `Commit` object. */
  datatype CommitData = CommitData(
    hash: string, date: string, authorName: string, authorEmail: string,
    title: string, message: string, attrs: seq<KeyVal>)

  predicate IsLowerHex(c: char)
  {
    '0' <= c <= '9' || 'a' <= c <= 'f'
  }

  /** `^commit ([0-9a-f]{40})$`. */
  function MatchCommitHash(line: string): Option<string>
  {
    if |line| == 47 && line[..7] == "commit " && forall k | 7 <= k < 47 :: IsLowerHex(line[k])
    then Some(line[7..]) else None
  }

  /** A header line is `commit ` and forty lower-case hex digits, which are
      the hash. */
  lemma MatchCommitHashSpec(line: string)
    ensures MatchCommitHash(line).Some? <==>
      |line| == 47 && line[..7] == "commit " && forall k | 7 <= k < 47 :: IsLowerHex(line[k])
    ensures MatchCommitHash(line).Some? ==>
      |MatchCommitHash(line).value| == 40 && line == "commit " + MatchCommitHash(line).value
  {
    if MatchCommitHash(line).Some? {
      assert line == line[..7] + line[7..];
    }
  }

  /** The largest `p` with `lo <= p` and `p + 2 <= hi` where `s[p..p+2] == " <"`, -1 if none. */
  function LastOpen(s: string, lo: nat, hi: nat): (p: int)
    requires hi <= |s|
    ensures p == -1 || (lo <= p && p + 2 <= hi && s[p] == ' ' && s[p + 1] == '<')
    decreases hi
  {
    if hi < lo + 2 then -1
    else if s[hi - 2] == ' ' && s[hi - 1] == '<' then hi - 2
    else LastOpen(s, lo, hi - 1)
  }

  lemma {:induction false} LastOpenIsLast(s: string, lo: nat, hi: nat)
    requires hi <= |s|
    ensures forall q | lo <= q && q + 2 <= hi && q > LastOpen(s, lo, hi) :: !(s[q] == ' ' && s[q + 1] == '<')
    decreases hi
  {
    if hi >= lo + 2 && !(s[hi - 2] == ' ' && s[hi - 1] == '<') {
      LastOpenIsLast(s, lo, hi - 1);
    }
  }

  /** `^Author: (.*) <(.*)>$`. */
  function MatchAuthor(line: string): Option<(string, string)>
  {
    if HasPrefix(line, "Author: ") && |line| >= 11 && line[|line| - 1] == '>' then
      var p := LastOpen(line, 8, |line| - 1);
      if p < 0 then None else Some((line[8..p], line[p + 2..|line| - 1]))
    else None
  }

  lemma AuthorPieces(line: string, p: nat)
    requires HasPrefix(line, "Author: ") && 8 <= p && p + 3 <= |line|
    requires line[p] == ' ' && line[p + 1] == '<' && line[|line| - 1] == '>'
    ensures line == "Author: " + line[8..p] + " <" + line[p + 2..|line| - 1] + ">"
  {
    assert line == line[..8] + line[8..p] + line[p..p + 2] + line[p + 2..|line| - 1] + line[|line| - 1..];
  }

  /** The author line splits as `Author: <name> <<email>>`. */
  lemma MatchAuthorSpec(line: string)
    ensures MatchAuthor(line).Some? ==>
      line == "Author: " + MatchAuthor(line).value.0 + " <" + MatchAuthor(line).value.1 + ">"
  {
    if MatchAuthor(line).Some? {
      AuthorPieces(line, LastOpen(line, 8, |line| - 1));
    }
  }

  /** The name is greedy: it runs up to the last ` <` that still leaves the
      closing `>` at the end of the line. */
  lemma MatchAuthorGreedy(line: string)
    ensures MatchAuthor(line).Some? ==>
      forall q | 8 + |MatchAuthor(line).value.0| < q < |line| - 2 :: !(line[q] == ' ' && line[q + 1] == '<')
  {
    if MatchAuthor(line).Some? {
      LastOpenIsLast(line, 8, |line| - 1);
    }
  }

  /** A line of the author shape always matches. */
  lemma MatchAuthorTotal(line: string)
    ensures MatchAuthor(line).None? ==>
      !(HasPrefix(line, "Author: ") && |line| >= 11 && line[|line| - 1] == '>' &&
        exists q | 8 <= q <= |line| - 3 :: line[q] == ' ' && line[q + 1] == '<')
  {
    if HasPrefix(line, "Author: ") && |line| >= 11 && line[|line| - 1] == '>' {
      LastOpenIsLast(line, 8, |line| - 1);
    }
  }

  /** `^Date:   (.*)$`. */
  function MatchDate(line: string): Option<string>
  {
    if HasPrefix(line, "Date:   ") then Some(line[8..]) else None
  }

  lemma MatchDateSpec(line: string)
    ensures MatchDate(line).Some? <==> HasPrefix(line, "Date:   ")
    ensures MatchDate(line).Some? ==> line == "Date:   " + MatchDate(line).value
  {
    if HasPrefix(line, "Date:   ") {
      assert line == line[..8] + line[8..];
    }
  }

  predicate IsKeyChar(c: char)
  {
    'a' <= c <= 'z' || 'A' <= c <= 'Z' || '0' <= c <= '9' || c == '-'
  }

  /** The end of the run of key characters of `s` starting at `i`. */
  function KeyEnd(s: string, i: nat): (k: nat)
    requires i <= |s|
    ensures i <= k <= |s| && (k < |s| ==> !IsKeyChar(s[k]))
    decreases |s| - i
  {
    if i < |s| && IsKeyChar(s[i]) then KeyEnd(s, i + 1) else i
  }

  lemma {:induction false} KeyEndRun(s: string, i: nat)
    requires i <= |s|
    ensures forall j | i <= j < KeyEnd(s, i) :: IsKeyChar(s[j])
    decreases |s| - i
  {
    if i < |s| && IsKeyChar(s[i]) {
      KeyEndRun(s, i + 1);
    }
  }

  /** `^    ([a-zA-Z0-9-]+): (.*)$`. */
  function MatchKeyVal(line: string): Option<KeyVal>
  {
    if HasPrefix(line, "    ") then
      var k := KeyEnd(line, 4);
      if k > 4 && HasPrefix(line[k..], ": ") then Some(KeyVal(line[4..k], line[k + 2..])) else None
    else None
  }

  /** A trailer line is four spaces, a non-empty key of letters, digits and
      `-`, then `: ` and the raw value. */
  lemma MatchKeyValSpec(line: string)
    ensures MatchKeyVal(line).Some? ==>
      line == "    " + MatchKeyVal(line).value.key + ": " + MatchKeyVal(line).value.value
    ensures MatchKeyVal(line).Some? ==>
      MatchKeyVal(line).value.key != [] &&
      forall j | 0 <= j < |MatchKeyVal(line).value.key| :: IsKeyChar(MatchKeyVal(line).value.key[j])
  {
    if HasPrefix(line, "    ") {
      var k := KeyEnd(line, 4);
      KeyEndRun(line, 4);
      if k > 4 && HasPrefix(line[k..], ": ") {
        assert line == line[..4] + line[4..k] + ": " + line[k + 2..];
      }
    }
  }

  /** The header fields gathered so far; a later matching line overwrites
      an earlier one. */
  datatype Header = Header(hash: string, authorName: string, authorEmail: string, date: string)

  function ScanLine(h: Header, line: string): Header
  {
    var h1 := match MatchCommitHash(line) case Some(x) => h.(hash := x) case None => h;
    var h2 := match MatchAuthor(line) case Some(a) => h1.(authorName := a.0, authorEmail := a.1) case None => h1;
    match MatchDate(line) case Some(d) => h2.(date := d) case None => h2
  }

  function ScanHeader(lines: seq<string>): Header
  {
    if lines == [] then Header("", "", "", "")
    else ScanLine(ScanHeader(lines[..|lines| - 1]), lines[|lines| - 1])
  }

  /** Index of the first exactly-empty line, `|lines|` if none. */
  function FirstEmpty(lines: seq<string>): (k: nat)
    ensures k <= |lines|
  {
    if lines == [] then 0 else if lines[0] == "" then 0 else 1 + FirstEmpty(lines[1..])
  }

  /** `FirstEmpty` is the first empty line: the only `k` with no empty line
      before it and an empty line (or the end) at it. */
  lemma {:induction false} FirstEmptyIs(lines: seq<string>, k: nat)
    requires k <= |lines| && (k < |lines| ==> lines[k] == "")
    requires forall j | 0 <= j < k :: lines[j] != ""
    ensures FirstEmpty(lines) == k
  {
    if k > 0 {
      FirstEmptyIs(lines[1..], k - 1);
    }
  }

  /** The `bodyEnd` of the truncation: index of the last exactly-empty
      line, 0 if none. */
  function LastEmpty(lines: seq<string>): (k: nat)
    ensures k <= |lines|
  {
    if lines == [] then 0
    else if lines[|lines| - 1] == "" then |lines| - 1
    else LastEmpty(lines[..|lines| - 1])
  }

  /** A trailer as stored: key lower-cased, value trimmed. */
  function Normalize(kv: KeyVal): KeyVal
  {
    KeyVal(ToLower(kv.key), TrimSpace(kv.value))
  }

  /** The trailer block read bottom-up from the first `i` lines (`opts`
      says what each line holds as a trailer): the trailers in
      the order they are read, and the new `bodyEnd` (the line after the
      first non-trailer from the bottom, or `|lines|` when every line is a
      trailer). */
  function TrailersFrom(opts: seq<Option<KeyVal>>, i: nat): (r: (seq<KeyVal>, nat))
    requires i <= |opts|
    ensures |r.0| <= i
    ensures r.1 == |opts| || (r.1 <= i && r.1 + |r.0| == i)
  {
    if i == 0 then ([], |opts|)
    else match opts[i - 1]
      case Some(kv) =>
        var rest := TrailersFrom(opts, i - 1);
        ([kv] + rest.0, rest.1)
      case None => ([], i)
  }

  /** What each line holds as a trailer. */
  function TrailerOpts(lines: seq<string>): (r: seq<Option<KeyVal>>)
    ensures |r| == |lines|
  {
    seq(|lines|, j requires 0 <= j < |lines| => TrailerOf(lines[j]))
  }

  /** The trailer a line holds, as stored, if it is a trailer line. */
  function TrailerOf(line: string): Option<KeyVal>
  {
    match MatchKeyVal(line)
    case Some(kv) => Some(Normalize(kv))
    case None => None
  }

  /** `parseBody`: the trimmed first line is the title; the other lines,
      each trimmed and ended by a newline, trimmed as a whole, are the
      message. */
  function Body(lines: seq<string>): (r: (string, string))
  {
    if lines == [] then ("", "") else (TrimSpace(lines[0]), TrimSpace(TrimmedLines(lines[1..])))
  }

  function TrimmedLines(lines: seq<string>): string
  {
    if lines == [] then [] else TrimmedLines(lines[..|lines| - 1]) + TrimSpace(lines[|lines| - 1]) + "\n"
  }

  /** The outcome of `parseLogsCommit` on one block of lines: `None` for no
      lines, an error where the source panics. */
  function CommitOf(lines: seq<string>): (r: Result<Option<CommitData>>)
  {
    if lines == [] then Ok(None)
    else
      var fe := FirstEmpty(lines);
      var bodyStart := if fe < |lines| then fe + 1 else 0;
      var h := ScanHeader(lines[..fe]);
      var kept := lines[..LastEmpty(lines)];
      var tr := TrailersFrom(TrailerOpts(kept), |kept|);
      if bodyStart > tr.1 then Err("slice bounds out of range")
      else
        var body := Body(kept[bodyStart..tr.1]);
        if h.hash == "" || h.authorName == "" || h.authorEmail == "" || body.0 == "" then
          Err("failed to parse commit with log:\n" + Join(lines, "\n"))
        else
          Ok(Some(CommitData(h.hash, h.date, h.authorName, h.authorEmail, body.0, body.1, tr.0)))
  }

  /** `parseBody`, with its builder loop. */
  method ParseBody(lines: seq<string>) returns (title: string, message: string)
    ensures (title, message) == Body(lines)
  {
    if |lines| == 0 {
      return "", "";
    }
    title := TrimSpace(lines[0]);
    var rest := lines[1..];
    var b := "";
    var i := 0;
    while i < |rest|
      invariant 0 <= i <= |rest|
      invariant b == TrimmedLines(rest[..i])
    {
      assert rest[..i + 1][..i] == rest[..i];
      b := b + TrimSpace(rest[i]) + "\n";
      i := i + 1;
    }
    assert rest[..i] == rest;
    message := TrimSpace(b);
  }

  /** The header loop of `parseLogsCommit`: it scans up to the first empty
      line and says where the body starts. */
  method ScanHeaderLines(lines: seq<string>) returns (h: Header, bodyStart: nat)
    ensures h == ScanHeader(lines[..FirstEmpty(lines)])
    ensures bodyStart == if FirstEmpty(lines) < |lines| then FirstEmpty(lines) + 1 else 0
  {
    h := Header("", "", "", "");
    bodyStart := 0;
    var i := 0;
    while i < |lines|
      invariant 0 <= i <= |lines|
      invariant forall j | 0 <= j < i :: lines[j] != ""
      invariant h == ScanHeader(lines[..i]) && bodyStart == 0
    {
      if lines[i] == "" {
        FirstEmptyIs(lines, i);
        bodyStart := i + 1;
        return;
      }
      assert lines[..i + 1][..i] == lines[..i];
      var m := MatchCommitHash(lines[i]);
      if m.Some? {
        h := h.(hash := m.value);
      }
      var a := MatchAuthor(lines[i]);
      if a.Some? {
        h := h.(authorName := a.value.0, authorEmail := a.value.1);
      }
      var d := MatchDate(lines[i]);
      if d.Some? {
        h := h.(date := d.value);
      }
      i := i + 1;
    }
    FirstEmptyIs(lines, i);
  }

  /** The truncation loop of `parseLogsCommit`. */
  method FindBodyEnd(lines: seq<string>) returns (bodyEnd: nat)
    ensures bodyEnd == LastEmpty(lines)
  {
    bodyEnd := 0;
    var i := |lines| - 1;
    assert lines[..i + 1] == lines;
    while i >= 0
      invariant -1 <= i < |lines|
      invariant LastEmpty(lines) == LastEmpty(lines[..i + 1])
    {
      if lines[i] == "" {
        bodyEnd := i;
        return;
      }
      assert lines[..i + 1][..i] == lines[..i];
      i := i - 1;
    }
  }

  /** The trailer loop of `parseLogsCommit`, reading bottom-up. */
  method ScanTrailers(lines: seq<string>) returns (attrs: seq<KeyVal>, bodyEnd: nat)
    ensures (attrs, bodyEnd) == TrailersFrom(TrailerOpts(lines), |lines|)
  {
    ghost var opts := TrailerOpts(lines);
    attrs := [];
    bodyEnd := |lines|;
    var i := |lines| - 1;
    while i >= 0
      invariant -1 <= i < |lines|
      invariant bodyEnd == |lines|
      invariant ScanFrom(opts, i + 1, attrs) == ScanFrom(opts, |lines|, [])
    {
      var t := LineTrailer(lines, i);
      if t.Some? {
        attrs := attrs + [t.value];
        i := i - 1;
      } else {
        bodyEnd := i + 1;
        ScanFromIs(opts, |lines|, []);
        assert [] + TrailersFrom(opts, |lines|).0 == TrailersFrom(opts, |lines|).0;
        return;
      }
    }
    ScanFromIs(opts, |lines|, []);
    assert [] + TrailersFrom(opts, |lines|).0 == TrailersFrom(opts, |lines|).0;
  }

  /** The match of line `i` against the trailer pattern, with the key
      lower-cased and the value trimmed. */
  method LineTrailer(lines: seq<string>, i: nat) returns (t: Option<KeyVal>)
    requires i < |lines|
    ensures t == TrailerOpts(lines)[i]
  {
    var m := MatchKeyVal(lines[i]);
    if m.Some? {
      var key, val := ToLower(m.value.key), TrimSpace(m.value.value);
      t := Some(KeyVal(key, val));
    } else {
      t := None;
    }
  }

  /** The bottom-up trailer scan with the trailers read so far in `acc`. */
  function ScanFrom(opts: seq<Option<KeyVal>>, i: nat, acc: seq<KeyVal>): (r: (seq<KeyVal>, nat))
    requires i <= |opts|
    ensures |acc| <= |r.0|
  {
    if i == 0 then (acc, |opts|)
    else match opts[i - 1]
      case Some(kv) => ScanFrom(opts, i - 1, acc + [kv])
      case None => (acc, i)
  }

  /** The accumulating scan appends what `TrailersFrom` reads to `acc`. */
  lemma {:induction false} ScanFromIs(opts: seq<Option<KeyVal>>, i: nat, acc: seq<KeyVal>)
    requires i <= |opts|
    ensures ScanFrom(opts, i, acc) == (acc + TrailersFrom(opts, i).0, TrailersFrom(opts, i).1)
  {
    if i == 0 {
      assert acc + [] == acc;
    } else if opts[i - 1].Some? {
      var kv := opts[i - 1].value;
      ScanFromIs(opts, i - 1, acc + [kv]);
      assert (acc + [kv]) + TrailersFrom(opts, i - 1).0 == acc + ([kv] + TrailersFrom(opts, i - 1).0);
    } else {
      assert acc + [] == acc;
    }
  }

  /** `parseLogsCommit`. */
  method ParseLogsCommit(lines: seq<string>) returns (r: Result<Option<CommitData>>)
    ensures r == CommitOf(lines)
  {
    if |lines| == 0 {
      return Ok(None);
    }
    var h, bodyStart := ScanHeaderLines(lines);
    var lastEmpty := FindBodyEnd(lines);
    var kept := lines[..lastEmpty];
    var attrs, bodyEnd := ScanTrailers(kept);
    if bodyStart > bodyEnd {
      return Err("slice bounds out of range");
    }
    var title, message := ParseBody(kept[bodyStart..bodyEnd]);
    if h.hash == "" || h.authorName == "" || h.authorEmail == "" || title == "" {
      return Err("failed to parse commit with log:\n" + Join(lines, "\n"));
    }
    r := Ok(Some(CommitData(h.hash, h.date, h.authorName, h.authorEmail, title, message, attrs)));
  }

  predicate IsHeaderLine(line: string)
  {
    MatchCommitHash(line).Some?
  }

  /** The blocks `parseLogs` has closed after reading `lines`, and the
      block still open. */
  function Blocks(lines: seq<string>): (r: (seq<seq<string>>, seq<string>))
  {
    if lines == [] then ([], [])
    else
      var prev := Blocks(lines[..|lines| - 1]);
      var line := lines[|lines| - 1];
      if IsHeaderLine(line) then
        (if |prev.1| > 0 then prev.0 + [prev.1] else prev.0, [line])
      else (prev.0, prev.1 + [line])
  }

  function Concat(bs: seq<seq<string>>): seq<string>
  {
    if bs == [] then [] else Concat(bs[..|bs| - 1]) + bs[|bs| - 1]
  }

  function CountHeaders(lines: seq<string>): nat
  {
    if lines == [] then 0
    else CountHeaders(lines[..|lines| - 1]) + (if IsHeaderLine(lines[|lines| - 1]) then 1 else 0)
  }

  /** The blocks, read in order, are exactly the input lines; every block is
      non-empty and every block after the first starts with a header. */
  lemma {:induction false} BlocksPartition(lines: seq<string>)
    ensures Concat(Blocks(lines).0) + Blocks(lines).1 == lines
    ensures forall k | 0 <= k < |Blocks(lines).0| :: Blocks(lines).0[k] != []
    ensures forall k | 0 < k < |Blocks(lines).0| :: IsHeaderLine(Blocks(lines).0[k][0])
    ensures |Blocks(lines).0| > 0 && Blocks(lines).1 != [] ==> IsHeaderLine(Blocks(lines).1[0])
    ensures lines != [] ==> Blocks(lines).1 != []
  {
    if lines != [] {
      var init := lines[..|lines| - 1];
      BlocksPartition(init);
      var prev := Blocks(init);
      var line := lines[|lines| - 1];
      assert lines == init + [line];
      if IsHeaderLine(line) && |prev.1| > 0 {
        var d := prev.0 + [prev.1];
        assert d[..|d| - 1] == prev.0;
        assert Concat(d) == Concat(prev.0) + prev.1;
        if |prev.0| == 0 {
          assert |d| == 1;
        }
      }
    }
  }

  /** When the log starts with a header line, there is one block per
      header line. */
  lemma {:induction false} BlocksCount(lines: seq<string>)
    requires lines != [] && IsHeaderLine(lines[0])
    ensures |Blocks(lines).0| + 1 == CountHeaders(lines)
    ensures Blocks(lines).1 != []
  {
    if |lines| == 1 {
      assert lines[..0] == [];
    } else {
      var init := lines[..|lines| - 1];
      assert init[0] == lines[0];
      BlocksCount(init);
    }
  }

  /** The commits parsed from a list of blocks, or the first error. */
  function ParseAll(blocks: seq<seq<string>>): (r: Result<seq<CommitData>>)
    ensures r.Ok? ==> |r.value| <= |blocks|
  {
    if blocks == [] then Ok([])
    else
      var init :- ParseAll(blocks[..|blocks| - 1]);
      var c :- CommitOf(blocks[|blocks| - 1]);
      Ok(init + (if c.Some? then [c.value] else []))
  }

  /** `parseLogs`: nothing for blank input; otherwise one commit per block,
      where a block starts at each `commit <hash>` line. */
  function LogsOf(logs: string): (r: Result<seq<CommitData>>)
  {
    if TrimSpace(logs) == "" then Ok([])
    else
      var b := Blocks(Split(logs, '\n'));
      ParseAll(b.0 + [b.1])
  }

  /** Every block handed to `CommitOf` is non-empty, so every block gives
      exactly one commit or an error. */
  lemma {:induction false} ParseAllCount(blocks: seq<seq<string>>)
    requires forall k | 0 <= k < |blocks| :: blocks[k] != []
    ensures ParseAll(blocks).Ok? ==> |ParseAll(blocks).value| == |blocks|
  {
    if blocks != [] {
      ParseAllCount(blocks[..|blocks| - 1]);
      var c := CommitOf(blocks[|blocks| - 1]);
      if c.Ok? {
        CommitOfSome(blocks[|blocks| - 1]);
      }
    }
  }

  lemma CommitOfSome(lines: seq<string>)
    requires lines != []
    ensures CommitOf(lines).Ok? ==> CommitOf(lines).value.Some?
  {
  }

  lemma SplitFirstPrefix(s: string, sep: char)
    ensures HasPrefix(s, Split(s, sep)[0])
  {
    if IndexOf(s, sep) >= 0 { SplitCons(s, sep); } else { SplitNone(s, sep); }
  }

  /** When the log starts with a header line, a successful parse yields one
      commit per header line. */
  lemma LogsCount(logs: string)
    requires IsHeaderLine(Split(logs, '\n')[0])
    ensures LogsOf(logs).Ok? ==> |LogsOf(logs).value| == CountHeaders(Split(logs, '\n'))
  {
    var lines := Split(logs, '\n');
    BlocksPartition(lines);
    BlocksCount(lines);
    var b := Blocks(lines);
    var all := b.0 + [b.1];
    forall k | 0 <= k < |all| ensures all[k] != [] {
      if k < |b.0| { assert all[k] == b.0[k]; }
    }
    ParseAllCount(all);
    NotBlank(logs);
  }

  lemma NotBlank(logs: string)
    requires IsHeaderLine(Split(logs, '\n')[0])
    ensures TrimSpace(logs) != ""
  {
    var first := Split(logs, '\n')[0];
    MatchCommitHashSpec(first);
    SplitFirstPrefix(logs, '\n');
    assert first[0] == 'c';
    assert logs[0] == first[0];
    TrimSpaceEmptyIffAllSpace(logs);
  }

  /** `Blocks` only ever appends closed blocks. */
  lemma {:induction false} BlocksPrefix(lines: seq<string>, i: nat)
    requires i <= |lines|
    ensures Blocks(lines[..i]).0 <= Blocks(lines).0
  {
    if i < |lines| {
      var init := lines[..|lines| - 1];
      assert init[..i] == lines[..i];
      BlocksPrefix(init, i);
    } else {
      assert lines[..i] == lines;
    }
  }

  /** An error in the first blocks is the error of the whole parse. */
  lemma {:induction false} ParseAllPrefixErr(p: seq<seq<string>>, all: seq<seq<string>>)
    requires p <= all && ParseAll(p).Err?
    ensures ParseAll(all) == ParseAll(p)
  {
    if |all| > |p| {
      assert p <= all[..|all| - 1];
      ParseAllPrefixErr(p, all[..|all| - 1]);
    } else {
      assert p == all;
    }
  }

  lemma ParseAllSnoc(bs: seq<seq<string>>, b: seq<string>)
    ensures ParseAll(bs + [b]) ==
      if ParseAll(bs).Err? then ParseAll(bs)
      else if CommitOf(b).Err? then Err(CommitOf(b).error)
      else Ok(ParseAll(bs).value + (if CommitOf(b).value.Some? then [CommitOf(b).value.value] else []))
  {
    assert (bs + [b])[..|bs|] == bs;
  }

  /** One step of the block scan over `lines[i]`. */
  lemma BlocksStep(lines: seq<string>, i: nat, closed: seq<seq<string>>, part: seq<string>)
    requires i < |lines| && Blocks(lines[..i]) == (closed, part)
    ensures Blocks(lines[..i + 1]) ==
      if IsHeaderLine(lines[i]) then (if |part| > 0 then closed + [part] else closed, [lines[i]])
      else (closed, part + [lines[i]])
  {
    assert lines[..i + 1][..i] == lines[..i];
  }

  /** The commit of a finished block, or its error, added to those parsed
      so far. */
  function AddCommit(out: seq<CommitData>, item: Result<Option<CommitData>>): Result<seq<CommitData>>
  {
    match item
    case Err(e) => Err(e)
    case Ok(c) => Ok(out + if c.Some? then [c.value] else [])
  }

  /** The rest of the accumulation loop of `parseLogs` from line `i` on,
      with the open block `part` and the commits `out` parsed so far. */
  function Feed(lines: seq<string>, i: nat, part: seq<string>, out: seq<CommitData>): Result<seq<CommitData>>
    requires i <= |lines|
    decreases |lines| - i
  {
    if i == |lines| then AddCommit(out, CommitOf(part))
    else if IsHeaderLine(lines[i]) && part != [] then
      match AddCommit(out, CommitOf(part))
      case Err(e) => Err(e)
      case Ok(next) => Feed(lines, i + 1, [lines[i]], next)
    else Feed(lines, i + 1, part + [lines[i]], out)
  }

  /** A header line after a non-empty open block parses that block first. */
  lemma FeedClose(lines: seq<string>, i: nat, part: seq<string>, out: seq<CommitData>)
    requires i < |lines| && IsHeaderLine(lines[i]) && part != []
    ensures CommitOf(part).Err? ==> Feed(lines, i, part, out) == Err(CommitOf(part).error)
    ensures CommitOf(part).Ok? ==>
      Feed(lines, i, part, out) == Feed(lines, i + 1, [lines[i]], AddCommit(out, CommitOf(part)).value)
  {
  }

  /** Any other line joins the open block (a header line after an empty
      one starts it). */
  lemma FeedLine(lines: seq<string>, i: nat, part: seq<string>, out: seq<CommitData>)
    requires i < |lines| && (IsHeaderLine(lines[i]) ==> part == [])
    ensures Feed(lines, i, part, out) == Feed(lines, i + 1, part + [lines[i]], out)
  {
  }

  /** Run from a state that agrees with the blocks of the lines read so
      far, the loop parses every block of the log, stopping at the first
      error. */
  lemma {:induction false} FeedParsesBlocks(lines: seq<string>, i: nat, closed: seq<seq<string>>,
                                            part: seq<string>, out: seq<CommitData>)
    requires i <= |lines| && Blocks(lines[..i]) == (closed, part)
    requires ParseAll(closed) == Ok(out)
    ensures Feed(lines, i, part, out) == ParseAll(Blocks(lines).0 + [Blocks(lines).1])
    decreases |lines| - i, 1
  {
    if i == |lines| {
      assert lines[..i] == lines;
      ParseAllSnoc(closed, part);
    } else {
      BlocksStep(lines, i, closed, part);
      if IsHeaderLine(lines[i]) && part != [] {
        FeedParsesClosed(lines, i, closed, part, out);
      } else {
        var next := part + [lines[i]];
        if IsHeaderLine(lines[i]) {
          assert part == [] && next == [lines[i]];
        }
        assert Blocks(lines[..i + 1]) == (closed, next);
        FeedParsesBlocks(lines, i + 1, closed, next, out);
      }
    }
  }

  /** The case of `FeedParsesBlocks` where a header line closes the open
      block. */
  lemma {:induction false} FeedParsesClosed(lines: seq<string>, i: nat, closed: seq<seq<string>>,
                                            part: seq<string>, out: seq<CommitData>)
    requires i < |lines| && Blocks(lines[..i]) == (closed, part)
    requires IsHeaderLine(lines[i]) && part != []
    requires ParseAll(closed) == Ok(out)
    ensures Feed(lines, i, part, out) == ParseAll(Blocks(lines).0 + [Blocks(lines).1])
    decreases |lines| - i, 0
  {
    var all := Blocks(lines).0 + [Blocks(lines).1];
    BlocksStep(lines, i, closed, part);
    BlocksPrefix(lines, i + 1);
    assert closed + [part] <= all;
    ParseAllSnoc(closed, part);
    FeedClose(lines, i, part, out);
    if CommitOf(part).Err? {
      ParseAllPrefixErr(closed + [part], all);
    } else {
      FeedParsesBlocks(lines, i + 1, closed + [part], [lines[i]], ParseAll(closed + [part]).value);
    }
  }

  /** `parseLogs`: blank input gives no commits; otherwise its lines are
      parsed block by block. */
  method ParseLogs(logs: string) returns (r: Result<seq<CommitData>>)
    ensures r == LogsOf(logs)
  {
    if TrimSpace(logs) == "" {
      return Ok([]);
    }
    var lines := Split(logs, '\n');
    r := ParseLines(lines);
  }

  /** The accumulation loop of `parseLogs`: a header line closes the open
      block, if any, and parses it; the last block is parsed at the end. */
  method ParseLines(lines: seq<string>) returns (r: Result<seq<CommitData>>)
    ensures r == ParseAll(Blocks(lines).0 + [Blocks(lines).1])
  {
    var part: seq<string> := [];
    var out: seq<CommitData> := [];
    var i := 0;
    FeedParsesBlocks(lines, 0, [], [], []);
    while i < |lines|
      invariant 0 <= i <= |lines|
      invariant Feed(lines, i, part, out) == Feed(lines, 0, [], [])
    {
      var line := lines[i];
      if MatchCommitHash(line).Some? && |part| > 0 {
        var item := ParseLogsCommit(part);
        FeedClose(lines, i, part, out);
        if item.Err? {
          return Err(item.error);
        }
        out := out + if item.value.Some? then [item.value.value] else [];
        part := [line];
      } else {
        FeedLine(lines, i, part, out);
        part := part + [line];
      }
      i := i + 1;
    }
    var item := ParseLogsCommit(part);
    if item.Err? {
      return Err(item.error);
    }
    r := Ok(out + if item.value.Some? then [item.value.value] else []);
  }

  /** The trailers are read bottom-up: entry `k` is the normalised trailer
      of line `i - 1 - k`, and the scan stops at the first line from the
      bottom that is not a trailer, or takes every line. */
  lemma {:induction false} TrailersFromSpec(opts: seq<Option<KeyVal>>, i: nat)
    requires i <= |opts|
    ensures forall k | 0 <= k < |TrailersFrom(opts, i).0| :: opts[i - 1 - k] == Some(TrailersFrom(opts, i).0[k])
    ensures |TrailersFrom(opts, i).0| == i ==> TrailersFrom(opts, i).1 == |opts|
    ensures |TrailersFrom(opts, i).0| < i ==>
      opts[i - 1 - |TrailersFrom(opts, i).0|].None? && TrailersFrom(opts, i).1 == i - |TrailersFrom(opts, i).0|
  {
    var r := TrailersFrom(opts, i);
    if i > 0 && opts[i - 1].Some? {
      TrailersFromSpec(opts, i - 1);
      var rest := TrailersFrom(opts, i - 1);
      assert r.0 == [opts[i - 1].value] + rest.0 && r.1 == rest.1;
      forall k | 0 < k < |r.0|
        ensures opts[i - 1 - k] == Some(r.0[k])
      {
        assert r.0[k] == rest.0[k - 1];
      }
    }
  }

  /** A stored trailer key is lower-case: no letter `A`-`Z` is left. */
  lemma NormalizeLower(kv: KeyVal)
    ensures forall j | 0 <= j < |Normalize(kv).key| :: !('A' <= Normalize(kv).key[j] <= 'Z')
    ensures Trimmed(Normalize(kv).value)
  {
    TrimSpaceTrimmed(kv.value);
  }

  /** The header keeps either no hash or a forty-character one. */
  lemma {:induction false} ScanHeaderHash(lines: seq<string>)
    ensures ScanHeader(lines).hash == "" || |ScanHeader(lines).hash| == 40
  {
    if lines != [] {
      ScanHeaderHash(lines[..|lines| - 1]);
      MatchCommitHashSpec(lines[|lines| - 1]);
    }
  }

  /** A commit the parser hands out has a forty-character hash, an author
      name and e-mail, and a non-empty trimmed title. */
  lemma ParsedCommitValid(lines: seq<string>)
    requires CommitOf(lines).Ok? && CommitOf(lines).value.Some?
    ensures var c := CommitOf(lines).value.value;
      |c.hash| == 40 && c.authorName != "" && c.authorEmail != "" && c.title != "" && Trimmed(c.title)
  {
    ScanHeaderHash(lines[..FirstEmpty(lines)]);
    var kept := lines[..LastEmpty(lines)];
    var tr := TrailersFrom(TrailerOpts(kept), |kept|);
    var bodyStart := if FirstEmpty(lines) < |lines| then FirstEmpty(lines) + 1 else 0;
    var part := kept[bodyStart..tr.1];
    if part != [] {
      TrimSpaceTrimmed(part[0]);
    }
  }

  /** With an empty line in the first block of lines, the lines before it
      are the header and the next one begins the body. */
  lemma {:induction false} FirstEmptyBefore(lines: seq<string>, extra: seq<string>)
    requires "" in lines
    ensures FirstEmpty(lines + extra) == FirstEmpty(lines) < |lines|
  {
    if lines[0] != "" {
      assert (lines + extra)[1..] == lines[1..] + extra;
      FirstEmptyBefore(lines[1..], extra);
    }
  }

  lemma {:induction false} LastEmptyAfter(lines: seq<string>, extra: seq<string>)
    requires |lines| > 0 && lines[|lines| - 1] == ""
    requires "" !in extra
    ensures LastEmpty(lines + extra) == |lines| - 1
  {
    if extra == [] {
      assert lines + extra == lines;
    } else {
      var init := extra[..|extra| - 1];
      assert (lines + extra)[..|lines + extra| - 1] == lines + init;
      LastEmptyAfter(lines, init);
    }
  }

  /** Lines after the last empty line of a block never reach the commit:
      adding lines without an empty one to a block that ends in an empty
      line does not change whether it parses, nor what it parses to. */
  lemma DiscardsAfterLastEmpty(lines: seq<string>, extra: seq<string>)
    requires |lines| > 0 && lines[|lines| - 1] == ""
    requires "" !in extra
    ensures CommitOf(lines + extra).Ok? <==> CommitOf(lines).Ok?
    ensures CommitOf(lines).Ok? ==> CommitOf(lines + extra) == CommitOf(lines)
  {
    var all := lines + extra;
    FirstEmptyBefore(lines, extra);
    LastEmptyAfter(lines, extra);
    LastEmptyAfter(lines, []);
    assert lines + [] == lines;
    var fe := FirstEmpty(lines);
    assert all[..FirstEmpty(all)] == lines[..fe];
    assert all[..LastEmpty(all)] == lines[..LastEmpty(lines)];
  }

  /** A commit object holding the parsed fields, with no PR number and not
      skipped. */
  predicate Holds(c: Commit, d: CommitData)
    reads c
  {
    c.hash == d.hash && c.date == d.date && c.authorName == d.authorName &&
    c.authorEmail == d.authorEmail && c.title == d.title && c.message == d.message &&
    c.attrs == d.attrs && c.prNumber == 0 && !c.skip
  }

  /** One new commit object per parsed commit, in the same order. */
  method NewCommits(ds: seq<CommitData>) returns (list: seq<Commit>)
    ensures |list| == |ds|
    ensures forall k | 0 <= k < |ds| :: fresh(list[k]) && Holds(list[k], ds[k])
    ensures forall j, k | 0 <= j < k < |ds| :: list[j] != list[k]
  {
    list := [];
    var i := 0;
    while i < |ds|
      invariant 0 <= i <= |ds| && |list| == i
      invariant forall k | 0 <= k < i :: fresh(list[k]) && Holds(list[k], ds[k])
      invariant forall j, k | 0 <= j < k < i :: list[j] != list[k]
    {
      var d := ds[i];
      var c := new Commit(d.hash, d.date, d.authorName, d.authorEmail, d.title, d.message, d.attrs);
      list := list + [c];
      i := i + 1;
    }
  }

  /** `getStackedCommits`: `gitLog` is the output of `git log -100 base..target`
      or its error. The parsed commits come back as new objects, oldest
      first, that is, in the reverse of the log's newest-first order. */
  method GetStackedCommits(base: string, target: string, gitLog: Result<string>)
    returns (r: Result<seq<Commit>>)
    ensures gitLog.Err? ==>
      r == Err("failed to find common ancestor for " + base + " and " + target + ": " + gitLog.error)
    ensures gitLog.Ok? && LogsOf(gitLog.value).Err? ==> r == Err(LogsOf(gitLog.value).error)
    ensures gitLog.Ok? && LogsOf(gitLog.value).Ok? ==>
      var parsed := LogsOf(gitLog.value).value;
      r.Ok? && |r.value| == |parsed| &&
      (forall k | 0 <= k < |parsed| :: fresh(r.value[k]) && Holds(r.value[k], parsed[|parsed| - 1 - k])) &&
      (forall j, k | 0 <= j < k < |parsed| :: r.value[j] != r.value[k])
  {
    if gitLog.Err? {
      var e := Wrapf(Some(gitLog.error), "failed to find common ancestor for " + base + " and " + target);
      return Err(e.value);
    }
    var parsed := ParseLogs(gitLog.value);
    if parsed.Err? {
      return Err(parsed.error);
    }
    var list := OldestFirst(parsed.value);
    r := Ok(list);
  }

  /** New commit objects for the parsed commits, in reverse order. */
  method OldestFirst(ds: seq<CommitData>) returns (list: seq<Commit>)
    ensures |list| == |ds|
    ensures forall k | 0 <= k < |ds| :: fresh(list[k]) && Holds(list[k], ds[|ds| - 1 - k])
    ensures forall j, k | 0 <= j < k < |ds| :: list[j] != list[k]
  {
    var made := NewCommits(ds);
    list := Revert(made);
    forall j, k | 0 <= j < k < |ds| ensures list[j] != list[k] {
      assert list[j] == made[|ds| - 1 - j] && list[k] == made[|ds| - 1 - k];
    }
  }
}
