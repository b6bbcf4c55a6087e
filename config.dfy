/** config.go: the pure pieces of configuration loading, namely `expandPath`,
    the split of the remote URL into host and repository, and
    `validateConfig`. Flags, `git` calls and the GitHub hosts file are
    inputs. */
module Config {
  import opened Strs
  import opened Wrappers

  /** `expandPath`: a leading `~` stands for the home directory, whatever
      character follows it. `home` is the value of `$HOME`. */
  function ExpandPath(path: string, home: string): string
  {
    if path == "" then ""
    else if path[0] == '~' then home + path[1..]
    else path
  }

  /** The empty path stays empty, a `~` path becomes `home` followed by the
      rest of the path, and any other path is returned as it is. */
  lemma ExpandPathSpec(path: string, home: string)
    ensures path == "" ==> ExpandPath(path, home) == ""
    ensures path != "" && path[0] == '~' ==>
      HasPrefix(ExpandPath(path, home), home) && ExpandPath(path, home)[|home|..] == path[1..] &&
      |ExpandPath(path, home)| == |home| + |path| - 1
    ensures path != "" && path[0] != '~' ==> ExpandPath(path, home) == path
  {
  }

  /** With a home directory that does not itself start with `~`, expanding
      twice is expanding once. */
  lemma ExpandPathIdempotent(path: string, home: string)
    requires home != "" && home[0] != '~'
    ensures ExpandPath(ExpandPath(path, home), home) == ExpandPath(path, home)
  {
  }

  /** `git@` begins at `p`. */
  predicate GitAt(s: string, p: nat)
  {
    p + 4 <= |s| && s[p] == 'g' && s[p + 1] == 'i' && s[p + 2] == 't' && s[p + 3] == '@'
  }

  /** `.git` begins at `g`. */
  predicate DotGitAt(s: string, g: nat)
  {
    g + 4 <= |s| && s[g] == '.' && s[g + 1] == 'g' && s[g + 2] == 'i' && s[g + 3] == 't'
  }

  /** The first `k >= i` with `s[k] == c`, or -1. */
  function FindFrom(s: string, c: char, i: nat): (k: int)
    requires i <= |s|
    ensures k == -1 || (i <= k < |s| && s[k] == c)
    decreases |s| - i
  {
    if i == |s| then -1 else if s[i] == c then i else FindFrom(s, c, i + 1)
  }

  /** No `c` is skipped: there is none between `i` and the result (or the
      end, when there is no result). */
  lemma {:induction false} FindFromFirst(s: string, c: char, i: nat)
    requires i <= |s|
    ensures forall j | i <= j < (if FindFrom(s, c, i) < 0 then |s| else FindFrom(s, c, i)) :: s[j] != c
    decreases |s| - i
  {
    if i < |s| && s[i] != c {
      FindFromFirst(s, c, i + 1);
    }
  }

  lemma {:induction false} FindFromIs(s: string, c: char, i: nat, k: int)
    requires i <= |s| && (k == -1 || (i <= k < |s| && s[k] == c))
    requires forall j | i <= j < (if k < 0 then |s| else k) :: s[j] != c
    ensures FindFrom(s, c, i) == k
    decreases |s| - i
  {
    if i < |s| && s[i] != c {
      FindFromIs(s, c, i + 1, k);
    }
  }

  /** The last `g` with `lo <= g` and `g + 4 <= hi` where `.git` begins, or
      -1: the greedy `(.+)` gives back characters until `\.git` matches. */
  function LastDotGit(s: string, lo: nat, hi: nat): (g: int)
    requires hi <= |s|
    ensures g == -1 || (lo <= g && g + 4 <= hi && DotGitAt(s, g))
    decreases hi
  {
    if hi < lo + 4 then -1
    else if DotGitAt(s, hi - 4) then hi - 4
    else LastDotGit(s, lo, hi - 1)
  }

  /** No later `.git` fits before `hi`. */
  lemma {:induction false} LastDotGitIsLast(s: string, lo: nat, hi: nat, g: nat)
    requires hi <= |s| && lo <= g && g + 4 <= hi && DotGitAt(s, g)
    ensures g <= LastDotGit(s, lo, hi)
    decreases hi
  {
    if !DotGitAt(s, hi - 4) {
      LastDotGitIsLast(s, lo, hi - 1, g);
    }
  }

  /** Where a match of `git@([^:]+):([^/]+)/(.+)\.git` that starts at `p`
      puts its `:`, its `/` and its `.git`, if there is such a match. The
      first group ends at the first `:`, the second at the next `/`, and
      the third at the last `.git` on the same line (`.` does not match a
      newline). */
  function UrlIndices(s: string, p: nat): (r: Option<(nat, nat, nat)>)
    ensures r.Some? ==>
      p + 4 < r.value.0 && r.value.0 + 1 < r.value.1 && r.value.1 + 1 < r.value.2 && r.value.2 + 4 <= |s|
  {
    if !GitAt(s, p) then None
    else
      var colon := FindFrom(s, ':', p + 4);
      if colon <= p + 4 then None
      else
        var slash := FindFrom(s, '/', colon + 1);
        if slash <= colon + 1 then None
        else
          var nl := FindFrom(s, '\n', slash + 1);
          var lineEnd := if nl < 0 then |s| else nl;
          var g := LastDotGit(s, slash + 2, lineEnd);
          if g < 0 then None else Some((colon, slash, g))
  }

  /** The captures of a match that starts at `p`: host, owner and name. */
  function UrlAt(s: string, p: nat): Option<(string, string, string)>
  {
    match UrlIndices(s, p)
    case None => None
    case Some((colon, slash, g)) => Some((s[p + 4..colon], s[colon + 1..slash], s[slash + 1..g]))
  }

  /** The part of `s` between `a` and `b` has no `c`. */
  predicate NoCharIn(s: string, a: nat, b: nat, c: char)
  {
    forall j | a <= j < b && j < |s| :: s[j] != c
  }

  /** The layout of a match at `p` with its `:` at `colon`, its `/` at
      `slash` and its `.git` at `g`. */
  predicate LaidOut(s: string, p: nat, colon: nat, slash: nat, g: nat)
  {
    GitAt(s, p) && p + 4 < colon < |s| && s[colon] == ':' && NoCharIn(s, p + 4, colon, ':') &&
    colon + 1 < slash < |s| && s[slash] == '/' && NoCharIn(s, colon + 1, slash, '/') &&
    slash + 1 < g && DotGitAt(s, g) && NoCharIn(s, slash + 1, g + 4, '\n')
  }

  lemma UrlIndicesLaidOut(s: string, p: nat)
    requires UrlIndices(s, p).Some?
    ensures var (colon, slash, g) := UrlIndices(s, p).value; LaidOut(s, p, colon, slash, g)
  {
    var colon := FindFrom(s, ':', p + 4);
    FindFromFirst(s, ':', p + 4);
    var slash := FindFrom(s, '/', colon + 1);
    FindFromFirst(s, '/', colon + 1);
    FindFromFirst(s, '\n', slash + 1);
  }

  /** A laid-out match that ends its line (or the text) is found by
      `UrlIndices`. */
  lemma LaidOutFound(s: string, p: nat, colon: nat, slash: nat, g: nat)
    requires LaidOut(s, p, colon, slash, g)
    requires g + 4 == |s| || s[g + 4] == '\n'
    ensures UrlIndices(s, p) == Some((colon, slash, g))
  {
    FindFromIs(s, ':', p + 4, colon);
    FindFromIs(s, '/', colon + 1, slash);
    FindFromIs(s, '\n', slash + 1, if g + 4 == |s| then -1 else g + 4);
  }

  lemma SliceNoChar(s: string, a: nat, b: nat, c: char)
    requires a <= b <= |s| && NoCharIn(s, a, b, c)
    ensures forall j | 0 <= j < |s[a..b]| :: s[a..b][j] != c
  {
    forall j | 0 <= j < |s[a..b]| ensures s[a..b][j] != c {
      assert s[a..b][j] == s[a + j];
    }
  }

  /** The first of `f(p)`, `f(p + 1)`, ..., `f(n)` that is present, if
      any: how an unanchored regular expression picks its leftmost match. */
  function Leftmost<T>(f: nat -> Option<T>, p: nat, n: nat): Option<T>
    decreases n - p
  {
    if f(p).Some? then f(p)
    else if p >= n then None
    else Leftmost(f, p + 1, n)
  }

  /** `Leftmost` reports the first position where `f` is present, and
      nothing exactly when `f` is absent everywhere from `p` to `n`. */
  lemma {:induction false} LeftmostSpec<T>(f: nat -> Option<T>, p: nat, n: nat)
    requires p <= n
    ensures Leftmost(f, p, n).Some? ==> exists q | p <= q <= n ::
      f(q) == Leftmost(f, p, n) && forall k | p <= k < q :: f(k).None?
    ensures Leftmost(f, p, n).None? <==> forall k | p <= k <= n :: f(k).None?
    decreases n - p
  {
    if f(p).None? && p < n {
      LeftmostSpec(f, p + 1, n);
      if Leftmost(f, p, n).Some? {
        var q :| p + 1 <= q <= n && f(q) == Leftmost(f, p + 1, n) && forall k | p + 1 <= k < q :: f(k).None?;
        assert forall k | p <= k < q :: f(k).None?;
      }
    }
  }

  /** `FindStringSubmatch`: the match at the leftmost start position. */
  function MatchUrl(s: string): Option<(string, string, string)>
  {
    Leftmost(UrlStarts(s), 0, |s|)
  }

  /** The match, if any, at each start position. */
  function UrlStarts(s: string): nat -> Option<(string, string, string)>
  {
    (k: nat) => UrlAt(s, k)
  }

  /** What a match at `p` captures: a non-empty host without `:`, a
      non-empty owner without `/` and a non-empty name on one line, laid
      out in `s` as `git@<host>:<owner>/<name>.git` from `p` on. */
  lemma UrlAtSpec(s: string, p: nat)
    requires UrlAt(s, p).Some?
    ensures var (host, owner, name) := UrlAt(s, p).value;
      host != "" && (forall j | 0 <= j < |host| :: host[j] != ':') &&
      owner != "" && (forall j | 0 <= j < |owner| :: owner[j] != '/') &&
      name != "" && (forall j | 0 <= j < |name| :: name[j] != '\n') &&
      LaidOut(s, p, p + 4 + |host|, p + 5 + |host| + |owner|, p + 6 + |host| + |owner| + |name|)
  {
    var (colon, slash, g) := UrlIndices(s, p).value;
    UrlIndicesLaidOut(s, p);
    SliceNoChar(s, p + 4, colon, ':');
    SliceNoChar(s, colon + 1, slash, '/');
    SliceNoChar(s, slash + 1, g, '\n');
  }

  /** The text of a remote URL built from its parts. */
  function UrlText(host: string, owner: string, name: string): string
  {
    "git@" + host + ":" + owner + "/" + name + ".git"
  }

  /** A remote URL written out from its parts, at the end of the text or
      followed by a newline, parses back to those parts. */
  lemma UrlRoundTrip(host: string, owner: string, name: string, rest: string)
    requires host != "" && (forall j | 0 <= j < |host| :: host[j] != ':')
    requires owner != "" && (forall j | 0 <= j < |owner| :: owner[j] != '/')
    requires name != "" && (forall j | 0 <= j < |name| :: name[j] != '\n')
    requires rest == [] || rest[0] == '\n'
    ensures UrlAt(UrlText(host, owner, name) + rest, 0) == Some((host, owner, name))
  {
    var s := UrlText(host, owner, name) + rest;
    var colon := 4 + |host|;
    var slash := colon + 1 + |owner|;
    var g := slash + 1 + |name|;
    UrlTextLaidOut(host, owner, name, rest);
    LaidOutFound(s, 0, colon, slash, g);
    assert s[4..colon] == host && s[colon + 1..slash] == owner && s[slash + 1..g] == name by {
      UrlTextSlices(host, owner, name, rest);
    }
  }

  lemma UrlTextSlices(host: string, owner: string, name: string, rest: string)
    ensures var s := UrlText(host, owner, name) + rest;
      var colon := 4 + |host|;
      var slash := colon + 1 + |owner|;
      |s| == slash + 5 + |name| + |rest| &&
      s[4..colon] == host && s[colon + 1..slash] == owner && s[slash + 1..slash + 1 + |name|] == name &&
      s[..4] == "git@" && s[colon] == ':' && s[slash] == '/' &&
      s[slash + 1 + |name|..slash + 5 + |name|] == ".git" && s[slash + 5 + |name|..] == rest
  {
    var a := "git@" + host;
    var b := a + ":";
    var c := b + owner;
    var d := c + "/";
    var e := d + name;
    var f := e + ".git";
    assert f + rest == UrlText(host, owner, name) + rest;
    assert (f + rest)[..|f|] == f && (f + rest)[|f|..] == rest;
    assert f[..|e|] == e && e[..|d|] == d && d[..|c|] == c && c[..|b|] == b && b[..|a|] == a;
    assert f[|e|..] == ".git" && e[|d|..] == name && c[|b|..] == owner && a[4..] == host;
  }

  lemma NoCharFromSlice(s: string, a: nat, b: nat, c: char)
    requires a <= b <= |s| && forall j | 0 <= j < |s[a..b]| :: s[a..b][j] != c
    ensures NoCharIn(s, a, b, c)
  {
    forall j | a <= j < b ensures s[j] != c {
      assert s[j] == s[a..b][j - a];
    }
  }

  /** The layout of a URL, from the pieces of the text at its offsets. */
  lemma LaidOutFromPieces(s: string, host: string, owner: string, name: string, colon: nat, slash: nat, g: nat)
    requires colon == 4 + |host| && slash == colon + 1 + |owner| && g == slash + 1 + |name| && g + 4 <= |s|
    requires host != "" && (forall j | 0 <= j < |host| :: host[j] != ':')
    requires owner != "" && (forall j | 0 <= j < |owner| :: owner[j] != '/')
    requires name != "" && (forall j | 0 <= j < |name| :: name[j] != '\n')
    requires s[4..colon] == host && s[colon + 1..slash] == owner && s[slash + 1..g] == name
    requires s[..4] == "git@" && s[colon] == ':' && s[slash] == '/' && s[g..g + 4] == ".git"
    ensures LaidOut(s, 0, colon, slash, g)
  {
    assert GitAt(s, 0) by { assert s[..4][0] == s[0] && s[..4][1] == s[1] && s[..4][2] == s[2] && s[..4][3] == s[3]; }
    assert DotGitAt(s, g) by {
      assert s[g..g + 4][0] == s[g] && s[g..g + 4][1] == s[g + 1] && s[g..g + 4][2] == s[g + 2] && s[g..g + 4][3] == s[g + 3];
    }
    NoCharFromSlice(s, 4, colon, ':');
    NoCharFromSlice(s, colon + 1, slash, '/');
    NoCharFromSlice(s, slash + 1, g, '\n');
    assert NoCharIn(s, g, g + 4, '\n') by {
      forall j | g <= j < g + 4 ensures s[j] != '\n' { assert s[j] == s[g..g + 4][j - g]; }
    }
  }

  lemma UrlTextLaidOut(host: string, owner: string, name: string, rest: string)
    requires host != "" && (forall j | 0 <= j < |host| :: host[j] != ':')
    requires owner != "" && (forall j | 0 <= j < |owner| :: owner[j] != '/')
    requires name != "" && (forall j | 0 <= j < |name| :: name[j] != '\n')
    requires rest == [] || rest[0] == '\n'
    ensures var s := UrlText(host, owner, name) + rest;
      var slash := 5 + |host| + |owner|;
      LaidOut(s, 0, 4 + |host|, slash, slash + 1 + |name|) &&
      (slash + 5 + |name| == |s| || s[slash + 5 + |name|] == '\n')
  {
    var s := UrlText(host, owner, name) + rest;
    var colon := 4 + |host|;
    var slash := colon + 1 + |owner|;
    var g := slash + 1 + |name|;
    UrlTextSlices(host, owner, name, rest);
    LaidOutFromPieces(s, host, owner, name, colon, slash, g);
    if rest != [] {
      assert s[g + 4] == s[g + 4..][0];
    }
  }

  /** A URL at the very start of the text is the one `FindStringSubmatch`
      reports. */
  lemma UrlFirst(host: string, owner: string, name: string, rest: string)
    requires host != "" && (forall j | 0 <= j < |host| :: host[j] != ':')
    requires owner != "" && (forall j | 0 <= j < |owner| :: owner[j] != '/')
    requires name != "" && (forall j | 0 <= j < |name| :: name[j] != '\n')
    requires rest == [] || rest[0] == '\n'
    ensures MatchUrl(UrlText(host, owner, name) + rest) == Some((host, owner, name))
  {
    UrlRoundTrip(host, owner, name, rest);
  }

  /** The remote's host and `owner/name` repository as `LoadConfig` stores
      them. */
  datatype Remote = Remote(host: string, repo: string)

  /** Lines 50-60 of `LoadConfig`: `remoteShow` is the output of
      `git remote show <remote>` or its error. */
  function ParseRemote(remoteShow: Result<string>): (r: Result<Remote>)
  {
    match remoteShow
    case Err(_) => Err("not a git repository")
    case Ok(out) =>
      match MatchUrl(out)
      case None => Err("failed to parse remote url")
      case Some((host, owner, name)) => Ok(Remote(host, owner + "/" + name))
  }

  /** A parsed remote has a host without `:` and a repository that is an
      owner without `/`, then `/`, then a name; a failed `git` call or an
      output without a match is an error. */
  lemma ParseRemoteSpec(remoteShow: Result<string>)
    ensures remoteShow.Err? ==> ParseRemote(remoteShow) == Err("not a git repository")
    ensures remoteShow.Ok? && MatchUrl(remoteShow.value).None? ==>
      ParseRemote(remoteShow) == Err("failed to parse remote url")
    ensures ParseRemote(remoteShow).Ok? ==>
      var rm := ParseRemote(remoteShow).value;
      rm.host != "" && (forall j | 0 <= j < |rm.host| :: rm.host[j] != ':') &&
      exists k | 0 < k < |rm.repo| - 1 :: rm.repo[k] == '/' && forall j | 0 <= j < k :: rm.repo[j] != '/'
  {
    if remoteShow.Ok? && MatchUrl(remoteShow.value).Some? {
      var (host, owner, name) := MatchUrl(remoteShow.value).value;
      MatchUrlSpec(remoteShow.value);
      var repo := owner + "/" + name;
      assert repo[|owner|] == '/';
      assert forall j | 0 <= j < |owner| :: repo[j] == owner[j];
    }
  }

  /** A match found anywhere in the text captures a non-empty host without
      `:`, a non-empty owner without `/` and a non-empty name on one line,
      wherever the match is. */
  lemma MatchUrlSpec(s: string)
    requires MatchUrl(s).Some?
    ensures var (host, owner, name) := MatchUrl(s).value;
      host != "" && (forall j | 0 <= j < |host| :: host[j] != ':') &&
      owner != "" && (forall j | 0 <= j < |owner| :: owner[j] != '/') &&
      name != "" && (forall j | 0 <= j < |name| :: name[j] != '\n')
  {
    LeftmostSpec(UrlStarts(s), 0, |s|);
    var q :| 0 <= q <= |s| && UrlStarts(s)(q) == MatchUrl(s);
    UrlAtSpec(s, q);
  }

  /** The match reported is the one at the leftmost start position where the
      pattern matches, and there is none exactly when no position matches. */
  lemma MatchUrlLeftmost(s: string)
    ensures MatchUrl(s).Some? ==>
      exists q | 0 <= q <= |s| :: UrlAt(s, q) == MatchUrl(s) && forall k | 0 <= k < q :: UrlAt(s, k).None?
    ensures MatchUrl(s).None? <==> forall k | 0 <= k <= |s| :: UrlAt(s, k).None?
  {
    LeftmostSpec(UrlStarts(s), 0, |s|);
    forall k: nat ensures UrlStarts(s)(k) == UrlAt(s, k) {
    }
  }

  /** `validateConfig`: a value equal to its type's zero value stops the
      run with `missing config "<name>"`. */
  function ValidateConfig<T(==)>(name: string, value: T, zero: T): (r: Result<()>)
    ensures r.Err? <==> value == zero
    ensures r.Err? ==> r.error == "missing config \"" + name + "\""
  {
    if value == zero then Err("missing config \"" + name + "\"") else Ok(())
  }

  /** Lines 83-85 of `LoadConfig`: user, token and e-mail are checked in that
      order and the first empty one is reported. */
  function ValidateIdentity(user: string, token: string, email: string): (r: Result<()>)
    ensures r.Ok? <==> user != "" && token != "" && email != ""
    ensures user == "" ==> r == Err("missing config \"user\"")
    ensures user != "" && token == "" ==> r == Err("missing config \"token\"")
    ensures user != "" && token != "" && email == "" ==> r == Err("missing config \"email\"")
  {
    var _ :- ValidateConfig("user", user, "");
    var _ :- ValidateConfig("token", token, "");
    ValidateConfig("email", email, "")
  }
}
