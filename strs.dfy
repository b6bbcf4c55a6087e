/** The pieces of Go's `strings`, `unicode` and `strconv` packages the model
    relies on, over `seq<char>`. Unicode case mapping is restricted to ASCII
    (see README, "Left out"). */
module Strs {
  import opened Wrappers

  /** `unicode.IsSpace`, the predicate `strings.TrimSpace` trims with. */
  predicate IsSpace(c: char)
  {
    c == '\t' || c == '\n' || c == '\U{0B}' || c == '\U{0C}' || c == '\r' || c == ' ' ||
    c == '\U{85}' || c == '\U{A0}' || c == '\U{1680}' ||
    ('\U{2000}' <= c <= '\U{200A}') ||
    c == '\U{2028}' || c == '\U{2029}' || c == '\U{202F}' || c == '\U{205F}' || c == '\U{3000}'
  }

  predicate AllSpace(s: string)
  {
    forall i | 0 <= i < |s| :: IsSpace(s[i])
  }

  /** `strings.TrimSpace`: drops leading and trailing white space. */
  function TrimSpace(s: string): (r: string)
    ensures |r| <= |s|
    decreases |s|
  {
    if s != [] && IsSpace(s[0]) then TrimSpace(s[1..])
    else if s != [] && IsSpace(s[|s| - 1]) then TrimSpace(s[..|s| - 1])
    else s
  }

  lemma AllSpaceConcat(a: string, b: string)
    requires AllSpace(a) && AllSpace(b)
    ensures AllSpace(a + b)
  {
    forall k | 0 <= k < |a + b| ensures IsSpace((a + b)[k]) {
      if k >= |a| { assert (a + b)[k] == b[k - |a|]; }
    }
  }

  lemma InfixAfterSpace(s: string, i: nat, j: nat)
    requires s != [] && IsSpace(s[0]) && i <= j <= |s| - 1
    requires AllSpace(s[1..][..i]) && AllSpace(s[1..][j..])
    ensures s[1..][i..j] == s[i + 1..j + 1] && AllSpace(s[..i + 1]) && AllSpace(s[j + 1..])
  {
    assert s[1..][j..] == s[j + 1..];
    assert s[..i + 1] == [s[0]] + s[1..][..i];
    AllSpaceConcat([s[0]], s[1..][..i]);
  }

  lemma InfixBeforeSpace(s: string, i: nat, j: nat)
    requires s != [] && IsSpace(s[|s| - 1]) && i <= j <= |s| - 1
    requires AllSpace(s[..|s| - 1][..i]) && AllSpace(s[..|s| - 1][j..])
    ensures s[..|s| - 1][i..j] == s[i..j] && AllSpace(s[..i]) && AllSpace(s[j..])
  {
    var t := s[..|s| - 1];
    assert t[..i] == s[..i];
    assert s[j..] == t[j..] + [s[|s| - 1]];
    AllSpaceConcat(t[j..], [s[|s| - 1]]);
  }

  /** `TrimSpace(s)` is the infix of `s` left after removing a run of white
      space at each end. */
  lemma {:induction false} TrimSpaceInfix(s: string)
    ensures exists i, j :: 0 <= i <= j <= |s| && TrimSpace(s) == s[i..j] && AllSpace(s[..i]) && AllSpace(s[j..])
    decreases |s|
  {
    if s != [] && IsSpace(s[0]) {
      var t := s[1..];
      TrimSpaceInfix(t);
      var i, j :| 0 <= i <= j <= |t| && TrimSpace(t) == t[i..j] && AllSpace(t[..i]) && AllSpace(t[j..]);
      InfixAfterSpace(s, i, j);
      assert TrimSpace(s) == s[i + 1..j + 1];
    } else if s != [] && IsSpace(s[|s| - 1]) {
      var t := s[..|s| - 1];
      TrimSpaceInfix(t);
      var i, j :| 0 <= i <= j <= |t| && TrimSpace(t) == t[i..j] && AllSpace(t[..i]) && AllSpace(t[j..]);
      InfixBeforeSpace(s, i, j);
      assert TrimSpace(s) == s[i..j];
    } else {
      assert s[..0] == [] && s[|s|..] == [] && s[0..|s|] == s;
    }
  }

  predicate Trimmed(s: string)
  {
    s != [] ==> !IsSpace(s[0]) && !IsSpace(s[|s| - 1])
  }

  /** Nothing is left to trim at either end. */
  lemma {:induction false} TrimSpaceTrimmed(s: string)
    ensures Trimmed(TrimSpace(s))
    decreases |s|
  {
    if s != [] && IsSpace(s[0]) {
      TrimSpaceTrimmed(s[1..]);
    } else if s != [] && IsSpace(s[|s| - 1]) {
      TrimSpaceTrimmed(s[..|s| - 1]);
    }
  }

  lemma TrimSpaceOfTrimmed(s: string)
    requires Trimmed(s)
    ensures TrimSpace(s) == s
  {
  }

  lemma TrimSpaceEmptyIffAllSpace(s: string)
    ensures TrimSpace(s) == [] <==> AllSpace(s)
  {
  }

  predicate HasPrefix(s: string, p: string)
  {
    |p| <= |s| && s[..|p|] == p
  }

  predicate HasSuffix(s: string, p: string)
  {
    |p| <= |s| && s[|s| - |p|..] == p
  }

  /** `strings.Contains`: `sub` occurs at some position of `s`. */
  predicate Contains(s: string, sub: string)
  {
    exists i | 0 <= i <= |s| - |sub| :: HasPrefix(s[i..], sub)
  }

  /** `sub` occurs in `s` at position `k`. */
  predicate OccursAt(s: string, sub: string, k: int)
  {
    0 <= k && k + |sub| <= |s| && s[k..k + |sub|] == sub
  }

  /** `strings.Index`: the first position where `sub` occurs, -1 if none. */
  function Index(s: string, sub: string): (r: int)
    ensures -1 <= r && (r >= 0 ==> r + |sub| <= |s|)
    decreases |s|
  {
    if |sub| > |s| then -1
    else if s[..|sub|] == sub then 0
    else
      var r := Index(s[1..], sub);
      if r < 0 then -1 else r + 1
  }

  /** Occurrences in a suffix are occurrences in the whole, shifted. */
  lemma OccursAtShift(s: string, sub: string, d: nat, k: int)
    requires d <= |s| && 0 <= k
    ensures OccursAt(s[d..], sub, k) <==> OccursAt(s, sub, k + d)
  {
    if 0 <= k && k + |sub| <= |s| - d {
      assert s[d..][k..k + |sub|] == s[k + d..k + d + |sub|];
    }
  }

  lemma {:induction false} IndexSpec(s: string, sub: string)
    ensures Index(s, sub) >= 0 ==> OccursAt(s, sub, Index(s, sub))
    ensures forall k | 0 <= k && (Index(s, sub) < 0 || k < Index(s, sub)) :: !OccursAt(s, sub, k)
    decreases |s|
  {
    if |sub| > |s| {
    } else if s[..|sub|] == sub {
    } else {
      IndexSpec(s[1..], sub);
      forall k | 0 <= k ensures OccursAt(s[1..], sub, k) <==> OccursAt(s, sub, k + 1) {
        OccursAtShift(s, sub, 1, k);
      }
      forall k | 0 <= k && (Index(s, sub) < 0 || k < Index(s, sub)) ensures !OccursAt(s, sub, k) {
        if k > 0 {
          assert !OccursAt(s[1..], sub, k - 1);
        }
      }
    }
  }

  /** Index of the first occurrence of `c` in `s`, -1 if none (`strings.IndexByte`). */
  function IndexOf(s: string, c: char): (r: int)
    ensures -1 <= r < |s|
    ensures r == -1 <==> c !in s
    ensures r >= 0 ==> s[r] == c && c !in s[..r]
  {
    if s == [] then -1
    else if s[0] == c then 0
    else
      var k := IndexOf(s[1..], c);
      if k == -1 then -1
      else assert s[..k + 1] == [s[0]] + s[1..][..k]; k + 1
  }

  /** Index of the last occurrence of `c` in `s`, -1 if none (`strings.LastIndexByte`). */
  function LastIndexOf(s: string, c: char): (r: int)
    ensures -1 <= r < |s|
    ensures r == -1 <==> c !in s
    ensures r >= 0 ==> s[r] == c && c !in s[r + 1..]
  {
    if s == [] then -1
    else if s[|s| - 1] == c then |s| - 1
    else assert s == s[..|s| - 1] + [s[|s| - 1]]; LastIndexOf(s[..|s| - 1], c)
  }

  /** `strings.Split(s, string(sep))`: never empty, one more piece than
      occurrences of `sep`, pieces free of `sep`. */
  function Split(s: string, sep: char): (parts: seq<string>)
    ensures |parts| >= 1
    decreases |s|
  {
    var i := IndexOf(s, sep);
    if i < 0 then [s] else [s[..i]] + Split(s[i + 1..], sep)
  }

  lemma SplitCons(s: string, sep: char)
    requires IndexOf(s, sep) >= 0
    ensures Split(s, sep) == [s[..IndexOf(s, sep)]] + Split(s[IndexOf(s, sep) + 1..], sep)
  {
  }

  lemma SplitNone(s: string, sep: char)
    requires sep !in s
    ensures Split(s, sep) == [s]
  {
  }

  /** `strings.Join`. */
  function Join(parts: seq<string>, sep: string): string
  {
    if parts == [] then []
    else if |parts| == 1 then parts[0]
    else parts[0] + sep + Join(parts[1..], sep)
  }

  lemma {:induction false} JoinSplit(s: string, sep: char)
    ensures Join(Split(s, sep), [sep]) == s
    decreases |s|
  {
    var i := IndexOf(s, sep);
    if i >= 0 {
      var rest := Split(s[i + 1..], sep);
      JoinSplit(s[i + 1..], sep);
      SplitCons(s, sep);
      JoinCons(s[..i], rest, [sep]);
      assert s == s[..i] + [sep] + s[i + 1..];
    } else {
      SplitNone(s, sep);
    }
  }

  lemma JoinCons(p: string, rest: seq<string>, sep: string)
    requires rest != []
    ensures Join([p] + rest, sep) == p + sep + Join(rest, sep)
  {
    assert ([p] + rest)[1..] == rest;
  }

  /** Joining a prefix of the pieces yields a prefix of the joined text. */
  lemma {:induction false} JoinPrefix(parts: seq<string>, n: nat, sep: string)
    requires n <= |parts|
    ensures HasPrefix(Join(parts, sep), Join(parts[..n], sep))
  {
    if n == 0 {
    } else if |parts| == 1 {
      assert parts[..n] == parts;
    } else if n == 1 {
      assert parts[..n] == [parts[0]];
    } else {
      JoinPrefix(parts[1..], n - 1, sep);
      assert parts[..n][1..] == parts[1..][..n - 1];
      var a := Join(parts[1..], sep);
      var b := Join(parts[1..][..n - 1], sep);
      assert a[..|b|] == b;
      assert (parts[0] + sep + a)[..|parts[0] + sep + b|] == parts[0] + sep + b;
    }
  }

  function LowerChar(c: char): char
  {
    if 'A' <= c <= 'Z' then (c as int + 32) as char else c
  }

  function UpperChar(c: char): char
  {
    if 'a' <= c <= 'z' then (c as int - 32) as char else c
  }

  /** `strings.ToLower` on ASCII. */
  function ToLower(s: string): string
  {
    seq(|s|, i requires 0 <= i < |s| => LowerChar(s[i]))
  }

  /** Lower-casing twice is lower-casing once. */
  lemma ToLowerIdempotent(s: string)
    ensures ToLower(ToLower(s)) == ToLower(s)
  {
    assert forall i | 0 <= i < |s| :: LowerChar(LowerChar(s[i])) == LowerChar(s[i]);
  }

  /** Lower-casing works character by character, and leaves white space
      alone. */
  lemma ToLowerConcat(a: string, b: string)
    ensures ToLower(a + b) == ToLower(a) + ToLower(b)
    ensures AllSpace(a) ==> ToLower(a) == a
  {
    assert forall i | 0 <= i < |a + b| :: (a + b)[i] == if i < |a| then a[i] else b[i - |a|];
  }

  /** White space in front of a string makes no difference to `TrimSpace`. */
  lemma {:induction false} TrimSpaceLeading(ws: string, t: string)
    requires AllSpace(ws)
    ensures TrimSpace(ws + t) == TrimSpace(t)
    decreases |ws|
  {
    if ws != [] {
      assert (ws + t)[0] == ws[0] && (ws + t)[1..] == ws[1..] + t;
      TrimSpaceLeading(ws[1..], t);
    } else {
      assert ws + t == t;
    }
  }

  /** White space after a string makes no difference to `TrimSpace`, though
      it trims the front first. */
  lemma {:induction false} TrimSpaceTrailing(t: string, ws: string)
    requires AllSpace(ws)
    ensures TrimSpace(t + ws) == TrimSpace(t)
    decreases |t| + |ws|
  {
    if t != [] && IsSpace(t[0]) {
      assert (t + ws)[1..] == t[1..] + ws;
      TrimSpaceTrailing(t[1..], ws);
    } else if ws != [] {
      var w := ws[..|ws| - 1];
      assert (t + ws)[..|t + ws| - 1] == t + w;
      if t == [] {
        assert t + ws == ws;
        TrimSpaceEmptyIffAllSpace(ws);
      } else {
        assert (t + ws)[0] == t[0];
        TrimSpaceTrailing(t, w);
      }
    } else {
      assert t + ws == t;
    }
  }

  /** `strings.ToUpper` on ASCII. */
  function ToUpper(s: string): string
  {
    seq(|s|, i requires 0 <= i < |s| => UpperChar(s[i]))
  }

  predicate IsDigit(c: char)
  {
    '0' <= c <= '9'
  }

  function DigitChar(d: nat): char
    requires d < 10
  {
    ('0' as int + d) as char
  }

  function NatToString(n: nat): (r: string)
    ensures |r| >= 1 && forall i | 0 <= i < |r| :: IsDigit(r[i])
  {
    if n < 10 then [DigitChar(n)] else NatToString(n / 10) + [DigitChar(n % 10)]
  }

  /** `strconv.Itoa` / `%d`. */
  function Itoa(n: int): (r: string)
    ensures r != []
  {
    if n < 0 then "-" + NatToString(-n) else NatToString(n)
  }

  /** `strings.ReplaceAll(s, "\r\n", "\n")`. */
  function ReplaceCRLF(s: string): (r: string)
    ensures |r| <= |s|
  {
    if |s| >= 2 && s[0] == '\r' && s[1] == '\n' then "\n" + ReplaceCRLF(s[2..])
    else if s == [] then []
    else [s[0]] + ReplaceCRLF(s[1..])
  }

  // ---------------------------------------------------------------------
  // `%q` (strconv.Quote)

  const HexDigits := "0123456789abcdef"

  /** The letter of Go's short escapes `\a \b \f \n \r \t \v`, for the
      control characters that have one. */
  function ShortEscape(c: char): Option<char>
  {
    if c == '\U{07}' then Some('a')
    else if c == '\U{08}' then Some('b')
    else if c == '\U{0C}' then Some('f')
    else if c == '\n' then Some('n')
    else if c == '\r' then Some('r')
    else if c == '\t' then Some('t')
    else if c == '\U{0B}' then Some('v')
    else None
  }

  /** How `%q` writes one character: quotes and backslashes are escaped,
      control characters get a short escape or `\x` with two lower-case hex
      digits, everything else is kept. */
  function EscapeChar(c: char): (r: string)
    ensures |r| >= 1 && (r[0] == '\\' <==> |r| >= 2)
  {
    if c == '"' || c == '\\' then ['\\', c]
    else if ShortEscape(c).Some? then ['\\', ShortEscape(c).value]
    else if c < ' ' || c == '\U{7F}' then ['\\', 'x', HexDigits[c as int / 16], HexDigits[c as int % 16]]
    else [c]
  }

  function Escape(s: string): string
  {
    if s == [] then [] else EscapeChar(s[0]) + Escape(s[1..])
  }

  /** `%q` of a string: the escaped text between double quotes. */
  function Quote(s: string): (r: string)
    ensures |r| >= 2 && r[0] == '"' && r[|r| - 1] == '"'
  {
    "\"" + Escape(s) + "\""
  }

  function HexValue(c: char): Option<nat>
  {
    if '0' <= c <= '9' then Some(c as int - '0' as int)
    else if 'a' <= c <= 'f' then Some(c as int - 'a' as int + 10)
    else None
  }

  /** The character a short escape letter stands for. */
  function ShortUnescape(e: char): Option<char>
  {
    if e == 'a' then Some('\U{07}')
    else if e == 'b' then Some('\U{08}')
    else if e == 'f' then Some('\U{0C}')
    else if e == 'n' then Some('\n')
    else if e == 'r' then Some('\r')
    else if e == 't' then Some('\t')
    else if e == 'v' then Some('\U{0B}')
    else if e == '"' || e == '\\' then Some(e)
    else None
  }

  /** Reading escaped text back, as Go's `strconv.Unquote` reads the inside
      of a quoted string: none when an escape is malformed. */
  function Unescape(t: string): Option<string>
    decreases |t|
  {
    if t == [] then Some([])
    else if t[0] != '\\' then
      var rest := Unescape(t[1..]);
      if rest.Some? then Some([t[0]] + rest.value) else None
    else if |t| >= 4 && t[1] == 'x' && HexValue(t[2]).Some? && HexValue(t[3]).Some? then
      var rest := Unescape(t[4..]);
      if rest.Some? then Some([(HexValue(t[2]).value * 16 + HexValue(t[3]).value) as char] + rest.value) else None
    else if |t| >= 2 && ShortUnescape(t[1]).Some? then
      var rest := Unescape(t[2..]);
      if rest.Some? then Some([ShortUnescape(t[1]).value] + rest.value) else None
    else None
  }

  /** One escaped character in front of escaped text reads back as that
      character in front of the text. */
  lemma UnescapeChar(c: char, t: string)
    ensures Unescape(EscapeChar(c) + t) == if Unescape(t).Some? then Some([c] + Unescape(t).value) else None
  {
    if c == '"' || c == '\\' || ShortEscape(c).Some? {
      UnescapeShort(c, t);
    } else if c < ' ' || c == '\U{7F}' {
      UnescapeHex(c, t);
    } else {
      var u := EscapeChar(c) + t;
      assert u[0] == c && u[1..] == t;
    }
  }

  lemma UnescapeShort(c: char, t: string)
    requires c == '"' || c == '\\' || ShortEscape(c).Some?
    ensures Unescape(EscapeChar(c) + t) == if Unescape(t).Some? then Some([c] + Unescape(t).value) else None
  {
    var e := EscapeChar(c);
    assert |e| == 2 && e[0] == '\\' && ShortUnescape(e[1]) == Some(c);
    var u := e + t;
    assert u[0] == '\\' && u[1] == e[1] && u[1] != 'x' && u[2..] == t;
  }

  lemma UnescapeHex(c: char, t: string)
    requires c < ' ' || c == '\U{7F}'
    requires ShortEscape(c).None?
    ensures Unescape(EscapeChar(c) + t) == if Unescape(t).Some? then Some([c] + Unescape(t).value) else None
  {
    var hi, lo := c as int / 16, c as int % 16;
    assert HexValue(HexDigits[hi]) == Some(hi);
    assert HexValue(HexDigits[lo]) == Some(lo);
    assert (hi * 16 + lo) as char == c;
    var u := EscapeChar(c) + t;
    assert u[0] == '\\' && u[1] == 'x' && u[2] == HexDigits[hi] && u[3] == HexDigits[lo] && u[4..] == t;
  }

  /** `%q` loses nothing: the quoted text reads back as the original. */
  lemma {:induction false} UnescapeEscape(s: string)
    ensures Unescape(Escape(s)) == Some(s)
  {
    if s != [] {
      UnescapeEscape(s[1..]);
      UnescapeChar(s[0], Escape(s[1..]));
      assert [s[0]] + s[1..] == s;
    }
  }

  /** A character `%q` writes as itself. */
  predicate Plain(c: char)
  {
    c != '"' && c != '\\' && c >= ' ' && c != '\U{7F}'
  }

  /** Text of plain characters is quoted as it is. */
  lemma {:induction false} QuotePlain(s: string)
    requires forall k | 0 <= k < |s| :: Plain(s[k])
    ensures Quote(s) == "\"" + s + "\""
  {
    EscapePlain(s);
  }

  lemma {:induction false} EscapePlain(s: string)
    requires forall k | 0 <= k < |s| :: Plain(s[k])
    ensures Escape(s) == s
  {
    if s != [] {
      assert forall k | 0 <= k < |s[1..]| :: s[1..][k] == s[k + 1];
      EscapePlain(s[1..]);
      assert ShortEscape(s[0]).None?;
      assert [s[0]] + s[1..] == s;
    }
  }
}
