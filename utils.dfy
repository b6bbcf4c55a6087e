/** utils.go: the generic helpers `revert`, `formatKey`, `maxAttrsLength`,
    `wrapf` and `must`. */
module Utils {
  import opened Strs
  import opened Wrappers
  import opened KeyVals

  /** The reverse of `s`, stated position by position. */
  function Reversed<T>(s: seq<T>): (r: seq<T>)
  {
    seq(|s|, i requires 0 <= i < |s| => s[|s| - 1 - i])
  }

  lemma ReversedTwice<T>(s: seq<T>)
    ensures Reversed(Reversed(s)) == s
  {
  }

  /** `revert`: fills a buffer of the same length by index, `out[n-1-i] = list[i]`. */
  method Revert<T>(list: seq<T>) returns (out: seq<T>)
    ensures out == Reversed(list)
  {
    var n := |list|;
    out := list;  // a buffer of length n; every slot is overwritten below
    var i := 0;
    while i < n
      invariant 0 <= i <= n && |out| == n
      invariant forall k | 0 <= k < i :: out[n - 1 - k] == list[k]
      invariant forall k | 0 <= k < n - i :: out[k] == list[k]
    {
      out := out[n - 1 - i := list[i]];
      i := i + 1;
    }
  }

  /** `formatKey` stated character by character: a character is upper-cased
      exactly when it starts a `-`-separated word. */
  function WordCaps(s: string): (r: string)
    ensures |r| == |s|
  {
    seq(|s|, j requires 0 <= j < |s| => if j == 0 || s[j - 1] == '-' then UpperChar(s[j]) else s[j])
  }

  /** One word as the loop of `formatKey` writes it. */
  function CapWord(w: string): string
  {
    if w == [] then [] else [UpperChar(w[0])] + w[1..]
  }

  function CapWords(ws: seq<string>): seq<string>
  {
    seq(|ws|, k requires 0 <= k < |ws| => CapWord(ws[k]))
  }

  lemma JoinSnoc(ps: seq<string>, p: string, sep: string)
    requires ps != []
    ensures Join(ps + [p], sep) == Join(ps, sep) + sep + p
  {
    if |ps| > 1 {
      JoinSnoc(ps[1..], p, sep);
      assert (ps + [p])[1..] == ps[1..] + [p];
    }
  }

  lemma WordCapsNoDash(w: string)
    requires '-' !in w
    ensures WordCaps(w) == CapWord(w)
  {
  }

  lemma WordCapsCons(w: string, rest: string)
    requires '-' !in w
    ensures WordCaps(w + "-" + rest) == CapWord(w) + "-" + WordCaps(rest)
  {
    var s := w + "-" + rest;
    var lhs := CapWord(w) + "-" + WordCaps(rest);
    assert |lhs| == |s|;
    var cw := CapWord(w);
    forall j | 0 <= j < |s| ensures WordCaps(s)[j] == lhs[j] {
      if j < |w| {
        assert s[j] == w[j] && lhs[j] == cw[j];
        if j > 0 { assert s[j - 1] == w[j - 1]; }
      } else if j == |w| {
        assert s[j] == '-' && lhs[j] == '-';
      } else {
        var k := j - |w| - 1;
        assert s[j] == rest[k] && lhs[j] == WordCaps(rest)[k];
        if k > 0 { assert s[j - 1] == rest[k - 1]; }
      }
    }
  }

  lemma JoinCapsCons(w: string, tail: seq<string>)
    requires tail != []
    ensures Join(CapWords([w] + tail), "-") == CapWord(w) + "-" + Join(CapWords(tail), "-")
  {
    var caps := CapWords([w] + tail);
    assert caps == [CapWord(w)] + CapWords(tail);
    assert caps[1..] == CapWords(tail);
  }

  lemma {:induction false} CapWordsSplit(s: string)
    ensures Join(CapWords(Split(s, '-')), "-") == WordCaps(s)
    decreases |s|
  {
    var i := IndexOf(s, '-');
    if i < 0 {
      SplitNone(s, '-');
      assert CapWords([s]) == [CapWord(s)];
      WordCapsNoDash(s);
    } else {
      var w, rest := s[..i], s[i + 1..];
      var tail := Split(rest, '-');
      assert '-' !in w;
      assert s == w + "-" + rest;
      calc {
        Join(CapWords(Split(s, '-')), "-");
        { SplitCons(s, '-'); }
        Join(CapWords([w] + tail), "-");
        { JoinCapsCons(w, tail); }
        CapWord(w) + "-" + Join(CapWords(tail), "-");
        { CapWordsSplit(rest); }
        CapWord(w) + "-" + WordCaps(rest);
        { WordCapsCons(w, rest); }
        WordCaps(s);
      }
    }
  }

  /** `formatKey`: lower-cases the key, then writes its `-`-separated words
      with their first letter upper-cased and the `-` kept between them. */
  method FormatKey(key: string) returns (r: string)
    ensures r == WordCaps(ToLower(key))
  {
    var lower := ToLower(key);
    var words := Split(lower, '-');
    r := [];
    var i := 0;
    while i < |words|
      invariant 0 <= i <= |words|
      invariant r == Join(CapWords(words[..i]), "-")
    {
      CapWordsStep(words, i);
      if i > 0 {
        r := r + "-";
      }
      if words[i] != [] {
        r := r + [UpperChar(words[i][0])] + words[i][1..];
      }
      i := i + 1;
    }
    assert words[..i] == words;
    CapWordsSplit(lower);
  }

  lemma CapWordsStep(words: seq<string>, i: nat)
    requires i < |words|
    ensures Join(CapWords(words[..i + 1]), "-") ==
      (if i > 0 then Join(CapWords(words[..i]), "-") + "-" else "") + CapWord(words[i])
  {
    var before := CapWords(words[..i]);
    assert CapWords(words[..i + 1]) == before + [CapWord(words[i])];
    if i > 0 {
      JoinSnoc(before, CapWord(words[i]), "-");
    }
  }

  /** `formatKey` keeps the length of the key and the places of its `-`. */
  lemma FormatKeyShape(key: string)
    ensures |WordCaps(ToLower(key))| == |key|
    ensures forall j | 0 <= j < |key| :: (WordCaps(ToLower(key))[j] == '-') == (key[j] == '-')
  {
  }

  lemma FormatKeyRemoteRef()
    ensures WordCaps(ToLower("remote-ref")) == "Remote-Ref"
  {
  }

  /** `formatKey` is idempotent: formatting its own output changes nothing. */
  lemma FormatKeyIdempotent(key: string)
    ensures WordCaps(ToLower(WordCaps(ToLower(key)))) == WordCaps(ToLower(key))
  {
    var x := ToLower(key);
    var y := WordCaps(x);
    assert ToLower(y) == x;
  }

  /** `maxAttrsLength`: the running maximum of the key lengths, 0 for none. */
  method MaxAttrsLength(attrs: seq<KeyVal>) returns (maxL: nat)
    ensures forall k | 0 <= k < |attrs| :: |attrs[k].key| <= maxL
    ensures attrs == [] ==> maxL == 0
    ensures attrs != [] ==> exists k | 0 <= k < |attrs| :: |attrs[k].key| == maxL
  {
    maxL := 0;
    var i := 0;
    while i < |attrs|
      invariant 0 <= i <= |attrs|
      invariant forall k | 0 <= k < i :: |attrs[k].key| <= maxL
      invariant i == 0 ==> maxL == 0
      invariant i > 0 ==> exists k | 0 <= k < i :: |attrs[k].key| == maxL
    {
      if |attrs[i].key| > maxL {
        maxL := |attrs[i].key|;
      }
      i := i + 1;
    }
  }

  /** `wrapf`: no error stays no error; an error is prefixed with the message. */
  function Wrapf(err: Option<string>, msg: string): (r: Option<string>)
    ensures r.None? <==> err.None?
    ensures r.Some? ==> HasPrefix(r.value, msg + ": ") && HasSuffix(r.value, err.value)
  {
    match err
    case None => None
    case Some(e) => Some(msg + ": " + e)
  }

  /** `must`: the value when there is no error, a panic otherwise. */
  function Must<T>(v: T, err: Option<string>): (r: Result<T>)
    ensures r.Ok? <==> err.None?
    ensures r.Ok? ==> r.value == v
  {
    match err
    case None => Ok(v)
    case Some(e) => Err(e)
  }
}
