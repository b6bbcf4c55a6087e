/** types.go: the `Commit` record, whose trailer list `SetAttr` and
    `FullMessage` change in place, and the read-only searches of
    `CommitList`. */
module Types {
  import opened Strs
  import opened Wrappers
  import opened KeyVals
  import opened Utils

  /** A lookup finds the only entry that carries its key. */
  lemma {:induction false} LookupUnique(s: seq<KeyVal>, x: KeyVal)
    requires x in s
    requires forall j | 0 <= j < |s| :: s[j].key == x.key ==> s[j] == x
    ensures Lookup(s, x.key) == x.value
  {
    if s[0] != x {
      LookupUnique(s[1..], x);
    }
  }

  /** The trailer list after `SetAttr(key, value)`: the first entry with the
      key gets the new value where it stands; a new key is appended and the
      list sorted by key. */
  function WithAttr(attrs: seq<KeyVal>, key: string, value: string): seq<KeyVal>
  {
    var i := KeyIndex(attrs, key);
    if i >= 0 then attrs[i := KeyVal(key, value)] else SortAttrs(attrs + [KeyVal(key, value)], false)
  }

  /** After `SetAttr` the key looks up to the new value. An existing key
      is updated where it stands — same length, same keys, every other
      entry unchanged; a new one is added to the entries, which end up
      sorted by key. */
  lemma WithAttrSpec(attrs: seq<KeyVal>, key: string, value: string)
    ensures var r := WithAttr(attrs, key, value);
      Lookup(r, key) == value &&
      (KeyIndex(attrs, key) >= 0 ==>
        |r| == |attrs| && forall j | 0 <= j < |attrs| ::
          r[j].key == attrs[j].key && (j != KeyIndex(attrs, key) ==> r[j] == attrs[j])) &&
      (KeyIndex(attrs, key) < 0 ==>
        Sorted(r, false) && multiset(r) == multiset(attrs) + multiset{KeyVal(key, value)})
  {
    if KeyIndex(attrs, key) >= 0 {
      WithAttrExisting(attrs, key, value);
    } else {
      WithAttrNew(attrs, key, value);
    }
  }

  /** `WithAttrSpec` for a key already present. */
  lemma WithAttrExisting(attrs: seq<KeyVal>, key: string, value: string)
    requires KeyIndex(attrs, key) >= 0
    ensures var r := attrs[KeyIndex(attrs, key) := KeyVal(key, value)];
      Lookup(r, key) == value && |r| == |attrs| &&
      forall j | 0 <= j < |attrs| :: r[j].key == attrs[j].key && (j != KeyIndex(attrs, key) ==> r[j] == attrs[j])
  {
    KeyIndexSpec(attrs, key);
    var i := KeyIndex(attrs, key);
    var r := attrs[i := KeyVal(key, value)];
    assert r[i] == KeyVal(key, value);
    LookupUnique(r[..i + 1], KeyVal(key, value));
    LookupPrefix(r, i + 1, key);
  }

  /** `WithAttrSpec` for a new key. */
  lemma WithAttrNew(attrs: seq<KeyVal>, key: string, value: string)
    requires KeyIndex(attrs, key) < 0
    ensures var r := SortAttrs(attrs + [KeyVal(key, value)], false);
      Lookup(r, key) == value && Sorted(r, false) && multiset(r) == multiset(attrs) + multiset{KeyVal(key, value)}
  {
    KeyIndexSpec(attrs, key);
    var x := KeyVal(key, value);
    var r := SortAttrs(attrs + [x], false);
    SortAttrsSpec(attrs + [x], false);
    forall j | 0 <= j < |r| && r[j].key == key ensures r[j] == x {
      assert r[j] in multiset(attrs + [x]);
    }
    assert x in multiset(r);
    LookupUnique(r, x);
  }

  /** A lookup that succeeds on a prefix gives the same answer on the whole list. */
  lemma {:induction false} LookupPrefix(s: seq<KeyVal>, n: nat, key: string)
    requires n <= |s|
    requires exists j | 0 <= j < n :: s[j].key == key
    ensures Lookup(s, key) == Lookup(s[..n], key)
  {
    assert s[..n][0] == s[0];
    if s[0].key != key {
      var j :| 0 <= j < n && s[j].key == key;
      assert s[1..][j - 1].key == key;
      assert s[..n][1..] == s[1..][..n - 1];
      LookupPrefix(s[1..], n - 1, key);
    }
  }

  /** The non-empty trimmed pieces of a comma-separated tag list, in order. */
  function TagPieces(pieces: seq<string>): (r: seq<string>)
    ensures |r| <= |pieces|
  {
    if pieces == [] then []
    else
      var last := TrimSpace(pieces[|pieces| - 1]);
      TagPieces(pieces[..|pieces| - 1]) + (if last == [] then [] else [last])
  }

  /** Every tag kept is non-empty and has no surrounding white space. */
  lemma {:induction false} TagPiecesTrimmed(pieces: seq<string>)
    ensures forall k | 0 <= k < |TagPieces(pieces)| :: TagPieces(pieces)[k] != [] && Trimmed(TagPieces(pieces)[k])
  {
    if pieces != [] {
      TagPiecesTrimmed(pieces[..|pieces| - 1]);
      TrimSpaceTrimmed(pieces[|pieces| - 1]);
    }
  }

  lemma TagPiecesSnoc(pieces: seq<string>, i: nat)
    requires i < |pieces|
    ensures TagPieces(pieces[..i + 1]) ==
      TagPieces(pieces[..i]) + (if TrimSpace(pieces[i]) == [] then [] else [TrimSpace(pieces[i])])
  {
    assert pieces[..i + 1][..i] == pieces[..i];
  }

  /** What `GetTags` returns, as written: the defaults, then every tag piece,
      duplicates included. */
  function TagsAsWritten(defaults: seq<string>, rawTags: string): (r: seq<string>)
    ensures HasSeqPrefix(r, defaults)
    ensures |r| == |defaults| + |TagPieces(Split(rawTags, ','))|
  {
    defaults + TagPieces(Split(rawTags, ','))
  }

  predicate HasSeqPrefix<T(==)>(s: seq<T>, p: seq<T>)
  {
    |p| <= |s| && s[..|p|] == p
  }

  /** The evidently intended `GetTags`: a piece already present is skipped. */
  function TagsDeduped(defaults: seq<string>, rawTags: string): (r: seq<string>)
  {
    AddNew(defaults, TagPieces(Split(rawTags, ',')))
  }

  function AddNew(tags: seq<string>, pieces: seq<string>): (r: seq<string>)
    ensures HasSeqPrefix(r, tags)
    ensures forall t :: t in r <==> t in tags || t in pieces
    decreases |pieces|
  {
    if pieces == [] then tags
    else if pieces[0] in tags then AddNew(tags, pieces[1..])
    else AddNew(tags + [pieces[0]], pieces[1..])
  }

  predicate NoDuplicates<T(==)>(s: seq<T>)
  {
    forall i, j | 0 <= i < j < |s| :: s[i] != s[j]
  }

  /** The corrected tag list holds no tag twice when the defaults do not, and
      holds exactly the defaults and the pieces. */
  lemma {:induction false} TagsDedupedNoDuplicates(defaults: seq<string>, rawTags: string)
    requires NoDuplicates(defaults)
    ensures NoDuplicates(TagsDeduped(defaults, rawTags))
    ensures forall t :: t in TagsDeduped(defaults, rawTags) <==>
      t in defaults || t in TagPieces(Split(rawTags, ','))
  {
    AddNewNoDuplicates(defaults, TagPieces(Split(rawTags, ',')));
  }

  lemma {:induction false} AddNewNoDuplicates(tags: seq<string>, pieces: seq<string>)
    requires NoDuplicates(tags)
    ensures NoDuplicates(AddNew(tags, pieces))
    decreases |pieces|
  {
    if pieces != [] {
      if pieces[0] in tags {
        AddNewNoDuplicates(tags, pieces[1..]);
      } else {
        AddNewNoDuplicates(tags + [pieces[0]], pieces[1..]);
      }
    }
  }

  lemma SplitTwoTags()
    ensures Split("a,a", ',') == ["a", "a"]
  {
    var s := "a,a";
    assert IndexOf(s, ',') == 1;
    SplitCons(s, ',');
    assert s[..1] == "a" && s[2..] == "a";
    SplitNone("a", ',');
  }

  /** The inner `continue` of `GetTags` does not skip a repeated tag. */
  lemma GetTagsKeepsDuplicates()
    ensures TagsAsWritten([], "a,a") == ["a", "a"]
    ensures TagsDeduped([], "a,a") == ["a"]
  {
    SplitTwoTags();
    var parts := Split("a,a", ',');
    assert TrimSpace("a") == "a" by { TrimSpaceOfTrimmed("a"); }
    assert parts[..1] == ["a"] && parts[..1][..0] == [];
    assert TagPieces(parts[..1]) == ["a"];
    assert TagPieces(parts) == ["a", "a"];
    assert AddNew([], parts) == AddNew(["a"], ["a"]);
    assert AddNew(["a"], ["a"]) == AddNew(["a"], []);
  }

  /** One `FullMessage` trailer line, `"% <width>v: %v\n"` applied to
      `formatKey(key)` and the value. */
  function AttrLine(kv: KeyVal, width: nat): string
  {
    Spaces(if |kv.key| <= width then width - |kv.key| else 0) + WordCaps(ToLower(kv.key)) + ": " + kv.value + "\n"
  }

  /** The layout of a trailer line: the formatted key right-aligned in a
      column of `width` characters (never cut), then `: value`. */
  lemma AttrLineLayout(kv: KeyVal, width: nat)
    ensures var r := AttrLine(kv, width);
      if |kv.key| <= width then
        |r| == width + 2 + |kv.value| + 1 && AllSpace(r[..width - |kv.key|]) &&
        r[width - |kv.key|..width] == WordCaps(ToLower(kv.key)) && r[width..] == ": " + kv.value + "\n"
      else
        r == WordCaps(ToLower(kv.key)) + ": " + kv.value + "\n"
  {
    var r := AttrLine(kv, width);
    if |kv.key| <= width {
      var pad := Spaces(width - |kv.key|);
      var key := WordCaps(ToLower(kv.key));
      assert r == pad + key + (": " + kv.value + "\n");
      assert r[..width - |kv.key|] == pad;
    }
  }

  function Spaces(n: nat): (r: string)
    ensures |r| == n && AllSpace(r)
  {
    seq(n, _ => ' ')
  }

  /** The longest key among the trailers, 0 for none. */
  function MaxKeyLen(attrs: seq<KeyVal>): (m: nat)
    ensures forall k | 0 <= k < |attrs| :: |attrs[k].key| <= m
    ensures attrs == [] ==> m == 0
    ensures attrs != [] ==> exists k | 0 <= k < |attrs| :: |attrs[k].key| == m
  {
    if attrs == [] then 0
    else
      var m := MaxKeyLen(attrs[..|attrs| - 1]);
      var l := |attrs[|attrs| - 1].key|;
      if l > m then l else m
  }

  function AttrLines(attrs: seq<KeyVal>, width: nat): (r: string)
  {
    if attrs == [] then []
    else AttrLines(attrs[..|attrs| - 1], width) + AttrLine(attrs[|attrs| - 1], width)
  }

  lemma MaxKeyLenUnique(attrs: seq<KeyVal>, m: nat)
    requires forall k | 0 <= k < |attrs| :: |attrs[k].key| <= m
    requires attrs == [] ==> m == 0
    requires attrs != [] ==> exists k | 0 <= k < |attrs| :: |attrs[k].key| == m
    ensures m == MaxKeyLen(attrs)
  {
    if attrs != [] {
      var k :| 0 <= k < |attrs| && |attrs[k].key| == m;
      var k' :| 0 <= k' < |attrs| && |attrs[k'].key| == MaxKeyLen(attrs);
    }
  }

  lemma AttrLinesSnoc(attrs: seq<KeyVal>, i: nat, width: nat)
    requires i < |attrs|
    ensures AttrLines(attrs[..i + 1], width) == AttrLines(attrs[..i], width) + AttrLine(attrs[i], width)
  {
    assert attrs[..i + 1][..i] == attrs[..i];
  }

  /** The loop of `FullMessage` that appends one aligned line per trailer
      to the builder `head`. */
  method WriteAttrs(head: string, attrs: seq<KeyVal>, width: nat) returns (b: string)
    ensures b == head + AttrLines(attrs, width)
  {
    b := head;
    var i := 0;
    while i < |attrs|
      invariant 0 <= i <= |attrs|
      invariant b == head + AttrLines(attrs[..i], width)
    {
      AttrLinesSnoc(attrs, i, width);
      b := b + AttrLine(attrs[i], width);
      i := i + 1;
    }
    assert attrs[..i] == attrs;
  }

  /** The message `FullMessage` returns for an already reordered trailer list. */
  function MessageText(title: string, message: string, attrs: seq<KeyVal>): (r: string)
    ensures Trimmed(r)
  {
    var text := title + "\n\n" + message + "\n\n" + AttrLines(attrs, MaxKeyLen(attrs));
    TrimSpaceTrimmed(text);
    TrimSpace(text)
  }

  class Commit {
    var hash: string
    var date: string
    var authorName: string
    var authorEmail: string
    var title: string
    var message: string
    var attrs: seq<KeyVal>
    var prNumber: int
    var skip: bool

    constructor (hash: string, date: string, authorName: string, authorEmail: string,
                 title: string, message: string, attrs: seq<KeyVal>)
      ensures this.hash == hash && this.date == date
      ensures this.authorName == authorName && this.authorEmail == authorEmail
      ensures this.title == title && this.message == message && this.attrs == attrs
      ensures prNumber == 0 && !skip
    {
      this.hash := hash;
      this.date := date;
      this.authorName := authorName;
      this.authorEmail := authorEmail;
      this.title := title;
      this.message := message;
      this.attrs := attrs;
      prNumber := 0;
      skip := false;
    }

    /** `ShortHash`: the first 8 characters of the hash; a shorter hash
        makes the slice panic, so callers must supply one. */
    function ShortHash(): (r: string)
      reads this
      requires |hash| >= 8
      ensures |r| == 8 && HasPrefix(hash, r)
    {
      hash[..8]
    }

    /** `GetAttr`: the value of the first trailer whose key is exactly
        `key`, "" if there is none. */
    function GetAttr(key: string): string
      reads this
    {
      Lookup(attrs, key)
    }

    function GetRemoteRef(): string
      reads this
    {
      GetAttr(KeyRemoteRef)
    }

    /** `String`: short hash, the remote ref in parentheses (or nothing),
        and the title, separated by single spaces. */
    function String(): (r: string)
      reads this
      requires |hash| >= 8
      ensures HasPrefix(r, hash[..8] + " ")
      ensures HasSuffix(r, " " + title)
      ensures GetRemoteRef() == "" ==> |r| == 10 + |title|
      ensures GetRemoteRef() != "" ==> r[9..] == "(" + GetRemoteRef() + ") " + title
    {
      var ref := GetRemoteRef();
      var shown := if ref != "" then "(" + ref + ")" else "";
      ShortHash() + " " + shown + " " + title
    }

    /** `GetTags`: the defaults followed by each non-empty trimmed piece of
        the comma-separated `tags` trailer. */
    method GetTags(defaults: seq<string>) returns (tags: seq<string>)
      ensures tags == TagsAsWritten(defaults, GetAttr(KeyTags))
    {
      tags := defaults;
      var rawTags := GetAttr(KeyTags);
      var pieces := Split(rawTags, ',');
      var i := 0;
      while i < |pieces|
        invariant 0 <= i <= |pieces|
        invariant tags == defaults + TagPieces(pieces[..i])
      {
        var tag := TrimSpace(pieces[i]);
        TagPiecesSnoc(pieces, i);
        if tag != "" {
          // The `continue` in this scan only moves it to the next element:
          // a tag already present is appended again.
          var k := 0;
          while k < |tags|
            invariant 0 <= k <= |tags|
          {
            k := k + 1;
          }
          assert defaults + TagPieces(pieces[..i]) + [tag] == defaults + (TagPieces(pieces[..i]) + [tag]);
          tags := tags + [tag];
        }
        i := i + 1;
      }
      assert pieces[..i] == pieces;
    }

    /** `SetAttr`: overwrites the first trailer with the key in place, or
        appends a new one and sorts the list by key. */
    method SetAttr(key: string, value: string)
      modifies this`attrs
      ensures attrs == WithAttr(old(attrs), key, value)
      ensures GetAttr(key) == value
    {
      WithAttrSpec(attrs, key, value);
      KeyIndexSpec(attrs, key);
      var i := 0;
      while i < |attrs|
        invariant 0 <= i <= |attrs| && attrs == old(attrs)
        invariant forall j | 0 <= j < i :: attrs[j].key != key
      {
        if attrs[i].key == key {
          attrs := attrs[i := KeyVal(key, value)];
          return;
        }
        i := i + 1;
      }
      attrs := SortAttrs(attrs + [KeyVal(key, value)], false);
    }

    /** `FullMessage`: sorts the trailers in place (ascending by key,
        `remote-ref` entries last) and renders title, message and the
        aligned trailer lines, trimmed. */
    method FullMessage() returns (r: string)
      modifies this`attrs
      ensures attrs == SortAttrs(old(attrs), true)
      ensures r == MessageText(title, message, attrs)
    {
      var b := title + "\n\n" + message + "\n\n";
      var sorted := SortAttrs(attrs, true);
      attrs := sorted;
      var maxL := MaxAttrsLength(sorted);
      MaxKeyLenUnique(sorted, maxL);
      b := WriteAttrs(b, sorted, maxL);
      r := TrimSpace(b);
    }
  }

  /** The `remote-ref` ordering `FullMessage` leaves behind: every other
      trailer comes first, ascending by key, and no entry is lost. */
  lemma FullMessageOrder(attrs: seq<KeyVal>)
    ensures var s := SortAttrs(attrs, true);
      multiset(s) == multiset(attrs) &&
      (forall i, j | 0 <= i < j < |s| :: !(s[i].key == KeyRemoteRef && s[j].key != KeyRemoteRef)) &&
      (forall i, j | 0 <= i < j < |s| && s[i].key != KeyRemoteRef && s[j].key != KeyRemoteRef ::
        !StrLess(s[j].key, s[i].key))
  {
    var s := SortAttrs(attrs, true);
    SortAttrsSpec(attrs, true);
    forall i, j | 0 <= i < j < |s| ensures !(s[i].key == KeyRemoteRef && s[j].key != KeyRemoteRef) {
      assert Le(s[i], s[j], true);
    }
    forall i, j | 0 <= i < j < |s| && s[i].key != KeyRemoteRef && s[j].key != KeyRemoteRef
      ensures !StrLess(s[j].key, s[i].key)
    {
      assert Le(s[i], s[j], true);
    }
  }

  /** `FindHash`: panics on a hash shorter than 8 characters; otherwise
      the index of the first commit whose hash starts with `hash`, -1 if
      none. */
  function FindHash(list: seq<Commit>, hash: string): (r: Result<int>)
    reads list
    ensures r.Err? <==> |hash| < 8
    ensures r.Ok? ==> -1 <= r.value < |list|
    ensures r.Ok? && r.value >= 0 ==>
      HasPrefix(list[r.value].hash, hash) && forall j | 0 <= j < r.value :: !HasPrefix(list[j].hash, hash)
    ensures r.Ok? && r.value == -1 ==> forall j | 0 <= j < |list| :: !HasPrefix(list[j].hash, hash)
  {
    if |hash| < 8 then Err("invalid hash") else Ok(FirstWithPrefix(list, hash))
  }

  function FirstWithPrefix(list: seq<Commit>, hash: string): (r: int)
    reads list
    ensures -1 <= r < |list|
    ensures r >= 0 ==>
      HasPrefix(list[r].hash, hash) && forall j | 0 <= j < r :: !HasPrefix(list[j].hash, hash)
    ensures r == -1 ==> forall j | 0 <= j < |list| :: !HasPrefix(list[j].hash, hash)
  {
    if list == [] then -1
    else if HasPrefix(list[0].hash, hash) then 0
    else
      var k := FirstWithPrefix(list[1..], hash);
      if k == -1 then -1 else k + 1
  }

  /** `ByHash`: the commit `FindHash` points at, `None` when it finds none. */
  function ByHash(list: seq<Commit>, hash: string): (r: Result<Option<Commit>>)
    reads list
    ensures r.Err? <==> FindHash(list, hash).Err?
    ensures r.Ok? ==> (r.value.None? <==> FindHash(list, hash).value == -1)
    ensures r.Ok? && r.value.Some? ==> r.value.value == list[FindHash(list, hash).value]
  {
    var found :- FindHash(list, hash);
    if found >= 0 then Ok(Some(list[found])) else Ok(None)
  }

  /** `LatestCommitByAuthor`: the first commit in the list with the given
      author email, `None` if there is none. */
  function LatestCommitByAuthor(list: seq<Commit>, email: string): (r: Option<Commit>)
    reads list
    ensures r.None? <==> forall j | 0 <= j < |list| :: list[j].authorEmail != email
    ensures r.Some? ==> exists i | 0 <= i < |list| ::
      list[i] == r.value && list[i].authorEmail == email && forall j | 0 <= j < i :: list[j].authorEmail != email
  {
    var k := FirstByEmail(list, email);
    if k >= 0 then Some(list[k]) else None
  }

  function FirstByEmail(list: seq<Commit>, email: string): (r: int)
    reads list
    ensures -1 <= r < |list|
    ensures r >= 0 ==>
      list[r].authorEmail == email && forall j | 0 <= j < r :: list[j].authorEmail != email
    ensures r == -1 ==> forall j | 0 <= j < |list| :: list[j].authorEmail != email
  {
    if list == [] then -1
    else if list[0].authorEmail == email then 0
    else
      var k := FirstByEmail(list[1..], email);
      if k == -1 then -1 else k + 1
  }
}
