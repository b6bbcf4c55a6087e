/** types.go: the `KeyVal` trailer pair, the first-match lookup behind
    `GetAttr`, and the two orders `SetAttr` and `FullMessage` sort by. */
module KeyVals {
  import opened Strs

  /** `KeyVal [2]string`: one trailer, key first. */
  datatype KeyVal = KeyVal(key: string, value: string)

  const KeyTags := "tags"
  const KeyRemoteRef := "remote-ref"

  /** The value of the first entry whose key is exactly `key`, "" if none. */
  function Lookup(attrs: seq<KeyVal>, key: string): string
  {
    if attrs == [] then ""
    else if attrs[0].key == key then attrs[0].value
    else Lookup(attrs[1..], key)
  }

  /** Index of the first entry whose key is exactly `key`, -1 if none. */
  function KeyIndex(attrs: seq<KeyVal>, key: string): (r: int)
    ensures -1 <= r < |attrs|
  {
    if attrs == [] then -1
    else if attrs[0].key == key then 0
    else
      var k := KeyIndex(attrs[1..], key);
      if k == -1 then -1 else k + 1
  }

  /** `KeyIndex` is -1 exactly when no entry has the key, and otherwise
      the first entry that has it. */
  lemma {:induction false} KeyIndexSpec(attrs: seq<KeyVal>, key: string)
    ensures KeyIndex(attrs, key) == -1 <==> forall j | 0 <= j < |attrs| :: attrs[j].key != key
    ensures KeyIndex(attrs, key) >= 0 ==>
      attrs[KeyIndex(attrs, key)].key == key && forall j | 0 <= j < KeyIndex(attrs, key) :: attrs[j].key != key
  {
    if attrs != [] && attrs[0].key != key {
      KeyIndexSpec(attrs[1..], key);
      forall j | 1 <= j < |attrs| ensures attrs[j] == attrs[1..][j - 1] { }
    }
  }

  /** A lookup returns the value of the entry `KeyIndex` finds, "" if none. */
  lemma {:induction false} LookupFirst(attrs: seq<KeyVal>, key: string)
    ensures Lookup(attrs, key) == if KeyIndex(attrs, key) < 0 then "" else attrs[KeyIndex(attrs, key)].value
  {
    if attrs != [] && attrs[0].key != key {
      LookupFirst(attrs[1..], key);
    }
  }

  /** Go's `<` on strings: byte order, which on well-formed UTF-8 is the
      order of code points, compared lexicographically. */
  predicate StrLess(a: string, b: string)
  {
    if a == [] then b != []
    else if b == [] then false
    else if a[0] != b[0] then a[0] < b[0]
    else StrLess(a[1..], b[1..])
  }

  lemma StrLessIrreflexive(a: string)
    ensures !StrLess(a, a)
  {
  }

  lemma {:induction false} StrLessTotal(a: string, b: string)
    ensures StrLess(a, b) || StrLess(b, a) || a == b
  {
    if a != [] && b != [] && a[0] == b[0] {
      StrLessTotal(a[1..], b[1..]);
      assert a == [a[0]] + a[1..] && b == [b[0]] + b[1..];
    }
  }

  lemma {:induction false} StrLessTransitive(a: string, b: string, c: string)
    requires StrLess(a, b) && StrLess(b, c)
    ensures StrLess(a, c)
  {
    if a != [] && b != [] && c != [] && a[0] == b[0] && b[0] == c[0] {
      StrLessTransitive(a[1..], b[1..], c[1..]);
    }
  }

  /** The position of an entry in a sort: `remoteRefLast` puts remote-ref
      entries in a group after all others (the `FullMessage` comparator);
      otherwise every entry is in one group (the `SetAttr` comparator). */
  function Group(kv: KeyVal, remoteRefLast: bool): int
  {
    if remoteRefLast && kv.key == KeyRemoteRef then 1 else 0
  }

  predicate Less(a: KeyVal, b: KeyVal, remoteRefLast: bool)
  {
    Group(a, remoteRefLast) < Group(b, remoteRefLast) ||
    (Group(a, remoteRefLast) == Group(b, remoteRefLast) && StrLess(a.key, b.key))
  }

  /** The comparator of `FullMessage` (types.go:98-106), written as the source does. */
  predicate FullMessageLess(a: KeyVal, b: KeyVal)
  {
    if a.key == KeyRemoteRef then false
    else if b.key == KeyRemoteRef then true
    else StrLess(a.key, b.key)
  }

  lemma FullMessageLessIsGroupOrder(a: KeyVal, b: KeyVal)
    ensures FullMessageLess(a, b) == Less(a, b, true)
  {
    if a.key == KeyRemoteRef && b.key == KeyRemoteRef {
      StrLessIrreflexive(a.key);
    }
  }

  predicate Le(a: KeyVal, b: KeyVal, remoteRefLast: bool)
  {
    !Less(b, a, remoteRefLast)
  }

  lemma LeTotal(a: KeyVal, b: KeyVal, rrl: bool)
    ensures Le(a, b, rrl) || Le(b, a, rrl)
  {
    if Less(a, b, rrl) && Less(b, a, rrl) {
      StrLessTransitive(a.key, b.key, a.key);
      StrLessIrreflexive(a.key);
    }
  }

  lemma LeTransitive(a: KeyVal, b: KeyVal, c: KeyVal, rrl: bool)
    requires Le(a, b, rrl) && Le(b, c, rrl)
    ensures Le(a, c, rrl)
  {
    if Less(c, a, rrl) {
      StrLessTotal(a.key, b.key);
      StrLessTotal(b.key, c.key);
      if Group(a, rrl) == Group(b, rrl) == Group(c, rrl) {
        if StrLess(c.key, b.key) {
        } else if c.key == b.key {
        } else {
          assert StrLess(b.key, c.key);
          if StrLess(b.key, a.key) { StrLessTransitive(b.key, a.key, b.key); StrLessIrreflexive(b.key); }
          else if b.key == a.key { StrLessTransitive(b.key, c.key, b.key); StrLessIrreflexive(b.key); }
          else { StrLessTransitive(c.key, a.key, b.key); }
        }
      }
    }
  }

  predicate Sorted(s: seq<KeyVal>, rrl: bool)
  {
    forall i, j | 0 <= i < j < |s| :: Le(s[i], s[j], rrl)
  }

  /** Inserts `x` before the first entry it does not follow, so that it
      stays ahead of the entries it ties with. */
  function Insert(x: KeyVal, s: seq<KeyVal>, rrl: bool): (r: seq<KeyVal>)
    ensures multiset(r) == multiset(s) + multiset{x}
    ensures |r| == |s| + 1
  {
    if s == [] then [x]
    else if Le(x, s[0], rrl) then [x] + s
    else
      assert s == [s[0]] + s[1..];
      [s[0]] + Insert(x, s[1..], rrl)
  }

  lemma {:induction false} InsertSorted(x: KeyVal, s: seq<KeyVal>, rrl: bool)
    requires Sorted(s, rrl)
    ensures Sorted(Insert(x, s, rrl), rrl)
  {
    if s == [] {
    } else if Le(x, s[0], rrl) {
      var r := [x] + s;
      forall i, j | 0 <= i < j < |r| ensures Le(r[i], r[j], rrl) {
        if i == 0 && j > 1 {
          LeTransitive(x, s[0], s[j - 1], rrl);
        }
      }
    } else {
      InsertSorted(x, s[1..], rrl);
      var t := Insert(x, s[1..], rrl);
      var r := [s[0]] + t;
      LeTotal(x, s[0], rrl);
      forall i, j | 0 <= i < j < |r| ensures Le(r[i], r[j], rrl) {
        if i == 0 {
          assert r[j] in multiset(t);
          assert r[j] in multiset(s[1..]) || r[j] == x;
          if r[j] != x {
            var k :| 0 <= k < |s[1..]| && s[1..][k] == r[j];
            assert Le(s[0], s[k + 1], rrl);
          }
        }
      }
    }
  }

  /** The stable insertion sort the model uses for `sort.Slice` (the
      insertion sort Go's sort package runs on short slices). */
  function SortAttrs(s: seq<KeyVal>, rrl: bool): (r: seq<KeyVal>)
    ensures |r| == |s|
  {
    if s == [] then [] else Insert(s[0], SortAttrs(s[1..], rrl), rrl)
  }

  /** The sort yields an ordered permutation of its input. */
  lemma {:induction false} SortAttrsSpec(s: seq<KeyVal>, rrl: bool)
    ensures Sorted(SortAttrs(s, rrl), rrl)
    ensures multiset(SortAttrs(s, rrl)) == multiset(s)
  {
    if s != [] {
      SortAttrsSpec(s[1..], rrl);
      InsertSorted(s[0], SortAttrs(s[1..], rrl), rrl);
      assert s == [s[0]] + s[1..];
    }
  }

  /** Sorting an ordered sequence leaves it as it is, so sorting twice is
      sorting once. */
  lemma {:induction false} SortAttrsSorted(s: seq<KeyVal>, rrl: bool)
    requires Sorted(s, rrl)
    ensures SortAttrs(s, rrl) == s
  {
    if s != [] {
      assert Sorted(s[1..], rrl) by {
        forall i, j | 0 <= i < j < |s[1..]| ensures Le(s[1..][i], s[1..][j], rrl) {
          assert s[1..][i] == s[i + 1] && s[1..][j] == s[j + 1];
        }
      }
      SortAttrsSorted(s[1..], rrl);
      if |s| > 1 {
        assert Le(s[0], s[1..][0], rrl);
      }
      assert s == [s[0]] + s[1..];
    }
  }

  lemma SortAttrsIdempotent(s: seq<KeyVal>, rrl: bool)
    ensures SortAttrs(SortAttrs(s, rrl), rrl) == SortAttrs(s, rrl)
  {
    SortAttrsSpec(s, rrl);
    SortAttrsSorted(SortAttrs(s, rrl), rrl);
  }
}
