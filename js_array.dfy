/**
 * The array operations of JavaScript that the core uses: `slice(0, end)`,
 * `filter`, and the stable `sort` that ECMAScript 2019 and later require.
 */
module JsArray {

  import opened JsNumber

  /**
   * Where `a.slice(0, end)` stops on an array of length `len`: NaN counts as
   * 0, a negative end counts back from the length (and stops at 0), and an
   * end past the length stops at the length.
   */
  function SliceEnd(len: nat, end: JsInt): (k: nat)
    ensures k <= len
  {
    match end
    case NaN => 0
    case Int(e) =>
      if e < 0 then (if len + e > 0 then len + e else 0)
      else if e < len then e else len
  }

  /** `s.slice(0, end)`. */
  function Slice<T>(s: seq<T>, end: JsInt): (r: seq<T>)
    ensures r <= s && |r| == SliceEnd(|s|, end)
  {
    s[..SliceEnd(|s|, end)]
  }

  /** `s.filter(p)`: the elements that satisfy `p`, in their order in `s`. */
  function Filter<T(!new)>(s: seq<T>, p: T -> bool): (r: seq<T>)
    ensures |r| <= |s|
    ensures forall x :: x in r ==> x in s && p(x)
    ensures forall x :: multiset(r)[x] == if p(x) then multiset(s)[x] else 0
  {
    if s == [] then []
    else
      assert s == [s[0]] + s[1..];
      (if p(s[0]) then [s[0]] else []) + Filter(s[1..], p)
  }

  /** A solver hint: concatenation is associative. */
  lemma AppendAssoc<T>(a: seq<T>, b: seq<T>, c: seq<T>)
    ensures (a + b) + c == a + (b + c)
  {
  }

  /** No element occurs twice. */
  predicate Distinct<T(==)>(s: seq<T>) {
    forall i, j :: 0 <= i < j < |s| ==> s[i] != s[j]
  }

  /** An element found at two positions occurs at least twice. */
  lemma TwoPositions<T>(s: seq<T>, i: nat, j: nat)
    requires i < j < |s| && s[i] == s[j]
    ensures multiset(s)[s[i]] >= 2
  {
    assert s == s[..j] + s[j..];
    assert s[i] in s[..j] && s[j] in s[j..];
    assert multiset(s)[s[i]] == multiset(s[..j])[s[i]] + multiset(s[j..])[s[i]];
  }

  lemma {:induction false} DistinctSingle<T>(s: seq<T>)
    requires Distinct(s)
    ensures forall x :: multiset(s)[x] <= 1
  {
    if s != [] {
      assert Distinct(s[1..]) by {
        forall i, j | 0 <= i < j < |s[1..]| ensures s[1..][i] != s[1..][j] {
          assert s[1..][i] == s[i + 1] && s[1..][j] == s[j + 1];
        }
      }
      DistinctSingle(s[1..]);
      assert s[0] !in s[1..];
      assert s == [s[0]] + s[1..];
    }
  }

  /** A sequence has no repeated element exactly when no element occurs more than once in its multiset. */
  lemma DistinctIffSingleOccurrences<T>(s: seq<T>)
    ensures Distinct(s) <==> forall x :: multiset(s)[x] <= 1
  {
    if Distinct(s) {
      DistinctSingle(s);
    } else {
      var i, j :| 0 <= i < j < |s| && s[i] == s[j];
      TwoPositions(s, i, j);
    }
  }

  /** Where an element of `s` sits in `s`. */
  lemma IndexOf<T>(s: seq<T>, x: T) returns (i: nat)
    requires x in s
    ensures i < |s| && s[i] == x
  {
    i :| 0 <= i < |s| && s[i] == x;
  }

  /** Where an element of the multiset of `s` sits in `s`. */
  lemma IndexOfMember<T>(s: seq<T>, x: T) returns (i: nat)
    requires x in multiset(s)
    ensures i < |s| && s[i] == x
  {
    assert x in s;
    i :| 0 <= i < |s| && s[i] == x;
  }

  /** The keys of `s` do not decrease from left to right. */
  predicate SortedBy<T>(s: seq<T>, key: T -> int) {
    forall i, j :: 0 <= i < j < |s| ==> key(s[i]) <= key(s[j])
  }

  /**
   * `x` put into `s` before the first element whose key is not smaller:
   * into a sorted `s`, this keeps it sorted, and `x` comes before the
   * elements with an equal key.
   */
  function Insert<T>(x: T, s: seq<T>, key: T -> int): (r: seq<T>)
    ensures multiset(r) == multiset(s) + multiset{x}
    ensures forall y :: y in r ==> y == x || y in s
  {
    if s == [] || key(x) <= key(s[0]) then [x] + s
    else
      assert s == [s[0]] + s[1..];
      [s[0]] + Insert(x, s[1..], key)
  }

  /** A head whose key is at most every key of a sorted tail gives a sorted sequence. */
  lemma ConsSorted<T>(h: T, t: seq<T>, key: T -> int)
    requires SortedBy(t, key)
    requires forall y :: y in t ==> key(h) <= key(y)
    ensures SortedBy([h] + t, key)
  {
    var r := [h] + t;
    forall i, j | 0 <= i < j < |r| ensures key(r[i]) <= key(r[j]) {
      assert r[j] == t[j - 1];
      if i > 0 {
        assert r[i] == t[i - 1];
      }
    }
  }

  /** In a sorted sequence, the head's key is at most every key of the tail. */
  lemma HeadBelowTail<T>(s: seq<T>, key: T -> int)
    requires SortedBy(s, key) && s != []
    ensures forall y :: y in s[1..] ==> key(s[0]) <= key(y)
  {
    forall y | y in s[1..] ensures key(s[0]) <= key(y) {
      var k :| 0 <= k < |s[1..]| && s[1..][k] == y;
      assert y == s[k + 1];
    }
  }

  lemma {:induction false} InsertKeepsSorted<T>(x: T, s: seq<T>, key: T -> int)
    requires SortedBy(s, key)
    ensures SortedBy(Insert(x, s, key), key)
  {
    if s == [] || key(x) <= key(s[0]) {
      if s != [] {
        HeadBelowTail(s, key);
        assert s == [s[0]] + s[1..];
      }
      ConsSorted(x, s, key);
    } else {
      var tail := Insert(x, s[1..], key);
      InsertKeepsSorted(x, s[1..], key);
      HeadBelowTail(s, key);
      ConsSorted(s[0], tail, key);
    }
  }

  /**
   * `s.sort((a, b) => key(a) - key(b))`: sorted by key, and stable, since
   * every element is inserted before the later elements with an equal key.
   */
  function SortBy<T>(s: seq<T>, key: T -> int): (r: seq<T>)
    ensures multiset(r) == multiset(s)
    ensures SortedBy(r, key)
  {
    if s == [] then []
    else
      assert s == [s[0]] + s[1..];
      InsertKeepsSorted(s[0], SortBy(s[1..], key), key);
      Insert(s[0], SortBy(s[1..], key), key)
  }
}
