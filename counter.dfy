/**
 * A plain JavaScript object used as a tally, `obj[k] = (obj[k] || 0) + 1`,
 * as both `/api/popular-searches` and `/api/stats` use one: its own keys in
 * the order they were created, each mapped to a count, and the order in which
 * `Object.entries` lists them.
 */
module Counter {

  import opened JsNumber
  import opened JsArray

  /** One `{ query, count }` pair. */
  datatype Entry = Entry(query: string, count: nat)

  /** An object's own keys, in creation order, and the value stored under each. */
  datatype Counter = Counter(keys: seq<string>, counts: map<string, nat>) {
    ghost predicate Valid() {
      Distinct(keys) && forall k :: k in counts <==> k in keys
    }
  }

  const Empty := Counter([], map[])

  /** `obj[k] = (obj[k] || 0) + 1`: a key seen for the first time is created after the others. */
  function Bump(c: Counter, k: string): Counter {
    if k in c.counts then Counter(c.keys, c.counts[k := c.counts[k] + 1])
    else Counter(c.keys + [k], c.counts[k := 1])
  }

  /** The object after bumping every element of `qs`, from left to right. */
  function Tally(qs: seq<string>): (c: Counter)
    ensures c.Valid()
    ensures forall k :: k in c.counts <==> k in qs
    ensures forall k :: k in c.counts ==> c.counts[k] == multiset(qs)[k]
  {
    if qs == [] then Empty
    else
      var init := qs[..|qs| - 1];
      var last := qs[|qs| - 1];
      var c := Tally(init);
      assert qs == init + [last];
      assert Distinct(Bump(c, last).keys) by {
        if last !in c.counts {
          assert last !in c.keys;
        }
      }
      Bump(c, last)
  }

  /** Every key of a tally has been counted at least once. */
  lemma TallyPositive(qs: seq<string>)
    ensures forall k :: k in Tally(qs).counts ==> Tally(qs).counts[k] >= 1
  {
    forall k | k in Tally(qs).counts ensures Tally(qs).counts[k] >= 1 {
      assert k in multiset(qs);
    }
  }

  /** The sum of the values stored under `keys`. */
  function SumOver(keys: seq<string>, counts: map<string, nat>): nat {
    if keys == [] then 0
    else (if keys[0] in counts then counts[keys[0]] else 0) + SumOver(keys[1..], counts)
  }

  lemma {:induction false} SumOverAppend(keys: seq<string>, k: string, counts: map<string, nat>)
    ensures SumOver(keys + [k], counts) == SumOver(keys, counts) + (if k in counts then counts[k] else 0)
  {
    if keys != [] {
      assert (keys + [k])[1..] == keys[1..] + [k];
      SumOverAppend(keys[1..], k, counts);
    }
  }

  /** Changing the value under a key that is not listed does not change the sum. */
  lemma {:induction false} SumOverOtherKey(keys: seq<string>, k: string, v: nat, counts: map<string, nat>)
    requires k !in keys
    ensures SumOver(keys, counts[k := v]) == SumOver(keys, counts)
  {
    if keys != [] {
      SumOverOtherKey(keys[1..], k, v, counts);
    }
  }

  /** Adding one under a key listed once adds one to the sum. */
  lemma {:induction false} SumOverIncrement(keys: seq<string>, k: string, counts: map<string, nat>)
    requires Distinct(keys) && k in keys && k in counts
    ensures SumOver(keys, counts[k := counts[k] + 1]) == SumOver(keys, counts) + 1
  {
    if keys[0] == k {
      assert k !in keys[1..] by {
        forall i | 0 <= i < |keys[1..]| ensures keys[1..][i] != k {
          assert keys[1..][i] == keys[i + 1];
        }
      }
      SumOverOtherKey(keys[1..], k, counts[k] + 1, counts);
    } else {
      assert k in keys[1..] by {
        var i :| 0 <= i < |keys| && keys[i] == k;
        assert keys[1..][i - 1] == k;
      }
      assert Distinct(keys[1..]) by {
        forall i, j | 0 <= i < j < |keys[1..]| ensures keys[1..][i] != keys[1..][j] {
          assert keys[1..][i] == keys[i + 1] && keys[1..][j] == keys[j + 1];
        }
      }
      SumOverIncrement(keys[1..], k, counts);
    }
  }

  /** The counts of a tally add up to the number of elements counted. */
  lemma {:induction false} TallySum(qs: seq<string>)
    ensures SumOver(Tally(qs).keys, Tally(qs).counts) == |qs|
  {
    if qs != [] {
      var init := qs[..|qs| - 1];
      var last := qs[|qs| - 1];
      var c := Tally(init);
      TallySum(init);
      if last in c.counts {
        SumOverIncrement(c.keys, last, c.counts);
      } else {
        SumOverAppend(c.keys, last, c.counts[last := 1]);
        SumOverOtherKey(c.keys, last, 1, c.counts);
      }
    }
  }

  /** `Object.entries(obj)` restricted to `keys`, in that order, as `{ query, count }` pairs. */
  function Entries(c: Counter, keys: seq<string>): (es: seq<Entry>)
    ensures |es| == |keys|
    ensures forall i :: 0 <= i < |keys| ==> es[i].query == keys[i]
  {
    seq(|keys|, i requires 0 <= i < |keys| => Entry(keys[i], if keys[i] in c.counts then c.counts[keys[i]] else 0))
  }

  /** The sum of the counts of a list of pairs. */
  function SumCounts(es: seq<Entry>): nat {
    if es == [] then 0 else es[0].count + SumCounts(es[1..])
  }

  lemma {:induction false} SumCountsOfEntries(c: Counter, keys: seq<string>)
    ensures SumCounts(Entries(c, keys)) == SumOver(keys, c.counts)
  {
    if keys != [] {
      assert Entries(c, keys)[1..] == Entries(c, keys[1..]);
      SumCountsOfEntries(c, keys[1..]);
    }
  }

  lemma {:induction false} SumCountsAppend(a: seq<Entry>, b: seq<Entry>)
    ensures SumCounts(a + b) == SumCounts(a) + SumCounts(b)
  {
    if a == [] {
      assert a + b == b;
    } else {
      assert (a + b)[1..] == a[1..] + b;
      SumCountsAppend(a[1..], b);
    }
  }

  /** Where `b` holds the first element of `a`, when both hold the same elements. */
  lemma FindFirst(a: seq<Entry>, b: seq<Entry>) returns (j: nat)
    requires multiset(a) == multiset(b) && a != []
    ensures j < |b| && b[j] == a[0]
  {
    assert a[0] in multiset(b) by { assert a[0] in multiset(a); }
    j :| 0 <= j < |b| && b[j] == a[0];
  }

  /** Taking that element out of both leaves them holding the same elements. */
  lemma RemoveFirst(a: seq<Entry>, b: seq<Entry>, j: nat)
    requires multiset(a) == multiset(b) && a != [] && j < |b| && b[j] == a[0]
    ensures multiset(a[1..]) == multiset(b[..j] + b[j + 1..])
  {
    assert b == b[..j] + [b[j]] + b[j + 1..];
    assert multiset(b[..j] + b[j + 1..]) == multiset(b) - multiset{b[j]};
    assert a == [a[0]] + a[1..];
    assert multiset(a[1..]) == multiset(a) - multiset{a[0]};
  }

  lemma SumCountsAt(b: seq<Entry>, j: nat)
    requires j < |b|
    ensures SumCounts(b) == b[j].count + SumCounts(b[..j] + b[j + 1..])
  {
    assert b == b[..j] + ([b[j]] + b[j + 1..]);
    SumCountsAppend(b[..j], [b[j]] + b[j + 1..]);
    SumCountsAppend(b[..j], b[j + 1..]);
    assert ([b[j]] + b[j + 1..])[1..] == b[j + 1..];
  }

  /** Reordering a list of pairs does not change the sum of its counts. */
  lemma {:induction false} SumCountsReorder(a: seq<Entry>, b: seq<Entry>)
    requires multiset(a) == multiset(b)
    ensures SumCounts(a) == SumCounts(b)
    decreases |a|
  {
    if a == [] {
      assert |b| == |multiset(b)| == 0;
    } else {
      var j := FindFirst(a, b);
      RemoveFirst(a, b, j);
      SumCountsReorder(a[1..], b[..j] + b[j + 1..]);
      SumCountsAt(b, j);
    }
  }

  /**
   * The keys `Object.entries` lists first: canonical decimal numbers below
   * 2^32 - 1 (the array indices of ECMAScript).
   */
  predicate IsArrayIndex(k: string) {
    && |k| >= 1
    && (forall i :: 0 <= i < |k| ==> IsDecimalDigit(k[i]))
    && (k[0] != '0' || |k| == 1)
    && DigitsValue(k, 10) < 0x1_0000_0000 - 1
  }

  /**
   * `Object.entries(obj)`: array-index keys in ascending numeric order, then
   * every other key in creation order.
   */
  function ObjectEntries(c: Counter): (es: seq<Entry>)
    ensures multiset(es) == multiset(Entries(c, c.keys))
  {
    var all := Entries(c, c.keys);
    var indexed := Filter(all, (e: Entry) => IsArrayIndex(e.query));
    var named := Filter(all, (e: Entry) => !IsArrayIndex(e.query));
    var es := SortBy(indexed, (e: Entry) => DigitsValue(e.query, 10)) + named;
    assert multiset(es) == multiset(all) by {
      forall e ensures multiset(es)[e] == multiset(all)[e] {
      }
    }
    es
  }

  /**
   * `Object.entries(obj).map(...).sort((a, b) => b.count - a.count)`: every
   * pair of the object, ordered by count from the largest down, ties left in
   * the order `Object.entries` gave them.
   */
  function Ranking(c: Counter): (es: seq<Entry>)
    ensures multiset(es) == multiset(Entries(c, c.keys))
    ensures forall i, j :: 0 <= i < j < |es| ==> es[i].count >= es[j].count
  {
    var r := SortBy(ObjectEntries(c), (e: Entry) => -(e.count as int));
    assert SortedBy(r, (e: Entry) => -(e.count as int));
    r
  }

  /** Ranking an object's pairs does not change the sum of its counts. */
  lemma RankingSum(c: Counter)
    ensures SumCounts(Ranking(c)) == SumOver(c.keys, c.counts)
  {
    SumCountsReorder(Ranking(c), Entries(c, c.keys));
    SumCountsOfEntries(c, c.keys);
  }

  /** Where the ranking of a valid object lists the key `k`. */
  lemma RankingIndexOf(c: Counter, k: string) returns (b: nat)
    requires c.Valid() && k in c.counts
    ensures b < |Ranking(c)| && Ranking(c)[b].query == k
  {
    var all := Entries(c, c.keys);
    var r := Ranking(c);
    var i :| 0 <= i < |c.keys| && c.keys[i] == k;
    assert all[i] in multiset(all);
    b := IndexOfMember(r, all[i]);
  }

  lemma EntriesOfValid(c: Counter)
    requires c.Valid()
    ensures Distinct(Entries(c, c.keys))
    ensures forall e :: e in Entries(c, c.keys) ==> e.query in c.counts && e.count == c.counts[e.query]
  {
    var all := Entries(c, c.keys);
    forall i, j | 0 <= i < j < |all| ensures all[i] != all[j] {
      assert all[i].query == c.keys[i] && all[j].query == c.keys[j];
    }
  }

  /** What the ranked pairs of a valid object are: one per key, each with the value stored under it. */
  lemma RankingEntries(c: Counter)
    requires c.Valid()
    ensures forall e :: e in Ranking(c) ==> e.query in c.counts && e.count == c.counts[e.query]
    ensures forall i, j :: 0 <= i < j < |Ranking(c)| ==> Ranking(c)[i].query != Ranking(c)[j].query
    ensures |Ranking(c)| == |c.keys|
  {
    var all := Entries(c, c.keys);
    var r := Ranking(c);
    EntriesOfValid(c);
    forall e | e in r ensures e in all {
      assert e in multiset(r);
    }
    DistinctIffSingleOccurrences(all);
    DistinctIffSingleOccurrences(r);
    forall i, j | 0 <= i < j < |r| ensures r[i].query != r[j].query {
      assert r[i] in r && r[j] in r;
    }
    assert |r| == |multiset(r)| == |multiset(all)| == |all|;
  }
}
