/** `sorted(items, key=..., reverse=True)`: a stable sort into non-increasing
    key order, as the three rankers of the news core use it. */
module Ranking {
  import opened Common
  import opened Text
  import opened News

  /** The two sort keys of the source: the impact score alone, and the pair
      (impact score, raw timestamp string) compared lexicographically. */
  datatype SortKey = ByScore | ByScoreThenTimestamp

  /** key(a) <= key(b) under Python's comparison of the key values. */
  predicate KeyLe(key: SortKey, a: NewsItem, b: NewsItem) {
    match key
    case ByScore => a.impactScore <= b.impactScore
    case ByScoreThenTimestamp =>
      a.impactScore < b.impactScore
      || (a.impactScore == b.impactScore && StrLe(a.timestamp, b.timestamp))
  }

  predicate SameKey(key: SortKey, a: NewsItem, b: NewsItem) {
    KeyLe(key, a, b) && KeyLe(key, b, a)
  }

  lemma KeyLeTotal(key: SortKey, a: NewsItem, b: NewsItem)
    ensures KeyLe(key, a, b) || KeyLe(key, b, a)
  {
    StrLeTotal(a.timestamp, b.timestamp);
  }

  lemma KeyLeTrans(key: SortKey, a: NewsItem, b: NewsItem, c: NewsItem)
    requires KeyLe(key, a, b) && KeyLe(key, b, c)
    ensures KeyLe(key, a, c)
  {
    if key == ByScoreThenTimestamp && a.impactScore == b.impactScore == c.impactScore {
      StrLeTrans(a.timestamp, b.timestamp, c.timestamp);
    }
  }

  /** Non-increasing in the key: no later element has a larger key. */
  predicate SortedDesc(key: SortKey, s: seq<NewsItem>) {
    forall i, j :: 0 <= i < j < |s| ==> KeyLe(key, s[j], s[i])
  }

  /** Inserts `x`, which came before every element of `s` in the input,
      ahead of the first element whose key is not larger than its own. */
  function Insert(key: SortKey, x: NewsItem, s: seq<NewsItem>): seq<NewsItem>
    decreases |s|
  {
    if s == [] || KeyLe(key, s[0], x) then [x] + s
    else [s[0]] + Insert(key, x, s[1..])
  }

  function SortDesc(key: SortKey, s: seq<NewsItem>): seq<NewsItem>
    decreases |s|
  {
    if s == [] then [] else Insert(key, s[0], SortDesc(key, s[1..]))
  }

  lemma {:induction false} InsertSpec(key: SortKey, x: NewsItem, s: seq<NewsItem>)
    requires SortedDesc(key, s)
    ensures SortedDesc(key, Insert(key, x, s))
    ensures multiset(Insert(key, x, s)) == multiset(s) + multiset{x}
    decreases |s|
  {
    if s == [] || KeyLe(key, s[0], x) {
      var r := [x] + s;
      forall i, j | 0 <= i < j < |r| ensures KeyLe(key, r[j], r[i]) {
        if i == 0 && j > 1 {
          KeyLeTrans(key, r[j], s[0], x);
        }
      }
    } else {
      KeyLeTotal(key, s[0], x);
      InsertSpec(key, x, s[1..]);
      var t := Insert(key, x, s[1..]);
      var r := [s[0]] + t;
      assert s == [s[0]] + s[1..];
      forall j | 0 <= j < |t| ensures KeyLe(key, t[j], s[0]) {
        assert t[j] in multiset(s[1..]) + multiset{x};
        if t[j] != x {
          assert t[j] in s[1..];
        }
      }
    }
  }

  /** The ranking is sorted and is a permutation of its input. */
  lemma {:induction false} SortDescSpec(key: SortKey, s: seq<NewsItem>)
    ensures SortedDesc(key, SortDesc(key, s))
    ensures multiset(SortDesc(key, s)) == multiset(s)
    ensures |SortDesc(key, s)| == |s|
    decreases |s|
  {
    if s != [] {
      SortDescSpec(key, s[1..]);
      InsertSpec(key, s[0], SortDesc(key, s[1..]));
      assert s == [s[0]] + s[1..];
    }
    assert |SortDesc(key, s)| == |multiset(SortDesc(key, s))|;
  }

  /** The items whose key equals that of `z`, in the order they have in `s`. */
  function KeyClass(key: SortKey, s: seq<NewsItem>, z: NewsItem): (r: seq<NewsItem>)
    decreases |s|
  {
    if s == [] then []
    else (if SameKey(key, s[0], z) then [s[0]] else []) + KeyClass(key, s[1..], z)
  }

  lemma {:induction false} InsertKeyClass(key: SortKey, x: NewsItem, s: seq<NewsItem>, z: NewsItem)
    ensures KeyClass(key, Insert(key, x, s), z)
         == (if SameKey(key, x, z) then [x] else []) + KeyClass(key, s, z)
    decreases |s|
  {
    if s == [] || KeyLe(key, s[0], x) {
      assert ([x] + s)[1..] == s;
    } else {
      var t := Insert(key, x, s[1..]);
      assert ([s[0]] + t)[1..] == t;
      InsertKeyClass(key, x, s[1..], z);
      if SameKey(key, x, z) && SameKey(key, s[0], z) {
        KeyLeTrans(key, s[0], z, x);
      }
    }
  }

  /** Stability: items with equal keys keep their input order. */
  lemma {:induction false} SortDescStable(key: SortKey, s: seq<NewsItem>, z: NewsItem)
    ensures KeyClass(key, SortDesc(key, s), z) == KeyClass(key, s, z)
    decreases |s|
  {
    if s != [] {
      SortDescStable(key, s[1..], z);
      InsertKeyClass(key, s[0], SortDesc(key, s[1..]), z);
    }
  }

  /** No two records of `s` share a URL. */
  predicate DistinctUrls(s: seq<NewsItem>) {
    forall i, j :: 0 <= i < j < |s| ==> s[i].url != s[j].url
  }

  /** A value that occurs twice in a sequence sits at two positions. */
  lemma {:induction false} TwoCopies<T>(s: seq<T>, x: T)
    requires multiset(s)[x] >= 2
    ensures exists p, q :: 0 <= p < q < |s| && s[p] == x && s[q] == x
    decreases |s|
  {
    var n := |s| - 1;
    var init := s[..n];
    assert s == init + [s[n]];
    if s[n] == x {
      assert x in multiset(init);
      var p :| 0 <= p < |init| && init[p] == x;
      assert s[p] == x;
    } else {
      TwoCopies(init, x);
      var p, q :| 0 <= p < q < |init| && init[p] == x && init[q] == x;
      assert s[p] == x && s[q] == x;
    }
  }

  /** Two positions holding the same value count twice. */
  lemma TwoPositions<T>(s: seq<T>, p: int, q: int)
    requires 0 <= p < q < |s| && s[p] == s[q]
    ensures multiset(s)[s[p]] >= 2
  {
    assert s == s[..p] + [s[p]] + s[p + 1..];
    assert s[q] in s[p + 1..] by {
      assert s[p + 1..][q - p - 1] == s[q];
    }
  }

  /** Rearranging records keeps their URLs distinct. */
  lemma DistinctUrlsPermutation(a: seq<NewsItem>, b: seq<NewsItem>)
    requires DistinctUrls(a) && multiset(a) == multiset(b)
    ensures DistinctUrls(b)
  {
    forall i, j | 0 <= i < j < |b| ensures b[i].url != b[j].url {
      if b[i] == b[j] {
        TwoPositions(b, i, j);
        TwoCopies(a, b[i]);
      } else {
        assert b[i] in multiset(a) && b[j] in multiset(a);
        var p :| 0 <= p < |a| && a[p] == b[i];
        var q :| 0 <= q < |a| && a[q] == b[j];
        assert p != q;
        if p < q { assert a[p].url != a[q].url; } else { assert a[q].url != a[p].url; }
      }
    }
  }

  /** Deleting records keeps their URLs distinct. */
  lemma {:induction false} SubseqDistinctUrls(a: seq<NewsItem>, b: seq<NewsItem>)
    requires IsSubseq(a, b) && DistinctUrls(b)
    ensures DistinctUrls(a)
    decreases |b|
  {
    if a != [] && b != [] {
      var a', b' := a[..|a| - 1], b[..|b| - 1];
      assert DistinctUrls(b') by {
        forall i, j | 0 <= i < j < |b'| ensures b'[i].url != b'[j].url {
          assert b'[i] == b[i] && b'[j] == b[j];
        }
      }
      if a[|a| - 1] == b[|b| - 1] {
        SubseqDistinctUrls(a', b');
        SubseqMultiset(a', b');
        forall i, j | 0 <= i < j < |a| ensures a[i].url != a[j].url {
          assert a[i] == a'[i] && a'[i] in a';
          if j == |a| - 1 {
            var p :| 0 <= p < |b'| && b'[p] == a[i];
            assert b[p] == a[i];
          } else {
            assert a[j] == a'[j];
          }
        }
      } else {
        SubseqDistinctUrls(a, b');
      }
    }
  }

  /** What a prefix leaves out of a sequence lies past the prefix. */
  lemma OutsidePrefix(s: seq<NewsItem>, m: nat, x: NewsItem) returns (k: nat)
    requires m <= |s| && x in multiset(s) - multiset(s[..m])
    ensures m <= k < |s| && s[k] == x
  {
    assert s == s[..m] + s[m..];
    assert multiset(s) - multiset(s[..m]) == multiset(s[m..]);
    assert x in s[m..];
    var i :| 0 <= i < |s| - m && s[m..][i] == x;
    k := m + i;
  }

  /** A prefix of a sorted sequence holds its largest keys. */
  lemma SortedPrefixTop(key: SortKey, sorted: seq<NewsItem>, m: nat)
    requires SortedDesc(key, sorted) && m <= |sorted|
    ensures forall x, y :: x in multiset(sorted) - multiset(sorted[..m]) && y in sorted[..m] ==> KeyLe(key, x, y)
  {
    forall x, y | x in multiset(sorted) - multiset(sorted[..m]) && y in sorted[..m] ensures KeyLe(key, x, y) {
      var k := OutsidePrefix(sorted, m, x);
      var j :| 0 <= j < m && sorted[..m][j] == y;
      assert sorted[j] == y;
    }
  }

  /** Keeping the first `n` items of a ranking (Python slicing): sorted,
      drawn from the input, with distinct URLs if the input had them, and
      the top of the ranking: no record left out has a larger key than a
      record kept. */
  lemma RankedPrefix(key: SortKey, s: seq<NewsItem>, n: int)
    ensures SortedDesc(key, PyPrefix(SortDesc(key, s), n))
    ensures forall x :: x in PyPrefix(SortDesc(key, s), n) ==> x in s
    ensures DistinctUrls(s) ==> DistinctUrls(PyPrefix(SortDesc(key, s), n))
    ensures multiset(PyPrefix(SortDesc(key, s), n)) <= multiset(s)
    ensures forall x, y ::
      x in multiset(s) - multiset(PyPrefix(SortDesc(key, s), n)) && y in PyPrefix(SortDesc(key, s), n)
      ==> KeyLe(key, x, y)
    ensures forall x, y ::
      x in s && x !in PyPrefix(SortDesc(key, s), n) && y in PyPrefix(SortDesc(key, s), n)
      ==> KeyLe(key, x, y)
  {
    SortDescSpec(key, s);
    var sorted := SortDesc(key, s);
    var r := PyPrefix(sorted, n);
    assert sorted == r + sorted[|r|..];
    forall x | x in r ensures x in s {
      assert x in sorted;
      assert x in multiset(sorted);
    }
    if DistinctUrls(s) {
      DistinctUrlsPermutation(s, sorted);
      forall i, j | 0 <= i < j < |r| ensures r[i].url != r[j].url {
        assert r[i] == sorted[i] && r[j] == sorted[j];
      }
    }
    SortedPrefixTop(key, sorted, |r|);
    forall x | x in s && x !in r ensures x in multiset(s) - multiset(r) {
      assert x in multiset(s);
    }
  }
}
