/**
 * Ranking of (key, total) entries by descending total, as
 * `sort_values(ascending=False).head(n)` does for the top-items table
 * (app.py:125). Nothing here fixes the order of equal totals.
 */
module Ranking {

  /** Totals are non-increasing along the sequence. */
  predicate Descending(s: seq<(string, int)>)
  {
    forall i, j :: 0 <= i < j < |s| ==> s[i].1 >= s[j].1
  }

  /** An entry whose total is at least the first total of a descending list can go in front. */
  lemma ConsDescending(h: (string, int), t: seq<(string, int)>)
    requires Descending(t)
    requires t != [] ==> t[0].1 <= h.1
    ensures Descending([h] + t)
  {
  }

  /** Puts `p` in front of the first entry whose total is not larger. */
  function InsertDescending(p: (string, int), s: seq<(string, int)>): seq<(string, int)>
  {
    if s == [] || p.1 >= s[0].1 then [p] + s
    else [s[0]] + InsertDescending(p, s[1..])
  }

  /** Inserting into a descending list keeps it descending; the new first entry
      is `p` or the old first entry. */
  lemma {:induction false} InsertKeepsDescending(p: (string, int), s: seq<(string, int)>)
    requires Descending(s)
    ensures Descending(InsertDescending(p, s))
    ensures |InsertDescending(p, s)| == |s| + 1
    ensures InsertDescending(p, s)[0] == p || (s != [] && InsertDescending(p, s)[0] == s[0])
  {
    if s == [] || p.1 >= s[0].1 {
      ConsDescending(p, s);
    } else {
      InsertKeepsDescending(p, s[1..]);
      ConsDescending(s[0], InsertDescending(p, s[1..]));
    }
  }

  /** Inserting adds exactly the one entry `p`. */
  lemma {:induction false} InsertAddsOne(p: (string, int), s: seq<(string, int)>)
    ensures multiset(InsertDescending(p, s)) == multiset(s) + multiset{p}
  {
    if s != [] && p.1 < s[0].1 {
      InsertAddsOne(p, s[1..]);
      assert s == [s[0]] + s[1..];
    }
  }

  /** `sort_values(ascending=False)`, as an insertion sort. */
  function SortDescending(s: seq<(string, int)>): seq<(string, int)>
  {
    if s == [] then [] else InsertDescending(s[0], SortDescending(s[1..]))
  }

  /** Sorting yields a descending list. */
  lemma {:induction false} SortDescendingSorts(s: seq<(string, int)>)
    ensures Descending(SortDescending(s))
    ensures |SortDescending(s)| == |s|
  {
    if s != [] {
      SortDescendingSorts(s[1..]);
      InsertKeepsDescending(s[0], SortDescending(s[1..]));
    }
  }

  /** Sorting yields a permutation of its input. */
  lemma {:induction false} SortDescendingPermutes(s: seq<(string, int)>)
    ensures multiset(SortDescending(s)) == multiset(s)
  {
    if s != [] {
      SortDescendingPermutes(s[1..]);
      InsertAddsOne(s[0], SortDescending(s[1..]));
      assert s == [s[0]] + s[1..];
    }
  }

  /** Equal multisets: a sequence without repetitions has a permutation without repetitions. */
  lemma DistinctPermutation<T>(a: seq<T>, b: seq<T>)
    requires multiset(a) == multiset(b)
    requires forall i, j :: 0 <= i < j < |a| ==> a[i] != a[j]
    ensures forall i, j :: 0 <= i < j < |b| ==> b[i] != b[j]
  {
    forall i, j | 0 <= i < j < |b| ensures b[i] != b[j] {
      if b[i] == b[j] {
        assert b == b[..j] + b[j..];
        assert b[i] in b[..j];
        assert multiset(b)[b[i]] >= 2;
        AtMostOnce(a, b[i]);
        assert false;
      }
    }
  }

  lemma {:induction false} AtMostOnce<T>(a: seq<T>, x: T)
    requires forall i, j :: 0 <= i < j < |a| ==> a[i] != a[j]
    ensures multiset(a)[x] <= 1
  {
    if a != [] {
      assert a == [a[0]] + a[1..];
      AtMostOnce(a[1..], x);
      if x == a[0] {
        assert x !in a[1..];
      }
    }
  }

  function Min(a: int, b: int): int
  {
    if a <= b then a else b
  }

  /** `s` lists every entry of `m` exactly once, and nothing else. */
  ghost predicate ListsEntries(m: map<string, int>, s: seq<(string, int)>)
  {
    && (forall i, j :: 0 <= i < j < |s| ==> s[i] != s[j])
    && (forall x :: x in s <==> x.0 in m && x.1 == m[x.0])
  }

  /** Sorting a listing of m's entries gives a listing of m's entries. */
  lemma SortListsEntries(m: map<string, int>, s: seq<(string, int)>)
    requires ListsEntries(m, s)
    ensures ListsEntries(m, SortDescending(s))
  {
    var r := SortDescending(s);
    SortDescendingPermutes(s);
    DistinctPermutation(s, r);
    forall x: (string, int) ensures x in r <==> x in s {
      assert x in r <==> x in multiset(s);
    }
  }

  /** In a listing of m's entries no key appears twice and each carries its value. */
  lemma ListedKeys(m: map<string, int>, s: seq<(string, int)>)
    requires ListsEntries(m, s)
    ensures forall i :: 0 <= i < |s| ==> s[i].0 in m && s[i].1 == m[s[i].0]
    ensures forall i, j :: 0 <= i < j < |s| ==> s[i].0 != s[j].0
  {
    forall i | 0 <= i < |s| ensures s[i].0 in m && s[i].1 == m[s[i].0] {
      assert s[i] in s;
    }
  }

  /** A key left out of the first k entries of a descending listing has a
      value no larger than the k-th entry's. */
  lemma LeftOutBelow(m: map<string, int>, s: seq<(string, int)>, k: nat, key: string)
    requires ListsEntries(m, s) && Descending(s)
    requires 0 < k <= |s|
    requires key in m
    requires forall i :: 0 <= i < k ==> s[i].0 != key
    ensures m[key] <= s[k - 1].1
  {
    assert (key, m[key]) in s;
    var j :| 0 <= j < |s| && s[j] == (key, m[key]);
    assert j >= k;
  }

  /** Every entry of `r` is a key of `m` with its value. */
  predicate EntriesOf(m: map<string, int>, r: seq<(string, int)>)
  {
    forall i :: 0 <= i < |r| ==> r[i].0 in m && r[i].1 == m[r[i].0]
  }

  /** No key appears twice in `r`. */
  predicate KeysDistinct(r: seq<(string, int)>)
  {
    forall i, j :: 0 <= i < j < |r| ==> r[i].0 != r[j].0
  }

  /** Every key of `m` missing from `r` has a value no larger than r's last entry. */
  predicate NoneLeftAbove(m: map<string, int>, r: seq<(string, int)>)
  {
    |r| > 0 ==>
      forall key :: key in m && (forall i :: 0 <= i < |r| ==> r[i].0 != key) ==> m[key] <= r[|r| - 1].1
  }

  /** The first k entries of a descending listing of m's entries: descending,
      each an entry of m, no key twice, and every key left out has a value no
      larger than the last entry kept. */
  lemma TopOfListing(m: map<string, int>, s: seq<(string, int)>, k: nat)
    requires ListsEntries(m, s) && Descending(s) && k <= |s|
    ensures Descending(s[..k]) && EntriesOf(m, s[..k]) && KeysDistinct(s[..k]) && NoneLeftAbove(m, s[..k])
  {
    ListedKeys(m, s);
    PrefixNoneLeftAbove(m, s, k);
  }

  lemma PrefixNoneLeftAbove(m: map<string, int>, s: seq<(string, int)>, k: nat)
    requires ListsEntries(m, s) && Descending(s) && k <= |s|
    ensures NoneLeftAbove(m, s[..k])
  {
    var r := s[..k];
    if |r| > 0 {
      forall key | key in m && (forall i :: 0 <= i < |r| ==> r[i].0 != key) ensures m[key] <= r[|r| - 1].1 {
        forall i | 0 <= i < |r| ensures s[i].0 != key {
          assert r[i] == s[i];
        }
        LeftOutBelow(m, s, |r|, key);
      }
    }
  }
}
