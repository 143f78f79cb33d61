/**
 * Sequence helpers shared by the repository queries: filtering, the
 * duplicate-free predicate, a stable newest-first sort (ORDER BY ... DESC
 * with ties left in scan order) and Spring Data paging.
 */
module Seqs {

  ghost predicate NoDups<T>(s: seq<T>) {
    forall i, j :: 0 <= i < j < |s| ==> s[i] != s[j]
  }

  /** `rows` lists every element of `keys` exactly once: a full scan of a table. */
  ghost predicate Enumerates<T(!new)>(rows: seq<T>, keys: set<T>) {
    NoDups(rows) && forall x :: x in rows <==> x in keys
  }

  /** Elements of `s` satisfying `p`, in their original order. */
  function Filter<T>(s: seq<T>, p: T -> bool): (r: seq<T>)
    ensures |r| <= |s|
  {
    if s == [] then []
    else if p(s[0]) then [s[0]] + Filter(s[1..], p)
    else Filter(s[1..], p)
  }

  lemma {:induction false} FilterMembers<T>(s: seq<T>, p: T -> bool)
    ensures forall x :: x in Filter(s, p) <==> x in s && p(x)
  {
    if s != [] {
      FilterMembers(s[1..], p);
      assert s == [s[0]] + s[1..];
    }
  }

  lemma {:induction false} FilterMultiset<T>(s: seq<T>, p: T -> bool)
    ensures multiset(Filter(s, p)) <= multiset(s)
  {
    if s != [] {
      FilterMultiset(s[1..], p);
      assert s == [s[0]] + s[1..];
    }
  }

  /** The elements satisfying `p` and those not satisfying it together make up `s`. */
  lemma {:induction false} FilterPartition<T>(s: seq<T>, p: T -> bool, q: T -> bool)
    requires forall x :: q(x) == !p(x)
    ensures multiset(Filter(s, p)) + multiset(Filter(s, q)) == multiset(s)
  {
    if s != [] {
      FilterPartition(s[1..], p, q);
      assert s == [s[0]] + s[1..];
    }
  }

  lemma FilterNoDups<T>(s: seq<T>, p: T -> bool)
    requires NoDups(s)
    ensures NoDups(Filter(s, p))
  {
    FilterMultiset(s, p);
    NoDupsMultiset(s);
    NoDupsMultiset(Filter(s, p));
    forall x ensures multiset(Filter(s, p))[x] <= 1 {
      assert multiset(Filter(s, p))[x] <= multiset(s)[x];
    }
  }

  /** A sequence is duplicate-free iff no element occurs twice in its multiset. */
  lemma {:induction false} NoDupsMultiset<T>(s: seq<T>)
    ensures NoDups(s) <==> forall x :: multiset(s)[x] <= 1
  {
    if s != [] {
      NoDupsMultiset(s[1..]);
      assert s == [s[0]] + s[1..];
      if NoDups(s) {
        assert NoDups(s[1..]) by {
          forall i, j | 0 <= i < j < |s[1..]| ensures s[1..][i] != s[1..][j] {
            assert s[i + 1] != s[j + 1];
          }
        }
        assert s[0] !in s[1..] by {
          forall k | 0 <= k < |s[1..]| ensures s[1..][k] != s[0] {
            assert s[0] != s[k + 1];
          }
        }
      } else {
        var i, j :| 0 <= i < j < |s| && s[i] == s[j];
        if i == 0 {
          assert s[1..][j - 1] == s[0];
          assert multiset(s)[s[0]] >= 2;
        } else {
          assert s[1..][i - 1] == s[1..][j - 1];
          assert !NoDups(s[1..]);
          var x :| multiset(s[1..])[x] > 1;
          assert multiset(s)[x] >= multiset(s[1..])[x];
        }
      }
    }
  }

  /** Sorted by `key`, largest first. */
  ghost predicate SortedDesc<T>(s: seq<T>, key: T -> int) {
    forall i, j :: 0 <= i < j < |s| ==> key(s[i]) >= key(s[j])
  }

  /** Inserts `x` before the first element whose key is not larger. */
  function Insert<T>(x: T, s: seq<T>, key: T -> int): (r: seq<T>)
    ensures multiset(r) == multiset(s) + multiset{x}
  {
    if s == [] then [x]
    else if key(x) >= key(s[0]) then [x] + s
    else
      assert s == [s[0]] + s[1..];
      [s[0]] + Insert(x, s[1..], key)
  }

  lemma {:induction false} InsertSorted<T>(x: T, s: seq<T>, key: T -> int)
    requires SortedDesc(s, key)
    ensures SortedDesc(Insert(x, s, key), key)
  {
    if s != [] && key(x) < key(s[0]) {
      InsertSorted(x, s[1..], key);
      var t := Insert(x, s[1..], key);
      assert forall y :: y in t ==> y == x || y in s[1..] by {
        forall y | y in t ensures y == x || y in s[1..] {
          assert y in multiset(t);
        }
      }
      assert forall k :: 0 <= k < |t| ==> key(s[0]) >= key(t[k]) by {
        forall k | 0 <= k < |t| ensures key(s[0]) >= key(t[k]) {
          assert t[k] in t;
          if t[k] != x {
            var m :| 0 <= m < |s[1..]| && s[1..][m] == t[k];
            assert s[m + 1] == t[k];
          }
        }
      }
    }
  }

  /**
   * Stable sort, largest key first: elements with equal keys keep the order
   * they have in `s` (the order the database scanned them in).
   */
  function SortDesc<T>(s: seq<T>, key: T -> int): (r: seq<T>)
    ensures multiset(r) == multiset(s)
  {
    if s == [] then []
    else
      assert s == [s[0]] + s[1..];
      Insert(s[0], SortDesc(s[1..], key), key)
  }

  lemma {:induction false} SortDescSorted<T>(s: seq<T>, key: T -> int)
    ensures SortedDesc(SortDesc(s, key), key)
  {
    if s != [] {
      SortDescSorted(s[1..], key);
      InsertSorted(s[0], SortDesc(s[1..], key), key);
    }
  }

  lemma SortDescMembers<T>(s: seq<T>, key: T -> int)
    ensures forall x :: x in SortDesc(s, key) <==> x in s
  {
    forall x ensures x in SortDesc(s, key) <==> x in s {
      assert x in multiset(SortDesc(s, key)) <==> x in multiset(s);
    }
  }

  /** Filtering keeps the order, so a filtered sorted sequence is sorted. */
  lemma {:induction false} FilterSorted<T>(s: seq<T>, p: T -> bool, key: T -> int)
    requires SortedDesc(s, key)
    ensures SortedDesc(Filter(s, p), key)
  {
    if s != [] {
      FilterSorted(s[1..], p, key);
      if p(s[0]) {
        var t := Filter(s[1..], p);
        FilterMultiset(s[1..], p);
        forall k | 0 <= k < |t| ensures key(s[0]) >= key(t[k]) {
          assert t[k] in multiset(t);
          assert t[k] in multiset(s[1..]);
          var m :| 0 <= m < |s[1..]| && s[1..][m] == t[k];
          assert s[m + 1] == t[k];
        }
      }
    }
  }

  /** In `first + rest`, where `p` holds on all of `first` and on nothing of `rest`, the `p` elements come first. */
  lemma BucketsInOrder<T>(first: seq<T>, rest: seq<T>, p: T -> bool)
    requires forall x :: x in first ==> p(x)
    requires forall x :: x in rest ==> !p(x)
    ensures forall i, j :: 0 <= i < j < |first + rest| && p((first + rest)[j]) ==> p((first + rest)[i])
  {
    var r := first + rest;
    forall k | 0 <= k < |first| ensures p(r[k]) {
      assert r[k] == first[k];
    }
    forall k | |first| <= k < |r| ensures !p(r[k]) {
      assert r[k] == rest[k - |first|];
    }
  }

  /** If both buckets are sorted, any two elements of the same bucket are in key order in `first + rest`. */
  lemma BucketsSorted<T>(first: seq<T>, rest: seq<T>, p: T -> bool, key: T -> int)
    requires forall x :: x in first ==> p(x)
    requires forall x :: x in rest ==> !p(x)
    requires SortedDesc(first, key) && SortedDesc(rest, key)
    ensures forall i, j :: 0 <= i < j < |first + rest| && p((first + rest)[i]) == p((first + rest)[j]) ==>
              key((first + rest)[i]) >= key((first + rest)[j])
  {
    var r := first + rest;
    forall k | 0 <= k < |first| ensures p(r[k]) {
      assert r[k] == first[k];
    }
    forall k | |first| <= k < |r| ensures !p(r[k]) {
      assert r[k] == rest[k - |first|];
    }
    forall i, j | 0 <= i < j < |r| && p(r[i]) == p(r[j]) ensures key(r[i]) >= key(r[j]) {
      if j < |first| {
        assert r[i] == first[i] && r[j] == first[j];
      } else if i >= |first| {
        assert r[i] == rest[i - |first|] && r[j] == rest[j - |first|];
      }
    }
  }

  /** A page request: zero-based page number and page size (Spring's `Pageable`). */
  datatype Pageable = Pageable(page: nat, size: nat)

  /** A page of results with the metadata Spring's `Page` carries. */
  datatype Page<T> = Page(content: seq<T>, number: nat, totalPages: nat, totalElements: nat, isLast: bool)

  /** `PagedResponseDTO`: a page of results and the page metadata copied from a `Page`. */
  datatype PagedResponse<T> = PagedResponse(content: seq<T>, currentPage: nat, totalPages: nat, totalItems: nat, isLast: bool)

  /** The sort key that reads `field` of each stored row (0 for a key not in the table). */
  function FieldKey<K, V>(table: map<K, V>, field: V -> int): (key: K -> int)
    ensures forall k :: k in table ==> key(k) == field(table[k])
  {
    k => if k in table then field(table[k]) else 0
  }

  /** `content` is the run of `all` that page `p` starts at, element by element. */
  ghost predicate TakenFrom<T>(content: seq<T>, all: seq<T>, p: Pageable) {
    forall k :: 0 <= k < |content| ==> p.page * p.size + k < |all| && content[k] == all[p.page * p.size + k]
  }

  /** The slice of `all` that page `p` covers, with Spring's metadata. */
  function Paginate<T>(all: seq<T>, p: Pageable): (r: Page<T>)
    requires p.size > 0
    ensures r.number == p.page && r.totalElements == |all|
    ensures r.totalPages * p.size >= |all| > (r.totalPages - 1) * p.size
    ensures |r.content| <= p.size
    ensures forall k :: 0 <= k < |r.content| ==>
              p.page * p.size + k < |all| && r.content[k] == all[p.page * p.size + k]
    ensures forall x :: x in r.content ==> x in all
    ensures p.page * p.size + p.size <= |all| ==> |r.content| == p.size
    ensures p.page * p.size <= |all| < p.page * p.size + p.size ==> |r.content| == |all| - p.page * p.size
    ensures p.page * p.size >= |all| ==> r.content == []
    ensures r.isLast <==> p.page + 1 >= r.totalPages
  {
    var start := if p.page * p.size <= |all| then p.page * p.size else |all|;
    var end := if start + p.size <= |all| then start + p.size else |all|;
    var pages := (|all| + p.size - 1) / p.size;
    PagesCover(|all|, p.size);
    Page(all[start..end], p.page, pages, |all|, p.page + 1 >= pages)
  }

  /** A page keeps every pairwise order relation that holds along the whole sequence. */
  lemma PaginateKeepsOrder<T>(all: seq<T>, p: Pageable, before: (T, T) -> bool)
    requires p.size > 0
    requires forall i, j :: 0 <= i < j < |all| ==> before(all[i], all[j])
    ensures var c := Paginate(all, p).content;
            forall i, j :: 0 <= i < j < |c| ==> before(c[i], c[j])
  {
    var c := Paginate(all, p).content;
    forall i, j | 0 <= i < j < |c| ensures before(c[i], c[j]) {
      assert c[i] == all[p.page * p.size + i] && c[j] == all[p.page * p.size + j];
    }
  }

  /** `ceil(n / size)` pages of `size` elements hold `n` elements, and one page fewer does not. */
  lemma PagesCover(n: nat, size: nat)
    requires size > 0
    ensures ((n + size - 1) / size) * size >= n > ((n + size - 1) / size - 1) * size
  {
    var q, rem := (n + size - 1) / size, (n + size - 1) % size;
    assert n + size - 1 == q * size + rem;
    assert (q - 1) * size == q * size - size;
  }

}
