/**
 * The collection listing: the records a principal may see, in ascending
 * order of the requested column. In the application the database filters
 * and orders (findBy with an ORDER BY ... ASC); here the filter walks the
 * ids below the store's id counter and an insertion sort orders the result.
 */
module Listing {
  import opened Domain

  /** The value of the sort column for one entry. */
  function Key(k: SortKey, e: Entry): int
  {
    match k
    case ById => e.id
    case ByResult => e.record.result
    case ByUser => e.record.owner
  }

  ghost predicate SortedBy(k: SortKey, s: seq<Entry>)
  {
    forall i, j :: 0 <= i < j < |s| ==> Key(k, s[i]) <= Key(k, s[j])
  }

  ghost predicate DistinctIds(s: seq<Entry>)
  {
    forall i, j :: 0 <= i < j < |s| ==> s[i].id != s[j].id
  }

  /** e is a stored record, shown with its own id, that p may see. */
  ghost predicate Listed(m: map<nat, Record>, p: Principal, e: Entry)
  {
    e.id in m && m[e.id] == e.record && MayAccess(p, e.record)
  }

  /** The entries with id below n that p may see, in ascending id order. */
  function VisibleBelow(m: map<nat, Record>, p: Principal, n: nat): (r: seq<Entry>)
    ensures forall i, j :: 0 <= i < j < |r| ==> r[i].id < r[j].id
    ensures forall e :: e in r <==> e.id < n && Listed(m, p, e)
  {
    if n == 0 then []
    else
      var prefix := VisibleBelow(m, p, n - 1);
      if n - 1 in m && MayAccess(p, m[n - 1]) then prefix + [Entry(n - 1, m[n - 1])] else prefix
  }

  function Insert(k: SortKey, e: Entry, s: seq<Entry>): (r: seq<Entry>)
    requires SortedBy(k, s)
    ensures SortedBy(k, r)
    ensures multiset(r) == multiset(s) + multiset{e}
    ensures forall x :: x in r ==> x == e || x in s
  {
    if s == [] then [e]
    else if Key(k, e) <= Key(k, s[0]) then [e] + s
    else
      var rest := Insert(k, e, s[1..]);
      assert s == [s[0]] + s[1..];
      forall x | x in rest ensures Key(k, s[0]) <= Key(k, x) {
        if x != e {
          var j :| 0 <= j < |s[1..]| && s[1..][j] == x;
          assert s[j + 1] == x;
        }
      }
      PrependSorted(k, s[0], rest);
      [s[0]] + rest
  }

  lemma PrependSorted(k: SortKey, x: Entry, s: seq<Entry>)
    requires SortedBy(k, s)
    requires forall y :: y in s ==> Key(k, x) <= Key(k, y)
    ensures SortedBy(k, [x] + s)
  {
  }

  /** Insertion sort on the sort column; ties keep their input order. */
  function Sort(k: SortKey, s: seq<Entry>): (r: seq<Entry>)
    ensures SortedBy(k, r)
    ensures multiset(r) == multiset(s)
  {
    if s == [] then []
    else
      assert s == [s[0]] + s[1..];
      Insert(k, s[0], Sort(k, s[1..]))
  }

  /** A sequence of pairwise different entries holds each value at most once. */
  lemma {:induction false} AtMostOnce(s: seq<Entry>, x: Entry)
    requires forall i, j :: 0 <= i < j < |s| ==> s[i] != s[j]
    ensures multiset(s)[x] <= 1
  {
    if s != [] {
      assert s == [s[0]] + s[1..];
      AtMostOnce(s[1..], x);
      if s[0] == x {
        assert x !in s[1..];
      }
    }
  }

  /** Two positions holding the same value count twice in the multiset. */
  lemma TwiceCounted(s: seq<Entry>, i: nat, j: nat)
    requires i < j < |s| && s[i] == s[j]
    ensures multiset(s)[s[i]] >= 2
  {
    assert s == s[..j] + [s[j]] + s[j + 1..];
    assert s[i] in s[..j];
  }

  /** A reordering of a list without repeated ids has no repeated ids,
    * provided every entry shows the record stored under its id. */
  lemma DistinctIdsPermutation(m: map<nat, Record>, p: Principal, s: seq<Entry>, t: seq<Entry>)
    requires DistinctIds(s)
    requires multiset(s) == multiset(t)
    requires forall e :: e in t ==> Listed(m, p, e)
    ensures DistinctIds(t)
  {
    forall i, j | 0 <= i < j < |s| ensures s[i] != s[j] { }
    forall i, j | 0 <= i < j < |t| ensures t[i].id != t[j].id {
      if t[i].id == t[j].id {
        assert t[i] in t && t[j] in t;
        assert t[i] == t[j];
        TwiceCounted(t, i, j);
        AtMostOnce(s, t[i]);
        assert false;
      }
    }
  }

  /** The records p may see among the ids below n, each once, ordered by k. */
  function VisibleSorted(m: map<nat, Record>, p: Principal, k: SortKey, n: nat): (r: seq<Entry>)
    ensures SortedBy(k, r)
    ensures DistinctIds(r)
    ensures forall e :: e in r <==> e.id < n && Listed(m, p, e)
  {
    var visible := VisibleBelow(m, p, n);
    var sorted := Sort(k, visible);
    assert forall e :: e in sorted <==> e in visible by {
      forall e ensures e in sorted <==> e in visible {
        assert e in sorted <==> e in multiset(sorted);
        assert e in visible <==> e in multiset(visible);
      }
    }
    DistinctIdsPermutation(m, p, visible, sorted);
    sorted
  }
}
