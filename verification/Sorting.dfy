/** Python's `sorted`: a stable sort by a total preorder. */
module Sorting {

  ghost predicate TotalPreorder<T(!new)>(leq: (T, T) -> bool) {
    && (forall a, b :: leq(a, b) || leq(b, a))
    && (forall a, b, c :: leq(a, b) && leq(b, c) ==> leq(a, c))
  }

  ghost predicate SortedBy<T>(leq: (T, T) -> bool, s: seq<T>) {
    forall i, j :: 0 <= i < j < |s| ==> leq(s[i], s[j])
  }

  /** Places `x` before every element it does not exceed. */
  function Insert<T>(leq: (T, T) -> bool, x: T, s: seq<T>): seq<T> {
    if s == [] then [x]
    else if leq(x, s[0]) then [x] + s
    else [s[0]] + Insert(leq, x, s[1..])
  }

  /** Earlier elements are inserted last, so equal keys keep their input order. */
  function Sort<T>(leq: (T, T) -> bool, s: seq<T>): seq<T> {
    if s == [] then [] else Insert(leq, s[0], Sort(leq, s[1..]))
  }

  lemma {:induction false} InsertContents<T>(leq: (T, T) -> bool, x: T, s: seq<T>)
    ensures multiset(Insert(leq, x, s)) == multiset(s) + multiset{x}
    ensures |Insert(leq, x, s)| == |s| + 1
  {
    if s != [] {
      assert s == [s[0]] + s[1..];
      if !leq(x, s[0]) {
        InsertContents(leq, x, s[1..]);
      }
    }
  }

  lemma {:induction false} InsertSorted<T(!new)>(leq: (T, T) -> bool, x: T, s: seq<T>)
    requires TotalPreorder(leq) && SortedBy(leq, s)
    ensures SortedBy(leq, Insert(leq, x, s))
  {
    if s != [] {
      if leq(x, s[0]) {
        forall j | 0 <= j < |s| ensures leq(x, s[j]) {
          assert leq(s[0], s[0]);
          assert leq(s[0], s[j]);
        }
      } else {
        InsertSorted(leq, x, s[1..]);
        InsertContents(leq, x, s[1..]);
        var tail := Insert(leq, x, s[1..]);
        forall j | 0 <= j < |tail| ensures leq(s[0], tail[j]) {
          assert tail[j] in multiset(tail);
          assert tail[j] == x || tail[j] in s[1..];
        }
      }
    }
  }

  /** `sorted` returns a permutation of its input in order. */
  lemma {:induction false} SortCorrect<T(!new)>(leq: (T, T) -> bool, s: seq<T>)
    requires TotalPreorder(leq)
    ensures SortedBy(leq, Sort(leq, s))
    ensures multiset(Sort(leq, s)) == multiset(s)
    ensures |Sort(leq, s)| == |s|
  {
    if s != [] {
      hide Insert, SortedBy, TotalPreorder;
      SortCorrect(leq, s[1..]);
      InsertSorted(leq, s[0], Sort(leq, s[1..]));
      InsertContents(leq, s[0], Sort(leq, s[1..]));
      assert s == [s[0]] + s[1..];
    } else {
      SortedEmpty(leq);
    }
  }

  lemma SortedEmpty<T(!new)>(leq: (T, T) -> bool)
    ensures SortedBy(leq, Sort(leq, []))
  {
  }

  /** Stability shows on sorted input: nothing moves. */
  lemma {:induction false} SortOfSorted<T(!new)>(leq: (T, T) -> bool, s: seq<T>)
    requires SortedBy(leq, s)
    ensures Sort(leq, s) == s
  {
    if s != [] {
      SortOfSorted(leq, s[1..]);
      assert s == [s[0]] + s[1..];
    }
  }

  lemma SortMembers<T(!new)>(leq: (T, T) -> bool, s: seq<T>)
    requires TotalPreorder(leq)
    ensures |Sort(leq, s)| == |s|
    ensures forall x :: x in Sort(leq, s) <==> x in s
  {
    SortCorrect(leq, s);
    forall x ensures x in Sort(leq, s) <==> x in s {
      assert x in s <==> x in multiset(s);
      assert x in Sort(leq, s) <==> x in multiset(Sort(leq, s));
    }
  }

  ghost predicate Distinct<T>(s: seq<T>) {
    forall i, j :: 0 <= i < j < |s| ==> s[i] != s[j]
  }

  lemma {:induction false} OccursOnce<T>(s: seq<T>, x: T)
    requires Distinct(s)
    ensures multiset(s)[x] <= 1
  {
    if s != [] {
      assert s == [s[0]] + s[1..];
      OccursOnce(s[1..], x);
    }
  }

  lemma OccursTwice<T>(s: seq<T>, i: nat, j: nat)
    requires i < j < |s| && s[i] == s[j]
    ensures multiset(s)[s[i]] >= 2
  {
    assert s == s[..j] + [s[j]] + s[j + 1..];
    assert s[..j][i] == s[i];
    assert s[i] in multiset(s[..j]);
  }

  lemma SortKeepsDistinct<T(!new)>(leq: (T, T) -> bool, s: seq<T>)
    requires TotalPreorder(leq) && Distinct(s)
    ensures Distinct(Sort(leq, s))
  {
    SortCorrect(leq, s);
    var sorted := Sort(leq, s);
    forall i, j | 0 <= i < j < |sorted| ensures sorted[i] != sorted[j] {
      OccursOnce(s, sorted[i]);
      if sorted[i] == sorted[j] {
        OccursTwice(sorted, i, j);
      }
    }
  }

  /** The elements that rank with `x`, in their order in `s`. */
  function Ties<T>(leq: (T, T) -> bool, x: T, s: seq<T>): seq<T> {
    if s == [] then [] else IfTied(leq, x, s[0]) + Ties(leq, x, s[1..])
  }

  function IfTied<T>(leq: (T, T) -> bool, x: T, y: T): seq<T> {
    if leq(x, y) && leq(y, x) then [y] else []
  }

  lemma TieFollows<T(!new)>(leq: (T, T) -> bool, x: T, y: T, z: T)
    requires TotalPreorder(leq) && !leq(y, z)
    ensures IfTied(leq, x, y) == [] || IfTied(leq, x, z) == []
  {
    assert leq(y, x) && leq(x, z) ==> leq(y, z);
  }

  lemma {:induction false} InsertKeepsTies<T(!new)>(leq: (T, T) -> bool, x: T, y: T, s: seq<T>)
    requires TotalPreorder(leq)
    ensures Ties(leq, x, Insert(leq, y, s)) == IfTied(leq, x, y) + Ties(leq, x, s)
  {
    hide TotalPreorder, IfTied;
    if s != [] && !leq(y, s[0]) {
      InsertKeepsTies(leq, x, y, s[1..]);
      TieFollows(leq, x, y, s[0]);
      assert Insert(leq, y, s)[1..] == Insert(leq, y, s[1..]);
    } else {
      assert ([y] + s)[1..] == s;
    }
  }

  /** Sorting is stable: elements that rank alike keep their order. */
  lemma {:induction false} SortStable<T(!new)>(leq: (T, T) -> bool, x: T, s: seq<T>)
    requires TotalPreorder(leq)
    ensures Ties(leq, x, Sort(leq, s)) == Ties(leq, x, s)
  {
    if s != [] {
      hide TotalPreorder, IfTied, Insert;
      SortStable(leq, x, s[1..]);
      InsertKeepsTies(leq, x, s[0], Sort(leq, s[1..]));
    }
  }
}
