/** Python's stable `sorted`, by an order given as a function. */
module Sorting {

  ghost predicate Preorder<T(!new)>(le: (T, T) -> bool) {
    && (forall a, b :: le(a, b) || le(b, a))
    && (forall a, b, c :: le(a, b) && le(b, c) ==> le(a, c))
  }

  predicate SortedBy<T>(s: seq<T>, le: (T, T) -> bool) {
    forall i, j :: 0 <= i < j < |s| ==> le(s[i], s[j])
  }

  /** Behind everything that may stay in front of `x`. */
  function Insert<T>(s: seq<T>, x: T, le: (T, T) -> bool): (out: seq<T>)
    ensures |out| == |s| + 1
  {
    if s == [] || le(s[|s| - 1], x) then s + [x]
    else Insert(s[..|s| - 1], x, le) + [s[|s| - 1]]
  }

  function Sort<T>(s: seq<T>, le: (T, T) -> bool): (out: seq<T>)
    ensures |out| == |s|
  {
    if s == [] then [] else Insert(Sort(s[..|s| - 1], le), s[|s| - 1], le)
  }

  lemma {:induction false} InsertPermutes<T>(s: seq<T>, x: T, le: (T, T) -> bool)
    ensures multiset(Insert(s, x, le)) == multiset(s) + multiset{x}
  {
    if s != [] && !le(s[|s| - 1], x) {
      var n := |s| - 1;
      InsertPermutes(s[..n], x, le);
      assert s == s[..n] + [s[n]];
    }
  }

  lemma {:induction false} SortPermutes<T>(s: seq<T>, le: (T, T) -> bool)
    ensures multiset(Sort(s, le)) == multiset(s)
  {
    if s != [] {
      var n := |s| - 1;
      SortPermutes(s[..n], le);
      InsertPermutes(Sort(s[..n], le), s[n], le);
      assert s == s[..n] + [s[n]];
    }
  }

  lemma {:induction false} InsertKeepsSorted<T(!new)>(s: seq<T>, x: T, le: (T, T) -> bool)
    requires Preorder(le) && SortedBy(s, le)
    ensures SortedBy(Insert(s, x, le), le)
    ensures forall i :: 0 <= i < |s| + 1 ==> Insert(s, x, le)[i] == x || Insert(s, x, le)[i] in s
  {
    if s == [] {
    } else if le(s[|s| - 1], x) {
      forall i | 0 <= i < |s| ensures le(s[i], x) {
        if i < |s| - 1 { assert le(s[i], s[|s| - 1]); }
      }
    } else {
      var n := |s| - 1;
      InsertKeepsSorted(s[..n], x, le);
      var front := Insert(s[..n], x, le);
      forall i | 0 <= i < |front| ensures le(front[i], s[n]) {
        if front[i] != x {
          var k :| 0 <= k < n && s[k] == front[i];
        }
      }
    }
  }

  lemma {:induction false} SortIsSorted<T(!new)>(s: seq<T>, le: (T, T) -> bool)
    requires Preorder(le)
    ensures SortedBy(Sort(s, le), le)
  {
    if s != [] {
      SortIsSorted(s[..|s| - 1], le);
      InsertKeepsSorted(Sort(s[..|s| - 1], le), s[|s| - 1], le);
    }
  }

  /** Sorting a sorted list changes nothing. */
  lemma {:induction false} SortOfSorted<T>(s: seq<T>, le: (T, T) -> bool)
    requires SortedBy(s, le)
    ensures Sort(s, le) == s
  {
    if s != [] {
      var n := |s| - 1;
      SortOfSorted(s[..n], le);
      assert s == s[..n] + [s[n]];
      assert n > 0 ==> le(s[n - 1], s[n]);
    }
  }

  /** `a` stands somewhere in front of `b`. */
  ghost predicate Before<T>(s: seq<T>, a: T, b: T) {
    exists p, q :: 0 <= p < q < |s| && s[p] == a && s[q] == b
  }

  lemma BeforeGrows<T>(s: seq<T>, y: T, a: T, b: T)
    requires Before(s, a, b) || (a in s && b == y)
    ensures Before(s + [y], a, b)
  {
    var t := s + [y];
    if Before(s, a, b) {
      var p, q :| 0 <= p < q < |s| && s[p] == a && s[q] == b;
      assert t[p] == a && t[q] == b;
    } else {
      var p :| 0 <= p < |s| && s[p] == a;
      assert t[p] == a && t[|s|] == b;
    }
  }

  lemma InsertHas<T>(s: seq<T>, x: T, le: (T, T) -> bool, a: T)
    requires a == x || a in s
    ensures a in Insert(s, x, le)
  {
    InsertPermutes(s, x, le);
    assert a in multiset(Insert(s, x, le));
  }

  lemma BeforeShrinks<T>(s: seq<T>, a: T, b: T)
    requires s != [] && Before(s, a, b)
    ensures Before(s[..|s| - 1], a, b) || (a in s[..|s| - 1] && b == s[|s| - 1])
  {
    var p, q :| 0 <= p < q < |s| && s[p] == a && s[q] == b;
    var front := s[..|s| - 1];
    assert front[p] == a;
    if q < |front| {
      assert front[q] == b;
    }
  }

  /** Inserting keeps the order of what is there, and puts `x` behind what may stay in front. */
  lemma {:induction false} InsertStable<T>(s: seq<T>, x: T, le: (T, T) -> bool, a: T, b: T)
    requires Before(s, a, b) || (a in s && b == x && le(a, x))
    ensures Before(Insert(s, x, le), a, b)
  {
    var n := |s| - 1;
    if le(s[n], x) {
      BeforeGrows(s, x, a, b);
    } else if Before(s, a, b) {
      BeforeShrinks(s, a, b);
      if Before(s[..n], a, b) {
        InsertStable(s[..n], x, le, a, b);
      } else {
        InsertHas(s[..n], x, le, a);
      }
      BeforeGrows(Insert(s[..n], x, le), s[n], a, b);
    } else {
      assert a in s[..n];
      InsertStable(s[..n], x, le, a, b);
      BeforeGrows(Insert(s[..n], x, le), s[n], a, b);
    }
  }

  /** Sorting is stable: what may stay in front does. */
  lemma {:induction false} SortStable<T>(s: seq<T>, le: (T, T) -> bool, i: nat, j: nat)
    requires i < j < |s| && le(s[i], s[j])
    ensures Before(Sort(s, le), s[i], s[j])
  {
    var n := |s| - 1;
    if j < n {
      SortStable(s[..n], le, i, j);
    } else {
      SortPermutes(s[..n], le);
      assert s[i] == s[..n][i] && s[i] in multiset(Sort(s[..n], le));
    }
    InsertStable(Sort(s[..n], le), s[n], le, s[i], s[j]);
  }
}
