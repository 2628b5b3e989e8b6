/** Grouping a list by an optional key, as `setdefault(key, []).append(x)` does, and
    concatenating lists of lists. */
module Grouping {
  import opened Tasks

  /** The elements with key `w`, in order. */
  function Select<T>(xs: seq<T>, key: T -> Option<string>, w: string): seq<T> {
    if xs == [] then []
    else
      var n := |xs| - 1;
      if key(xs[n]) == Some(w) then Select(xs[..n], key, w) + [xs[n]] else Select(xs[..n], key, w)
  }

  lemma {:induction false} SelectCount<T>(xs: seq<T>, key: T -> Option<string>, w: string, x: T)
    ensures multiset(Select(xs, key, w))[x] == if key(x) == Some(w) then multiset(xs)[x] else 0
  {
    if xs != [] {
      var n := |xs| - 1;
      assert xs == xs[..n] + [xs[n]];
      SelectCount(xs[..n], key, w, x);
    }
  }

  ghost predicate Grouped<T>(xs: seq<T>, key: T -> Option<string>, groups: map<string, seq<T>>) {
    forall w :: (w in groups <==> Select(xs, key, w) != []) && (w in groups ==> groups[w] == Select(xs, key, w))
  }

  method GroupBy<T>(xs: seq<T>, key: T -> Option<string>) returns (groups: map<string, seq<T>>)
    ensures Grouped(xs, key, groups)
  {
    groups := map[];
    var i := 0;
    while i < |xs|
      invariant 0 <= i <= |xs| && Grouped(xs[..i], key, groups)
    {
      assert xs[..i + 1][..i] == xs[..i];
      var k := key(xs[i]);
      if k.Some? {
        groups := groups[k.value := (if k.value in groups then groups[k.value] else []) + [xs[i]]];
      }
      i := i + 1;
    }
    assert xs[..i] == xs;
  }

  /** Every element with a key is in the group of that key. */
  lemma {:induction false} InItsGroup<T>(xs: seq<T>, key: T -> Option<string>, k: nat)
    requires k < |xs| && key(xs[k]).Some?
    ensures xs[k] in Select(xs, key, key(xs[k]).value)
  {
    var n := |xs| - 1;
    if k < n {
      InItsGroup(xs[..n], key, k);
    }
  }

  function Flatten<T>(parts: seq<seq<T>>): seq<T> {
    if parts == [] then [] else parts[0] + Flatten(parts[1..])
  }

  lemma {:induction false} FlattenAppend<T>(parts: seq<seq<T>>, last: seq<T>)
    ensures Flatten(parts + [last]) == Flatten(parts) + last
  {
    if parts == [] {
      assert [last][1..] == [];
    } else {
      assert (parts + [last])[1..] == parts[1..] + [last];
      FlattenAppend(parts[1..], last);
    }
  }
}
