/**
 * The java.util.List operations the services apply to id lists: contains-then-add,
 * remove(Object) (first occurrence) and removeAll (every occurrence of every listed value).
 */
module JavaLists {

  /** No value occurs twice. */
  predicate NoDuplicates(xs: seq<string>) {
    forall i, j | 0 <= i < j < |xs| :: xs[i] != xs[j]
  }

  /** `if (!list.contains(x)) list.add(x)` */
  function AddIfAbsent(xs: seq<string>, x: string): (r: seq<string>)
    ensures x in r
    ensures forall y :: y in r <==> y in xs || y == x
    ensures NoDuplicates(xs) ==> NoDuplicates(r)
    ensures |r| == if x in xs then |xs| else |xs| + 1
  {
    if x in xs then xs else xs + [x]
  }

  /** List.remove(Object): drops the first occurrence, if any. */
  function RemoveFirst(xs: seq<string>, x: string): (r: seq<string>)
    ensures x !in xs ==> r == xs
    ensures x in xs ==> |r| == |xs| - 1
    ensures multiset(r) == multiset(xs) - multiset{x}
  {
    if xs == [] then []
    else
      assert xs == [xs[0]] + xs[1..];
      if xs[0] == x then xs[1..]
      else [xs[0]] + RemoveFirst(xs[1..], x)
  }

  /** Removing a value from a list without duplicates removes it entirely and keeps the rest. */
  lemma RemoveFirstFromDistinct(xs: seq<string>, x: string)
    requires NoDuplicates(xs)
    ensures x !in RemoveFirst(xs, x)
    ensures forall y | y != x :: y in RemoveFirst(xs, x) <==> y in xs
    ensures NoDuplicates(RemoveFirst(xs, x))
  {
    var r := RemoveFirst(xs, x);
    assert multiset(r)[x] == 0 by {
      assert multiset(xs)[x] <= 1 by { CountAtMostOne(xs, x); }
    }
    forall y | y != x ensures y in r <==> y in xs {
      assert y in r <==> multiset(r)[y] > 0;
      assert y in xs <==> multiset(xs)[y] > 0;
    }
    forall y ensures multiset(r)[y] <= 1 {
      CountAtMostOne(xs, y);
    }
    DistinctFromCounts(r);
  }

  lemma {:induction false} CountAtMostOne(xs: seq<string>, x: string)
    requires NoDuplicates(xs)
    ensures multiset(xs)[x] <= 1
  {
    if xs != [] {
      assert xs == [xs[0]] + xs[1..];
      CountAtMostOne(xs[1..], x);
      if xs[0] == x {
        assert x !in xs[1..];
      }
    }
  }

  lemma {:induction false} DistinctFromCounts(xs: seq<string>)
    requires forall y :: multiset(xs)[y] <= 1
    ensures NoDuplicates(xs)
  {
    if xs != [] {
      assert xs == [xs[0]] + xs[1..];
      forall y ensures multiset(xs[1..])[y] <= 1 {
        assert multiset(xs)[y] == multiset([xs[0]])[y] + multiset(xs[1..])[y];
      }
      DistinctFromCounts(xs[1..]);
      assert xs[0] !in xs[1..] by {
        assert multiset(xs)[xs[0]] == 1 + multiset(xs[1..])[xs[0]];
      }
      forall i, j | 0 <= i < j < |xs| ensures xs[i] != xs[j] {
        if i > 0 {
          assert xs[i] == xs[1..][i - 1] && xs[j] == xs[1..][j - 1];
        } else {
          assert xs[j] in xs[1..];
        }
      }
    }
  }

  /** Adding an absent value and then removing it gives the list back. */
  lemma AddThenRemove(xs: seq<string>, x: string)
    requires x !in xs
    ensures RemoveFirst(AddIfAbsent(xs, x), x) == xs
  {
    AddThenRemoveLast(xs, x);
  }

  lemma {:induction false} AddThenRemoveLast(xs: seq<string>, x: string)
    requires x !in xs
    ensures RemoveFirst(xs + [x], x) == xs
  {
    if xs != [] {
      assert (xs + [x])[1..] == xs[1..] + [x];
      AddThenRemoveLast(xs[1..], x);
      assert xs == [xs[0]] + xs[1..];
    }
  }

  /** Collection.removeAll: keeps, in order, the elements not listed in `removed`. */
  function RemoveAll(xs: seq<string>, removed: seq<string>): (r: seq<string>)
    ensures |r| <= |xs|
    ensures forall y :: y in r <==> y in xs && y !in removed
  {
    if xs == [] then []
    else
      var rest := RemoveAll(xs[1..], removed);
      assert forall y :: y in xs <==> y == xs[0] || y in xs[1..];
      if xs[0] in removed then rest else [xs[0]] + rest
  }

  /** Removing nothing keeps the list. */
  lemma {:induction false} RemoveAllNothing(xs: seq<string>)
    ensures RemoveAll(xs, []) == xs
  {
    if xs != [] {
      RemoveAllNothing(xs[1..]);
      assert xs == [xs[0]] + xs[1..];
    }
  }

  /** removeAll distributes over concatenation, so the old part keeps its place in front. */
  lemma {:induction false} RemoveAllAppend(xs: seq<string>, ys: seq<string>, removed: seq<string>)
    ensures RemoveAll(xs + ys, removed) == RemoveAll(xs, removed) + RemoveAll(ys, removed)
  {
    if xs != [] {
      assert (xs + ys)[1..] == xs[1..] + ys;
      RemoveAllAppend(xs[1..], ys, removed);
    } else {
      assert xs + ys == ys;
    }
  }

  // ---------------------------------------------------------------------------
  // A set sorted by name

  /** String.compareTo(a, b) < 0: the first differing character decides, and a proper prefix
      comes first. Characters compare by code point. */
  predicate LessThan(a: string, b: string) {
    if a == [] then b != []
    else if b == [] then false
    else a[0] < b[0] || (a[0] == b[0] && LessThan(a[1..], b[1..]))
  }

  lemma {:induction false} LessThanIrreflexive(a: string)
    ensures !LessThan(a, a)
  {
    if a != [] {
      LessThanIrreflexive(a[1..]);
    }
  }

  lemma {:induction false} LessThanTransitive(a: string, b: string, c: string)
    requires LessThan(a, b) && LessThan(b, c)
    ensures LessThan(a, c)
  {
    if a != [] && a[0] == b[0] && b[0] == c[0] {
      LessThanTransitive(a[1..], b[1..], c[1..]);
    }
  }

  lemma {:induction false} LessThanTotal(a: string, b: string)
    requires a != b
    ensures LessThan(a, b) || LessThan(b, a)
  {
    if a != [] && b != [] && a[0] == b[0] {
      assert a == [a[0]] + a[1..] && b == [b[0]] + b[1..];
      LessThanTotal(a[1..], b[1..]);
    }
  }

  lemma LessThanAsymmetric(a: string, b: string)
    ensures LessThan(a, b) ==> !LessThan(b, a)
  {
    LessThanIrreflexive(a);
    if LessThan(a, b) && LessThan(b, a) {
      LessThanTransitive(a, b, a);
    }
  }

  /** Strictly increasing by name: sorted, and no name twice. */
  predicate StrictlySorted(xs: seq<string>) {
    forall i, j | 0 <= i < j < |xs| :: LessThan(xs[i], xs[j])
  }

  /** TreeSet.add: the value joins in its place unless an equal one is there already. */
  function {:induction false} InsertSorted(xs: seq<string>, x: string): (r: seq<string>)
    requires StrictlySorted(xs)
    ensures StrictlySorted(r)
    ensures forall y :: y in r <==> y in xs || y == x
  {
    if xs == [] then [x]
    else if x == xs[0] then xs
    else if LessThan(x, xs[0]) then
      forall j | 0 < j < |xs| ensures LessThan(x, xs[j]) {
        LessThanTransitive(x, xs[0], xs[j]);
      }
      [x] + xs
    else
      LessThanTotal(x, xs[0]);
      var rest := InsertSorted(xs[1..], x);
      assert forall y | y in rest :: LessThan(xs[0], y);
      [xs[0]] + rest
  }

  /** A TreeSet ordered by name, filled from `xs` in order, as a list in iteration order:
      each value of `xs` once, in increasing order. */
  function {:induction false} SortedDistinct(xs: seq<string>): (r: seq<string>)
    ensures StrictlySorted(r)
    ensures forall y :: y in r <==> y in xs
  {
    if xs == [] then []
    else
      var r := InsertSorted(SortedDistinct(xs[..|xs| - 1]), xs[|xs| - 1]);
      assert xs == xs[..|xs| - 1] + [xs[|xs| - 1]];
      r
  }

  /** The first value of a strictly increasing list is its least. */
  lemma FirstIsLeast(xs: seq<string>, y: string)
    requires StrictlySorted(xs) && y in xs
    ensures xs[0] == y || LessThan(xs[0], y)
  {
    var k :| 0 <= k < |xs| && xs[k] == y;
  }

  /** A strictly increasing list has no duplicates. */
  lemma StrictlySortedDistinct(xs: seq<string>)
    requires StrictlySorted(xs)
    ensures NoDuplicates(xs)
  {
    forall i, j | 0 <= i < j < |xs| ensures xs[i] != xs[j] {
      LessThanIrreflexive(xs[i]);
    }
  }

  /** Two strictly increasing lists with the same values are the same list: the order a
      sorted set presents does not depend on the order its values arrived in. */
  lemma {:induction false} StrictlySortedUnique(xs: seq<string>, ys: seq<string>)
    requires StrictlySorted(xs) && StrictlySorted(ys)
    requires forall y :: y in xs <==> y in ys
    ensures xs == ys
  {
    if xs != [] {
      assert xs[0] in ys;
    }
    if ys != [] {
      assert ys[0] in xs;
    }
    if xs != [] && ys != [] {
      FirstIsLeast(ys, xs[0]);
      FirstIsLeast(xs, ys[0]);
      LessThanAsymmetric(xs[0], ys[0]);
      assert xs[0] == ys[0];
      assert xs == [xs[0]] + xs[1..] && ys == [ys[0]] + ys[1..];
      forall y ensures y in xs[1..] <==> y in ys[1..] {
        if y in xs[1..] {
          var i :| 0 <= i < |xs[1..]| && xs[1..][i] == y;
          assert LessThan(xs[0], xs[i + 1]);
          LessThanIrreflexive(y);
          assert y in ys;
          var j :| 0 <= j < |ys| && ys[j] == y;
          assert ys[1..][j - 1] == y;
        }
        if y in ys[1..] {
          var i :| 0 <= i < |ys[1..]| && ys[1..][i] == y;
          assert LessThan(ys[0], ys[i + 1]);
          LessThanIrreflexive(y);
          assert y in xs;
          var j :| 0 <= j < |xs| && xs[j] == y;
          assert xs[1..][j - 1] == y;
        }
      }
      StrictlySortedUnique(xs[1..], ys[1..]);
    }
  }
}
