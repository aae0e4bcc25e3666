/**
 * The stable sort Array.prototype.sort performs (required stable since
 * ECMAScript 2019), for any comparator that orders consistently. The engine's
 * own algorithm is not specified; this one inserts each element, scanning
 * from the back, after every element that does not compare greater.
 */
module StableSort {

  /** cmp(a, b) < 0 puts a first, > 0 puts b first, 0 keeps their order. */
  type Comparator<!T> = (T, T) -> int

  /** The comparator is antisymmetric and "may precede" is transitive. */
  ghost predicate Consistent<T(!new)>(cmp: Comparator<T>)
  {
    && (forall a, b :: cmp(a, b) == -cmp(b, a))
    && (forall a, b, c :: cmp(a, b) <= 0 && cmp(b, c) <= 0 ==> cmp(a, c) <= 0)
  }

  /** No pair of elements is out of order. */
  ghost predicate Sorted<T>(cmp: Comparator<T>, s: seq<T>)
  {
    forall i, j :: 0 <= i < j < |s| ==> cmp(s[i], s[j]) <= 0
  }

  /** Inserts x into s from the back: x goes after every element not greater than it. */
  function Insert<T>(cmp: Comparator<T>, s: seq<T>, x: T): (r: seq<T>)
    ensures |r| == |s| + 1
  {
    if s == [] then [x]
    else if cmp(s[|s| - 1], x) > 0 then Insert(cmp, s[..|s| - 1], x) + [s[|s| - 1]]
    else s + [x]
  }

  /** Insertion adds x and nothing else. */
  lemma {:induction false} InsertPermutes<T>(cmp: Comparator<T>, s: seq<T>, x: T)
    ensures multiset(Insert(cmp, s, x)) == multiset(s) + multiset{x}
  {
    if s != [] && cmp(s[|s| - 1], x) > 0 {
      InsertPermutes(cmp, s[..|s| - 1], x);
      assert s == s[..|s| - 1] + [s[|s| - 1]];
    }
  }

  /** Each element inserted, in order, into the sorted prefix before it. */
  function Sort<T>(cmp: Comparator<T>, s: seq<T>): (r: seq<T>)
    ensures |r| == |s|
  {
    if s == [] then [] else Insert(cmp, Sort(cmp, s[..|s| - 1]), s[|s| - 1])
  }

  lemma {:induction false} InsertSorted<T(!new)>(cmp: Comparator<T>, s: seq<T>, x: T)
    requires Consistent(cmp) && Sorted(cmp, s)
    ensures Sorted(cmp, Insert(cmp, s, x))
  {
    if s != [] {
      var last := s[|s| - 1];
      if cmp(last, x) > 0 {
        var init := s[..|s| - 1];
        assert Sorted(cmp, init);
        InsertSorted(cmp, init, x);
        assert cmp(x, last) < 0;
        InsertBefore(cmp, s, x);
      } else {
        forall i | 0 <= i < |s| ensures cmp(s[i], x) <= 0 {
          if i < |s| - 1 {
            assert cmp(s[i], last) <= 0;
          }
        }
        InsertAfter(cmp, s, x);
      }
    }
  }

  /** x goes before the last element: the sorted front, then the last element, which exceeds all of it. */
  lemma InsertBefore<T>(cmp: Comparator<T>, s: seq<T>, x: T)
    requires s != [] && Sorted(cmp, s)
    requires cmp(s[|s| - 1], x) > 0 && cmp(x, s[|s| - 1]) < 0
    requires Sorted(cmp, Insert(cmp, s[..|s| - 1], x))
    ensures Sorted(cmp, Insert(cmp, s, x))
  {
    var last := s[|s| - 1];
    var init := s[..|s| - 1];
    var front := Insert(cmp, init, x);
    var r := Insert(cmp, s, x);
    InsertPermutes(cmp, init, x);
    assert r == front + [last];
    forall y | y in front ensures cmp(y, last) <= 0 {
      assert y in multiset(front);
      if y != x {
        assert y in multiset(init);
        var k :| 0 <= k < |init| && init[k] == y;
        assert s[k] == y;
      }
    }
    forall i, j | 0 <= i < j < |r| ensures cmp(r[i], r[j]) <= 0 {
      if j == |r| - 1 {
        assert r[i] == front[i] && r[i] in front;
      } else {
        assert r[i] == front[i] && r[j] == front[j];
      }
    }
  }

  /** x goes last: everything before it may precede it. */
  lemma InsertAfter<T>(cmp: Comparator<T>, s: seq<T>, x: T)
    requires s != [] && Sorted(cmp, s)
    requires forall i :: 0 <= i < |s| ==> cmp(s[i], x) <= 0
    ensures Sorted(cmp, Insert(cmp, s, x))
  {
    var r := Insert(cmp, s, x);
    assert r == s + [x];
    forall i, j | 0 <= i < j < |r| ensures cmp(r[i], r[j]) <= 0 {
      if j == |r| - 1 {
        assert r[i] == s[i];
      } else {
        assert r[i] == s[i] && r[j] == s[j];
      }
    }
  }

  /** A consistent comparator's sort is sorted. */
  lemma {:induction false} SortedBySort<T(!new)>(cmp: Comparator<T>, s: seq<T>)
    requires Consistent(cmp)
    ensures Sorted(cmp, Sort(cmp, s))
  {
    if s != [] {
      SortedBySort(cmp, s[..|s| - 1]);
      InsertSorted(cmp, Sort(cmp, s[..|s| - 1]), s[|s| - 1]);
    }
  }

  /** The sort is a permutation of its input. */
  lemma {:induction false} SortPermutes<T>(cmp: Comparator<T>, s: seq<T>)
    ensures multiset(Sort(cmp, s)) == multiset(s)
  {
    if s != [] {
      var init, last := s[..|s| - 1], s[|s| - 1];
      calc {
        multiset(Sort(cmp, s));
        multiset(Insert(cmp, Sort(cmp, init), last));
      == { InsertPermutes(cmp, Sort(cmp, init), last); }
        multiset(Sort(cmp, init)) + multiset{last};
      == { SortPermutes(cmp, init); }
        multiset(init) + multiset{last};
        multiset(init + [last]);
      == { assert init + [last] == s; }
        multiset(s);
      }
    }
  }

  /** Input already in order is left exactly as it is. */
  lemma {:induction false} SortOfSorted<T>(cmp: Comparator<T>, s: seq<T>)
    requires forall i :: 0 <= i < |s| - 1 ==> cmp(s[i], s[i + 1]) <= 0
    ensures Sort(cmp, s) == s
  {
    if s != [] {
      var init := s[..|s| - 1];
      SortOfSorted(cmp, init);
      if init != [] {
        assert init[|init| - 1] == s[|s| - 2];
      }
      assert init + [s[|s| - 1]] == s;
    }
  }

  /** The elements of s that compare equal to x, in their order in s. */
  function Ties<T>(cmp: Comparator<T>, x: T, s: seq<T>): seq<T>
  {
    if s == [] then []
    else Ties(cmp, x, s[..|s| - 1]) + (if cmp(s[|s| - 1], x) == 0 then [s[|s| - 1]] else [])
  }

  /**
   * Inserting z keeps the elements tied with x in their order, and puts z
   * after all of them when z is tied with x too.
   */
  lemma {:induction false} InsertTies<T(!new)>(cmp: Comparator<T>, x: T, t: seq<T>, z: T)
    requires Consistent(cmp)
    ensures Ties(cmp, x, Insert(cmp, t, z)) == Ties(cmp, x, t) + (if cmp(z, x) == 0 then [z] else [])
  {
    if t == [] {
      assert [z][..0] == [];
    } else {
      var init, last := t[..|t| - 1], t[|t| - 1];
      if cmp(last, z) > 0 {
        var u := Insert(cmp, init, z);
        InsertTies(cmp, x, init, z);
        assert (u + [last])[..|u + [last]| - 1] == u;
        assert cmp(z, x) == 0 ==> cmp(last, x) != 0 by {
          if cmp(z, x) == 0 {
            assert cmp(x, z) == 0;
          }
        }
      } else {
        assert (t + [z])[..|t|] == t;
      }
    }
  }

  /**
   * Stability: for every x, the elements that compare equal to x come out of
   * the sort in the order they went in.
   */
  lemma {:induction false} SortStable<T(!new)>(cmp: Comparator<T>, x: T, s: seq<T>)
    requires Consistent(cmp)
    ensures Ties(cmp, x, Sort(cmp, s)) == Ties(cmp, x, s)
  {
    if s != [] {
      SortStable(cmp, x, s[..|s| - 1]);
      InsertTies(cmp, x, Sort(cmp, s[..|s| - 1]), s[|s| - 1]);
    }
  }

  /** One step of the backward scan: an element greater than x moves behind it. */
  lemma InsertPast<T>(cmp: Comparator<T>, s: seq<T>, j: nat, x: T)
    requires 0 < j <= |s| && cmp(s[j - 1], x) > 0
    ensures Insert(cmp, s[..j], x) + s[j..] == Insert(cmp, s[..j - 1], x) + s[j - 1..]
  {
    assert s[..j][..j - 1] == s[..j - 1];
    assert s[j - 1..] == [s[j - 1]] + s[j..];
  }

  /** Where the backward scan stops, x goes right there. */
  lemma InsertHere<T>(cmp: Comparator<T>, s: seq<T>, j: nat, x: T)
    requires j <= |s| && (j == 0 || cmp(s[j - 1], x) <= 0)
    ensures Insert(cmp, s[..j], x) == s[..j] + [x]
  {
  }

  lemma SortSnoc<T>(cmp: Comparator<T>, s: seq<T>, i: nat)
    requires i < |s|
    ensures Sort(cmp, s[..i + 1]) == Insert(cmp, Sort(cmp, s[..i]), s[i])
  {
    assert s[..i + 1][..i] == s[..i];
  }

  /** Sorts a in place by insertion; the array ends up holding Sort of its old contents. */
  method InsertionSort<T>(a: array<T>, cmp: Comparator<T>)
    modifies a
    ensures a[..] == Sort(cmp, old(a[..]))
  {
    ghost var input := a[..];
    var i := 0;
    while i < a.Length
      invariant 0 <= i <= a.Length
      invariant a[..i] == Sort(cmp, input[..i])
      invariant a[i..] == input[i..]
    {
      assert a[i] == input[i];
      InsertAt(a, i, cmp);
      SortSnoc(cmp, input, i);
      assert a[i + 1..] == input[i + 1..];
      i := i + 1;
    }
    assert input[..a.Length] == input;
  }

  /** Moves a[i] back into the sorted prefix a[..i], shifting the greater elements up one place. */
  method InsertAt<T>(a: array<T>, i: nat, cmp: Comparator<T>)
    requires i < a.Length
    modifies a
    ensures a[..i + 1] == Insert(cmp, old(a[..i]), old(a[i]))
    ensures forall k :: i < k < a.Length ==> a[k] == old(a[k])
  {
    ghost var s := a[..i];
    var x := a[i];
    var j := i;
    assert s[..j] == s && s[j..] == [];
    while j > 0 && cmp(a[j - 1], x) > 0
      invariant 0 <= j <= i
      invariant forall k :: 0 <= k < j ==> a[k] == s[k]
      invariant forall k :: j < k <= i ==> a[k] == s[k - 1]
      invariant forall k :: i < k < a.Length ==> a[k] == old(a[k])
      invariant Insert(cmp, s, x) == Insert(cmp, s[..j], x) + s[j..]
    {
      InsertPast(cmp, s, j, x);
      a[j] := a[j - 1];
      j := j - 1;
    }
    a[j] := x;
    InsertHere(cmp, s, j, x);
    Shifted(a[..i + 1], s, j, x);
  }

  /** s with x placed at index j and the elements from j on moved up one place. */
  lemma Shifted<T>(t: seq<T>, s: seq<T>, j: nat, x: T)
    requires j <= |s| && |t| == |s| + 1 && t[j] == x
    requires forall k :: 0 <= k < j ==> t[k] == s[k]
    requires forall k :: j < k <= |s| ==> t[k] == s[k - 1]
    ensures t == s[..j] + [x] + s[j..]
  {
    var r := s[..j] + [x] + s[j..];
    forall k | 0 <= k < |t| ensures t[k] == r[k] {
      if k > j {
        assert r[k] == s[k - 1];
      }
    }
  }
}
