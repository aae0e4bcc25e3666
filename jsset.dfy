/**
 * A JavaScript Set of strings, which remembers insertion order: a sequence
 * without repeated elements. The watchlist and the subscriber list are Sets.
 */
module JsSet {

  predicate Distinct<T(==,!new)>(s: seq<T>) {
    forall i, j :: 0 <= i < j < |s| ==> s[i] != s[j]
  }

  /** Set.prototype.add: appends x unless it is already there. */
  function Add<T(==,!new)>(s: seq<T>, x: T): (r: seq<T>)
    ensures forall y :: y in r <==> y in s || y == x
    ensures Distinct(s) ==> Distinct(r)
    ensures x in s ==> r == s
    ensures x !in s ==> r == s + [x]
  {
    if x in s then s else s + [x]
  }

  /** Set.prototype.delete: removes x, keeping the order of the rest. */
  function Delete<T(==,!new)>(s: seq<T>, x: T): (r: seq<T>)
    ensures forall y :: y in r <==> y in s && y != x
    ensures Distinct(s) ==> Distinct(r)
    ensures x !in s ==> r == s
    ensures |r| <= |s|
  {
    if s == [] then []
    else if s[0] == x then Delete(s[1..], x)
    else
      var rest := Delete(s[1..], x);
      assert Distinct(s) ==> s[0] !in s[1..] && Distinct(s[1..]) by {
        if Distinct(s) {
          forall j | 0 <= j < |s[1..]| ensures s[1..][j] != s[0] { assert s[j + 1] != s[0]; }
        }
      }
      [s[0]] + rest
  }

  /** Adds every element of a, in order: new Set(a) starts from the empty set. */
  function AddAll<T(==,!new)>(s: seq<T>, a: seq<T>): (r: seq<T>)
    ensures forall y :: y in r <==> y in s || y in a
    ensures Distinct(s) ==> Distinct(r)
    ensures |s| <= |r| && r[..|s|] == s
    decreases |a|
  {
    if a == [] then s else AddAll(Add(s, a[0]), a[1..])
  }

  /** new Set(a): the elements of a, each once, in order of first occurrence. */
  function FromArray<T(==,!new)>(a: seq<T>): (r: seq<T>)
    ensures forall y :: y in r <==> y in a
    ensures Distinct(r)
  {
    AddAll([], a)
  }

  /** Deleting an element that was just added to a set that lacked it gives the set back. */
  lemma {:induction false} DeleteAfterAdd<T(!new)>(s: seq<T>, x: T)
    requires x !in s
    ensures Delete(Add(s, x), x) == s
  {
    DeleteAppended(s, x);
  }

  lemma {:induction false} DeleteAppended<T(!new)>(s: seq<T>, x: T)
    requires x !in s
    ensures Delete(s + [x], x) == s
  {
    if s == [] {
      assert Delete([x], x) == Delete([], x);
    } else {
      assert (s + [x])[1..] == s[1..] + [x];
      DeleteAppended(s[1..], x);
      assert [s[0]] + s[1..] == s;
    }
  }

  /** Deleting an element found at a known position of a set leaves the elements on either side of it. */
  lemma {:induction false} DeleteAtSplit<T(!new)>(a: seq<T>, x: T, b: seq<T>)
    requires x !in a && x !in b
    ensures Delete(a + [x] + b, x) == a + b
  {
    if a == [] {
      assert a + [x] + b == [x] + b;
      assert ([x] + b)[1..] == b;
    } else {
      assert (a + [x] + b)[1..] == a[1..] + [x] + b;
      DeleteAtSplit(a[1..], x, b);
      assert [a[0]] + (a[1..] + b) == a + b;
    }
  }

  /** Adding back an element just deleted moves it to the end and keeps the other elements in order. */
  lemma AddAfterDelete<T(!new)>(s: seq<T>, x: T)
    requires x in s
    ensures Add(Delete(s, x), x) == Delete(s, x) + [x]
    ensures forall y :: y in Add(Delete(s, x), x) <==> y in s
  {
  }

  /** Adding the elements of a, none of them repeated nor already in s, appends them all. */
  lemma {:induction false} AddAllDistinct<T(!new)>(s: seq<T>, a: seq<T>)
    requires Distinct(s + a)
    ensures AddAll(s, a) == s + a
    decreases |a|
  {
    if a != [] {
      assert (s + a)[|s|] == a[0];
      assert a[0] !in s by {
        forall i | 0 <= i < |s| ensures s[i] != a[0] { assert (s + a)[i] == s[i]; }
      }
      assert s + a == (s + [a[0]]) + a[1..];
      AddAllDistinct(s + [a[0]], a[1..]);
    }
  }

  /** new Set(a) of an array without repeats keeps every element in place. */
  lemma FromArrayDistinct<T(!new)>(a: seq<T>)
    requires Distinct(a)
    ensures FromArray(a) == a
  {
    assert [] + a == a;
    AddAllDistinct([], a);
  }
}
