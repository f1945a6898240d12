/** Options, the byte order on strings and sorting, shared by the component models.

    The source sorts with Go's `sort.Slice`, `sort.Strings` and `slices.SortFunc`, none of which is
    stable. The lemmas below say when that does not matter: on distinct, totally ordered elements a
    sorted permutation is unique, so every sorting algorithm returns the same list.
 */
module Ordering {

  datatype Option<+T> = None | Some(value: T)

  /** Go's `<` on strings: lexicographic, a proper prefix is smaller. */
  predicate StringLess(a: string, b: string)
  {
    if b == [] then false
    else if a == [] then true
    else if a[0] != b[0] then a[0] < b[0]
    else StringLess(a[1..], b[1..])
  }

  /** `a` and `b` agree up to `k`, and there `a` is over or has the smaller character. */
  predicate SmallerAt(a: string, b: string, k: nat)
  {
    k <= |a| && k < |b| && a[..k] == b[..k] && (k == |a| || a[k] < b[k])
  }

  lemma SmallerAtTail(a: string, b: string, k: nat)
    requires a != [] && b != [] && a[0] == b[0]
    ensures SmallerAt(a, b, k + 1) <==> SmallerAt(a[1..], b[1..], k)
  {
    if k < |a| && k + 1 < |b| {
      assert a[..k + 1] == [a[0]] + a[1..][..k] && b[..k + 1] == [b[0]] + b[1..][..k];
    }
  }

  /** The order said without recursion. */
  lemma {:induction false} StringLessAtFirstDifference(a: string, b: string)
    ensures StringLess(a, b) <==> exists k: nat :: SmallerAt(a, b, k)
  {
    if a != [] && b != [] && a[0] == b[0] {
      StringLessAtFirstDifference(a[1..], b[1..]);
      if StringLess(a, b) {
        var k: nat :| SmallerAt(a[1..], b[1..], k);
        SmallerAtTail(a, b, k);
      }
      if k: nat :| SmallerAt(a, b, k) && k > 0 { SmallerAtTail(a, b, k - 1); }
    } else {
      assert StringLess(a, b) ==> SmallerAt(a, b, 0);
      forall k: nat | SmallerAt(a, b, k) ensures k == 0 {}
    }
  }

  lemma StringLessIrreflexive(a: string)
    ensures !StringLess(a, a)
  {
  }

  lemma {:induction false} StringLessTransitive(a: string, b: string, c: string)
    requires StringLess(a, b) && StringLess(b, c)
    ensures StringLess(a, c)
  {
    if a != [] && a[0] == b[0] == c[0] {
      StringLessTransitive(a[1..], b[1..], c[1..]);
    }
  }

  lemma {:induction false} StringLessTotal(a: string, b: string)
    requires a != b
    ensures StringLess(a, b) || StringLess(b, a)
  {
    if a != [] && b != [] && a[0] == b[0] {
      assert a == [a[0]] + a[1..] && b == [b[0]] + b[1..];
      StringLessTotal(a[1..], b[1..]);
    }
  }

  /** `less` is a strict total order on the elements of `s`. */
  ghost predicate StrictOn<T(!new)>(less: (T, T) -> bool, s: seq<T>)
  {
    && (forall x :: x in s ==> !less(x, x))
    && (forall x, y, z :: x in s && y in s && z in s && less(x, y) && less(y, z) ==> less(x, z))
    && (forall x, y :: x in s && y in s && x != y ==> less(x, y) || less(y, x))
  }

  ghost predicate Sorted<T>(less: (T, T) -> bool, s: seq<T>)
  {
    forall i, j :: 0 <= i < j < |s| ==> less(s[i], s[j])
  }

  ghost predicate NoDuplicates<T>(s: seq<T>)
  {
    forall i, j :: 0 <= i < j < |s| ==> s[i] != s[j]
  }

  function Insert<T(!new)>(less: (T, T) -> bool, x: T, s: seq<T>): (r: seq<T>)
    ensures multiset(r) == multiset(s) + multiset{x}
    ensures forall y :: y in r <==> y == x || y in s
  {
    if s == [] then [x]
    else if less(x, s[0]) then [x] + s
    else
      assert s == [s[0]] + s[1..];
      [s[0]] + Insert(less, x, s[1..])
  }

  function Sort<T(!new)>(less: (T, T) -> bool, s: seq<T>): (r: seq<T>)
    ensures multiset(r) == multiset(s)
    ensures forall y :: y in r <==> y in s
  {
    if s == [] then []
    else
      assert s == [s[0]] + s[1..];
      Insert(less, s[0], Sort(less, s[1..]))
  }

  lemma {:induction false} InsertSorted<T(!new)>(less: (T, T) -> bool, x: T, s: seq<T>)
    requires Sorted(less, s) && x !in s && StrictOn(less, s + [x])
    ensures Sorted(less, Insert(less, x, s))
  {
    if s != [] {
      var u := s + [x];
      assert x in u && forall y :: y in s ==> y in u;
      if less(x, s[0]) {
        forall i | 0 <= i < |s| ensures less(x, s[i]) {
          assert s[i] in u && s[0] in u;
        }
      } else {
        assert s[0] in u && less(s[0], x);
        assert forall y :: y in s[1..] + [x] ==> y in u;
        InsertSorted(less, x, s[1..]);
        var r := Insert(less, x, s[1..]);
        forall i | 0 <= i < |r| ensures less(s[0], r[i]) {
          assert r[i] in r;
        }
      }
    }
  }

  lemma {:induction false} SortSorted<T(!new)>(less: (T, T) -> bool, s: seq<T>)
    requires NoDuplicates(s) && StrictOn(less, s)
    ensures Sorted(less, Sort(less, s))
  {
    if s != [] {
      var t := Sort(less, s[1..]);
      assert forall y :: y in t + [s[0]] ==> y in s;
      SortSorted(less, s[1..]);
      assert s[0] !in s[1..];
      InsertSorted(less, s[0], t);
    }
  }

  lemma SortedHead<T(!new)>(less: (T, T) -> bool, a: seq<T>, b: seq<T>)
    requires Sorted(less, a) && Sorted(less, b) && a != [] && b != []
    requires StrictOn(less, a) && a[0] in b && b[0] in a
    ensures a[0] == b[0]
  {
  }

  lemma MultisetTail<T>(s: seq<T>)
    requires s != []
    ensures multiset(s[1..]) == multiset(s) - multiset{s[0]}
  {
    assert s == [s[0]] + s[1..];
  }

  /** A strictly sorted list is determined by its elements. */
  lemma {:induction false} SortedIsUnique<T(!new)>(less: (T, T) -> bool, a: seq<T>, b: seq<T>)
    requires Sorted(less, a) && Sorted(less, b) && multiset(a) == multiset(b)
    requires StrictOn(less, a)
    ensures a == b
  {
    assert |a| == |b| by { assert |multiset(a)| == |multiset(b)|; }
    if a != [] {
      assert a[0] in multiset(b) && b[0] in multiset(a);
      SortedHead(less, a, b);
      MultisetTail(a);
      MultisetTail(b);
      StrictOnTail(less, a);
      SortedIsUnique(less, a[1..], b[1..]);
    }
  }

  /** … and so, having no duplicates, by the set of its elements. */
  lemma {:induction false} SortedBySetIsUnique<T(!new)>(less: (T, T) -> bool, a: seq<T>, b: seq<T>)
    requires Sorted(less, a) && Sorted(less, b) && StrictOn(less, a) && forall x :: x in a <==> x in b
    ensures a == b
  {
    assert a == [] <==> b == [] by {
      assert a != [] ==> a[0] in b;
      assert b != [] ==> b[0] in a;
    }
    if a != [] {
      assert a[0] in b && b[0] in a;
      SortedHead(less, a, b);
      assert a == [a[0]] + a[1..] && b == [b[0]] + b[1..];
      forall x ensures x in a[1..] <==> x in b[1..] {
        assert x in a[1..] <==> x in a && x != a[0];
        assert x in b[1..] <==> x in b && x != b[0];
      }
      StrictOnTail(less, a);
      SortedBySetIsUnique(less, a[1..], b[1..]);
    }
  }

  lemma StrictOnTail<T(!new)>(less: (T, T) -> bool, s: seq<T>)
    requires s != [] && StrictOn(less, s)
    ensures StrictOn(less, s[1..])
  {
    assert forall y :: y in s[1..] ==> y in s;
  }

  /** Sorting forgets the order in which distinct, totally ordered elements were listed. */
  lemma SortForgetsOrder<T(!new)>(less: (T, T) -> bool, s: seq<T>, t: seq<T>)
    requires multiset(s) == multiset(t) && NoDuplicates(s) && StrictOn(less, s)
    ensures Sort(less, s) == Sort(less, t)
  {
    forall x ensures x in s <==> x in t {
      assert x in s <==> x in multiset(s);
      assert x in t <==> x in multiset(t);
    }
    PermutationHasNoDuplicates(s, t);
    SortSorted(less, s);
    SortSorted(less, t);
    assert forall y :: y in Sort(less, s) ==> y in s;
    SortedIsUnique(less, Sort(less, s), Sort(less, t));
  }

  lemma PermutationHasNoDuplicates<T(!new)>(s: seq<T>, t: seq<T>)
    requires multiset(s) == multiset(t) && NoDuplicates(s)
    ensures NoDuplicates(t)
  {
    forall i, j | 0 <= i < j < |t| ensures t[i] != t[j] {
      if t[i] == t[j] {
        assert t == t[..i] + [t[i]] + t[i + 1..j] + [t[j]] + t[j + 1..];
        assert multiset(s)[t[i]] >= 2;
        NoDuplicatesCount(s, t[i]);
      }
    }
  }

  lemma {:induction false} NoDuplicatesCount<T(!new)>(s: seq<T>, x: T)
    requires NoDuplicates(s)
    ensures multiset(s)[x] <= 1
  {
    if s != [] {
      assert s == [s[0]] + s[1..];
      NoDuplicatesCount(s[1..], x);
    }
  }

  lemma StringsAreStrict(s: seq<string>)
    ensures StrictOn(StringLess, s)
  {
    forall x | x in s ensures !StringLess(x, x) { StringLessIrreflexive(x); }
    forall x, y, z | x in s && y in s && z in s && StringLess(x, y) && StringLess(y, z) ensures StringLess(x, z) {
      StringLessTransitive(x, y, z);
    }
    forall x, y | x in s && y in s && x != y ensures StringLess(x, y) || StringLess(y, x) {
      StringLessTotal(x, y);
    }
  }
}
