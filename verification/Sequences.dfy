/** Facts about Python lists that several components rely on. */
module Sequences {
  import opened Wrappers

  ghost predicate NoDuplicates<T>(s: seq<T>) {
    forall i, j :: 0 <= i < j < |s| ==> s[i] != s[j]
  }

  /** The elements of a list. */
  function Elements<T>(s: seq<T>): set<T> {
    set x | x in s
  }

  /** Python's list.remove: drops the first equal element; None is its ValueError. */
  function ListRemove<T(==)>(s: seq<T>, x: T): (r: Option<seq<T>>)
    ensures r.Some? <==> x in s
    ensures r.Some? ==> multiset(r.value) == multiset(s) - multiset{x}
  {
    if s == [] then None
    else if s[0] == x then
      assert s == [x] + s[1..];
      Some(s[1..])
    else
      assert s == [s[0]] + s[1..];
      var rest := ListRemove(s[1..], x);
      if rest.None? then None else Some([s[0]] + rest.value)
  }

  lemma DropAfterHead<T>(s: seq<T>, j: nat)
    requires j + 1 < |s|
    ensures s[..j + 1] + s[j + 2..] == [s[0]] + (s[1..][..j] + s[1..][j + 1..])
  {
  }

  lemma {:induction false} FirstIndexIsFirst<T>(s: seq<T>, x: T)
    requires x in s
    ensures FirstIndex(s, x) < |s| && s[FirstIndex(s, x)] == x
    ensures forall i :: 0 <= i < FirstIndex(s, x) ==> s[i] != x
  {
    if s[0] != x {
      FirstIndexIsFirst(s[1..], x);
      assert forall i :: 0 < i < |s| ==> s[i] == s[1..][i - 1];
    }
  }

  /** Removal takes out the first occurrence and leaves everything else in order. */
  lemma {:induction false} ListRemoveFirst<T>(s: seq<T>, x: T)
    requires x in s
    ensures FirstIndex(s, x) < |s|
    ensures ListRemove(s, x) == Some(s[..FirstIndex(s, x)] + s[FirstIndex(s, x) + 1..])
  {
    FirstIndexIsFirst(s, x);
    if s[0] == x {
      assert s[..0] + s[1..] == s[1..];
    } else {
      var f := FirstIndex(s[1..], x);
      ListRemoveFirst(s[1..], x);
      DropAfterHead(s, f);
      assert FirstIndex(s, x) == f + 1;
      assert ListRemove(s, x) == Some([s[0]] + (s[1..][..f] + s[1..][f + 1..]));
    }
  }

  /** On a list without duplicates, removal takes out exactly that element and keeps the rest distinct. */
  lemma {:induction false} ListRemoveDistinct<T>(s: seq<T>, x: T)
    requires NoDuplicates(s) && x in s
    ensures NoDuplicates(ListRemove(s, x).value)
    ensures forall y :: y in ListRemove(s, x).value <==> y in s && y != x
  {
    var r := ListRemove(s, x).value;
    var t := s[1..];
    assert s == [s[0]] + t;
    if s[0] != x {
      ListRemoveDistinct(t, x);
      var u := ListRemove(t, x).value;
      assert r == [s[0]] + u;
      assert s[0] !in t;
      forall j | 0 <= j < |u| ensures s[0] != u[j] {
        assert u[j] in u;
      }
    }
  }

  lemma AppendDistinct<T>(s: seq<T>, x: T)
    requires NoDuplicates(s)
    ensures forall y :: y in s + [x] <==> y in s || y == x
    ensures x !in s ==> NoDuplicates(s + [x])
  {
  }

  /** A list without duplicates is as long as its element set. */
  lemma {:induction false} DistinctSize<T>(s: seq<T>)
    requires NoDuplicates(s)
    ensures |Elements(s)| == |s|
  {
    if s != [] {
      var t := s[..|s| - 1];
      assert s == t + [s[|s| - 1]];
      DistinctSize(t);
      assert Elements(s) == Elements(t) + {s[|s| - 1]};
    }
  }

  /** The two parts of a list without duplicates have none and share nothing. */
  lemma DistinctParts<T>(a: seq<T>, b: seq<T>)
    requires NoDuplicates(a + b)
    ensures NoDuplicates(a) && NoDuplicates(b)
    ensures forall x :: x in a ==> x !in b
  {
    var s := a + b;
    assert forall i :: 0 <= i < |a| ==> a[i] == s[i];
    assert forall j :: 0 <= j < |b| ==> b[j] == s[|a| + j];
  }

  /** A list without any occurrence of an element, in the same order. */
  function Without<T(==, !new)>(s: seq<T>, x: T): (r: seq<T>)
    ensures forall y :: y in r <==> y in s && y != x
    ensures x !in s ==> r == s
  {
    if s == [] then []
    else
      var head := Without(s[..|s| - 1], x);
      var last := s[|s| - 1];
      assert s == s[..|s| - 1] + [last];
      if last == x then head else head + [last]
  }

  lemma {:induction false} WithoutSplit<T(!new)>(a: seq<T>, b: seq<T>, k: T)
    ensures Without(a + b, k) == Without(a, k) + Without(b, k)
  {
    if b == [] {
      assert a + b == a;
    } else {
      var c := b[..|b| - 1];
      assert (a + b)[..|a + b| - 1] == a + c;
      WithoutSplit(a, c, k);
    }
  }

  lemma WithoutMiddle<T(!new)>(a: seq<T>, x: T, b: seq<T>)
    requires x !in a && x !in b
    ensures Without(a + [x] + b, x) == a + b
  {
    WithoutSplit(a + [x], b, x);
    WithoutSplit(a, [x], x);
    assert Without([x], x) == [];
  }

  /** The element at an index of a list without duplicates is nowhere else in it. */
  lemma SplitAround<T>(s: seq<T>, i: nat)
    requires NoDuplicates(s) && i < |s|
    ensures s[..i + 1][..i] == s[..i] && s[i..] == [s[i]] + s[i + 1..]
    ensures s[i] in s && s[i] !in s[..i] && s[i] !in s[i + 1..] && NoDuplicates(s[..i])
    ensures Elements(s[..i + 1]) == Elements(s[..i]) + {s[i]} && Elements(s[i..]) == {s[i]} + Elements(s[i + 1..])
  {
    assert s[..i + 1] == s[..i] + [s[i]];
  }

  lemma {:induction false} WithoutDistinct<T(!new)>(s: seq<T>, x: T)
    requires NoDuplicates(s)
    ensures NoDuplicates(Without(s, x))
    ensures x in s ==> |Without(s, x)| == |s| - 1
  {
    if s != [] {
      var t := s[..|s| - 1];
      assert s == t + [s[|s| - 1]];
      WithoutDistinct(t, x);
      assert s[|s| - 1] !in t;
      AppendDistinct(Without(t, x), s[|s| - 1]);
    }
  }

  /** Where an element first occurs, or the length of a list that lacks it. */
  function FirstIndex<T(==)>(s: seq<T>, x: T): nat {
    if s == [] || s[0] == x then 0 else 1 + FirstIndex(s[1..], x)
  }

  /** Appending to a list moves no first occurrence. */
  lemma {:induction false} FirstIndexExtends<T>(s: seq<T>, last: T, x: T)
    ensures x in s ==> FirstIndex(s + [last], x) == FirstIndex(s, x) && FirstIndex(s, x) < |s| && s[FirstIndex(s, x)] == x
    ensures x !in s ==> FirstIndex(s + [last], x) >= |s|
  {
    if s != [] {
      assert (s + [last])[1..] == s[1..] + [last];
      assert s == [s[0]] + s[1..];
      FirstIndexExtends(s[1..], last, x);
    }
  }
}
