/** Ordered lists without repetition: the vocabulary the stores and the registry are specified in. */
module Sequences {

  ghost predicate Distinct<T>(s: seq<T>) {
    forall i, j :: 0 <= i < j < |s| ==> s[i] != s[j]
  }

  function Elements<T(==)>(s: seq<T>): set<T> {
    set x | x in s
  }

  /** The elements of `s` that are not in `drop`, in order. */
  function Without<T(==)>(s: seq<T>, drop: set<T>): seq<T> {
    if s == [] then []
    else if s[0] in drop then Without(s[1..], drop)
    else [s[0]] + Without(s[1..], drop)
  }

  /** The first occurrence of every element of `s`, in order. */
  function Dedup<T(==)>(s: seq<T>): seq<T> {
    if s == [] then [] else [s[0]] + Without(Dedup(s[1..]), {s[0]})
  }

  /** `slices.Contains` then `append`. */
  function AppendNew<T(==)>(s: seq<T>, x: T): seq<T> {
    if x in s then s else s + [x]
  }

  /** Appending every element of `xs` in turn, skipping those already there. */
  function AppendAllNew<T(==)>(s: seq<T>, xs: seq<T>): seq<T> {
    if xs == [] then s else AppendNew(AppendAllNew(s, xs[..|xs| - 1]), xs[|xs| - 1])
  }

  lemma {:induction false} WithoutElements<T>(s: seq<T>, drop: set<T>)
    ensures forall x :: x in Without(s, drop) <==> x in s && x !in drop
  {
    if s == [] {
    } else {
      WithoutElements(s[1..], drop);
      assert s == [s[0]] + s[1..];
    }
  }

  lemma {:induction false} WithoutDistinct<T>(s: seq<T>, drop: set<T>)
    requires Distinct(s)
    ensures Distinct(Without(s, drop))
  {
    if s == [] {
    } else {
      WithoutDistinct(s[1..], drop);
      WithoutElements(s[1..], drop);
    }
  }

  lemma {:induction false} WithoutNothing<T>(s: seq<T>, drop: set<T>)
    requires forall x :: x in s ==> x !in drop
    ensures Without(s, drop) == s
  {
    if s == [] {
    } else {
      assert s[0] in s;
      assert forall x :: x in s[1..] ==> x in s;
      WithoutNothing(s[1..], drop);
    }
  }

  lemma {:induction false} WithoutConcat<T>(a: seq<T>, b: seq<T>, drop: set<T>)
    ensures Without(a + b, drop) == Without(a, drop) + Without(b, drop)
  {
    if a == [] {
      assert a + b == b;
    } else {
      assert (a + b)[1..] == a[1..] + b;
      WithoutConcat(a[1..], b, drop);
    }
  }

  /** Dropping an element of a list without repetition is leaving out its position. */
  lemma {:induction false} WithoutAt<T>(s: seq<T>, i: nat)
    requires Distinct(s) && i < |s|
    ensures Without(s, {s[i]}) == s[..i] + s[i + 1..]
  {
    var rest := s[1..];
    if i == 0 {
      assert s[0] !in rest;
      WithoutNothing(rest, {s[0]});
    } else {
      assert rest[i - 1] == s[i] && s[0] != s[i];
      WithoutAt(rest, i - 1);
      assert s[..i] == [s[0]] + rest[..i - 1];
      assert s[i + 1..] == rest[i..];
    }
  }

  lemma {:induction false} WithoutTwice<T>(s: seq<T>, d1: set<T>, d2: set<T>)
    ensures Without(Without(s, d1), d2) == Without(s, d1 + d2)
  {
    if s == [] {
    } else {
      WithoutTwice(s[1..], d1, d2);
      if s[0] !in d1 {
        assert Without(s, d1)[1..] == Without(s[1..], d1);
      }
    }
  }

  lemma {:induction false} DedupElements<T>(s: seq<T>)
    ensures forall x :: x in Dedup(s) <==> x in s
  {
    if s == [] {
    } else {
      DedupElements(s[1..]);
      WithoutElements(Dedup(s[1..]), {s[0]});
      assert s == [s[0]] + s[1..];
    }
  }

  lemma {:induction false} DedupDistinct<T>(s: seq<T>)
    ensures Distinct(Dedup(s))
  {
    if s == [] {
    } else {
      DedupDistinct(s[1..]);
      WithoutDistinct(Dedup(s[1..]), {s[0]});
      WithoutElements(Dedup(s[1..]), {s[0]});
    }
  }

  lemma {:induction false} DedupConcat<T>(a: seq<T>, b: seq<T>)
    ensures Dedup(a + b) == Dedup(a) + Without(Dedup(b), Elements(a))
  {
    if a == [] {
      assert a + b == b;
      WithoutNothing(Dedup(b), Elements(a));
    } else {
      var r := a[1..];
      assert (a + b)[1..] == r + b;
      DedupConcat(r, b);
      WithoutConcat(Dedup(r), Without(Dedup(b), Elements(r)), {a[0]});
      WithoutTwice(Dedup(b), Elements(r), {a[0]});
      assert a == [a[0]] + r;
      assert Elements(r) + {a[0]} == Elements(a);
    }
  }

  /** Adding one element to a list already seen: the incremental form the code uses. */
  lemma DedupSnoc<T>(s: seq<T>, x: T)
    ensures Dedup(s + [x]) == AppendNew(Dedup(s), x)
  {
    DedupConcat(s, [x]);
    DedupElements(s);
    assert Dedup([x]) == [x];
    if x in s {
      assert Without([x], Elements(s)) == [];
    } else {
      assert Without([x], Elements(s)) == [x];
    }
  }

  lemma {:induction false} AppendAllNewIsDedup<T>(s: seq<T>, xs: seq<T>)
    requires Dedup(s) == s
    ensures AppendAllNew(s, xs) == Dedup(s + xs)
  {
    if xs == [] {
      assert s + xs == s;
    } else {
      var init, last := xs[..|xs| - 1], xs[|xs| - 1];
      AppendAllNewIsDedup(s, init);
      DedupSnoc(s + init, last);
      assert s + xs == (s + init) + [last];
    }
  }

  lemma {:induction false} DistinctIsDedup<T>(s: seq<T>)
    requires Distinct(s)
    ensures Dedup(s) == s
  {
    if s == [] {
    } else {
      DistinctIsDedup(s[1..]);
      WithoutNothing(s[1..], {s[0]});
    }
  }

  /** At most `bound` different numbers lie below `bound`. */
  lemma DistinctBounded(s: seq<nat>, bound: nat)
    requires Distinct(s) && forall x :: x in s ==> x < bound
    ensures |s| <= bound
  {
    DistinctLength(s);
    NumbersBelow(bound);
    SubsetSize(Elements(s), Below(bound));
  }

  function Below(n: nat): set<nat> {
    if n == 0 then {} else Below(n - 1) + {n - 1}
  }

  lemma {:induction false} NumbersBelow(n: nat)
    ensures |Below(n)| == n
    ensures forall i: nat :: i in Below(n) <==> i < n
  {
    if n == 0 {
    } else {
      NumbersBelow(n - 1);
    }
  }

  lemma {:induction false} DistinctLength<T>(s: seq<T>)
    requires Distinct(s)
    ensures |Elements(s)| == |s|
  {
    if s == [] {
    } else {
      DistinctLength(s[1..]);
      assert s == [s[0]] + s[1..];
      assert Elements(s) == {s[0]} + Elements(s[1..]);
    }
  }

  lemma {:induction false} SubsetSize<T>(a: set<T>, b: set<T>)
    requires a <= b
    ensures |a| <= |b|
  {
    if a == {} {
    } else {
      var x :| x in a;
      SubsetSize(a - {x}, b - {x});
    }
  }
}
