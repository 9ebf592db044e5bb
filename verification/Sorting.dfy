/** Sorting by a strict order. The sorts of the program need not be stable: the elements they are
    given are all different in the order, and then only one result is possible. */
module Sorting {

  ghost predicate InOrder<T>(s: seq<T>, before: (T, T) -> bool) {
    forall i, j :: 0 <= i < j < |s| ==> before(s[i], s[j])
  }

  /** `before` is a strict order on the elements of `s`. */
  ghost predicate StrictOn<T>(before: (T, T) -> bool, s: seq<T>) {
    && (forall x | x in s :: !before(x, x))
    && (forall x, y, z | x in s && y in s && z in s :: before(x, y) && before(y, z) ==> before(x, z))
  }

  /** Of two entries of `s` one comes before the other. */
  ghost predicate Separates<T>(before: (T, T) -> bool, s: seq<T>) {
    forall i, j :: 0 <= i < j < |s| ==> before(s[i], s[j]) || before(s[j], s[i])
  }

  function Insert<T>(x: T, s: seq<T>, before: (T, T) -> bool): seq<T> {
    if s == [] || !before(s[0], x) then [x] + s else [s[0]] + Insert(x, s[1..], before)
  }

  function Sort<T>(s: seq<T>, before: (T, T) -> bool): seq<T> {
    if s == [] then [] else Insert(s[0], Sort(s[1..], before), before)
  }

  lemma {:induction false} InsertElements<T>(x: T, s: seq<T>, before: (T, T) -> bool)
    ensures multiset(Insert(x, s, before)) == multiset(s) + multiset{x}
  {
    if s == [] {
    } else {
      InsertElements(x, s[1..], before);
      assert s == [s[0]] + s[1..];
    }
  }

  lemma InsertMembers<T>(x: T, s: seq<T>, before: (T, T) -> bool, y: T)
    requires y in Insert(x, s, before)
    ensures y == x || y in s
  {
    InsertElements(x, s, before);
    assert y in multiset(Insert(x, s, before));
  }

  lemma {:induction false} InsertInOrder<T>(x: T, s: seq<T>, before: (T, T) -> bool)
    requires StrictOn(before, [x] + s) && InOrder(s, before)
    requires forall y | y in s :: before(x, y) || before(y, x)
    ensures InOrder(Insert(x, s, before), before)
  {
    if s == [] {
    } else {
      var head, rest := s[0], s[1..];
      assert s == [head] + rest && x in [x] + s && forall y | y in s :: y in [x] + s;
      if before(head, x) {
        assert forall y | y in [x] + rest :: y in [x] + s;
        InsertInOrder(x, rest, before);
        var r := Insert(x, rest, before);
        forall j | 0 <= j < |r| ensures before(head, r[j]) {
          InsertMembers(x, rest, before, r[j]);
          if r[j] != x {
            var i :| 0 <= i < |rest| && rest[i] == r[j];
            assert s[i + 1] == r[j];
          }
        }
      } else {
        forall j | 0 <= j < |s| ensures before(x, s[j]) {
          assert s[j] in s && before(x, head);
        }
      }
    }
  }

  lemma StrictOnFewer<T>(before: (T, T) -> bool, s: seq<T>, t: seq<T>)
    requires StrictOn(before, s) && forall x | x in t :: x in s
    ensures StrictOn(before, t)
  {
  }

  /** Sorting yields the same elements in order. */
  lemma {:induction false} SortIsSorted<T>(s: seq<T>, before: (T, T) -> bool)
    requires StrictOn(before, s) && Separates(before, s)
    ensures InOrder(Sort(s, before), before)
    ensures multiset(Sort(s, before)) == multiset(s)
  {
    if s == [] {
    } else {
      var head, rest := s[0], s[1..];
      assert s == [head] + rest;
      StrictOnFewer(before, s, rest);
      SortIsSorted(rest, before);
      SortedOne(head, rest, Sort(rest, before), before);
      InsertElements(head, Sort(rest, before), before);
    }
  }

  lemma SortedOne<T>(head: T, rest: seq<T>, sorted: seq<T>, before: (T, T) -> bool)
    requires StrictOn(before, [head] + rest) && Separates(before, [head] + rest)
    requires InOrder(sorted, before) && multiset(sorted) == multiset(rest)
    ensures InOrder(Insert(head, sorted, before), before)
  {
    forall y | y in sorted ensures y in rest && (before(head, y) || before(y, head)) {
      assert y in multiset(rest);
      var i :| 0 <= i < |rest| && rest[i] == y;
      assert ([head] + rest)[0] == head && ([head] + rest)[i + 1] == y;
    }
    StrictOnFewer(before, [head] + rest, [head] + sorted);
    InsertInOrder(head, sorted, before);
  }

  /** There is only one way to put given elements in order. */
  lemma {:induction false} OrderedOnce<T>(s: seq<T>, t: seq<T>, before: (T, T) -> bool)
    requires StrictOn(before, s) && InOrder(s, before) && InOrder(t, before)
    requires (forall x | x in s :: x in t) && (forall x | x in t :: x in s)
    ensures s == t
  {
    EmptyTogether(s, t);
    EmptyTogether(t, s);
    if s == [] || t == [] {
    } else {
      assert s[0] in t && t[0] in s;
      SameFirst(s, t, before);
      SameRest(s, t, before);
      SameRest(t, s, before);
      StrictOnFewer(before, s, s[1..]);
      OrderedOnce(s[1..], t[1..], before);
      assert s == [s[0]] + s[1..] && t == [t[0]] + t[1..];
    }
  }

  lemma SameFirst<T>(s: seq<T>, t: seq<T>, before: (T, T) -> bool)
    requires s != [] && t != [] && s[0] in t && t[0] in s
    requires t[0] in s && StrictOn(before, s) && InOrder(s, before) && InOrder(t, before)
    ensures s[0] == t[0]
  {
    FirstIsFirst(s, t[0], before);
    FirstIsFirst(t, s[0], before);
    assert s[0] in s;
  }

  lemma FirstIsFirst<T>(s: seq<T>, x: T, before: (T, T) -> bool)
    requires InOrder(s, before) && x in s
    ensures x == s[0] || before(s[0], x)
  {
    var i :| 0 <= i < |s| && s[i] == x;
  }

  lemma EmptyTogether<T>(s: seq<T>, t: seq<T>)
    requires forall x | x in t :: x in s
    ensures s == [] ==> t == []
  {
    if t != [] {
      assert t[0] in s;
    }
  }

  lemma SameRest<T>(s: seq<T>, t: seq<T>, before: (T, T) -> bool)
    requires s != [] && t != [] && s[0] == t[0]
    requires InOrder(s, before) && !before(s[0], s[0])
    requires forall x | x in s :: x in t
    ensures forall x | x in s[1..] :: x in t[1..]
  {
    assert s == [s[0]] + s[1..] && t == [t[0]] + t[1..];
    forall x | x in s[1..] ensures x in t[1..] {
      var i :| 0 <= i < |s[1..]| && s[1..][i] == x;
      assert before(s[0], s[i + 1]);
      assert x in s;
    }
  }
}
