/** Stable sorting by a strict weak order, defined by what it must give rather than by an algorithm. */
module Sorting {
  /** Irreflexive, transitive, and with transitive ties. */
  ghost predicate StrictWeakOrder<T(!new)>(less: (T, T) -> bool) {
    && (forall a :: !less(a, a))
    && (forall a, b, c :: less(a, b) && less(b, c) ==> less(a, c))
    && (forall a, b, c :: less(a, c) ==> less(a, b) || less(b, c))
  }

  predicate Tied<T>(less: (T, T) -> bool, a: T, b: T) {
    !less(a, b) && !less(b, a)
  }

  ghost predicate Ordered<T>(less: (T, T) -> bool, s: seq<T>) {
    forall i, j :: 0 <= i < j < |s| ==> !less(s[j], s[i])
  }

  /** The elements tied with `x`, in their order. */
  function Ties<T>(less: (T, T) -> bool, s: seq<T>, x: T): seq<T> {
    if s == [] then []
    else
      var last := s[|s| - 1];
      if Tied(less, last, x) then Ties(less, s[..|s| - 1], x) + [last] else Ties(less, s[..|s| - 1], x)
  }

  /** `t` is `s` rearranged into order, with tied elements left in their order. */
  ghost predicate StablySorted<T(!new)>(less: (T, T) -> bool, s: seq<T>, t: seq<T>) {
    Ordered(less, t) && forall x :: Ties(less, t, x) == Ties(less, s, x)
  }

  // ---- It exists ----

  function Insert<T>(less: (T, T) -> bool, s: seq<T>, x: T): seq<T> {
    if s != [] && less(x, s[|s| - 1]) then Insert(less, s[..|s| - 1], x) + [s[|s| - 1]] else s + [x]
  }

  function StableSort<T>(less: (T, T) -> bool, s: seq<T>): seq<T> {
    if s == [] then [] else Insert(less, StableSort(less, s[..|s| - 1]), s[|s| - 1])
  }

  lemma TiesMore<T>(less: (T, T) -> bool, s: seq<T>, y: T, x: T)
    ensures Ties(less, s + [y], x) == if Tied(less, y, x) then Ties(less, s, x) + [y] else Ties(less, s, x)
  {
    assert (s + [y])[..|s|] == s;
  }

  lemma {:induction false} InsertTies<T(!new)>(less: (T, T) -> bool, s: seq<T>, y: T, x: T)
    requires StrictWeakOrder(less)
    ensures Ties(less, Insert(less, s, y), x) == Ties(less, s + [y], x)
  {
    TiesMore(less, s, y, x);
    if s != [] && less(y, s[|s| - 1]) {
      var front, last := s[..|s| - 1], s[|s| - 1];
      InsertTies(less, front, y, x);
      TiesMore(less, front, y, x);
      TiesMore(less, Insert(less, front, y), last, x);
      assert front + [last] == s;
      assert !(Tied(less, y, x) && Tied(less, last, x));
    }
  }

  lemma {:induction false} InsertMembers<T>(less: (T, T) -> bool, s: seq<T>, y: T)
    ensures multiset(Insert(less, s, y)) == multiset(s) + multiset{y}
  {
    if s != [] && less(y, s[|s| - 1]) {
      InsertMembers(less, s[..|s| - 1], y);
      FrontAndLast(s);
    }
  }

  lemma {:induction false} InsertOrdered<T(!new)>(less: (T, T) -> bool, s: seq<T>, y: T)
    requires StrictWeakOrder(less) && Ordered(less, s)
    ensures Ordered(less, Insert(less, s, y))
  {
    if s != [] && less(y, s[|s| - 1]) {
      var front, last := s[..|s| - 1], s[|s| - 1];
      InsertOrdered(less, front, y);
      InsertMembers(less, front, y);
      var t := Insert(less, front, y);
      forall i | 0 <= i < |t| ensures !less(last, t[i]) {
        assert t[i] in multiset(t);
        if t[i] != y {
          assert t[i] in multiset(front);
          var k :| 0 <= k < |front| && front[k] == t[i];
          assert s[k] == t[i];
        }
      }
    } else if s != [] {
      forall i | 0 <= i < |s| ensures !less(y, s[i]) {
        if i < |s| - 1 {
          assert !less(s[|s| - 1], s[i]);
        }
      }
    }
  }

  lemma {:induction false} StableSortOrdered<T(!new)>(less: (T, T) -> bool, s: seq<T>)
    requires StrictWeakOrder(less)
    ensures Ordered(less, StableSort(less, s))
  {
    if s != [] {
      StableSortOrdered(less, s[..|s| - 1]);
      InsertOrdered(less, StableSort(less, s[..|s| - 1]), s[|s| - 1]);
    }
  }

  lemma FrontAndLast<T>(s: seq<T>)
    requires s != []
    ensures multiset(s) == multiset(s[..|s| - 1]) + multiset{s[|s| - 1]}
  {
    assert s == s[..|s| - 1] + [s[|s| - 1]];
  }

  lemma {:induction false} StableSortMembers<T>(less: (T, T) -> bool, s: seq<T>)
    ensures multiset(StableSort(less, s)) == multiset(s)
  {
    if s != [] {
      StableSortMembers(less, s[..|s| - 1]);
      InsertMembers(less, StableSort(less, s[..|s| - 1]), s[|s| - 1]);
      FrontAndLast(s);
    }
  }

  lemma {:induction false} StableSortTies<T(!new)>(less: (T, T) -> bool, s: seq<T>, x: T)
    requires StrictWeakOrder(less)
    ensures Ties(less, StableSort(less, s), x) == Ties(less, s, x)
  {
    if s != [] {
      var front, last := s[..|s| - 1], s[|s| - 1];
      StableSortTies(less, front, x);
      InsertTies(less, StableSort(less, front), last, x);
      TiesMore(less, StableSort(less, front), last, x);
    }
  }

  /** Insertion is one way to sort stably; it keeps the multiset of the elements. */
  lemma StableSortSorts<T(!new)>(less: (T, T) -> bool, s: seq<T>)
    requires StrictWeakOrder(less)
    ensures StablySorted(less, s, StableSort(less, s))
    ensures multiset(StableSort(less, s)) == multiset(s)
  {
    StableSortOrdered(less, s);
    StableSortMembers(less, s);
    forall x ensures Ties(less, StableSort(less, s), x) == Ties(less, s, x) {
      StableSortTies(less, s, x);
    }
  }

  // ---- There is only one ----

  lemma {:induction false} TiesHold<T>(less: (T, T) -> bool, s: seq<T>, x: T)
    ensures forall i :: 0 <= i < |Ties(less, s, x)| ==> Ties(less, s, x)[i] in s && Tied(less, Ties(less, s, x)[i], x)
    ensures (exists i :: 0 <= i < |s| && Tied(less, s[i], x)) ==> Ties(less, s, x) != []
  {
    if s != [] {
      var front := s[..|s| - 1];
      TiesHold(less, front, x);
      forall i | 0 <= i < |Ties(less, front, x)| ensures Ties(less, front, x)[i] in s {
        var k :| 0 <= k < |front| && front[k] == Ties(less, front, x)[i];
        assert s[k] == Ties(less, front, x)[i];
      }
      if i :| 0 <= i < |s| && Tied(less, s[i], x) {
        if i < |s| - 1 {
          assert Tied(less, front[i], x);
        }
      }
    }
  }

  lemma LastTie<T(!new)>(less: (T, T) -> bool, t: seq<T>)
    requires StrictWeakOrder(less) && t != []
    ensures var a := t[|t| - 1];
      Ties(less, t, a) != [] && Ties(less, t, a)[|Ties(less, t, a)| - 1] == a
  {
    assert !less(t[|t| - 1], t[|t| - 1]);
  }

  /** An ordered list does not end below an element that something in it is tied with. */
  lemma EndsNotBelow<T(!new)>(less: (T, T) -> bool, u: seq<T>, a: T)
    requires StrictWeakOrder(less) && Ordered(less, u) && Ties(less, u, a) != []
    ensures u != [] && !less(u[|u| - 1], a)
  {
    TiesHold(less, u, a);
    var x, b := Ties(less, u, a)[0], u[|u| - 1];
    var i :| 0 <= i < |u| && u[i] == x;
    assert Tied(less, x, a) && !less(b, u[i]);
    assert less(b, a) ==> less(b, x) || less(x, a);
  }

  lemma LastIsTied<T(!new)>(less: (T, T) -> bool, t: seq<T>, a: T, b: T)
    requires StrictWeakOrder(less) && t != [] && t[|t| - 1] == b && Tied(less, a, b)
    ensures Ties(less, t, a) != [] && Ties(less, t, a)[|Ties(less, t, a)| - 1] == b
  {
  }

  /** The last elements of two such arrangements are the same. */
  lemma LastAgrees<T(!new)>(less: (T, T) -> bool, t: seq<T>, u: seq<T>)
    requires StrictWeakOrder(less) && Ordered(less, t) && Ordered(less, u) && t != []
    requires forall x :: Ties(less, t, x) == Ties(less, u, x)
    ensures u != [] && t[|t| - 1] == u[|u| - 1]
  {
    var a := t[|t| - 1];
    LastTie(less, t);
    EndsNotBelow(less, u, a);
    var b := u[|u| - 1];
    LastTie(less, u);
    EndsNotBelow(less, t, b);
    LastIsTied(less, u, a, b);
  }

  /** A stably sorted arrangement is unique, whatever algorithm produced it. */
  lemma {:induction false} SortedIsUnique<T(!new)>(less: (T, T) -> bool, t: seq<T>, u: seq<T>)
    requires StrictWeakOrder(less) && Ordered(less, t) && Ordered(less, u)
    requires forall x :: Ties(less, t, x) == Ties(less, u, x)
    ensures t == u
  {
    if t == [] {
      if u != [] {
        LastAgrees(less, u, t);
      }
    } else {
      LastAgrees(less, t, u);
      var t', u', last := t[..|t| - 1], u[..|u| - 1], t[|t| - 1];
      assert t' + [last] == t && u' + [last] == u;
      forall x ensures Ties(less, t', x) == Ties(less, u', x) {
        TiesMore(less, t', last, x);
        TiesMore(less, u', last, x);
        assert Ties(less, t, x) == Ties(less, u, x);
        if Tied(less, last, x) {
          assert (Ties(less, t', x) + [last])[..|Ties(less, t', x)|] == Ties(less, t', x);
          assert (Ties(less, u', x) + [last])[..|Ties(less, u', x)|] == Ties(less, u', x);
        }
      }
      SortedIsUnique(less, t', u');
    }
  }
}
