/** The order of strings, and lists of distinct strings in that order. */
module Lexical {
  import opened Sorting

  function LexLess(a: string, b: string): bool {
    if b == "" then false
    else if a == "" then true
    else if a[0] != b[0] then a[0] < b[0]
    else LexLess(a[1..], b[1..])
  }

  /** The first difference decides, and what has none comes before whatever it begins. */
  ghost predicate Before(a: string, b: string) {
    || (|a| < |b| && b[..|a|] == a)
    || exists i :: 0 <= i < |a| && i < |b| && a[..i] == b[..i] && a[i] < b[i]
  }

  lemma {:induction false} LexIsBefore(a: string, b: string)
    ensures LexLess(a, b) <==> Before(a, b)
  {
    if a != "" && b != "" && a[0] == b[0] {
      LexIsBefore(a[1..], b[1..]);
      BeforeBehind(a, b);
    } else if a != "" && b != "" && a[0] < b[0] {
      assert a[..0] == b[..0];
    }
  }

  lemma BeforeBehind(a: string, b: string)
    requires a != "" && b != "" && a[0] == b[0]
    ensures Before(a, b) <==> Before(a[1..], b[1..])
  {
    var x, y := a[1..], b[1..];
    assert a == [a[0]] + x && b == [b[0]] + y;
    if i :| 0 <= i < |x| && i < |y| && x[..i] == y[..i] && x[i] < y[i] {
      assert a[..i + 1] == [a[0]] + x[..i] && b[..i + 1] == [b[0]] + y[..i];
      assert a[i + 1] < b[i + 1];
    }
    if i :| 0 <= i < |a| && i < |b| && a[..i] == b[..i] && a[i] < b[i] {
      assert a[..i][1..] == x[..i - 1] && b[..i][1..] == y[..i - 1];
      assert x[i - 1] < y[i - 1];
    }
    if |a| < |b| && b[..|a|] == a {
      assert y[..|x|] == b[..|a|][1..];
    }
    if |x| < |y| && y[..|x|] == x {
      assert b[..|a|] == [b[0]] + y[..|x|];
    }
  }

  lemma {:induction false} LexTransitive(a: string, b: string, c: string)
    requires LexLess(a, b) && LexLess(b, c)
    ensures LexLess(a, c)
  {
    if a != "" && a[0] == b[0] && b[0] == c[0] {
      LexTransitive(a[1..], b[1..], c[1..]);
    }
  }

  lemma {:induction false} LexTotal(a: string, b: string)
    ensures LexLess(a, b) || LexLess(b, a) || a == b
    ensures !(LexLess(a, b) && LexLess(b, a))
    ensures !LexLess(a, a)
  {
    if a != "" {
      LexTotal(a[1..], a[1..]);
    }
    if a != "" && b != "" && a[0] == b[0] {
      LexTotal(a[1..], b[1..]);
      assert a == [a[0]] + a[1..] && b == [b[0]] + b[1..];
    }
  }

  lemma LexIsStrictWeak()
    ensures StrictWeakOrder(LexLess)
  {
    forall a ensures !LexLess(a, a) {
      LexTotal(a, a);
    }
    forall a, b, c | LexLess(a, b) && LexLess(b, c) ensures LexLess(a, c) {
      LexTransitive(a, b, c);
    }
    forall a, b, c | LexLess(a, c) ensures LexLess(a, b) || LexLess(b, c) {
      LexTotal(a, b);
      if LexLess(b, a) {
        LexTransitive(b, a, c);
      }
    }
  }

  ghost predicate StrictlySorted(s: seq<string>) {
    forall i, j :: 0 <= i < j < |s| ==> LexLess(s[i], s[j])
  }

  predicate NoRepeats(s: seq<string>) {
    forall i, j :: 0 <= i < j < |s| ==> s[i] != s[j]
  }

  function Elements(s: seq<string>): set<string> {
    set x | x in s
  }

  function Sorted(s: seq<string>): seq<string> {
    StableSort(LexLess, s)
  }

  lemma {:induction false} DistinctCount(s: seq<string>, x: string)
    requires NoRepeats(s)
    ensures multiset(s)[x] == if x in s then 1 else 0
  {
    if s != [] {
      var front, last := s[..|s| - 1], s[|s| - 1];
      DistinctCount(front, x);
      assert s == front + [last];
      if x == last {
        assert x !in front;
      }
    }
  }

  lemma CountedOnce(s: seq<string>)
    requires forall x :: multiset(s)[x] <= 1
    ensures NoRepeats(s)
  {
    forall i, j | 0 <= i < j < |s| ensures s[i] != s[j] {
      assert s == s[..j] + s[j..];
      assert s[i] in s[..j] && s[j] in s[j..];
      assert multiset(s)[s[i]] == multiset(s[..j])[s[i]] + multiset(s[j..])[s[i]];
    }
  }

  /** Sorting a list without repetitions gives the same elements, strictly ascending. */
  lemma SortedIsStrict(s: seq<string>)
    requires NoRepeats(s)
    ensures StrictlySorted(Sorted(s)) && Elements(Sorted(s)) == Elements(s)
  {
    LexIsStrictWeak();
    StableSortSorts(LexLess, s);
    var t := Sorted(s);
    forall x ensures multiset(t)[x] <= 1 {
      DistinctCount(s, x);
    }
    CountedOnce(t);
    forall i, j | 0 <= i < j < |t| ensures LexLess(t[i], t[j]) {
      LexTotal(t[i], t[j]);
    }
    forall x ensures x in t <==> x in s {
      assert x in multiset(t) <==> x in multiset(s);
    }
  }

  lemma NoElements(s: seq<string>)
    ensures Elements(s) == {} <==> s == []
  {
    if s != [] {
      assert s[0] in Elements(s);
    }
  }

  /** The last element is the greatest, and the others are the elements without it. */
  lemma GreatestIsLast(s: seq<string>)
    requires StrictlySorted(s) && s != []
    ensures var last := s[|s| - 1];
      && last in Elements(s) && (forall x :: x in Elements(s) ==> x == last || LexLess(x, last))
      && Elements(s[..|s| - 1]) == Elements(s) - {last}
  {
    var front, last := s[..|s| - 1], s[|s| - 1];
    assert s == front + [last];
    LexTotal(last, last);
  }

  /** There is only one such list for a set. */
  lemma {:induction false} StrictIsUnique(s: seq<string>, t: seq<string>)
    requires StrictlySorted(s) && StrictlySorted(t) && Elements(s) == Elements(t)
    ensures s == t
  {
    NoElements(s);
    NoElements(t);
    if s != [] {
      GreatestIsLast(s);
      GreatestIsLast(t);
      LexTotal(s[|s| - 1], t[|t| - 1]);
      StrictIsUnique(s[..|s| - 1], t[..|t| - 1]);
      assert s == s[..|s| - 1] + [s[|s| - 1]] && t == t[..|t| - 1] + [t[|t| - 1]];
    }
  }
}
