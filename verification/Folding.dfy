/** Lists of key=value pairs that are applied to a state one after the other. */
module Folding {
  import opened Wrappers
  import opened Text

  /** The state after every pair has been applied, or the first failure. */
  function Fold<S, E>(step: (S, Pair) -> Result<S, E>, s: S, ps: seq<Pair>): Result<S, E> {
    if ps == [] then Ok(s)
    else
      var front := Fold(step, s, ps[..|ps| - 1]);
      if front.Err? then front else step(front.value, ps[|ps| - 1])
  }

  lemma FoldMore<S, E>(step: (S, Pair) -> Result<S, E>, s: S, ps: seq<Pair>, p: Pair)
    requires Fold(step, s, ps).Ok?
    ensures Fold(step, s, ps + [p]) == step(Fold(step, s, ps).value, p)
  {
    assert (ps + [p])[..|ps|] == ps;
  }

  lemma {:induction false} FoldSum<S, E>(step: (S, Pair) -> Result<S, E>, s: S, a: seq<Pair>, b: seq<Pair>)
    requires Fold(step, s, a).Ok?
    ensures Fold(step, s, a + b) == Fold(step, Fold(step, s, a).value, b)
    decreases |b|
  {
    if b == [] {
      assert a + b == a;
    } else {
      var front, last := b[..|b| - 1], b[|b| - 1];
      FoldSum(step, s, a, front);
      assert (a + b)[..|a + b| - 1] == a + front && (a + b)[|a + b| - 1] == last;
    }
  }

  // ---- Optional fields ----

  /** A field, and whether it is written at all. */
  type Field = (bool, Pair)

  /** The written ones among the first n fields. */
  function Written(fs: seq<Field>, n: nat): seq<Pair>
    requires n <= |fs|
  {
    if n == 0 then []
    else if fs[n - 1].0 then Written(fs, n - 1) + [fs[n - 1].1]
    else Written(fs, n - 1)
  }

  /** One field more, written or not. */
  lemma FieldFolded<S, E>(step: (S, Pair) -> Result<S, E>, s: S, fs: seq<Field>, n: nat, before: S, after: S)
    requires n < |fs| && Fold(step, s, Written(fs, n)) == Ok(before)
    requires if fs[n].0 then step(before, fs[n].1) == Ok(after) else before == after
    ensures Fold(step, s, Written(fs, n + 1)) == Ok(after)
  {
    if fs[n].0 {
      FoldMore(step, s, Written(fs, n), fs[n].1);
    }
  }

  /** Four fields in a row. */
  lemma FourFieldsFolded<S, E>(step: (S, Pair) -> Result<S, E>, s: S, f1: Field, s1: S, f2: Field, s2: S,
                               f3: Field, s3: S, f4: Field, s4: S)
    requires if f1.0 then step(s, f1.1) == Ok(s1) else s == s1
    requires if f2.0 then step(s1, f2.1) == Ok(s2) else s1 == s2
    requires if f3.0 then step(s2, f3.1) == Ok(s3) else s2 == s3
    requires if f4.0 then step(s3, f4.1) == Ok(s4) else s3 == s4
    ensures Fold(step, s, Written([f1, f2, f3, f4], 4)) == Ok(s4)
  {
    var fs := [f1, f2, f3, f4];
    FieldFolded(step, s, fs, 0, s, s1);
    FieldFolded(step, s, fs, 1, s1, s2);
    FieldFolded(step, s, fs, 2, s2, s3);
    FieldFolded(step, s, fs, 3, s3, s4);
  }

  lemma ThreeFieldsFolded<S, E>(step: (S, Pair) -> Result<S, E>, s: S, f1: Field, s1: S, f2: Field, s2: S,
                                f3: Field, s3: S)
    requires if f1.0 then step(s, f1.1) == Ok(s1) else s == s1
    requires if f2.0 then step(s1, f2.1) == Ok(s2) else s1 == s2
    requires if f3.0 then step(s2, f3.1) == Ok(s3) else s2 == s3
    ensures Fold(step, s, Written([f1, f2, f3], 3)) == Ok(s3)
  {
    var fs := [f1, f2, f3];
    FieldFolded(step, s, fs, 0, s, s1);
    FieldFolded(step, s, fs, 1, s1, s2);
    FieldFolded(step, s, fs, 2, s2, s3);
  }

  // ---- One key with many values ----

  function Repeated(key: string, items: seq<string>, n: nat): seq<Pair>
    requires n <= |items|
  {
    if n == 0 then [] else Repeated(key, items, n - 1) + [(key, items[n - 1])]
  }

  /** A key that appends one item a time to a list. */
  lemma {:induction false} RepeatedFolded<S, E>(step: (S, Pair) -> Result<S, E>, s: S, key: string,
                                                items: seq<string>, n: nat, with: (S, seq<string>) -> S)
    requires n <= |items| && with(s, []) == s
    requires forall before, item :: item in items ==> step(with(s, before), (key, item)) == Ok(with(s, before + [item]))
    ensures Fold(step, s, Repeated(key, items, n)) == Ok(with(s, items[..n]))
  {
    if n > 0 {
      RepeatedFolded(step, s, key, items, n - 1, with);
      FoldMore(step, s, Repeated(key, items, n - 1), (key, items[n - 1]));
      assert items[n - 1] in items;
      assert items[..n] == items[..n - 1] + [items[n - 1]];
    }
  }

  // ---- A map, written in a given order of its keys ----

  /** The present ones among the first n of some keys, in their order. */
  function Present(keys: seq<string>, m: map<string, string>, n: nat): seq<Pair>
    requires n <= |keys|
  {
    if n == 0 then []
    else if keys[n - 1] in m then Present(keys, m, n - 1) + [(keys[n - 1], m[keys[n - 1]])]
    else Present(keys, m, n - 1)
  }

  /** The part of a map at the first n of some keys. */
  function FirstKeys(keys: seq<string>, m: map<string, string>, n: nat): map<string, string>
    requires n <= |keys|
  {
    map k | k in m && k in keys[..n] :: m[k]
  }

  lemma OneKeyMore(keys: seq<string>, m: map<string, string>, n: nat)
    requires 0 < n <= |keys|
    ensures FirstKeys(keys, m, n) ==
      if keys[n - 1] in m then FirstKeys(keys, m, n - 1)[keys[n - 1] := m[keys[n - 1]]] else FirstKeys(keys, m, n - 1)
  {
    assert keys[..n] == keys[..n - 1] + [keys[n - 1]];
  }

  lemma AllKeys(keys: seq<string>, m: map<string, string>)
    requires forall k :: k in m ==> k in keys
    ensures FirstKeys(keys, m, |keys|) == m
  {
    assert keys[..|keys|] == keys;
    assert FirstKeys(keys, m, |keys|).Keys == m.Keys;
  }

  /** Keys that each set their own value: applying the written map gives the map back. */
  lemma {:induction false} PresentFolded<S, E>(step: (S, Pair) -> Result<S, E>, s: S, keys: seq<string>,
                                               m: map<string, string>, n: nat, with: (S, map<string, string>) -> S)
    requires n <= |keys| && with(s, map[]) == s
    requires forall before, key :: key in keys && key in m ==>
      step(with(s, before), (key, m[key])) == Ok(with(s, before[key := m[key]]))
    ensures Fold(step, s, Present(keys, m, n)) == Ok(with(s, FirstKeys(keys, m, n)))
  {
    if n == 0 {
      assert FirstKeys(keys, m, 0) == map[];
    } else {
      PresentFolded(step, s, keys, m, n - 1, with);
      OneKeyMore(keys, m, n);
      if keys[n - 1] in m {
        FoldMore(step, s, Present(keys, m, n - 1), (keys[n - 1], m[keys[n - 1]]));
      }
    }
  }

  // ---- Records, each written as its own pairs ----

  function Joined<T>(show: T -> seq<Pair>, ts: seq<T>): seq<Pair> {
    if ts == [] then [] else Joined(show, ts[..|ts| - 1]) + show(ts[|ts| - 1])
  }

  /** Records whose pairs each append one record. */
  lemma {:induction false} JoinedFolded<S, E, T>(step: (S, Pair) -> Result<S, E>, s: S, show: T -> seq<Pair>,
                                                 ts: seq<T>, with: (S, seq<T>) -> S)
    requires with(s, []) == s
    requires forall before, i :: 0 <= i < |ts| ==>
      Fold(step, with(s, before), show(ts[i])) == Ok(with(s, before + [ts[i]]))
    ensures Fold(step, s, Joined(show, ts)) == Ok(with(s, ts))
  {
    if ts != [] {
      var front, last := ts[..|ts| - 1], ts[|ts| - 1];
      JoinedFolded(step, s, show, front, with);
      FoldSum(step, s, Joined(show, front), show(last));
      assert front + [last] == ts;
    }
  }
}
