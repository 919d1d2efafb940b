/** Scoped, expiring grants, kept in lists under one string key an edge. */
module Grants {
  import opened Wrappers
  import opened Lexical

  /** Times are unix seconds; an expiry of zero is never. The signature is opaque. */
  datatype Grant = Grant(
    from: string, to: string, scopes: seq<string>, expiresAt: int, issuedBy: string, issuedAt: int, signature: seq<nat>)

  datatype IssueError = NoIssuer | NoPrivateKey

  /** An issuer signs what it issues, or cannot sign. */
  datatype Issuer = Issuer(id: string, sign: Grant -> Option<seq<nat>>)

  predicate Expired(g: Grant, now: int) {
    g.expiresAt != 0 && now >= g.expiresAt
  }

  predicate HasScope(g: Grant, scope: string) {
    scope in g.scopes
  }

  type Book = map<string, seq<Grant>>

  function Key(from: string, to: string): string {
    from + "->" + to
  }

  function ListAt(book: Book, k: string): seq<Grant> {
    if k in book then book[k] else []
  }

  /** Some grant on the edge never expires, or does so later than now, and lists the scope. */
  ghost predicate Allowed(book: Book, from: string, to: string, scope: string, now: int) {
    exists g :: g in ListAt(book, Key(from, to)) && (g.expiresAt == 0 || now < g.expiresAt) && scope in g.scopes
  }

  /** The grants of a list that are still alive, in their order. */
  function Alive(list: seq<Grant>, now: int): seq<Grant> {
    if list == [] then []
    else if Expired(list[|list| - 1], now) then Alive(list[..|list| - 1], now)
    else Alive(list[..|list| - 1], now) + [list[|list| - 1]]
  }

  lemma AliveMore(list: seq<Grant>, g: Grant, now: int)
    ensures Alive(list + [g], now) == if Expired(g, now) then Alive(list, now) else Alive(list, now) + [g]
  {
    assert (list + [g])[..|list|] == list;
  }

  lemma {:induction false} AliveHolds(list: seq<Grant>, now: int)
    ensures |Alive(list, now)| <= |list|
    ensures forall g :: g in Alive(list, now) <==> g in list && !Expired(g, now)
  {
    if list != [] {
      var front, last := list[..|list| - 1], list[|list| - 1];
      AliveHolds(front, now);
      assert list == front + [last];
    }
  }

  /** Every list is kept under its own edge's key and is not empty. */
  predicate WellFiled(book: Book) {
    forall k :: k in book ==>
      book[k] != [] && forall i :: 0 <= i < |book[k]| ==> Key(book[k][i].from, book[k][i].to) == k
  }

  // ---- The scopes of an edge ----

  /** A list of scopes with those of one grant added behind it, each only once. */
  function WithScopes(out: seq<string>, scopes: seq<string>): seq<string> {
    if scopes == [] then out
    else
      var front, last := WithScopes(out, scopes[..|scopes| - 1]), scopes[|scopes| - 1];
      if last in front then front else front + [last]
  }

  /** The distinct live scopes of a list of grants, in the order in which they are first met. */
  function ScopesOf(list: seq<Grant>, now: int): seq<string> {
    if list == [] then []
    else
      var front, last := ScopesOf(list[..|list| - 1], now), list[|list| - 1];
      if Expired(last, now) then front else WithScopes(front, last.scopes)
  }

  lemma {:induction false} WithScopesHolds(out: seq<string>, scopes: seq<string>)
    requires NoRepeats(out)
    ensures NoRepeats(WithScopes(out, scopes))
    ensures forall s :: s in WithScopes(out, scopes) <==> s in out || s in scopes
  {
    if scopes != [] {
      var before, last := scopes[..|scopes| - 1], scopes[|scopes| - 1];
      WithScopesHolds(out, before);
      assert scopes == before + [last];
    }
  }

  /** They are the scopes that the edge allows, each listed once. */
  lemma {:induction false} ScopesAreAllowed(list: seq<Grant>, now: int)
    ensures NoRepeats(ScopesOf(list, now))
    ensures forall s :: s in ScopesOf(list, now) <==> exists g :: g in list && !Expired(g, now) && HasScope(g, s)
  {
    if list != [] {
      var before, last := list[..|list| - 1], list[|list| - 1];
      ScopesAreAllowed(before, now);
      assert list == before + [last];
      if !Expired(last, now) {
        WithScopesHolds(ScopesOf(before, now), last.scopes);
      }
      forall s ensures s in ScopesOf(list, now) <==> exists g :: g in list && !Expired(g, now) && HasScope(g, s) {
        if s in ScopesOf(before, now) {
          var g :| g in before && !Expired(g, now) && HasScope(g, s);
          assert g in list;
        }
        if !Expired(last, now) && s in last.scopes {
          assert last in list && HasScope(last, s);
        }
      }
    }
  }

  // ---- Counting the grants of a book ----

  ghost function Total(book: Book): nat
    decreases |book|
  {
    if book == map[] then 0
    else
      var k :| k in book;
      |book[k]| + Total(book - {k})
  }

  lemma {:induction false} TotalOfOne(book: Book, k: string)
    requires k in book
    ensures Total(book) == |book[k]| + Total(book - {k})
    decreases |book|
  {
    var k' :| k' in book && Total(book) == |book[k']| + Total(book - {k'});
    if k' != k {
      TotalOfOne(book - {k'}, k);
      TotalOfOne(book - {k}, k');
      assert book - {k'} - {k} == book - {k} - {k'};
    }
  }

  lemma TotalReplaced(book: Book, k: string, list: seq<Grant>)
    requires k in book
    ensures Total(book[k := list]) == Total(book) - |book[k]| + |list|
    ensures Total(book - {k}) == Total(book) - |book[k]|
  {
    TotalOfOne(book, k);
    TotalOfOne(book[k := list], k);
    assert book[k := list] - {k} == book - {k};
  }

  /** The book with the expired grants gone from the lists of some edges, and no empty list kept. */
  function Pruned(book: Book, keys: set<string>, now: int): Book {
    map k | k in book && (k !in keys || Alive(book[k], now) != []) ::
      if k in keys then Alive(book[k], now) else book[k]
  }

  /**
   * Filters a list in place: the live grants move to the front in their order, and what is behind
   * them no longer counts.
   */
  method KeepAlive(list: array<Grant>, now: int) returns (kept: nat, dropped: nat)
    modifies list
    ensures kept <= list.Length && dropped == list.Length - kept
    ensures list[..kept] == Alive(old(list[..]), now)
  {
    kept, dropped := 0, 0;
    ghost var was := list[..];
    for i := 0 to list.Length
      invariant kept + dropped == i
      invariant list[..kept] == Alive(was[..i], now)
      invariant list[i..] == was[i..]
    {
      var g := list[i];
      assert was[..i + 1] == was[..i] + [was[i]] && g == list[i..][0];
      AliveMore(was[..i], g, now);
      if Expired(g, now) {
        dropped := dropped + 1;
      } else {
        list[kept] := g;
        kept := kept + 1;
      }
    }
    assert was[..list.Length] == was;
  }

  class GrantBook {
    var grants: Book

    constructor ()
      ensures grants == map[] && WellFiled(grants)
    {
      grants := map[];
    }

    /** Signs the grant in the issuer's name and files it behind the edge's other grants. */
    method Issue(issuer: Option<Issuer>, g: Grant, now: int) returns (r: Result<Grant, IssueError>)
      requires WellFiled(grants)
      modifies this
      ensures WellFiled(grants)
      ensures r == (match issuer
        case None => Err(NoIssuer)
        case Some(i) =>
          var issued := g.(issuedBy := i.id, issuedAt := if g.issuedAt == 0 then now else g.issuedAt);
          if i.sign(issued).None? then Err(NoPrivateKey) else Ok(issued.(signature := i.sign(issued).value)))
      ensures grants == if r.Err? then old(grants)
        else old(grants)[Key(g.from, g.to) := ListAt(old(grants), Key(g.from, g.to)) + [r.value]]
    {
      match issuer
      case None => return Err(NoIssuer);
      case Some(i) =>
        var issued := g.(issuedBy := i.id);
        if issued.issuedAt == 0 {
          issued := issued.(issuedAt := now);
        }
        var signature := i.sign(issued);
        if signature.None? {
          return Err(NoPrivateKey);
        }
        issued := issued.(signature := signature.value);
        var k := Key(g.from, g.to);
        grants := grants[k := ListAt(grants, k) + [issued]];
        return Ok(issued);
    }

    method Allows(from: string, to: string, scope: string, now: int) returns (ok: bool)
      ensures ok == Allowed(grants, from, to, scope, now)
    {
      var list := ListAt(grants, Key(from, to));
      for i := 0 to |list|
        invariant forall j :: 0 <= j < i ==> Expired(list[j], now) || !HasScope(list[j], scope)
      {
        if !Expired(list[i], now) && HasScope(list[i], scope) {
          return true;
        }
      }
      ok := false;
    }

    /** scopesOn: walks the edge's live grants and keeps every scope the first time it is met. */
    method ScopesOn(from: string, to: string, now: int) returns (out: seq<string>)
      ensures out == ScopesOf(ListAt(grants, Key(from, to)), now)
    {
      out := [];
      var seen: set<string> := {};
      var list := ListAt(grants, Key(from, to));
      for i := 0 to |list|
        invariant out == ScopesOf(list[..i], now) && seen == Elements(out)
      {
        assert list[..i + 1][..i] == list[..i];
        if Expired(list[i], now) {
          continue;
        }
        var scopes := list[i].scopes;
        ghost var before := out;
        for j := 0 to |scopes|
          invariant out == WithScopes(before, scopes[..j]) && seen == Elements(out)
        {
          assert scopes[..j + 1][..j] == scopes[..j];
          if scopes[j] !in seen {
            seen := seen + {scopes[j]};
            out := out + [scopes[j]];
          }
        }
        assert scopes[..|scopes|] == scopes;
      }
      assert list[..|list|] == list;
    }

    /** Removes the whole edge. */
    method Revoke(from: string, to: string)
      modifies this
      ensures grants == old(grants) - {Key(from, to)}
      ensures old(WellFiled(grants)) ==> WellFiled(grants)
    {
      grants := grants - {Key(from, to)};
    }

    /** Deletes every key that ends like an edge to this participant, and counts them. */
    method RevokeAllTo(to: string) returns (n: nat)
      modifies this
      ensures grants == Revoked(old(grants), to)
      ensures n == |old(grants).Keys| - |grants.Keys|
      ensures old(WellFiled(grants)) ==> WellFiled(grants)
    {
      n := 0;
      var keys := grants.Keys;
      while keys != {}
        invariant keys <= old(grants).Keys && keys <= grants.Keys
        invariant grants == map k | k in old(grants) && (k in keys || !Targets(k, to)) :: old(grants)[k]
        invariant n == |old(grants).Keys| - |grants.Keys|
        decreases |keys|
      {
        var k :| k in keys;
        keys := keys - {k};
        if Targets(k, to) {
          ghost var before := grants.Keys;
          grants := grants - {k};
          assert grants.Keys == before - {k};
          n := n + 1;
        }
      }
    }

    /** One edge of a pruning. */
    method PruneEdge(k: string, now: int) returns (dropped: nat)
      requires k in grants
      modifies this
      ensures grants == WithList(old(grants), k, Alive(old(grants)[k], now))
      ensures dropped == |old(grants)[k]| - |Alive(old(grants)[k], now)|
    {
      var edge := grants[k];
      var list := new Grant[|edge|](i requires 0 <= i < |edge| => edge[i]);
      assert list[..] == edge;
      var kept;
      kept, dropped := KeepAlive(list, now);
      if kept == 0 {
        grants := grants - {k};
      } else {
        grants := grants[k := list[..kept]];
      }
    }

    /** Filters every edge's list in place and drops the edges that are left without a grant. */
    method Prune(now: int) returns (dropped: nat)
      modifies this
      ensures old(WellFiled(grants)) ==> WellFiled(grants)
      ensures grants == Pruned(old(grants), old(grants).Keys, now)
      ensures dropped == Total(old(grants)) - Total(grants)
    {
      dropped := 0;
      ghost var was := grants;
      ghost var done := {};
      var keys := grants.Keys;
      NothingPruned(was, now);
      while keys != {}
        invariant keys + done == was.Keys && keys !! done
        invariant grants == Pruned(was, done, now)
        invariant dropped == Total(was) - Total(grants)
        decreases |keys|
      {
        var k :| k in keys;
        PrunedOneMore(was, done, k, now);
        keys, done := keys - {k}, done + {k};
        var gone := PruneEdge(k, now);
        dropped := dropped + gone;
      }
      assert done == was.Keys;
      PrunedIsFiled(was, now);
    }
  }

  /** The book without the edges whose key ends like one to this participant. */
  function Revoked(book: Book, to: string): Book {
    map k | k in book && !Targets(k, to) :: book[k]
  }

  /** An edge with another list, or without the edge when the list is empty. */
  function WithList(book: Book, k: string, list: seq<Grant>): Book {
    if list == [] then book - {k} else book[k := list]
  }

  lemma PrunedOneMore(book: Book, done: set<string>, k: string, now: int)
    requires k in book && k !in done
    ensures k in Pruned(book, done, now) && Pruned(book, done, now)[k] == book[k]
    ensures Pruned(book, done + {k}, now) == WithList(Pruned(book, done, now), k, Alive(book[k], now))
    ensures Total(Pruned(book, done + {k}, now)) == Total(Pruned(book, done, now)) - |book[k]| + |Alive(book[k], now)|
  {
    TotalReplaced(Pruned(book, done, now), k, Alive(book[k], now));
  }

  lemma NothingPruned(book: Book, now: int)
    ensures Pruned(book, {}, now) == book
  {
  }

  lemma PrunedIsFiled(book: Book, now: int)
    ensures WellFiled(book) ==> WellFiled(Pruned(book, book.Keys, now))
  {
    forall k, i | WellFiled(book) && k in Pruned(book, book.Keys, now) && 0 <= i < |Alive(book[k], now)|
      ensures Key(Alive(book[k], now)[i].from, Alive(book[k], now)[i].to) == k
    {
      AliveHolds(book[k], now);
      assert Alive(book[k], now)[i] in book[k];
    }
  }

  /** The key ends like the key of an edge to `to`. */
  predicate Targets(k: string, to: string) {
    |k| >= |to| + 2 && k[|k| - |to| - 2..] == "->" + to
  }

  // ---- What pruning and revoking mean ----

  /** From now on, pruning is invisible: every later question gets the answer it would have got. */
  lemma PruningIsInvisible(book: Book, now: int, from: string, to: string, scope: string, t: int)
    requires t >= now
    ensures Allowed(Pruned(book, book.Keys, now), from, to, scope, t) <==> Allowed(book, from, to, scope, t)
  {
    var k := Key(from, to);
    var before, after := ListAt(book, k), ListAt(Pruned(book, book.Keys, now), k);
    assert after == Alive(before, now);
    AliveHolds(before, now);
    forall g | g in before && !Expired(g, t) ensures g in after {
      assert !Expired(g, now);
    }
  }

  /** Before now, pruning takes a permission away exactly if all its grants have expired since. */
  lemma PruningForgets(book: Book, now: int, from: string, to: string, scope: string, t: int)
    ensures Allowed(Pruned(book, book.Keys, now), from, to, scope, t) <==>
      exists g :: g in ListAt(book, Key(from, to)) && !Expired(g, now) && !Expired(g, t) && HasScope(g, scope)
  {
    var k := Key(from, to);
    assert ListAt(Pruned(book, book.Keys, now), k) == Alive(ListAt(book, k), now);
    AliveHolds(ListAt(book, k), now);
  }

  /** A name without an arrow in it. */
  predicate ArrowFree(s: string) {
    forall i :: 0 <= i < |s| - 1 ==> !(s[i] == '-' && s[i + 1] == '>')
  }

  lemma KeyAt(from: string, to: string, i: nat)
    requires i < |Key(from, to)|
    ensures Key(from, to)[i] ==
      if i < |from| then from[i] else if i == |from| then '-' else if i == |from| + 1 then '>' else to[i - |from| - 2]
  {
    assert Key(from, to) == from + ("->" + to);
  }

  /** In the key of arrow-free names, the only arrow is the one between them. */
  lemma OnlyArrow(from: string, to: string, i: nat)
    requires ArrowFree(from) && ArrowFree(to)
    requires i + 1 < |Key(from, to)| && Key(from, to)[i] == '-' && Key(from, to)[i + 1] == '>'
    ensures i == |from|
  {
    KeyAt(from, to, i);
    KeyAt(from, to, i + 1);
  }

  /** A name with an arrow in it, cut at the arrow. */
  lemma CutAtArrow(s: string) returns (x: string, y: string)
    requires !ArrowFree(s)
    ensures s == x + "->" + y && x != s && y != s
  {
    var i :| 0 <= i < |s| - 1 && s[i] == '-' && s[i + 1] == '>';
    x, y := s[..i], s[i + 2..];
    assert s == s[..i] + [s[i], s[i + 1]] + s[i + 2..];
  }

  lemma Regrouped(a: string, b: string, c: string)
    ensures Key(a + "->" + b, c) == Key(a, b + "->" + c)
  {
    assert a + "->" + b + "->" + c == a + "->" + (b + "->" + c);
  }

  /** Whatever the other end is, an edge from a name with an arrow in it shares its key with another edge. */
  lemma ArrowsCollide(s: string, t: string) returns (x: string, y: string)
    requires !ArrowFree(s)
    ensures x != s && Key(s, t) == Key(x, y + "->" + t)
  {
    x, y := CutAtArrow(s);
    Regrouped(x, y, t);
  }

  /** The key belongs to this edge and to no other. */
  ghost predicate OwnKey(from: string, to: string) {
    forall x, y :: Key(x, y) == Key(from, to) ==> x == from && y == to
  }

  lemma SameKey(from: string, to: string, x: string, y: string)
    requires ArrowFree(from) && ArrowFree(to) && Key(x, y) == Key(from, to)
    ensures x == from && y == to
  {
    var k := Key(from, to);
    KeyAt(x, y, |x|);
    KeyAt(x, y, |x| + 1);
    OnlyArrow(from, to, |x|);
    assert k[..|from|] == from && k[..|x|] == x;
    assert k[|from| + 2..] == to && k[|x| + 2..] == y;
  }

  /** The key of an edge is its own if and only if there is no arrow in either name. */
  lemma KeyIsInjective(from: string, to: string)
    ensures OwnKey(from, to) <==> ArrowFree(from) && ArrowFree(to)
  {
    if ArrowFree(from) && ArrowFree(to) {
      forall x, y | Key(x, y) == Key(from, to) ensures x == from && y == to {
        SameKey(from, to, x, y);
      }
    } else if ArrowFree(from) {
      var x, y := CutAtArrow(to);
      Regrouped(from, x, y);
      assert Key(from + "->" + x, y) == Key(from, to);
    } else {
      var x, y := ArrowsCollide(from, to);
      assert Key(x, y + "->" + to) == Key(from, to);
    }
  }

  lemma EndOfKey(from: string, to: string)
    ensures Targets(Key(from, to), to)
  {
    var k := Key(from, to);
    assert k == from + ("->" + to);
    assert k[|k| - |to| - 2..] == "->" + to;
  }

  lemma ArrowFreeTarget(from: string, target: string, to: string)
    requires ArrowFree(from) && ArrowFree(target) && Targets(Key(from, target), to)
    ensures target == to
  {
    var k := Key(from, target);
    var i := |k| - |to| - 2;
    assert k == from + ("->" + target);
    assert k[i..][0] == '-' && k[i..][1] == '>';
    OnlyArrow(from, target, i);
    assert k[i + 2..] == target && k[i..][2..] == to;
  }

  /**
   * RevokeAllTo takes the key of an edge for its own target alone if and only if there is no arrow
   * in either name.
   */
  lemma TargetsExactly(from: string, target: string)
    ensures (forall to :: Targets(Key(from, target), to) <==> target == to) <==> ArrowFree(from) && ArrowFree(target)
  {
    EndOfKey(from, target);
    if ArrowFree(from) && ArrowFree(target) {
      forall to | Targets(Key(from, target), to) ensures target == to {
        ArrowFreeTarget(from, target, to);
      }
    } else if ArrowFree(from) {
      var x, y := CutAtArrow(target);
      Regrouped(from, x, y);
      EndOfKey(from + "->" + x, y);
    } else {
      var x, y := ArrowsCollide(from, target);
      EndOfKey(x, y + "->" + target);
      assert |y + "->" + target| > |target|;
    }
  }

  // ---- What the keys stand for ----

  ghost predicate InBook(book: Book, g: Grant) {
    exists k :: k in book && g in book[k]
  }

  /** Some live grant of the book that names exactly these two participants conveys the scope. */
  ghost predicate Granted(book: Book, from: string, to: string, scope: string, now: int) {
    exists g :: InBook(book, g) && g.from == from && g.to == to
      && (g.expiresAt == 0 || now < g.expiresAt) && scope in g.scopes
  }

  lemma FiledAt(book: Book, g: Grant, k: string)
    requires WellFiled(book) && k in book && g in book[k]
    ensures k == Key(g.from, g.to)
  {
    var i :| 0 <= i < |book[k]| && book[k][i] == g;
  }

  /** Whoever is granted something is allowed it; between arrow-free names, nobody else is. */
  lemma AllowedIsGranted(book: Book, from: string, to: string, scope: string, now: int)
    requires WellFiled(book)
    ensures Granted(book, from, to, scope, now) ==> Allowed(book, from, to, scope, now)
    ensures ArrowFree(from) && ArrowFree(to) ==>
      (Allowed(book, from, to, scope, now) <==> Granted(book, from, to, scope, now))
  {
    if Granted(book, from, to, scope, now) {
      var g :| InBook(book, g) && g.from == from && g.to == to
        && (g.expiresAt == 0 || now < g.expiresAt) && scope in g.scopes;
      var k :| k in book && g in book[k];
      FiledAt(book, g, k);
    }
    if Allowed(book, from, to, scope, now) && ArrowFree(from) && ArrowFree(to) {
      var g :| g in ListAt(book, Key(from, to)) && (g.expiresAt == 0 || now < g.expiresAt) && scope in g.scopes;
      FiledAt(book, g, Key(from, to));
      SameKey(from, to, g.from, g.to);
      assert InBook(book, g);
    }
  }

  /** In every book, two participants are allowed exactly what they are granted. */
  ghost predicate NeverMistaken(from: string, to: string) {
    forall book, scope, now :: WellFiled(book) ==>
      (Allowed(book, from, to, scope, now) <==> Granted(book, from, to, scope, now))
  }

  lemma MistakenFor(from: string, to: string, x: string, y: string)
    requires Key(x, y) == Key(from, to) && (x != from || y != to)
    ensures !NeverMistaken(from, to)
  {
    var g := Grant(x, y, ["s"], 0, "", 0, []);
    var book := map[Key(x, y) := [g]];
    assert HasScope(g, "s") && g in ListAt(book, Key(from, to));
    assert WellFiled(book) && Allowed(book, from, to, "s", 0) && !Granted(book, from, to, "s", 0);
  }

  /** Exactly between arrow-free names is a permission never taken from a grant to somebody else. */
  lemma AllowedExactly(from: string, to: string)
    ensures NeverMistaken(from, to) <==> ArrowFree(from) && ArrowFree(to)
  {
    if ArrowFree(from) && ArrowFree(to) {
      forall book, scope, now | WellFiled(book)
        ensures Allowed(book, from, to, scope, now) <==> Granted(book, from, to, scope, now)
      {
        AllowedIsGranted(book, from, to, scope, now);
      }
    } else {
      KeyIsInjective(from, to);
      var x, y :| Key(x, y) == Key(from, to) && (x != from || y != to);
      MistakenFor(from, to, x, y);
    }
  }

  /** Of the grants between arrow-free names, revoking removes exactly those to the participant. */
  lemma RevokedExactly(book: Book, to: string, g: Grant)
    requires WellFiled(book) && InBook(book, g)
    ensures g.to == to ==> !InBook(Revoked(book, to), g)
    ensures ArrowFree(g.from) && ArrowFree(g.to) ==> (InBook(Revoked(book, to), g) <==> g.to != to)
  {
    var own := Key(g.from, g.to);
    var k :| k in book && g in book[k];
    FiledAt(book, g, k);
    TargetsExactly(g.from, g.to);
    EndOfKey(g.from, g.to);
    forall k' | k' in Revoked(book, to) && g in Revoked(book, to)[k'] ensures k' == own {
      FiledAt(book, g, k');
    }
    if ArrowFree(g.from) && ArrowFree(g.to) && g.to != to {
      assert own in Revoked(book, to);
    }
  }
}
