/** The registry of participants and the routes between them. */
module Planes {
  import opened Wrappers
  import opened Text
  import opened Lexical
  import opened Sorting

  /** A kind is any text; five are accepted. */
  datatype Participant = Participant(id: string, kind: string, endpoint: string, labels: map<string, string>)

  datatype PlaneError = Exists | Unknown | Invalid

  predicate ValidKind(kind: string) {
    kind == "agent" || kind == "harness" || kind == "user" || kind == "app" || kind == "peer"
  }

  type Routes = map<string, map<string, bool>>

  predicate Reaches(routes: Routes, from: string, to: string) {
    from in routes && to in routes[from] && routes[from][to]
  }

  /** Everyone is filed under a proper name, with a valid kind. */
  predicate ProperlyFiled(participants: map<string, Participant>) {
    forall id :: id in participants ==>
      participants[id].id == id && id != "" && Trim(id) == id && ValidKind(participants[id].kind)
  }

  /** Both ends of every route are registered. */
  predicate EndsKnown(ids: set<string>, routes: Routes) {
    && routes.Keys <= ids
    && forall from :: from in routes ==> routes[from].Keys <= ids
  }

  /** Routes without any that mentions a participant. */
  function WithoutParticipant(routes: Routes, id: string): Routes {
    map from | from in routes && from != id :: routes[from] - {id}
  }

  function WithRoute(routes: Routes, from: string, to: string): Routes {
    routes[from := (if from in routes then routes[from] else map[])[to := true]]
  }

  function WithoutRoute(routes: Routes, from: string, to: string): Routes {
    if from in routes then routes[from := routes[from] - {to}] else routes
  }

  lemma DeregisteredRoutes(ids: set<string>, routes: Routes, id: string)
    requires EndsKnown(ids, routes)
    ensures EndsKnown(ids - {id}, WithoutParticipant(routes, id))
  {
  }

  lemma FiledWithout(participants: map<string, Participant>, id: string)
    requires ProperlyFiled(participants)
    ensures ProperlyFiled(participants - {id}) && (participants - {id}).Keys == participants.Keys - {id}
  {
  }

  lemma AllowedRoutes(ids: set<string>, routes: Routes, from: string, to: string)
    requires EndsKnown(ids, routes) && from in ids && to in ids
    ensures EndsKnown(ids, WithRoute(routes, from, to))
  {
    var with := WithRoute(routes, from, to);
    forall f | f in with ensures with[f].Keys <= ids {
      if f != from {
        assert with[f] == routes[f];
      }
    }
  }

  lemma RevokedRoutes(ids: set<string>, routes: Routes, from: string, to: string)
    requires EndsKnown(ids, routes)
    ensures EndsKnown(ids, WithoutRoute(routes, from, to))
  {
    var without := WithoutRoute(routes, from, to);
    forall f | f in without ensures without[f].Keys <= ids {
      if f != from {
        assert without[f] == routes[f];
      }
    }
  }

  /** After each change, exactly the routes that should be there are there. */
  lemma RoutesAfter(routes: Routes, id: string, from: string, to: string, f: string, t: string)
    ensures Reaches(WithoutParticipant(routes, id), f, t) <==> Reaches(routes, f, t) && f != id && t != id
    ensures Reaches(WithRoute(routes, from, to), f, t) <==> Reaches(routes, f, t) || (f == from && t == to)
    ensures Reaches(WithoutRoute(routes, from, to), f, t) <==> Reaches(routes, f, t) && !(f == from && t == to)
  {
  }

  class Plane {
    var participants: map<string, Participant>
    var routes: Routes

    constructor ()
      ensures participants == map[] && routes == map[] && Valid()
    {
      participants, routes := map[], map[];
    }

    predicate Valid()
      reads this
    {
      ProperlyFiled(participants) && EndsKnown(participants.Keys, routes)
    }

    method Register(part: Participant) returns (r: Result<(), PlaneError>)
      requires Valid()
      modifies this
      ensures Valid() && routes == old(routes)
      ensures r == (
        if Trim(part.id) == "" || part.kind !in {"agent", "harness", "user", "app", "peer"} then Err(Invalid)
        else if Trim(part.id) in old(participants) then Err(Exists) else Ok(()))
      ensures participants ==
        if r.Err? then old(participants) else old(participants)[Trim(part.id) := part.(id := Trim(part.id))]
    {
      var id := Trim(part.id);
      TrimTrims(part.id);
      TrimTrims(id);
      if id == "" || !ValidKind(part.kind) {
        return Err(Invalid);
      }
      if id in participants {
        return Err(Exists);
      }
      participants := participants[id := part.(id := id)];
      r := Ok(());
    }

    /** Deletes one target from every participant's routes. */
    method DropTarget(id: string)
      modifies this`routes
      ensures routes == map from | from in old(routes) :: old(routes)[from] - {id}
    {
      ghost var was := routes;
      var froms := routes.Keys;
      while froms != {}
        invariant froms <= was.Keys
        invariant routes == map from | from in was :: if from in froms then was[from] else was[from] - {id}
        decreases |froms|
      {
        var from :| from in froms;
        froms := froms - {from};
        routes := routes[from := routes[from] - {id}];
      }
    }

    /** Removes a participant and every route that mentions it, and nothing else. */
    method Deregister(id: string)
      requires Valid()
      modifies this
      ensures Valid() && participants == old(participants) - {id}
      ensures routes == WithoutParticipant(old(routes), id)
    {
      DeregisteredRoutes(participants.Keys, routes, id);
      FiledWithout(participants, id);
      participants := participants - {id};
      routes := routes - {id};
      DropTarget(id);
      assert routes == WithoutParticipant(old(routes), id);
    }

    method Get(id: string) returns (part: Option<Participant>)
      ensures part == if id in participants then Some(participants[id]) else None
    {
      part := if id in participants then Some(participants[id]) else None;
    }

    method Allow(from: string, to: string) returns (r: Result<(), PlaneError>)
      requires Valid()
      modifies this`routes
      ensures Valid() && participants == old(participants)
      ensures r.Ok? <==> from in participants && to in participants
      ensures r.Err? ==> r.error == Unknown && routes == old(routes)
      ensures r.Ok? ==> routes == WithRoute(old(routes), from, to)
    {
      if from !in participants || to !in participants {
        return Err(Unknown);
      }
      AllowedRoutes(participants.Keys, routes, from, to);
      AddRoute(from, to);
      r := Ok(());
    }

    method AddRoute(from: string, to: string)
      modifies this`routes
      ensures routes == WithRoute(old(routes), from, to)
    {
      if from !in routes {
        routes := routes[from := map[]];
      }
      routes := routes[from := routes[from][to := true]];
      assert routes == WithRoute(old(routes), from, to);
    }

    method Revoke(from: string, to: string)
      requires Valid()
      modifies this`routes
      ensures Valid() && participants == old(participants)
      ensures routes == WithoutRoute(old(routes), from, to)
    {
      RevokedRoutes(participants.Keys, routes, from, to);
      if from in routes {
        routes := routes[from := routes[from] - {to}];
      }
    }

    method CanReach(from: string, to: string) returns (ok: bool)
      ensures ok == Reaches(routes, from, to)
    {
      ok := from in routes && to in routes[from] && routes[from][to];
    }

    /** The ids that a participant may reach, ascending. */
    method Reachable(from: string) returns (out: seq<string>)
      ensures StrictlySorted(out) && forall to :: to in out <==> Reaches(routes, from, to)
    {
      out := [];
      var left := if from in routes then routes[from].Keys else {};
      ghost var all := left;
      while left != {}
        invariant left <= all && NoRepeats(out)
        invariant forall to :: to in out <==> to in all && to !in left && routes[from][to]
        decreases |left|
      {
        var to :| to in left;
        left := left - {to};
        if routes[from][to] {
          out := out + [to];
        }
      }
      out := SortDistinct(out);
    }

    /** All ids, ascending. */
    method Participants() returns (out: seq<string>)
      ensures StrictlySorted(out) && Elements(out) == participants.Keys
    {
      out := [];
      var left := participants.Keys;
      while left != {}
        invariant left <= participants.Keys && NoRepeats(out)
        invariant forall id :: id in out <==> id in participants && id !in left
        decreases |left|
      {
        var id :| id in left;
        left := left - {id};
        out := out + [id];
      }
      out := SortDistinct(out);
    }
  }

  /** The sorting of a list without repetitions, whose result does not depend on the algorithm. */
  function SortDistinct(s: seq<string>): (t: seq<string>)
    requires NoRepeats(s)
    ensures StrictlySorted(t) && Elements(t) == Elements(s)
    ensures forall x :: x in t <==> x in s
  {
    SortedIsStrict(s);
    assert forall x :: x in s <==> x in Elements(s);
    assert forall x :: x in Sorted(s) <==> x in Elements(Sorted(s));
    Sorted(s)
  }
}
