/** Channels between participants, opened only through the three gates of registry, trust and grants. */
module Brokers {
  import opened Wrappers
  import opened Text
  import opened Lexical
  import opened Sorting
  import opened Planes
  import opened Trust
  import opened Grants

  datatype Channel = Channel(from: string, to: string, endpoint: string, scopes: seq<string>, openedAt: int)

  datatype ChannelError = NotRegistered | NotTrusted | NotGranted | NoEndpoint

  /** Everything that the registry, the trust store, the grants and the broker itself can be asked to do. */
  datatype PlaneCommand =
    | Register(part: Participant) | Deregister(id: string)
    | Allow(from: string, to: string) | Disallow(from: string, to: string)

  datatype GrantCommand =
    | Issue(issuer: Option<Issuer>, grant: Grant) | Revoke(from: string, to: string) | RevokeAllTo(to: string) | Prune

  datatype ChannelCommand =
    | Open(from: string, to: string, scope: string) | Close(from: string, to: string)
    | List(from: string, scope: string)

  datatype Command =
    | ToPlane(p: PlaneCommand) | ToTrust(t: TrustCommand) | ToGrants(g: GrantCommand) | ToBroker(c: ChannelCommand)

  /** The registry after somebody has asked to be in it. */
  function Registered(participants: map<string, Participant>, part: Participant): map<string, Participant> {
    var id := Trim(part.id);
    if id == "" || id in participants || part.kind !in {"agent", "harness", "user", "app", "peer"} then participants
    else participants[id := part.(id := id)]
  }

  class Broker {
    const plane: Plane
    const trust: TrustStore
    const grants: GrantBook
    var channels: map<string, Channel>

    constructor (plane: Plane, trust: TrustStore, grants: GrantBook)
      ensures this.plane == plane && this.trust == trust && this.grants == grants && channels == map[]
      ensures plane.Valid() && trust.Authentic() && WellFiled(grants.grants) ==> Valid()
    {
      this.plane, this.trust, this.grants, channels := plane, trust, grants, map[];
    }

    /** All three gates are open for this link, scope and time, and there is somewhere to go. */
    ghost predicate Openable(from: string, to: string, scope: string, now: int)
      reads plane, trust, grants
    {
      && from in plane.participants && to in plane.participants && trust.IsTrusted(to)
      && Allowed(grants.grants, from, to, scope, now) && plane.participants[to].endpoint != ""
    }

    /** What is named when a link is not openable. */
    ghost function FirstClosedGate(from: string, to: string, scope: string, now: int): ChannelError
      reads plane, trust, grants
    {
      if from !in plane.participants || to !in plane.participants then NotRegistered
      else if !trust.IsTrusted(to) then NotTrusted
      else if !Allowed(grants.grants, from, to, scope, now) then NotGranted
      else NoEndpoint
    }

    function LinkScopes(from: string, to: string, now: int): seq<string>
      reads grants
    {
      Sorted(ScopesOf(ListAt(grants.grants, Key(from, to)), now))
    }

    /** The channel of an openable link: its scopes are all that the edge allows at that time, ascending. */
    function LinkTo(from: string, to: string, now: int): Channel
      requires to in plane.participants
      reads plane, grants
    {
      Channel(from, to, plane.participants[to].endpoint, LinkScopes(from, to, now), now)
    }

    lemma LinkScopesExact(from: string, to: string, now: int)
      ensures StrictlySorted(LinkScopes(from, to, now))
      ensures forall s :: s in LinkScopes(from, to, now) <==> Allowed(grants.grants, from, to, s, now)
    {
      var list := ListAt(grants.grants, Key(from, to));
      ScopesAreAllowed(list, now);
      SortedIsStrict(ScopesOf(list, now));
      forall s ensures s in LinkScopes(from, to, now) <==> Allowed(grants.grants, from, to, s, now) {
        assert s in LinkScopes(from, to, now) <==> s in Elements(LinkScopes(from, to, now));
        assert s in ScopesOf(list, now) <==> s in Elements(ScopesOf(list, now));
      }
    }

    /**
     * Opens a channel exactly when all gates are open; otherwise it says which is the first that is
     * not, and nothing changes. The channel's scopes are exactly the live scopes of the edge, the
     * requested one among them.
     */
    method Open(from: string, to: string, scope: string, now: int) returns (r: Result<Channel, ChannelError>)
      modifies this
      ensures r.Ok? <==> Openable(from, to, scope, now)
      ensures r.Ok? ==> r.value == LinkTo(from, to, now) && scope in r.value.scopes
      ensures r.Ok? ==> StrictlySorted(r.value.scopes)
      ensures r.Ok? ==> forall s :: s in r.value.scopes <==> Allowed(grants.grants, from, to, s, now)
      ensures r.Err? ==> r.error == FirstClosedGate(from, to, scope, now)
      ensures from !in plane.participants || to !in plane.participants ==> r == Err(NotRegistered)
      ensures from in plane.participants && to in plane.participants ==>
        (to !in trust.trust || trust.trust[to].level == Untrusted <==> r == Err(NotTrusted))
      ensures trust.Authentic() && to in trust.trust ==> r != Err(NotTrusted)
      ensures channels == if r.Ok? then old(channels)[Key(from, to) := r.value] else old(channels)
    {
      var source := plane.Get(from);
      if source.None? {
        return Err(NotRegistered);
      }
      var target := plane.Get(to);
      if target.None? {
        return Err(NotRegistered);
      }
      if !trust.IsTrusted(to) {
        return Err(NotTrusted);
      }
      var allowed := grants.Allows(from, to, scope, now);
      if !allowed {
        return Err(NotGranted);
      }
      if target.value.endpoint == "" {
        return Err(NoEndpoint);
      }
      var scopes := grants.ScopesOn(from, to, now);
      LinkScopesExact(from, to, now);
      var channel := Channel(from, to, target.value.endpoint, Sorted(scopes), now);
      channels := channels[Key(from, to) := channel];
      r := Ok(channel);
    }

    method Close(from: string, to: string)
      modifies this
      ensures channels == old(channels) - {Key(from, to)}
    {
      channels := channels - {Key(from, to)};
    }

    /** The channels that Open would give from one participant to the others, by target. */
    ghost function Links(from: string, scope: string, now: int): map<string, Channel>
      reads plane, trust, grants
    {
      map to | to in plane.participants && to != from && Openable(from, to, scope, now) :: LinkTo(from, to, now)
    }

    lemma LinkOf(from: string, to: string, scope: string, now: int)
      ensures to in Links(from, scope, now) <==> to != from && Openable(from, to, scope, now)
      ensures to in Links(from, scope, now) ==>
        Links(from, scope, now)[to] == LinkTo(from, to, now) && LinkTo(from, to, now).to == to
    {
    }

    lemma LinksAreListed(from: string, scope: string, now: int, ids: seq<string>)
      requires Elements(ids) == plane.participants.Keys
      ensures forall to :: to in Links(from, scope, now) ==> to in ids
    {
      assert forall id :: id in Elements(ids) ==> id in ids;
    }

    /** Opens what can be opened to one more participant. */
    method TryNext(from: string, ids: seq<string>, n: nat, scope: string, now: int, out: seq<Channel>,
                   ghost before: map<string, Channel>) returns (more: seq<Channel>)
      requires n < |ids| && StrictlySorted(ids)
      requires Lists(out, ids[..n], Links(from, scope, now)) && Recorded(channels, out, from, before)
      modifies this
      ensures Lists(more, ids[..n + 1], Links(from, scope, now)) && Recorded(channels, more, from, before)
    {
      var to := ids[n];
      ghost var links := Links(from, scope, now);
      assert ids[..n + 1] == ids[..n] + [to];
      more := out;
      if to == from {
        NothingMore(out, ids[..n], to, links);
        return;
      }
      ghost var was := channels;
      var r := Open(from, to, scope, now);
      assert Links(from, scope, now) == links;
      if r.Err? {
        NothingMore(out, ids[..n], to, links);
        return;
      }
      LinkOf(from, to, scope, now);
      Ascending(out, ids[..n], to, links);
      ListsMore(out, ids[..n], to, links);
      RecordedMore(was, out, from, before, r.value);
      more := out + [r.value];
    }

    /**
     * Lists, ascending, exactly the other participants for which Open succeeds, each with the
     * channel that Open gives; asking opens them all.
     */
    method Reachable(from: string, scope: string, now: int) returns (out: seq<Channel>)
      modifies this
      ensures AscendingTargets(out)
      ensures forall i :: 0 <= i < |out| ==>
        out[i].to in Links(from, scope, now) && out[i] == Links(from, scope, now)[out[i].to]
      ensures forall to :: to in Links(from, scope, now) ==> HasChannel(out, to)
      ensures Recorded(channels, out, from, old(channels))
    {
      out := [];
      var ids := plane.Participants();
      for n := 0 to |ids|
        invariant Lists(out, ids[..n], Links(from, scope, now))
        invariant Recorded(channels, out, from, old(channels))
      {
        out := TryNext(from, ids, n, scope, now, out, old(channels));
      }
      assert ids[..|ids|] == ids;
      LinksAreListed(from, scope, now, ids);
      AlreadySorted(out);
      out := StableSort(ByTarget, out);
    }

    predicate Valid()
      reads plane, trust, grants
    {
      plane.Valid() && trust.Authentic() && WellFiled(grants.grants)
    }

    method PerformOnPlane(c: PlaneCommand)
      requires plane.Valid()
      modifies plane
      ensures plane.Valid()
      ensures !c.Register? && !c.Deregister? ==> plane.participants == old(plane.participants)
      ensures c.Register? ==>
        plane.routes == old(plane.routes) && plane.participants == Registered(old(plane.participants), c.part)
      ensures c.Deregister? ==>
        && plane.participants == old(plane.participants) - {c.id}
        && plane.routes == WithoutParticipant(old(plane.routes), c.id)
      ensures c.Allow? ==>
        plane.routes == if c.from in plane.participants && c.to in plane.participants
          then WithRoute(old(plane.routes), c.from, c.to) else old(plane.routes)
      ensures c.Disallow? ==> plane.routes == WithoutRoute(old(plane.routes), c.from, c.to)
    {
      match c
      case Register(part) => var _ := plane.Register(part);
      case Deregister(id) => plane.Deregister(id);
      case Allow(from, to) => var _ := plane.Allow(from, to);
      case Disallow(from, to) => plane.Revoke(from, to);
    }

    method PerformOnTrust(c: TrustCommand)
      requires trust.Authentic()
      modifies trust
      ensures trust.Authentic() && trust.trust == After(trust.derive, old(trust.trust), c)
    {
      match c
      case Pair(id, pub) => var _ := trust.Pair(id, pub);
      case SetOwned(id, pub) => var _ := trust.SetOwned(id, pub);
      case Unpair(id) => trust.Unpair(id);
    }

    method PerformOnGrants(c: GrantCommand, now: int)
      requires WellFiled(grants.grants)
      modifies grants
      ensures WellFiled(grants.grants)
      ensures match c
        case Issue(_, g) =>
          forall k :: k != Key(g.from, g.to) ==> ListAt(grants.grants, k) == ListAt(old(grants.grants), k)
        case Revoke(from, to) => grants.grants == old(grants.grants) - {Key(from, to)}
        case RevokeAllTo(to) => grants.grants == Revoked(old(grants.grants), to)
        case Prune => grants.grants == Pruned(old(grants.grants), old(grants.grants).Keys, now)
    {
      match c
      case Issue(issuer, grant) => var _ := grants.Issue(issuer, grant, now);
      case Revoke(from, to) => grants.Revoke(from, to);
      case RevokeAllTo(to) => var _ := grants.RevokeAllTo(to);
      case Prune => var _ := grants.Prune(now);
    }

    method Perform(c: Command, now: int)
      requires Valid()
      modifies this, plane, trust, grants
      ensures Valid()
      ensures trust.trust == if c.ToTrust? then After(trust.derive, old(trust.trust), c.t) else old(trust.trust)
      ensures !c.ToPlane? ==> plane.participants == old(plane.participants) && plane.routes == old(plane.routes)
      ensures !c.ToGrants? ==> grants.grants == old(grants.grants)
      ensures !c.ToBroker? ==> channels == old(channels)
    {
      match c
      case ToPlane(p) => PerformOnPlane(p);
      case ToTrust(t) => PerformOnTrust(t);
      case ToGrants(g) => PerformOnGrants(g, now);
      case ToBroker(Open(from, to, scope)) => var _ := Open(from, to, scope, now);
      case ToBroker(Close(from, to)) => Close(from, to);
      case ToBroker(List(from, scope)) => var _ := Reachable(from, scope, now);
    }

    /**
     * Over any run: both ends of every route are registered, every trusted key derives its name, and
     * every grant is filed under its own edge. What is trusted is decided by the trust commands alone.
     */
    method PerformAll(run: seq<(Command, int)>)
      requires Valid()
      modifies this, plane, trust, grants
      ensures Valid()
      ensures trust.trust == AfterAll(trust.derive, old(trust.trust), TrustCommands(run))
    {
      for i := 0 to |run|
        invariant Valid()
        invariant trust.trust == AfterAll(trust.derive, old(trust.trust), TrustCommands(run[..i]))
      {
        assert run[..i + 1][..i] == run[..i];
        TrustCommandsMore(run[..i], run[i]);
        assert run[..i + 1] == run[..i] + [run[i]];
        Perform(run[i].0, run[i].1);
      }
      assert run[..|run|] == run;
    }

    /**
     * From an empty trust store, Open finds a registered target trusted exactly if a successful Pair
     * or SetOwned of it has had no Unpair since, whatever else was done in between.
     */
    method OpenAfter(run: seq<(Command, int)>, from: string, to: string, scope: string, now: int)
      returns (r: Result<Channel, ChannelError>)
      requires Valid() && trust.trust == map[]
      modifies this, plane, trust, grants
      ensures from in plane.participants && to in plane.participants ==>
        (r != Err(NotTrusted) <==>
           exists i :: 0 <= i < |TrustCommands(run)| && StandsFrom(trust.derive, TrustCommands(run), to, i))
    {
      PerformAll(run);
      TrustByHistory(trust.derive, TrustCommands(run), to);
      r := Open(from, to, scope, now);
    }
  }

  /** The commands of a run that are for the trust store. */
  function TrustCommands(run: seq<(Command, int)>): seq<TrustCommand> {
    if run == [] then []
    else
      var front, last := TrustCommands(run[..|run| - 1]), run[|run| - 1].0;
      if last.ToTrust? then front + [last.t] else front
  }

  lemma TrustCommandsMore(run: seq<(Command, int)>, c: (Command, int))
    ensures TrustCommands(run + [c]) ==
      if c.0.ToTrust? then TrustCommands(run) + [c.0.t] else TrustCommands(run)
    ensures c.0.ToTrust? ==> (TrustCommands(run) + [c.0.t])[..|TrustCommands(run)|] == TrustCommands(run)
  {
    assert (run + [c])[..|run|] == run;
  }

  predicate AreLinks(out: seq<Channel>, ids: seq<string>, links: map<string, Channel>) {
    forall i :: 0 <= i < |out| ==> out[i].to in ids && out[i].to in links && out[i] == links[out[i].to]
  }

  ghost predicate HasChannel(out: seq<Channel>, to: string) {
    exists i :: 0 <= i < |out| && out[i].to == to
  }

  predicate AscendingTargets(out: seq<Channel>) {
    forall i, j :: 0 <= i < j < |out| ==> LexLess(out[i].to, out[j].to)
  }

  predicate AllBelow(out: seq<Channel>, to: string) {
    forall i :: 0 <= i < |out| ==> LexLess(out[i].to, to)
  }

  /** The list holds, ascending, the links to those of some ids that have one. */
  ghost predicate Lists(out: seq<Channel>, ids: seq<string>, links: map<string, Channel>) {
    && AreLinks(out, ids, links) && AscendingTargets(out)
    && forall to :: to in ids && to in links ==> HasChannel(out, to)
  }

  lemma NothingMore(out: seq<Channel>, ids: seq<string>, to: string, links: map<string, Channel>)
    requires Lists(out, ids, links) && to !in links
    ensures Lists(out, ids + [to], links)
  {
  }

  lemma Ascending(out: seq<Channel>, ids: seq<string>, to: string, links: map<string, Channel>)
    requires StrictlySorted(ids + [to]) && AreLinks(out, ids, links)
    ensures AllBelow(out, to)
  {
    forall i | 0 <= i < |out| ensures LexLess(out[i].to, to) {
      var k :| 0 <= k < |ids| && ids[k] == out[i].to;
      assert (ids + [to])[k] == ids[k] && (ids + [to])[|ids|] == to;
    }
  }

  lemma HasChannelMore(out: seq<Channel>, c: Channel, to: string)
    ensures HasChannel(out + [c], to) <==> HasChannel(out, to) || c.to == to
  {
    var more := out + [c];
    if HasChannel(out, to) {
      var i :| 0 <= i < |out| && out[i].to == to;
      assert more[i].to == to;
    }
    assert more[|out|] == c;
  }

  lemma ListsMore(out: seq<Channel>, ids: seq<string>, to: string, links: map<string, Channel>)
    requires Lists(out, ids, links) && to in links && links[to].to == to && AllBelow(out, to)
    ensures Lists(out + [links[to]], ids + [to], links)
  {
    forall t | t in ids + [to] && t in links ensures HasChannel(out + [links[to]], t) {
      HasChannelMore(out, links[to], t);
    }
  }

  /** The channels of a list are recorded, and the other records are as they were. */
  ghost predicate Recorded(channels: map<string, Channel>, out: seq<Channel>, from: string,
                           before: map<string, Channel>) {
    && (forall i :: 0 <= i < |out| ==> Key(from, out[i].to) in channels && channels[Key(from, out[i].to)] == out[i])
    && (forall k :: k in before ==> k in channels)
    && forall k :: k in channels && !(k in before && channels[k] == before[k]) ==>
         exists i :: 0 <= i < |out| && k == Key(from, out[i].to)
  }

  lemma RecordedMore(channels: map<string, Channel>, out: seq<Channel>, from: string, before: map<string, Channel>,
                     c: Channel)
    requires Recorded(channels, out, from, before) && AllBelow(out, c.to)
    ensures Recorded(channels[Key(from, c.to) := c], out + [c], from, before)
  {
    var now, more := channels[Key(from, c.to) := c], out + [c];
    forall i | 0 <= i < |out| ensures out[i].to != c.to {
      LexTotal(c.to, c.to);
    }
    EdgesFromOne(from, out, c.to);
    forall k | k in now && !(k in before && now[k] == before[k])
      ensures exists i :: 0 <= i < |more| && k == Key(from, more[i].to)
    {
      if k == Key(from, c.to) {
        assert more[|out|] == c;
      } else {
        var i :| 0 <= i < |out| && k == Key(from, out[i].to);
        assert more[i] == out[i];
      }
    }
  }

  predicate ByTarget(a: Channel, b: Channel) {
    LexLess(a.to, b.to)
  }

  /** The edges of one participant have different keys for different targets. */
  lemma EdgesFromOne(from: string, out: seq<Channel>, to: string)
    requires forall i :: 0 <= i < |out| ==> out[i].to != to
    ensures forall i :: 0 <= i < |out| ==> Key(from, out[i].to) != Key(from, to)
  {
    forall i | 0 <= i < |out| ensures Key(from, out[i].to) != Key(from, to) {
      assert Key(from, out[i].to)[|from| + 2..] == out[i].to && Key(from, to)[|from| + 2..] == to;
    }
  }

  /** Sorting an ascending list leaves it as it is. */
  lemma AlreadySorted(out: seq<Channel>)
    requires AscendingTargets(out)
    ensures StableSort(ByTarget, out) == out
  {
    LexIsStrictWeak();
    forall i, j | 0 <= i < j < |out| ensures !ByTarget(out[j], out[i]) {
      LexTotal(out[i].to, out[j].to);
    }
    StableSortSorts(ByTarget, out);
    SortedIsUnique(ByTarget, StableSort(ByTarget, out), out);
  }
}
