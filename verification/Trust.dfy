/** Whom this node trusts, under self-authenticating names. */
module Trust {
  import opened Wrappers

  type PublicKey = seq<nat>

  datatype Level = Untrusted | Paired | Owned

  datatype Entry = Entry(pub: PublicKey, level: Level)

  const KEY_SIZE: nat := 32

  type Entries = map<string, Entry>

  /** What a trust store can be asked to do. */
  datatype TrustCommand = Pair(id: string, pub: PublicKey) | SetOwned(id: string, pub: PublicKey) | Unpair(id: string)

  /** The key of the command derives the name. */
  predicate Vouches(derive: PublicKey -> string, c: TrustCommand, id: string) {
    !c.Unpair? && c.id == id && |c.pub| == 32 && derive(c.pub) == id
  }

  /** What one command makes of the entries. */
  function After(derive: PublicKey -> string, entries: Entries, c: TrustCommand): Entries {
    if c.Unpair? then entries - {c.id}
    else if !Vouches(derive, c, c.id) then entries
    else
      var owned := c.SetOwned? || (c.id in entries && entries[c.id].level == Owned);
      entries[c.id := Entry(c.pub, if owned then Owned else Paired)]
  }

  function AfterAll(derive: PublicKey -> string, entries: Entries, cs: seq<TrustCommand>): Entries {
    if cs == [] then entries else After(derive, AfterAll(derive, entries, cs[..|cs| - 1]), cs[|cs| - 1])
  }

  /** Command number i vouched for the name, and the name has not been unpaired since. */
  predicate StandsFrom(derive: PublicKey -> string, cs: seq<TrustCommand>, id: string, i: nat)
    requires i < |cs|
  {
    Vouches(derive, cs[i], id) && forall j :: i < j < |cs| ==> cs[j] != Unpair(id)
  }

  /**
   * Trust by history: after any commands a name is known exactly if a successful Pair or SetOwned of it
   * has had no Unpair since, and is owned exactly if one of those was a SetOwned.
   */
  lemma {:induction false} TrustByHistory(derive: PublicKey -> string, cs: seq<TrustCommand>, id: string)
    ensures var entries := AfterAll(derive, map[], cs);
      && (id in entries <==> exists i :: 0 <= i < |cs| && StandsFrom(derive, cs, id, i))
      && (id in entries ==> entries[id].level != Untrusted && derive(entries[id].pub) == id)
      && (id in entries ==>
            (entries[id].level == Owned <==>
               exists i :: 0 <= i < |cs| && StandsFrom(derive, cs, id, i) && cs[i].SetOwned?))
  {
    if cs != [] {
      var front, last := cs[..|cs| - 1], cs[|cs| - 1];
      TrustByHistory(derive, front, id);
      StandsLonger(derive, front, last, id);
      assert cs == front + [last];
    }
  }

  /** Of the commands that vouched for the name, the last one, if no Unpair came after it. */
  predicate StandsLast(derive: PublicKey -> string, cs: seq<TrustCommand>, id: string, i: nat)
    requires i < |cs|
  {
    StandsFrom(derive, cs, id, i) && forall j :: i < j < |cs| ==> !Vouches(derive, cs[j], id)
  }

  /** The key of a known name is the one that it was last vouched for with. */
  lemma {:induction false} LastKeyCounts(derive: PublicKey -> string, cs: seq<TrustCommand>, id: string)
    ensures var entries := AfterAll(derive, map[], cs);
      id in entries ==> exists i :: 0 <= i < |cs| && StandsLast(derive, cs, id, i) && cs[i].pub == entries[id].pub
  {
    if cs != [] {
      var front, last := cs[..|cs| - 1], cs[|cs| - 1];
      LastKeyCounts(derive, front, id);
      StandsLonger(derive, front, last, id);
      assert cs == front + [last];
      if Vouches(derive, last, id) {
        assert StandsLast(derive, cs, id, |cs| - 1);
      } else if id in AfterAll(derive, map[], cs) {
        var i :| 0 <= i < |front| && StandsLast(derive, front, id, i)
          && front[i].pub == AfterAll(derive, map[], front)[id].pub;
        assert StandsLast(derive, cs, id, i);
      }
    }
  }

  lemma StandsLonger(derive: PublicKey -> string, cs: seq<TrustCommand>, last: TrustCommand, id: string)
    ensures forall i :: 0 <= i < |cs| ==>
      (StandsFrom(derive, cs + [last], id, i) <==> StandsFrom(derive, cs, id, i) && last != Unpair(id))
    ensures StandsFrom(derive, cs + [last], id, |cs|) <==> Vouches(derive, last, id)
  {
    var more := cs + [last];
    forall i | 0 <= i < |cs|
      ensures StandsFrom(derive, more, id, i) <==> StandsFrom(derive, cs, id, i) && last != Unpair(id)
    {
      assert more[i] == cs[i] && more[|cs|] == last;
      assert forall j :: i < j < |cs| ==> more[j] == cs[j];
    }
  }

  class TrustStore {
    /** The name that a public key derives; a hash that is not looked into. */
    const derive: PublicKey -> string
    var trust: map<string, Entry>

    constructor (derive: PublicKey -> string)
      ensures this.derive == derive && trust == map[] && Authentic()
    {
      this.derive, trust := derive, map[];
    }

    predicate VerifyId(id: string, pub: PublicKey) {
      |pub| == KEY_SIZE && derive(pub) == id
    }

    /** Every stored key derives the name that it is stored under. */
    predicate Authentic()
      reads this
    {
      forall id :: id in trust ==> VerifyId(id, trust[id].pub) && trust[id].level != Untrusted
    }

    function LevelOf(id: string): Level
      reads this
    {
      if id in trust then trust[id].level else Untrusted
    }

    /** At least paired. */
    predicate IsTrusted(id: string)
      reads this
    {
      LevelOf(id) != Untrusted
    }

    /** Stores the key if it derives the name; an owned entry is not downgraded. */
    method Pair(id: string, pub: PublicKey) returns (ok: bool)
      requires Authentic()
      modifies this
      ensures Authentic() && ok == VerifyId(id, pub)
      ensures trust ==
        if ok then old(trust)[id := Entry(pub, if old(LevelOf(id)) == Owned then Owned else Paired)] else old(trust)
      ensures trust == After(derive, old(trust), TrustCommand.Pair(id, pub))
    {
      if !VerifyId(id, pub) {
        return false;
      }
      if id in trust && trust[id].level == Owned {
        trust := trust[id := Entry(pub, Owned)];
        return true;
      }
      trust := trust[id := Entry(pub, Paired)];
      ok := true;
    }

    method SetOwned(id: string, pub: PublicKey) returns (ok: bool)
      requires Authentic()
      modifies this
      ensures Authentic() && ok == VerifyId(id, pub)
      ensures trust == if ok then old(trust)[id := Entry(pub, Owned)] else old(trust)
      ensures trust == After(derive, old(trust), TrustCommand.SetOwned(id, pub))
    {
      if !VerifyId(id, pub) {
        return false;
      }
      trust := trust[id := Entry(pub, Owned)];
      ok := true;
    }

    method Unpair(id: string)
      requires Authentic()
      modifies this
      ensures Authentic() && trust == old(trust) - {id}
      ensures trust == After(derive, old(trust), TrustCommand.Unpair(id))
    {
      trust := trust - {id};
    }
  }
}
