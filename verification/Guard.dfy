/** The nftables layers: each install deletes the named table and then loads a ruleset into it. */
module Guards {
  import opened Kernel

  predicate InterfaceChar(c: char) {
    'A' <= c <= 'Z' || 'a' <= c <= 'z' || '0' <= c <= '9' || c == '_' || c == '.' || c == ':' || c == '-'
  }

  predicate ValidInterface(name: string) {
    1 <= |name| <= 64 && forall i :: 0 <= i < |name| ==> InterfaceChar(name[i])
  }

  /**
   * A valid name has one to 64 characters, all of them ASCII letters, digits or one of `-.:_`, read
   * here by their codes; so no name ends the quotes or the line that holds it in a ruleset's text.
   */
  lemma ValidInterfaceExactly(name: string)
    ensures ValidInterface(name) <==> 1 <= |name| <= 64 && forall c :: c in name ==>
      45 <= c as int <= 46 || 48 <= c as int <= 58 || 65 <= c as int <= 90 || c as int == 95 || 97 <= c as int <= 122
    ensures ValidInterface(name) ==> '\"' !in name && '\n' !in name && ' ' !in name && '}' !in name && ';' !in name
  {
    forall i | 0 <= i < |name| ensures name[i] in name {}
  }

  /** A kernel in which `table` holds exactly `content`, or is absent when `content` is empty. */
  function WithTable(k: State, table: string, content: seq<Ruleset>): State {
    k.(tables := if content == [] then k.tables - {table} else k.tables[table := content])
  }

  /** The ruleset is the one that was loaded last into the table. */
  predicate InForce(k: State, table: string, ruleset: Ruleset) {
    table in k.tables && k.tables[table] != [] && k.tables[table][|k.tables[table]| - 1] == ruleset
  }

  class Guard {
    const host: Host

    constructor (host: Host)
      ensures this.host == host
    {
      this.host := host;
    }

    /** Best effort: a table that is not there is no error. */
    method DeleteTable(table: string) returns (ok: bool)
      modifies host
      ensures old(host.Latched()) ==> host.Latched()
      ensures host.clock == old(host.clock) + 1 && host.engine == old(host.engine)
      ensures ok == (!host.fails(old(host.clock)) && table in old(host.kernel.tables))
      ensures host.kernel == if ok then WithTable(old(host.kernel), table, []) else old(host.kernel)
      ensures host.exposed == (old(host.exposed) || Exposed(host.kernel, host.engine))
    {
      ok := host.Run(NftDelete(table));
    }

    method ApplyRuleset(table: string, ruleset: Ruleset) returns (ok: bool)
      modifies host
      ensures old(host.Latched()) ==> host.Latched()
      ensures old(host.clock) < host.clock && host.engine == old(host.engine)
      ensures !ok ==> host.kernel == old(host.kernel)
      ensures ok ==> host.kernel == WithTable(old(host.kernel), table,
        if table in old(host.kernel.tables) then old(host.kernel.tables)[table] + [ruleset] else [ruleset])
      ensures ok ==> host.clock == old(host.clock) + 2
      ensures ok <==> !host.fails(old(host.clock)) && !host.fails(old(host.clock) + 1)
      ensures host.exposed ==
        (old(host.exposed) || Exposed(old(host.kernel), host.engine) || Exposed(host.kernel, host.engine))
    {
      ok := host.Run(WriteTempFile);
      if ok {
        ok := host.Run(NftLoad(table, ruleset));
      }
    }

    /** Delete, then apply. Whatever fails, only the named table is touched. */
    method Install(table: string, ruleset: Ruleset) returns (ok: bool)
      modifies host
      ensures old(host.Latched()) ==> host.Latched()
      ensures old(host.clock) < host.clock && host.engine == old(host.engine)
      ensures ok ==> InForce(host.kernel, table, ruleset) && host.clock == old(host.clock) + 3
      ensures host.kernel == old(host.kernel).(tables := host.kernel.tables)
      ensures host.kernel.tables - {table} == old(host.kernel.tables) - {table}
      ensures ok && (table !in old(host.kernel.tables) || !host.fails(old(host.clock))) ==>
        host.kernel == WithTable(old(host.kernel), table, [ruleset])
      ensures table !in old(host.kernel.tables) && !ok ==> host.kernel == old(host.kernel)
      ensures ok <==> !host.fails(old(host.clock) + 1) && !host.fails(old(host.clock) + 2)
      ensures table in old(host.kernel.tables) && host.fails(old(host.clock)) ==> table in host.kernel.tables
      ensures table != IPV6_GUARD_TABLE ==>
        host.exposed == (old(host.exposed) || Exposed(old(host.kernel), host.engine))
      ensures table == IPV6_GUARD_TABLE && table in old(host.kernel.tables) ==>
        host.exposed == (old(host.exposed) || (host.engine.Some? && !host.fails(old(host.clock))))
      ensures table == IPV6_GUARD_TABLE && host.engine.None? ==> host.exposed == old(host.exposed)
    {
      var _ := DeleteTable(table);
      ok := ApplyRuleset(table, ruleset);
    }

    method InstallIPv6Guard(iface: string) returns (ok: bool)
      modifies host
      ensures old(host.Latched()) ==> host.Latched()
      ensures !ValidInterface(iface) ==>
        !ok && host.kernel == old(host.kernel) && host.clock == old(host.clock) && host.exposed == old(host.exposed)
      ensures old(host.clock) <= host.clock && host.engine == old(host.engine)
      ensures host.kernel == old(host.kernel).(tables := host.kernel.tables)
      ensures host.kernel.tables - {IPV6_GUARD_TABLE} == old(host.kernel.tables) - {IPV6_GUARD_TABLE}
      ensures ok ==> InForce(host.kernel, IPV6_GUARD_TABLE, Ipv6Guard(iface)) && host.clock == old(host.clock) + 3
      ensures IPV6_GUARD_TABLE !in old(host.kernel.tables) && ok ==>
        host.kernel == WithTable(old(host.kernel), IPV6_GUARD_TABLE, [Ipv6Guard(iface)])
      ensures IPV6_GUARD_TABLE !in old(host.kernel.tables) && !ok ==> host.kernel == old(host.kernel)
      ensures ok <==>
        ValidInterface(iface) && !host.fails(old(host.clock) + 1) && !host.fails(old(host.clock) + 2)
      ensures IPV6_GUARD_TABLE in old(host.kernel.tables) ==>
        host.exposed ==
          (old(host.exposed) || (ValidInterface(iface) && host.engine.Some? && !host.fails(old(host.clock))))
      ensures host.engine.None? ==> host.exposed == old(host.exposed)
    {
      if !ValidInterface(iface) {
        return false;
      }
      ok := Install(IPV6_GUARD_TABLE, Ipv6Guard(iface));
    }

    method InstallConnmark(mark: nat) returns (ok: bool)
      modifies host
      ensures old(host.Latched()) ==> host.Latched()
      ensures old(host.clock) < host.clock && host.engine == old(host.engine)
      ensures host.kernel == old(host.kernel).(tables := host.kernel.tables)
      ensures host.kernel.tables - {CONNMARK_TABLE} == old(host.kernel.tables) - {CONNMARK_TABLE}
      ensures CONNMARK_TABLE !in old(host.kernel.tables) ==>
        host.kernel == if ok then WithTable(old(host.kernel), CONNMARK_TABLE, [Connmark(mark)]) else old(host.kernel)
      ensures ok ==> InForce(host.kernel, CONNMARK_TABLE, Connmark(mark))
      ensures ok <==> !host.fails(old(host.clock) + 1) && !host.fails(old(host.clock) + 2)
      ensures host.exposed == (old(host.exposed) || Exposed(old(host.kernel), host.engine))
    {
      ok := Install(CONNMARK_TABLE, Connmark(mark));
    }
  }
}
