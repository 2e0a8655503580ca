/** What InitializeLimiters leaves behind, in whatever order its loops run. */
module RateTables {
  import opened Wrappers
  import opened RateLimiter

  /* ---------- When the order of the first loop is immaterial ---------- */

  /** Two turns of the first loop that write one endpoint write the same rate for it. */
  ghost predicate Compatible(rates: Table) {
    forall k, l, e | k in rates && l in rates && e in Writes(k, rates[k]) && e in Writes(l, rates[l]) ::
      Writes(k, rates[k])[e] == Writes(l, rates[l])[e]
  }

  /** Endpoint names and aliases of different entries do not meet. */
  predicate Distinct(rates: Table) {
    forall k, l | k in rates && l in rates && k != l ::
      k !in rates[l].aliases && forall a | a in rates[k].aliases :: a !in rates[l].aliases
  }

  lemma {:induction false} AliasWriteKeys(k: string, v: Rate, aliases: seq<string>, e: string)
    ensures e in AliasWrites(k, v, aliases) <==> e in aliases
  {
    if aliases != [] {
      AliasWriteKeys(k, v, aliases[1..], e);
      assert aliases == [aliases[0]] + aliases[1..];
    }
  }

  lemma DistinctIsCompatible(rates: Table)
    requires Distinct(rates)
    ensures Compatible(rates)
  {
    forall k, l, e | k in rates && l in rates && e in Writes(k, rates[k]) && e in Writes(l, rates[l])
      ensures Writes(k, rates[k])[e] == Writes(l, rates[l])[e]
    {
      AliasWriteKeys(k, rates[k], rates[k].aliases, e);
      AliasWriteKeys(l, rates[l], rates[l].aliases, e);
    }
  }

  /** The key whose turn decided an endpoint: the last one that wrote it, if any did. */
  lemma {:induction false} LastWriterDecides(active: Table, rates: Table, order: seq<string>, e: string)
    requires forall i | 0 <= i < |order| :: order[i] in rates
    ensures var result := Install(active, rates, order);
            || (e in result && exists k | k in order :: e in Writes(k, rates[k]) && result[e] == Writes(k, rates[k])[e])
            || ((forall k | k in order :: e !in Writes(k, rates[k]))
                && (e in result <==> e in active) && (e in active ==> result[e] == active[e]))
    decreases |order|
  {
    if order != [] {
      var n := |order| - 1;
      LastWriterDecides(active, rates, order[..n], e);
      assert order == order[..n] + [order[n]];
    }
  }

  /** What a turn of the first loop writes: the entry under its name, and for an alias one that lists the name too. */
  lemma {:induction false} WritesExact(k: string, v: Rate, e: string)
    ensures e in Writes(k, v) <==> e == k || e in v.aliases
    ensures e in v.aliases ==> Writes(k, v)[e] == Rate(v.limit, v.period, v.identifier, v.aliases + [k])
    ensures e == k && e !in v.aliases ==> Writes(k, v)[e] == v
  {
    AliasWriteKeys(k, v, v.aliases, e);
    AliasWriteValues(k, v, v.aliases, e);
  }

  lemma {:induction false} AliasWriteValues(k: string, v: Rate, aliases: seq<string>, e: string)
    ensures e in AliasWrites(k, v, aliases) ==>
              AliasWrites(k, v, aliases)[e] == Rate(v.limit, v.period, v.identifier, v.aliases + [k])
  {
    if aliases != [] {
      AliasWriteValues(k, v, aliases[1..], e);
    }
  }

  /** The entry that the second loop comes to first sets an identifier's limiter; i is its position. */
  lemma {:induction false} FirstEntryDecides(active: Table, order: seq<string>, id: string, i: nat)
    requires forall j | 0 <= j < |order| :: order[j] in active
    requires i <= |order| && forall j | 0 <= j < i :: active[order[j]].identifier != id
    requires i < |order| ==> active[order[i]].identifier == id
    ensures id in Build(active, order) <==> i < |order|
    ensures i < |order| ==>
      Build(active, order)[id] == Setting(active[order[i]].limit, active[order[i]].period)
    decreases |order|
  {
    if order != [] {
      var n := |order| - 1;
      FirstEntryDecides(active, order[..n], id, if i > n then n else i);
    }
  }

  /** An entry and its aliases are written with one identifier, limit and period. */
  lemma {:induction false} WritesShareSetting(k: string, v: Rate, aliases: seq<string>)
    ensures forall e | e in AliasWrites(k, v, aliases) ::
              var r := AliasWrites(k, v, aliases)[e];
              r.identifier == v.identifier && r.limit == v.limit && r.period == v.period
  {
    if aliases != [] {
      WritesShareSetting(k, v, aliases[1..]);
    }
  }

  /** Names of one entry: the endpoint and its aliases. */
  function Names(rates: Table, k: string): seq<string>
    requires k in rates
  {
    [k] + rates[k].aliases
  }

  /** In whatever order the loop runs, an endpoint and its aliases end up under one identifier and setting. */
  lemma AliasesShareSetting(active: Table, rates: Table, order: seq<string>, k: string, name: string)
    requires Distinct(rates) && Ranges(order, rates) && k in rates && name in Names(rates, k)
    ensures var result := Install(active, rates, order);
            && name in result && result[name].identifier == rates[k].identifier
            && result[name].limit == rates[k].limit && result[name].period == rates[k].period
  {
    DistinctIsCompatible(rates);
    LastWriterDecides(active, rates, order, name);
    AliasWriteKeys(k, rates[k], rates[k].aliases, name);
    WritesShareSetting(k, rates[k], rates[k].aliases);
    assert name in Writes(k, rates[k]);
  }

  lemma InstallOrderFree(active: Table, rates: Table, o: seq<string>, o': seq<string>)
    requires Compatible(rates) && Ranges(o, rates) && Ranges(o', rates)
    ensures Install(active, rates, o) == Install(active, rates, o')
  {
    hide Install, Writes;
    var t, t' := Install(active, rates, o), Install(active, rates, o');
    forall e ensures (e in t <==> e in t') && (e in t ==> t[e] == t'[e]) {
      LastWriterDecides(active, rates, o, e);
      LastWriterDecides(active, rates, o', e);
      assert forall k :: k in o <==> k in o';
    }
  }

  /** Any entry can be the last one, or the first one, that a loop comes to. */
  lemma {:induction false} SomeOrder(keys: set<string>) returns (order: seq<string>)
    ensures forall k :: k in order <==> k in keys
    ensures forall i, j | 0 <= i < j < |order| :: order[i] != order[j]
  {
    order := [];
    if keys != {} {
      var k :| k in keys;
      order := SomeOrder(keys - {k});
      order := order + [k];
    }
  }

  lemma OrderEndingWith(table: Table, k: string) returns (order: seq<string>)
    requires k in table
    ensures Ranges(order, table) && |order| > 0 && order[|order| - 1] == k
  {
    order := SomeOrder(table.Keys - {k});
    order := order + [k];
    assert forall i | 0 <= i < |order| :: order[i] in order;
  }

  lemma OrderStartingWith(table: Table, k: string) returns (order: seq<string>)
    requires k in table
    ensures Ranges(order, table) && |order| > 0 && order[0] == k
  {
    order := SomeOrder(table.Keys - {k});
    order := [k] + order;
    assert forall i | 0 <= i < |order| :: order[i] in order;
  }

  ghost predicate InstallDeterministic(active: Table, rates: Table) {
    forall o, o' | Ranges(o, rates) && Ranges(o', rates) :: Install(active, rates, o) == Install(active, rates, o')
  }

  /** The first loop gives one table in every order exactly when its entries are compatible. */
  lemma InstallDeterministicIff(active: Table, rates: Table)
    ensures InstallDeterministic(active, rates) <==> Compatible(rates)
  {
    if Compatible(rates) {
      forall o, o' | Ranges(o, rates) && Ranges(o', rates)
        ensures Install(active, rates, o) == Install(active, rates, o')
      {
        InstallOrderFree(active, rates, o, o');
      }
    }
    if InstallDeterministic(active, rates) {
      forall k, l, e | k in rates && l in rates && e in Writes(k, rates[k]) && e in Writes(l, rates[l])
        ensures Writes(k, rates[k])[e] == Writes(l, rates[l])[e]
      {
        var o := OrderEndingWith(rates, k);
        var o' := OrderEndingWith(rates, l);
        assert Install(active, rates, o) == Install(active, rates, o');
        assert Install(active, rates, o)[e] == Writes(k, rates[k])[e];
        assert Install(active, rates, o')[e] == Writes(l, rates[l])[e];
      }
    }
  }

  /* ---------- When the order of the second loop is immaterial ---------- */

  /** Entries that share an identifier share their limit and period. */
  predicate Agreeing(active: Table) {
    forall e, f | e in active && f in active && active[e].identifier == active[f].identifier ::
      active[e].limit == active[f].limit && active[e].period == active[f].period
  }

  /** Every limiter has the setting of some entry with its identifier, and every entry's identifier has one. */
  lemma {:induction false} BuildCovers(active: Table, order: seq<string>)
    requires forall i | 0 <= i < |order| :: order[i] in active
    ensures forall e | e in order :: active[e].identifier in Build(active, order)
    ensures forall id | id in Build(active, order) ::
              exists e | e in order :: active[e].identifier == id
                                    && Build(active, order)[id] == Setting(active[e].limit, active[e].period)
    decreases |order|
  {
    if order != [] {
      var n := |order| - 1;
      BuildCovers(active, order[..n]);
      assert order == order[..n] + [order[n]];
    }
  }

  /** A limiter that one order builds is built, with the same setting, by every order. */
  lemma BuiltAlike(active: Table, o: seq<string>, o': seq<string>, id: string)
    requires Agreeing(active) && Ranges(o, active) && Ranges(o', active) && id in Build(active, o)
    ensures id in Build(active, o') && Build(active, o')[id] == Build(active, o)[id]
  {
    BuildCovers(active, o);
    BuildCovers(active, o');
    var e :| e in o && active[e].identifier == id
             && Build(active, o)[id] == Setting(active[e].limit, active[e].period);
    assert e in o';
    var f :| f in o' && active[f].identifier == id
             && Build(active, o')[id] == Setting(active[f].limit, active[f].period);
  }

  lemma BuildOrderFree(active: Table, o: seq<string>, o': seq<string>)
    requires Agreeing(active) && Ranges(o, active) && Ranges(o', active)
    ensures Build(active, o) == Build(active, o')
  {
    var b, b' := Build(active, o), Build(active, o');
    forall id ensures (id in b <==> id in b') && (id in b ==> b[id] == b'[id]) {
      if id in b {
        BuiltAlike(active, o, o', id);
      } else if id in b' {
        BuiltAlike(active, o', o, id);
      }
    }
  }

  lemma {:induction false} FirstEntryWins(active: Table, order: seq<string>)
    requires |order| > 0 && forall i | 0 <= i < |order| :: order[i] in active
    ensures var r := active[order[0]];
            r.identifier in Build(active, order) && Build(active, order)[r.identifier] == Setting(r.limit, r.period)
    decreases |order|
  {
    if |order| > 1 {
      FirstEntryWins(active, order[..|order| - 1]);
    } else {
      assert Build(active, order[..0]) == map[];
    }
  }

  ghost predicate BuildDeterministic(active: Table) {
    forall o, o' | Ranges(o, active) && Ranges(o', active) :: Build(active, o) == Build(active, o')
  }

  /** The second loop gives one set of limiters in every order exactly when the table is agreeing. */
  lemma BuildDeterministicIff(active: Table)
    ensures BuildDeterministic(active) <==> Agreeing(active)
  {
    if Agreeing(active) {
      forall o, o' | Ranges(o, active) && Ranges(o', active) ensures Build(active, o) == Build(active, o') {
        BuildOrderFree(active, o, o');
      }
    }
    if BuildDeterministic(active) {
      forall e, f | e in active && f in active && active[e].identifier == active[f].identifier
        ensures active[e].limit == active[f].limit && active[e].period == active[f].period
      {
        var o := OrderStartingWith(active, e);
        var o' := OrderStartingWith(active, f);
        FirstEntryWins(active, o);
        FirstEntryWins(active, o');
        assert Build(active, o) == Build(active, o');
      }
    }
  }

  /**
    Order independence of the whole call: with distinct names and aliases, and an agreeing
    resulting table, every order of both loops gives the same tables.
   */
  lemma InitializeOrderFree(active: Table, rates: Table, i: seq<string>, i': seq<string>,
                            b: seq<string>, b': seq<string>)
    requires Distinct(rates) && Ranges(i, rates) && Ranges(i', rates)
    requires Agreeing(Install(active, rates, i))
    requires Ranges(b, Install(active, rates, i)) && Ranges(b', Install(active, rates, i'))
    ensures Install(active, rates, i) == Install(active, rates, i')
    ensures Build(Install(active, rates, i), b) == Build(Install(active, rates, i'), b')
  {
    DistinctIsCompatible(rates);
    InstallOrderFree(active, rates, i, i');
    BuildOrderFree(Install(active, rates, i), b, b');
  }

  /* ---------- Lookups ---------- */

  /** getEndpointRateLimit; a missing default would give Go's zero Rate. */
  function EndpointRate(active: Table, endpoint: string): Rate {
    if endpoint in active then active[endpoint]
    else if DEFAULT in active then active[DEFAULT]
    else Rate(0, 0, "", [])
  }

  /** getLimiter */
  function LimiterFor(limiters: Limiters, r: Rate): Option<Setting> {
    if r.identifier in limiters then Some(limiters[r.identifier]) else None
  }

  /** One call of InitializeLimiters, with the order its first loop took. */
  datatype Call = Call(rates: Table, order: seq<string>)

  predicate Legal(calls: seq<Call>) { forall c | c in calls :: Ranges(c.order, c.rates) }

  /** The active table accumulates from call to call; the limiters are built anew by each. */
  function TableAfter(calls: seq<Call>): Table
    requires Legal(calls)
    decreases |calls|
  {
    if calls == [] then START
    else
      var c := calls[|calls| - 1];
      Install(TableAfter(calls[..|calls| - 1]), c.rates, c.order)
  }

  lemma {:induction false} DefaultStays(calls: seq<Call>)
    requires Legal(calls)
    ensures DEFAULT in TableAfter(calls)
    decreases |calls|
  {
    if calls != [] {
      var c := calls[|calls| - 1];
      DefaultStays(calls[..|calls| - 1]);
      LastWriterDecides(TableAfter(calls[..|calls| - 1]), c.rates, c.order, DEFAULT);
    }
  }

  /** Before any call the default allows a thousand calls an hour, to every endpoint. */
  lemma StartExact(endpoint: string)
    ensures EndpointRate(START, endpoint) == Rate(1000, 3600 * 1_000_000_000, "default_rate_limit", [])
  {
  }

  /** After one call or more, with any tables in any order, every endpoint string has a limiter. */
  lemma LookupNeverFails(calls: seq<Call>, built: seq<string>, endpoint: string)
    requires calls != [] && Legal(calls) && Ranges(built, TableAfter(calls))
    ensures var active := TableAfter(calls);
            && DEFAULT in active
            && LimiterFor(Build(active, built), EndpointRate(active, endpoint)).Some?
            && (endpoint !in active ==> EndpointRate(active, endpoint) == active[DEFAULT])
  {
    DefaultStays(calls);
    BuildCovers(TableAfter(calls), built);
  }
}
