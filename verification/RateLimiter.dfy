/**
  The rate-limit tables: which rate an endpoint has, and which limiter serves it. Go ranges
  over a map in no fixed order, so both loops run in an order chosen from outside.
 */
module RateLimiter {
  datatype Rate = Rate(limit: int, period: int, identifier: string, aliases: seq<string>)

  /** What a limiter is set to. */
  datatype Setting = Setting(limit: int, period: int)

  const DEFAULT := "default_rate_limit"
  const HOUR := 3_600_000_000_000

  type Table = map<string, Rate>
  type Limiters = map<string, Setting>

  /** The table the process starts with. */
  const START: Table := map[DEFAULT := Rate(1000, HOUR, DEFAULT, [])]

  /* ---------- First loop: installing rates ---------- */

  /** What one turn of the loop writes: the endpoint itself, then its aliases in order. */
  function AliasWrites(k: string, v: Rate, aliases: seq<string>): Table {
    if aliases == [] then map[]
    else map[aliases[0] := Rate(v.limit, v.period, v.identifier, v.aliases + [k])] + AliasWrites(k, v, aliases[1..])
  }

  function Writes(k: string, v: Rate): Table { map[k := v] + AliasWrites(k, v, v.aliases) }

  /** The active table after the loop has gone through the keys in the given order. */
  function Install(active: Table, rates: Table, order: seq<string>): Table
    requires forall i | 0 <= i < |order| :: order[i] in rates
    decreases |order|
  {
    if order == [] then active
    else
      var n := |order| - 1;
      Install(active, rates, order[..n]) + Writes(order[n], rates[order[n]])
  }

  /* ---------- Second loop: building limiters ---------- */

  /** The limiters after the loop; the first entry with an identifier sets its limiter. */
  function Build(active: Table, order: seq<string>): Limiters
    requires forall i | 0 <= i < |order| :: order[i] in active
    decreases |order|
  {
    if order == [] then map[]
    else
      var n := |order| - 1;
      var built, r := Build(active, order[..n]), active[order[n]];
      if r.identifier in built then built else built[r.identifier := Setting(r.limit, r.period)]
  }

  /** An order in which a loop may range over a map. */
  predicate Ranges(order: seq<string>, table: Table) {
    && (forall i | 0 <= i < |order| :: order[i] in table)
    && (forall k | k in table :: k in order)
    && (forall i, j | 0 <= i < j < |order| :: order[i] != order[j])
  }

  lemma PutThenAdd(m: Table, k: string, r: Rate, w: Table)
    ensures m[k := r] + w == m + (map[k := r] + w)
  {
  }

  /** rate_limiter.go: the package's tables and the functions over them. */
  class Tables {
    var active: Table
    var limiters: Limiters

    constructor ()
      ensures active == START && limiters == map[]
    {
      active, limiters := START, map[];
    }

    /** One turn of the first loop: lines 60 to 68. */
    method InstallRate(k: string, v: Rate)
      modifies this`active
      ensures active == old(active) + Writes(k, v)
    {
      PutThenAdd(active, k, v, AliasWrites(k, v, v.aliases));
      active := active[k := v];
      for i := 0 to |v.aliases|
        invariant active + AliasWrites(k, v, v.aliases[i..]) == old(active) + Writes(k, v)
      {
        assert v.aliases[i..][1..] == v.aliases[i + 1..];
        var r := Rate(v.limit, v.period, v.identifier, v.aliases + [k]);
        PutThenAdd(active, v.aliases[i], r, AliasWrites(k, v, v.aliases[i + 1..]));
        active := active[v.aliases[i] := r];
      }
      assert active + map[] == active;
    }

    method InstallRates(rates: Table) returns (ghost order: seq<string>)
      modifies this`active
      ensures Ranges(order, rates) && active == Install(old(active), rates, order)
    {
      order := [];
      var left := rates.Keys;
      while left != {}
        invariant left <= rates.Keys
        invariant forall k | k in rates :: k in left <==> k !in order
        invariant forall i | 0 <= i < |order| :: order[i] in rates
        invariant forall i, j | 0 <= i < j < |order| :: order[i] != order[j]
        invariant active == Install(old(active), rates, order)
        decreases left
      {
        var k :| k in left;
        InstallRate(k, rates[k]);
        assert (order + [k])[..|order|] == order;
        order := order + [k];
        left := left - {k};
      }
    }

    method BuildLimiters() returns (ghost order: seq<string>)
      requires limiters == map[]
      modifies this`limiters
      ensures Ranges(order, active) && limiters == Build(active, order)
    {
      order := [];
      var left := active.Keys;
      while left != {}
        invariant left <= active.Keys
        invariant forall k | k in active :: k in left <==> k !in order
        invariant forall i | 0 <= i < |order| :: order[i] in active
        invariant forall i, j | 0 <= i < j < |order| :: order[i] != order[j]
        invariant limiters == Build(active, order)
        decreases left
      {
        var k :| k in left;
        var rateLimit := active[k];
        if rateLimit.identifier !in limiters {
          limiters := limiters[rateLimit.identifier := Setting(rateLimit.limit, rateLimit.period)];
        }
        assert (order + [k])[..|order|] == order;
        order := order + [k];
        left := left - {k};
      }
    }

    /** InitializeLimiters. The ghost results name the orders the two loops happened to take. */
    method InitializeLimiters(rates: Table) returns (ghost installed: seq<string>, ghost built: seq<string>)
      modifies this
      ensures Ranges(installed, rates) && active == Install(old(active), rates, installed)
      ensures Ranges(built, active) && limiters == Build(active, built)
    {
      limiters := map[];
      installed := InstallRates(rates);
      built := BuildLimiters();
    }
  }
}
