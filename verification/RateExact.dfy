/**
  When the bound of two budgets in a period holds: the exact condition on the settings of the
  identifiers that share a counter key, and the requests that break it otherwise.
 */
module RateExact {
  import opened Wrappers
  import opened TtlCache
  import opened RateLimiter
  import opened RateTables
  import opened RateBudget

  /** The two-budgets bound, for every client and every sequence of requests. */
  ghost predicate BudgetHolds(t: Snapshot, id: string)
    requires id in t.limiters
  {
    forall requests, client, from | Chronological(requests) ::
      Span(Log(t, requests, id, client), from, t.limiters[id].period) <= 2 * Max0(t.limiters[id].limit)
  }

  /* ---------- Bursts and rounds ---------- */

  function Repeat(time: int, n: nat): seq<int> { seq(n, _ => time) }

  /** A client's faultless call. */
  function Call(endpoint: string, client: string, time: int): Request {
    Request(time, endpoint, None, Some(client), NoFault, false)
  }

  function Burst(mine: string, client: string, time: int, n: nat): seq<Request> {
    seq(n, _ => Call(mine, client, time))
  }

  lemma OneMore(t: Snapshot, requests: seq<Request>, r: Request, id: string, client: string)
    ensures Run(t, requests + [r]) == Serve(t, Run(t, requests), r).1
    ensures Log(t, requests + [r], id, client)
         == Log(t, requests, id, client) + if Spends(t, Run(t, requests), r, id, client) then [r.time] else []
  {
    assert (requests + [r])[..|requests + [r]| - 1] == requests;
  }

  /** Calls of `mine` under the client are counted for id, where calls of `other` under c' are counted too. */
  predicate Intrudes(t: Snapshot, id: string, client: string, other: string, c': string, mine: string) {
    var intruder := EndpointRate(t.active, other).identifier;
    && EndpointRate(t.active, mine).identifier == id && id in t.limiters
    && intruder != id && intruder in t.limiters && CounterKey(id, client) == CounterKey(intruder, c')
  }

  predicate Mine(t: Snapshot, id: string, mine: string) {
    EndpointRate(t.active, mine).identifier == id && id in t.limiters
  }

  /** A call in the current window, within the limit, runs. */
  lemma RunsInWindow(t: Snapshot, before: seq<Request>, id: string, client: string, mine: string, time: int)
    requires Mine(t, id, mine) && CounterKey(id, client) in Run(t, before)
    requires var w := Run(t, before)[CounterKey(id, client)]; time < w.until && w.count + 1 <= t.limiters[id].limit
    ensures var key, after := CounterKey(id, client), before + [Call(mine, client, time)];
            && key in Run(t, after)
            && Run(t, after)[key] == Run(t, before)[key].(count := Run(t, before)[key].count + 1)
            && Log(t, after, id, client) == Log(t, before, id, client) + [time]
  {
    OneMore(t, before, Call(mine, client, time), id, client);
  }

  /** A call after the window's end begins a window of its own and runs. */
  lemma BeginsWindow(t: Snapshot, before: seq<Request>, id: string, client: string, mine: string, time: int)
    requires Mine(t, id, mine) && t.limiters[id].limit >= 1
    requires var key := CounterKey(id, client); key in Run(t, before) ==> Run(t, before)[key].until <= time
    ensures var key, after := CounterKey(id, client), before + [Call(mine, client, time)];
            && key in Run(t, after) && Run(t, after)[key] == Window(time, time + t.limiters[id].period, 1)
            && Log(t, after, id, client) == Log(t, before, id, client) + [time]
  {
    OneMore(t, before, Call(mine, client, time), id, client);
  }

  /** The intruder's call after the window's end begins a window, and spends nothing of the client's. */
  lemma IntruderBegins(t: Snapshot, before: seq<Request>, id: string, client: string, other: string, c': string,
                       mine: string, time: int)
    requires Intrudes(t, id, client, other, c', mine)
    requires var key := CounterKey(id, client); key in Run(t, before) ==> Run(t, before)[key].until <= time
    ensures var key, after := CounterKey(id, client), before + [Call(other, c', time)];
            var period := t.limiters[EndpointRate(t.active, other).identifier].period;
            && key in Run(t, after) && Run(t, after)[key] == Window(time, time + period, 1)
            && Log(t, after, id, client) == Log(t, before, id, client)
  {
    OneMore(t, before, Call(other, c', time), id, client);
    assert Log(t, before, id, client) + [] == Log(t, before, id, client);
  }

  lemma {:induction false} BurstRuns(t: Snapshot, before: seq<Request>, id: string, client: string, mine: string,
                                     time: int, n: nat)
    requires Mine(t, id, mine) && CounterKey(id, client) in Run(t, before)
    requires var w := Run(t, before)[CounterKey(id, client)]; time < w.until && w.count + n <= t.limiters[id].limit
    ensures var key, after := CounterKey(id, client), before + Burst(mine, client, time, n);
            && key in Run(t, after)
            && Run(t, after)[key] == Run(t, before)[key].(count := Run(t, before)[key].count + n)
            && Log(t, after, id, client) == Log(t, before, id, client) + Repeat(time, n)
  {
    hide Run, Log, Serve;
    if n == 0 {
      assert before + Burst(mine, client, time, 0) == before;
      assert Log(t, before, id, client) + Repeat(time, 0) == Log(t, before, id, client);
    } else {
      BurstRuns(t, before, id, client, mine, time, n - 1);
      var shorter := before + Burst(mine, client, time, n - 1);
      RunsInWindow(t, shorter, id, client, mine, time);
      assert before + Burst(mine, client, time, n) == shorter + [Call(mine, client, time)];
      assert Repeat(time, n) == Repeat(time, n - 1) + [time];
      assert Log(t, before, id, client) + Repeat(time, n)
          == (Log(t, before, id, client) + Repeat(time, n - 1)) + [time];
    }
  }

  /** A round: the intruder begins a window, and the client makes as many calls in it as run. */
  function Round(other: string, c': string, mine: string, client: string, start: int, time: int, n: nat): seq<Request> {
    [Call(other, c', start)] + Burst(mine, client, time, n)
  }

  lemma RoundRuns(t: Snapshot, before: seq<Request>, id: string, client: string, other: string, c': string,
                  mine: string, start: int, time: int, n: nat)
    requires Intrudes(t, id, client, other, c', mine) && 1 + n <= t.limiters[id].limit
    requires var key := CounterKey(id, client); key in Run(t, before) ==> Run(t, before)[key].until <= start
    requires start <= time < start + t.limiters[EndpointRate(t.active, other).identifier].period
    ensures var key, after := CounterKey(id, client), before + Round(other, c', mine, client, start, time, n);
            var period := t.limiters[EndpointRate(t.active, other).identifier].period;
            && key in Run(t, after) && Run(t, after)[key].until == start + period
            && Log(t, after, id, client) == Log(t, before, id, client) + Repeat(time, n)
  {
    hide Run, Log, Serve;
    IntruderBegins(t, before, id, client, other, c', mine, start);
    BurstRuns(t, before + [Call(other, c', start)], id, client, mine, time, n);
    assert before + Round(other, c', mine, client, start, time, n)
        == (before + [Call(other, c', start)]) + Burst(mine, client, time, n);
  }

  /** A burst that begins a window of the client's own. */
  lemma OwnBurstRuns(t: Snapshot, before: seq<Request>, id: string, client: string, mine: string, time: int, n: nat)
    requires Mine(t, id, mine) && 1 <= n <= t.limiters[id].limit && t.limiters[id].period > 0
    requires var key := CounterKey(id, client); key in Run(t, before) ==> Run(t, before)[key].until <= time
    ensures Log(t, before + Burst(mine, client, time, n), id, client) == Log(t, before, id, client) + Repeat(time, n)
  {
    hide Run, Log, Serve;
    BeginsWindow(t, before, id, client, mine, time);
    BurstRuns(t, before + [Call(mine, client, time)], id, client, mine, time, n - 1);
    assert before + Burst(mine, client, time, n)
        == (before + [Call(mine, client, time)]) + Burst(mine, client, time, n - 1);
    assert Repeat(time, n) == [time] + Repeat(time, n - 1);
    assert Log(t, before, id, client) + Repeat(time, n)
        == (Log(t, before, id, client) + [time]) + Repeat(time, n - 1);
  }

  lemma {:induction false} WithinRepeat(log: seq<int>, time: int, n: nat, lo: int, hi: int)
    requires lo <= time < hi
    ensures Within(log + Repeat(time, n), lo, hi) == Within(log, lo, hi) + n
  {
    if n == 0 {
      assert log + Repeat(time, 0) == log;
    } else {
      WithinRepeat(log, time, n - 1, lo, hi);
      assert log + Repeat(time, n) == (log + Repeat(time, n - 1)) + [time];
      WithinAfterRun(log + Repeat(time, n - 1), time, lo, hi);
    }
  }

  predicate AllBy(requests: seq<Request>, time: int) { forall i | 0 <= i < |requests| :: requests[i].time <= time }

  lemma RoundFollows(before: seq<Request>, other: string, c': string, mine: string, client: string, start: int,
                     time: int, n: nat)
    requires Chronological(before) && AllBy(before, start) && start <= time
    ensures var after := before + Round(other, c', mine, client, start, time, n);
            Chronological(after) && AllBy(after, time)
  {
  }

  lemma BurstFollows(before: seq<Request>, mine: string, client: string, time: int, n: nat)
    requires Chronological(before) && AllBy(before, time)
    ensures Chronological(before + Burst(mine, client, time, n))
  {
  }

  /* ---------- The requests that break the bound ---------- */

  /** A limit of three or more: runs at the end of a first short window, in a second one, and in a window after it. */
  function ThreeWindows(other: string, c': string, mine: string, client: string, length: int, limit: nat): seq<Request>
    requires limit >= 3
  {
    Round(other, c', mine, client, 0, length - 1, limit - 1) + Round(other, c', mine, client, length, length, limit - 1)
    + Burst(mine, client, 2 * length, limit)
  }

  lemma ThreeWindowsBreak(t: Snapshot, id: string, client: string, other: string, c': string, mine: string)
    requires Intrudes(t, id, client, other, c', mine) && t.limiters[id].limit >= 3
    requires 1 <= t.limiters[EndpointRate(t.active, other).identifier].period <= t.limiters[id].period - 2
    ensures !BudgetHolds(t, id)
  {
    hide Run, Log, Serve, Within;
    var length, limit := t.limiters[EndpointRate(t.active, other).identifier].period, t.limiters[id].limit;
    var r1 := Round(other, c', mine, client, 0, length - 1, limit - 1);
    var r2 := Round(other, c', mine, client, length, length, limit - 1);
    var requests := ThreeWindows(other, c', mine, client, length, limit);
    NothingYet(t, id, client);
    RoundRuns(t, [], id, client, other, c', mine, 0, length - 1, limit - 1);
    RoundRuns(t, [] + r1, id, client, other, c', mine, length, length, limit - 1);
    OwnBurstRuns(t, [] + r1 + r2, id, client, mine, 2 * length, limit);
    assert requests == [] + r1 + r2 + Burst(mine, client, 2 * length, limit);
    var lo, hi := length - 1, length - 1 + t.limiters[id].period;
    var l1 := [] + Repeat(length - 1, limit - 1);
    WithinRepeat([], length - 1, limit - 1, lo, hi);
    WithinRepeat(l1, length, limit - 1, lo, hi);
    WithinRepeat(l1 + Repeat(length, limit - 1), 2 * length, limit, lo, hi);
    RoundFollows([], other, c', mine, client, 0, length - 1, limit - 1);
    RoundFollows([] + r1, other, c', mine, client, length, length, limit - 1);
    BurstFollows([] + r1 + r2, mine, client, 2 * length, limit);
    assert Span(Log(t, requests, id, client), lo, t.limiters[id].period) > 2 * Max0(limit);
  }

  lemma NothingYet(t: Snapshot, id: string, client: string)
    ensures Run(t, []) == map[] && Log(t, [], id, client) == []
  {
  }

  /** A limit of two: one run in each of three short windows, and two in a window after them. */
  function FourWindows(other: string, c': string, mine: string, client: string, length: int): seq<Request> {
    Round(other, c', mine, client, 0, length - 1, 1) + Round(other, c', mine, client, length, length, 1)
    + Round(other, c', mine, client, 2 * length, 2 * length, 1) + Burst(mine, client, 3 * length, 2)
  }

  lemma FourWindowsBreak(t: Snapshot, id: string, client: string, other: string, c': string, mine: string)
    requires Intrudes(t, id, client, other, c', mine) && t.limiters[id].limit == 2
    requires var length := t.limiters[EndpointRate(t.active, other).identifier].period;
             1 <= length && 2 * length <= t.limiters[id].period - 2
    ensures !BudgetHolds(t, id)
  {
    hide Run, Log, Serve, Within;
    var length := t.limiters[EndpointRate(t.active, other).identifier].period;
    var r1 := Round(other, c', mine, client, 0, length - 1, 1);
    var r2 := Round(other, c', mine, client, length, length, 1);
    var r3 := Round(other, c', mine, client, 2 * length, 2 * length, 1);
    var requests := FourWindows(other, c', mine, client, length);
    NothingYet(t, id, client);
    RoundRuns(t, [], id, client, other, c', mine, 0, length - 1, 1);
    RoundRuns(t, [] + r1, id, client, other, c', mine, length, length, 1);
    RoundRuns(t, [] + r1 + r2, id, client, other, c', mine, 2 * length, 2 * length, 1);
    OwnBurstRuns(t, [] + r1 + r2 + r3, id, client, mine, 3 * length, 2);
    assert requests == [] + r1 + r2 + r3 + Burst(mine, client, 3 * length, 2);
    var lo, hi := length - 1, length - 1 + t.limiters[id].period;
    var l1 := [] + Repeat(length - 1, 1);
    WithinRepeat([], length - 1, 1, lo, hi);
    WithinRepeat(l1, length, 1, lo, hi);
    WithinRepeat(l1 + Repeat(length, 1), 2 * length, 1, lo, hi);
    WithinRepeat(l1 + Repeat(length, 1) + Repeat(2 * length, 1), 3 * length, 2, lo, hi);
    RoundFollows([], other, c', mine, client, 0, length - 1, 1);
    RoundFollows([] + r1, other, c', mine, client, length, length, 1);
    RoundFollows([] + r1 + r2, other, c', mine, client, 2 * length, 2 * length, 1);
    BurstFollows([] + r1 + r2 + r3, mine, client, 3 * length, 2);
    assert Within([], lo, hi) == 0 by { EmptyLog(lo, hi); }
    assert Span(Log(t, requests, id, client), lo, t.limiters[id].period) > 2 * Max0(2);
  }

  lemma EmptyLog(lo: int, hi: int)
    ensures Within([], lo, hi) == 0
  {
  }

  /** An intruder whose period does not fit breaks the bound. */
  lemma UnfitPeriodBreaksBudget(t: Snapshot, id: string, client: string, other: string, c': string, mine: string)
    requires Intrudes(t, id, client, other, c', mine)
    requires !Fits(t.limiters[EndpointRate(t.active, other).identifier].period, t.limiters[id])
    ensures !BudgetHolds(t, id)
  {
    hide BudgetHolds;
    if t.limiters[id].limit == 2 {
      FourWindowsBreak(t, id, client, other, c', mine);
    } else {
      ThreeWindowsBreak(t, id, client, other, c', mine);
    }
  }

  /* ---------- The exact condition ---------- */

  lemma TolerantBudget(t: Snapshot, id: string)
    requires Tolerant(t, id)
    ensures BudgetHolds(t, id)
  {
    forall requests, client, from | Chronological(requests)
      ensures Span(Log(t, requests, id, client), from, t.limiters[id].period) <= 2 * Max0(t.limiters[id].limit)
    {
      SharedBudget(t, requests, id, client);
    }
  }

  /**
    The exact condition for a given configuration: the clients of an identifier in use run at
    most twice its Limit in every span of one Period if and only if every identifier that
    shares a counter key with it has a period that is not positive, or no shorter than Period - 1,
    or longer than half of Period - 2 with a Limit of two; or the Limit is at most one.
   */
  lemma BudgetHoldsExact(t: Snapshot, id: string, mine: string)
    requires id in t.limiters && EndpointRate(t.active, mine).identifier == id
    ensures BudgetHolds(t, id) <==> Tolerant(t, id)
  {
    hide BudgetHolds;
    if Tolerant(t, id) {
      TolerantBudget(t, id);
    } else {
      var other: string :| var intruder := EndpointRate(t.active, other).identifier;
        intruder in t.limiters && KeysMeet(id, intruder) && !Fits(t.limiters[intruder].period, t.limiters[id]);
      KeysMeetExactly(id, EndpointRate(t.active, other).identifier);
      var c, c' :| CounterKey(id, c) == CounterKey(EndpointRate(t.active, other).identifier, c');
      UnfitPeriodBreaksBudget(t, id, c, other, c', mine);
    }
  }

  /** Limiters for the identifiers in use, with any settings. */
  predicate Sets(active: Table, limiters: Limiters) { forall e | e in active :: active[e].identifier in limiters }

  /** Two budgets is the bound under every setting of the limiters. */
  ghost predicate AlwaysBudgeted(active: Table, id: string) {
    forall limiters | Sets(active, limiters) && id in limiters :: BudgetHolds(Snapshot(active, limiters), id)
  }

  /**
    Over all limits and periods the identifiers may be set to, the bound of an identifier in
    use holds if and only if no other identifier in use shares a counter key with it.
   */
  lemma BudgetedIffKeysApart(active: Table, id: string, mine: string)
    requires DEFAULT in active && EndpointRate(active, mine).identifier == id
    ensures AlwaysBudgeted(active, id) <==> KeysApart(active, id)
  {
    hide BudgetHolds;
    if KeysApart(active, id) {
      forall limiters | Sets(active, limiters) && id in limiters ensures BudgetHolds(Snapshot(active, limiters), id) {
        var t := Snapshot(active, limiters);
        ApartIsTolerant(t, id);
        BudgetHoldsExact(t, id, mine);
      }
    } else {
      var other: string :| EndpointRate(active, other).identifier != id
        && KeysMeet(id, EndpointRate(active, other).identifier);
      var intruder := EndpointRate(active, other).identifier;
      var names := set e | e in active :: active[e].identifier;
      var limiters := map i | i in names :: if i == id then Setting(3, 5) else Setting(1, 1);
      assert Sets(active, limiters) && id in names && intruder in names;
      var t := Snapshot(active, limiters);
      assert !Fits(t.limiters[intruder].period, t.limiters[id]);
      BudgetHoldsExact(t, id, mine);
    }
  }
}
