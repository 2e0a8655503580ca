/**
  The other side of the budget: a client is turned away only when its counter is spent.
 */
module RateRefusals {
  import opened Wrappers
  import opened RateLimiter
  import opened RateTables
  import opened RateBudget

  /* ---------- Refusals ---------- */

  /** Request r is counted under the key, whatever becomes of it. */
  predicate CountsUnder(t: Snapshot, r: Request, key: string) {
    Counts(t, r).Some? && Counts(t, r).value.0 == key && !r.store.FailsBefore?
  }

  /** The times of the calls counted under a key. */
  function CountLog(t: Snapshot, requests: seq<Request>, key: string): seq<int> {
    if requests == [] then []
    else
      var n := |requests| - 1;
      CountLog(t, requests[..n], key) + if CountsUnder(t, requests[n], key) then [requests[n].time] else []
  }

  /** Call i began the window, with the period of its own setting. */
  predicate Began(t: Snapshot, requests: seq<Request>, key: string, w: Window, i: nat) {
    && i < |requests| && CountsUnder(t, requests[i], key)
    && w.until == w.start + Counts(t, requests[i]).value.1.period
  }

  ghost predicate BegunByACall(t: Snapshot, requests: seq<Request>, key: string, w: Window) {
    exists i: nat :: Began(t, requests, key, w, i)
  }

  /** A window's count is no more than the number of calls counted since it began. */
  ghost predicate Tallied(t: Snapshot, requests: seq<Request>, key: string, now: int) {
    var windows, log := Run(t, requests), CountLog(t, requests, key);
    if key !in windows then log == []
    else
      && windows[key].start <= now && (forall i | 0 <= i < |log| :: log[i] <= now)
      && Within(log, windows[key].start, now + 1) >= windows[key].count
      && BegunByACall(t, requests, key, windows[key])
  }

  lemma {:induction false} WithinPast(log: seq<int>, lo: int, now: int, later: int)
    requires now <= later && forall i | 0 <= i < |log| :: log[i] <= now
    ensures Within(log, lo, now + 1) == Within(log, lo, later + 1)
  {
    if log != [] { WithinPast(log[..|log| - 1], lo, now, later); }
  }

  lemma StillBegan(t: Snapshot, requests: seq<Request>, key: string, w: Window)
    requires requests != [] && BegunByACall(t, requests[..|requests| - 1], key, w)
    ensures BegunByACall(t, requests, key, w)
  {
    var i: nat :| Began(t, requests[..|requests| - 1], key, w, i);
    assert Began(t, requests, key, w, i);
  }

  lemma TallyCounts(t: Snapshot, requests: seq<Request>, key: string, before: int)
    requires requests != [] && before <= requests[|requests| - 1].time
    requires Tallied(t, requests[..|requests| - 1], key, before)
    requires CountsUnder(t, requests[|requests| - 1], key)
    ensures Tallied(t, requests, key, requests[|requests| - 1].time)
  {
    var n := |requests| - 1;
    var r, windows, log := requests[n], Run(t, requests[..n]), CountLog(t, requests[..n], key);
    var w := Run(t, requests)[key];
    WithinAfterRun(log, r.time, w.start, r.time + 1);
    if key in windows && r.time < windows[key].until {
      WithinPast(log, windows[key].start, before, r.time);
      var i: nat :| Began(t, requests[..n], key, windows[key], i);
      assert Began(t, requests, key, w, i);
    } else {
      assert Began(t, requests, key, w, n);
    }
  }

  lemma TallyStep(t: Snapshot, requests: seq<Request>, key: string, before: int)
    requires requests != [] && before <= requests[|requests| - 1].time
    requires Tallied(t, requests[..|requests| - 1], key, before)
    ensures Tallied(t, requests, key, requests[|requests| - 1].time)
  {
    var n := |requests| - 1;
    var r, windows, log := requests[n], Run(t, requests[..n]), CountLog(t, requests[..n], key);
    if CountsUnder(t, r, key) {
      TallyCounts(t, requests, key, before);
    } else {
      assert log + [] == log;
      if key in windows {
        WithinPast(log, windows[key].start, before, r.time);
        StillBegan(t, requests, key, windows[key]);
      }
    }
  }

  lemma {:induction false} TallyKept(t: Snapshot, requests: seq<Request>, key: string)
    requires requests != [] && Chronological(requests)
    ensures Tallied(t, requests, key, requests[|requests| - 1].time)
  {
    var n := |requests| - 1;
    if n > 0 {
      TallyKept(t, requests[..n], key);
    }
    TallyStep(t, requests, key, if n > 0 then requests[n - 1].time else requests[n].time);
  }

  /** The first instant of the period that ends now; never later than now. */
  function Back(now: int, period: int): int { if period > 0 then now - period + 1 else now }

  /** A call refused for the limit leaves its window counted past it, begun within the window's length. */
  lemma RefusalWindow(t: Snapshot, windows: Windows, r: Request, key: string, s: Setting)
    requires Counts(t, r) == Some((key, s)) && Serve(t, windows, r).0 == LimitReached
    ensures var after := Serve(t, windows, r).1;
            && !r.store.FailsBefore? && key in after && after[key].count > s.limit
            && (r.time < after[key].until || r.time == after[key].start)
  {
  }

  /** More than `limit` calls were counted under the key in the period that ends now. */
  predicate Spent(t: Snapshot, requests: seq<Request>, key: string, now: int, period: int, limit: int) {
    Within(CountLog(t, requests, key), Back(now, period), now + 1) > limit
  }

  /**
    No early refusal. A call is turned away for reaching the limit only when, counting it, more
    than its Limit calls were counted under its key within the period of some call counted
    there; and that is the call's own Period when no other identifier shares the key.
   */
  lemma RefusedOnlyWhenSpent(t: Snapshot, requests: seq<Request>, id: string, client: string)
    requires requests != [] && id in t.limiters && Chronological(requests)
    requires var n := |requests| - 1;
             && Counts(t, requests[n]).Some? && IdentifierOf(t, requests[n]) == id && requests[n].client == Some(client)
             && Serve(t, Run(t, requests[..n]), requests[n]).0 == LimitReached
    ensures var now, key, s := requests[|requests| - 1].time, CounterKey(id, client), t.limiters[id];
            && (exists i: nat | i < |requests| && CountsUnder(t, requests[i], key) ::
                  Spent(t, requests, key, now, Counts(t, requests[i]).value.1.period, s.limit))
            && (KeysApart(t.active, id) ==> Spent(t, requests, key, now, s.period, s.limit))
  {
    var n, key, s := |requests| - 1, CounterKey(id, client), t.limiters[id];
    var now, log := requests[n].time, CountLog(t, requests, key);
    TallyKept(t, requests, key);
    RefusalWindow(t, Run(t, requests[..n]), requests[n], key, s);
    var w := Run(t, requests)[key];
    var i: nat :| Began(t, requests, key, w, i);
    var period := Counts(t, requests[i]).value.1.period;
    WithinMonotone(log, w.start, now + 1, Back(now, period), now + 1);
    assert Spent(t, requests, key, now, period, s.limit);
    if KeysApart(t.active, id) {
      SharedKeyMeets(id, client, IdentifierOf(t, requests[i]), requests[i].client.value);
      assert EndpointRate(t.active, requests[i].endpoint).identifier == id;
    }
  }
}
