/**
  How many handler runs a client gets: the rate limiters over a fixed-window counting store,
  with gRPC names and HTTP aliases drawing on one budget.
 */
module RateBudget {
  import opened Wrappers
  import opened Text
  import opened TtlCache
  import opened RateLimiter
  import opened RateTables

  /** The store's count for a key. The call that begins a window fixes its end. */
  datatype Window = Window(start: int, until: int, count: nat)

  type Windows = map<string, Window>

  /** A call to count: a window begins with the first call after the last one has run out. */
  function Counted(windows: Windows, key: string, period: int, now: int): Window {
    if key in windows && now < windows[key].until
    then windows[key].(count := windows[key].count + 1) else Window(now, now + period, 1)
  }

  /** rate_limiter.go, lines 143 and 232 */
  function CounterKey(identifier: string, client: string): string { identifier + ":" + client }

  /** A request as the limiters see it. For gRPC the endpoint is the full method, for HTTP "METHOD:path". */
  datatype Request = Request(time: int, endpoint: string, service: Option<string>, client: Option<string>,
                             store: Fault, headersFail: bool)

  datatype Verdict = Handled | NoLimiter | NoClient | StoreFailed | HeadersFailed | LimitReached

  /** The tables that requests are served by. */
  datatype Snapshot = Snapshot(active: Table, limiters: Limiters)

  /** The key and setting a request is counted under, if it is counted. */
  function Counts(t: Snapshot, r: Request): Option<(string, Setting)> {
    var rate := EndpointRate(t.active, r.endpoint);
    if r.service.Some? || LimiterFor(t.limiters, rate).None? || r.client.None? then None
    else Some((CounterKey(rate.identifier, r.client.value), LimiterFor(t.limiters, rate).value))
  }

  /** GrpcRateLimiter and HTTPRateLimiter: the verdict and the store afterwards. */
  function Serve(t: Snapshot, windows: Windows, r: Request): (Verdict, Windows) {
    if r.service.Some? then (Handled, windows)
    else if LimiterFor(t.limiters, EndpointRate(t.active, r.endpoint)).None? then (NoLimiter, windows)
    else if r.client.None? then (NoClient, windows)
    else
      var (key, setting) := Counts(t, r).value;
      if r.store.FailsBefore? then (StoreFailed, windows)
      else
        var w := Counted(windows, key, setting.period, r.time);
        (if r.store.FailsAfter? then StoreFailed
         else if r.headersFail then HeadersFailed
         else if w.count > setting.limit then LimitReached
         else Handled,
         windows[key := w])
  }

  /** The count of a key's window that has not run out. */
  function LiveCount(windows: Windows, key: string, now: int): nat {
    if key in windows && now < windows[key].until then windows[key].count else 0
  }

  /** The identifier of an endpoint's entry, or of the default one. */
  function IdentifierFor(active: Table, endpoint: string): string {
    if endpoint in active then active[endpoint].identifier
    else if "default_rate_limit" in active then active["default_rate_limit"].identifier else ""
  }

  /** The call has a client and a limiter, and the store counts it. */
  predicate Countable(t: Snapshot, r: Request) {
    && r.service.None? && r.client.Some? && IdentifierFor(t.active, r.endpoint) in t.limiters && !r.store.FailsBefore?
  }

  /** One more call under the client's key, in its window or in a new one; nothing else changes. */
  predicate OneMoreUnder(t: Snapshot, windows: Windows, after: Windows, r: Request)
    requires Countable(t, r)
  {
    var id := IdentifierFor(t.active, r.endpoint);
    var key := id + ":" + r.client.value;
    && after.Keys == windows.Keys + {key} && (forall k | k in windows && k != key :: after[k] == windows[k])
    && after[key].count == LiveCount(windows, key, r.time) + 1
    && (if LiveCount(windows, key, r.time) > 0
        then after[key].start == windows[key].start && after[key].until == windows[key].until
        else after[key].start == r.time && after[key].until == r.time + t.limiters[id].period)
  }

  /** Every window has counted something. */
  predicate Begun(windows: Windows) { forall k | k in windows :: windows[k].count >= 1 }

  /**
    Which calls run. Without service authentication a handler runs exactly when the call has a
    client and a limiter, store and headers do not fail, and the count that this call has raised
    under its client's key is at most the limit; a call that is not countable changes no window.
   */
  lemma ServeExact(t: Snapshot, windows: Windows, r: Request)
    requires Begun(windows)
    ensures var (verdict, after) := Serve(t, windows, r);
            && Begun(after)
            && (Countable(t, r) ==> OneMoreUnder(t, windows, after, r)) && (!Countable(t, r) ==> after == windows)
            && (r.service.None? ==>
                  var id := IdentifierFor(t.active, r.endpoint);
                  && (verdict == NoLimiter <==> id !in t.limiters)
                  && (verdict == NoClient <==> id in t.limiters && r.client.None?)
                  && (verdict == StoreFailed <==> id in t.limiters && r.client.Some? && !r.store.NoFault?)
                  && (verdict.Handled? || verdict == LimitReached <==>
                        Countable(t, r) && r.store.NoFault? && !r.headersFail)
                  && (verdict.Handled? ==> after[id + ":" + r.client.value].count <= t.limiters[id].limit)
                  && (verdict == LimitReached ==> after[id + ":" + r.client.value].count > t.limiters[id].limit))
            && (r.service.Some? ==> verdict.Handled?)
  {
  }

  /** A client's counter is its own: under one identifier no two clients share a key. */
  lemma ClientsApart(id: string, client: string, client': string)
    requires CounterKey(id, client) == CounterKey(id, client')
    ensures client == client'
  {
    assert CounterKey(id, client)[|id| + 1..] == client && CounterKey(id, client')[|id| + 1..] == client';
  }

  /** The counting store and the limiter in front of the handlers. */
  class Limiter {
    const tables: Snapshot
    var windows: Windows

    constructor (tables: Snapshot)
      ensures this.tables == tables && windows == map[]
    {
      this.tables, windows := tables, map[];
    }

    /** limiter.Get: the count after this call, or None when the store fails. */
    method Get(key: string, setting: Setting, now: int, fault: Fault) returns (count: Option<nat>)
      modifies this
      ensures var w := Counted(old(windows), key, setting.period, now);
              && windows == (if fault.FailsBefore? then old(windows) else old(windows)[key := w])
              && count == if fault.NoFault? then Some(w.count) else None
    {
      if fault.FailsBefore? {
        return None;
      }
      if key in windows && now < windows[key].until {
        windows := windows[key := windows[key].(count := windows[key].count + 1)];
      } else {
        windows := windows[key := Window(now, now + setting.period, 1)];
      }
      count := if fault.NoFault? then Some(windows[key].count) else None;
    }

    /** rate_limiter.go, GrpcRateLimiter, lines 123 to 168; HTTPRateLimiter takes the same decisions. */
    method Limit(r: Request) returns (verdict: Verdict)
      modifies this
      ensures (verdict, windows) == Serve(tables, old(windows), r)
    {
      if r.service.Some? {
        return Handled;
      }
      var rateLimit := EndpointRate(tables.active, r.endpoint);
      var l := LimiterFor(tables.limiters, rateLimit);
      if l.None? {
        return NoLimiter;
      }
      if r.client.None? {
        return NoClient;
      }
      var count := Get(CounterKey(rateLimit.identifier, r.client.value), l.value, r.time, r.store);
      if count.None? {
        return StoreFailed;
      }
      if r.headersFail {
        return HeadersFailed;
      }
      return if count.value > l.value.limit then LimitReached else Handled;
    }
  }

  /* ---------- Runs ---------- */

  function Run(t: Snapshot, requests: seq<Request>): Windows {
    if requests == [] then map[]
    else Serve(t, Run(t, requests[..|requests| - 1]), requests[|requests| - 1]).1
  }

  /** The request's identifier, if it is counted. */
  function IdentifierOf(t: Snapshot, r: Request): string { EndpointRate(t.active, r.endpoint).identifier }

  /** Request r runs its handler on the budget of the given identifier and client. */
  predicate Spends(t: Snapshot, windows: Windows, r: Request, id: string, client: string) {
    Counts(t, r).Some? && IdentifierOf(t, r) == id && r.client == Some(client) && Serve(t, windows, r).0.Handled?
  }

  /** The times of the handler runs charged to an identifier and a client. */
  function Log(t: Snapshot, requests: seq<Request>, id: string, client: string): seq<int> {
    if requests == [] then []
    else
      var n := |requests| - 1;
      Log(t, requests[..n], id, client)
      + if Spends(t, Run(t, requests[..n]), requests[n], id, client) then [requests[n].time] else []
  }

  /** How many of the times lie in the half-open span from lo to hi. */
  function Within(log: seq<int>, lo: int, hi: int): nat {
    if log == [] then 0
    else
      var last := log[|log| - 1];
      Within(log[..|log| - 1], lo, hi) + if lo <= last < hi then 1 else 0
  }

  predicate Chronological(requests: seq<Request>) {
    forall i, j | 0 <= i < j < |requests| :: requests[i].time <= requests[j].time
  }

  /* ---------- Identifiers that share counter keys ---------- */

  /** Two identifiers have a counter key in common, for suitable clients. */
  predicate KeysMeet(id: string, other: string) {
    id == other || HasPrefix(other, id + ":") || HasPrefix(id, other + ":")
  }

  lemma KeysMeetExactly(id: string, other: string)
    ensures KeysMeet(id, other) <==> exists c, c' :: CounterKey(id, c) == CounterKey(other, c')
  {
    if id == other {
      assert CounterKey(id, "") == CounterKey(other, "");
    } else if HasPrefix(other, id + ":") {
      assert CounterKey(id, other[|id| + 1..] + ":") == CounterKey(other, "");
    } else if HasPrefix(id, other + ":") {
      assert CounterKey(id, "") == CounterKey(other, id[|other| + 1..] + ":");
    } else {
      forall c, c' | CounterKey(id, c) == CounterKey(other, c') ensures false {
        SharedKeyMeets(id, c, other, c');
      }
    }
  }

  lemma SharedKeyMeets(id: string, c: string, other: string, c': string)
    requires CounterKey(id, c) == CounterKey(other, c')
    ensures KeysMeet(id, other)
  {
    var key := CounterKey(id, c);
    if |id| < |other| {
      assert id + ":" == key[..|id| + 1] == other[..|id| + 1];
    } else if |other| < |id| {
      assert other + ":" == key[..|other| + 1] == id[..|other| + 1];
    } else {
      assert id == key[..|id|] == other;
    }
  }

  /** A window this long, begun by another identifier, cannot bring a span of s past two budgets. */
  predicate Fits(length: int, s: Setting) {
    length <= 0 || length >= s.period - 1 || s.limit <= 1 || (s.limit == 2 && 2 * length > s.period - 2)
  }

  /** Every identifier that shares counter keys with id has a period that fits; id has a limiter. */
  ghost predicate Tolerant(t: Snapshot, id: string) {
    id in t.limiters
    && forall e: string ::
      var other := EndpointRate(t.active, e).identifier;
      other in t.limiters && KeysMeet(id, other) ==> Fits(t.limiters[other].period, t.limiters[id])
  }

  /** No other identifier in use shares a counter key with id. */
  ghost predicate KeysApart(active: Table, id: string) {
    forall e: string :: EndpointRate(active, e).identifier == id || !KeysMeet(id, EndpointRate(active, e).identifier)
  }

  lemma ApartIsTolerant(t: Snapshot, id: string)
    requires id in t.limiters && KeysApart(t.active, id)
    ensures Tolerant(t, id)
  {
  }

  /** Colon-free identifiers share no counter key, whatever the client keys hold. */
  lemma ColonFreeIsApart(active: Table, id: string)
    requires ':' !in id && forall e: string :: ':' !in EndpointRate(active, e).identifier
    ensures KeysApart(active, id)
  {
    forall e: string
      ensures EndpointRate(active, e).identifier == id || !KeysMeet(id, EndpointRate(active, e).identifier)
    {
      var other := EndpointRate(active, e).identifier;
      assert (id + ":")[|id|] == ':' && (other + ":")[|other|] == ':';
    }
  }

  /* ---------- Arithmetic of spans ---------- */

  lemma {:induction false} WithinMonotone(log: seq<int>, lo: int, hi: int, lo': int, hi': int)
    requires lo' <= lo && hi <= hi'
    ensures Within(log, lo, hi) <= Within(log, lo', hi')
  {
    if log != [] { WithinMonotone(log[..|log| - 1], lo, hi, lo', hi'); }
  }

  lemma {:induction false} WithinSplit(log: seq<int>, lo: int, mid: int, hi: int)
    requires lo <= mid <= hi
    ensures Within(log, lo, hi) == Within(log, lo, mid) + Within(log, mid, hi)
  {
    if log != [] { WithinSplit(log[..|log| - 1], lo, mid, hi); }
  }

  lemma {:induction false} WithinNone(log: seq<int>, lo: int, hi: int)
    requires forall i | 0 <= i < |log| :: log[i] < lo
    ensures Within(log, lo, hi) == 0
  {
    if log != [] { WithinNone(log[..|log| - 1], lo, hi); }
  }

  function Max0(n: int): nat { if n < 0 then 0 else n }

  function Min(a: nat, b: nat): nat { if a < b then a else b }

  /** Runs in the half-open span of one period that begins at t. */
  function Span(log: seq<int>, t: int, period: int): nat { Within(log, t, t + period) }

  /** Runs between t and the beginning of a window that is less than a period later. */
  function Lead(log: seq<int>, t: int, start: int): nat { Within(log, t, start) }

  ghost predicate SpansBounded(log: seq<int>, s: Setting) {
    forall t :: Span(log, t, s.period) <= 2 * Max0(s.limit)
  }

  ghost predicate LeadsBounded(log: seq<int>, start: int, s: Setting) {
    forall t | t < start < t + s.period :: Lead(log, t, start) <= Max0(s.limit)
  }

  /** A window that holds runs is nearly a period long, or half of one when the limit is two. */
  predicate Long(w: Window, s: Setting) {
    w.until - w.start >= s.period - 1 || (s.limit == 2 && 2 * (w.until - w.start) > s.period - 2)
  }

  ghost predicate HalfLeads(log: seq<int>, start: int, s: Setting) {
    forall t | t < start && 2 * (start - t) <= s.period - 1 :: Lead(log, t, start) <= 1
  }

  /**
    With a limit of two: the half period before a window holds one run, and so does the window
    after its first instant, or all of it when its length is not the period.
   */
  ghost predicate Half(log: seq<int>, w: Window, s: Setting) {
    s.limit == 2 ==>
      && HalfLeads(log, w.start, s)
      && Within(log, w.start + 1, w.until) <= 1 && Within(log, w.start + 1, w.until) < w.count
      && (w.until - w.start != s.period ==>
            Within(log, w.start, w.until) <= 1 && Within(log, w.start, w.until) < w.count)
  }

  /** The first instant that is certainly after a window's calls. */
  function End(w: Window): int { if w.until < w.start then w.start else w.until }

  /** Every run so far lies before the end of the current window, and those in it fit its count and the limit. */
  ghost predicate Room(windows: Windows, log: seq<int>, key: string, s: Setting, now: int) {
    if key !in windows then log == []
    else
      var w := windows[key];
      && w.start <= now && w.count >= 1
      && (forall i | 0 <= i < |log| :: log[i] < End(w))
      && Within(log, w.start, w.until) <= Min(w.count, Max0(s.limit))
  }

  /**
    The state of one budget: there is room in the current window; a window that holds runs is
    long enough; and a span that began before the window has had at most one window's worth so
    far outside it.
   */
  ghost predicate Budget(windows: Windows, log: seq<int>, key: string, s: Setting, now: int) {
    && Room(windows, log, key, s, now)
    && (key in windows ==>
      var w := windows[key];
      && Fits(w.until - w.start, s)
      && (Within(log, w.start, w.until) > 0 ==> Long(w, s))
      && SpansBounded(log, s) && LeadsBounded(log, w.start, s) && Half(log, w, s))
  }

  /** A span that begins in the window holds no more than the window does. */
  lemma SpanInWindow(log: seq<int>, start: int, until: int, t: int, hi: int)
    requires start <= t && forall i | 0 <= i < |log| :: log[i] < until
    ensures Within(log, t, hi) <= Within(log, start, until)
  {
    if hi <= until {
      WithinMonotone(log, t, hi, start, until);
    } else if t <= until {
      WithinSplit(log, t, until, hi);
      WithinNone(log, until, hi);
      WithinMonotone(log, t, until, start, until);
    } else {
      WithinNone(log, t, hi);
    }
  }

  /** The span of one period from t, after one more run inside the current window. */
  lemma SpanAfterRun(log: seq<int>, start: int, until: int, period: int, limit: nat, now: int, t: int)
    requires start <= now < until && forall i | 0 <= i < |log| :: log[i] < until
    requires Within(log + [now], start, until) <= limit
    requires Span(log, t, period) <= 2 * limit && (t < start < t + period ==> Lead(log, t, start) <= limit)
    ensures Span(log + [now], t, period) <= 2 * limit
  {
    var after := log + [now];
    assert after[..|after| - 1] == log;
    if start <= t {
      SpanInWindow(after, start, until, t, t + period);
    } else if start < t + period {
      WithinSplit(after, t, start, t + period);
      SpanInWindow(after, start, until, start, t + period);
    }
  }

  /** Adding a run counts it in the spans that hold it. */
  lemma WithinAfterRun(log: seq<int>, now: int, lo: int, hi: int)
    ensures Within(log + [now], lo, hi) == Within(log, lo, hi) + if lo <= now < hi then 1 else 0
  {
    assert (log + [now])[..|log + [now]| - 1] == log;
  }

  lemma LeadsAfterRun(log: seq<int>, start: int, s: Setting, now: int)
    requires start <= now && LeadsBounded(log, start, s)
    ensures LeadsBounded(log + [now], start, s)
  {
    forall t | t < start < t + s.period ensures Lead(log + [now], t, start) <= Max0(s.limit) {
      assert Lead(log, t, start) <= Max0(s.limit);
      WithinAfterRun(log, now, t, start);
    }
  }

  lemma SpansAfterRun(log: seq<int>, start: int, until: int, s: Setting, now: int)
    requires start <= now < until && forall i | 0 <= i < |log| :: log[i] < until
    requires Within(log + [now], start, until) <= Max0(s.limit)
    requires SpansBounded(log, s) && LeadsBounded(log, start, s)
    ensures SpansBounded(log + [now], s)
  {
    forall t ensures Span(log + [now], t, s.period) <= 2 * Max0(s.limit) {
      assert Span(log, t, s.period) <= 2 * Max0(s.limit);
      assert t < start < t + s.period ==> Lead(log, t, start) <= Max0(s.limit);
      SpanAfterRun(log, start, until, s.period, Max0(s.limit), now, t);
    }
  }

  /** A run inside the current window, if the count allows it. */
  lemma SameWindow(log: seq<int>, w: Window, s: Setting, now: int)
    requires w.start <= now < w.until && w.count + 1 <= s.limit
    requires forall i | 0 <= i < |log| :: log[i] < w.until
    requires Within(log, w.start, w.until) <= Min(w.count, Max0(s.limit))
    requires SpansBounded(log, s) && LeadsBounded(log, w.start, s)
    ensures var after := log + [now];
            && Within(after, w.start, w.until) <= Min(w.count + 1, Max0(s.limit))
            && SpansBounded(after, s) && LeadsBounded(after, w.start, s)
  {
    WithinAfterRun(log, now, w.start, w.until);
    SpansAfterRun(log, w.start, w.until, s, now);
    LeadsAfterRun(log, w.start, s, now);
  }

  /** Runs before a new window leave room for one period that reaches into it. */
  lemma LeadOfNewWindow(log: seq<int>, w: Window, s: Setting, now: int)
    requires w.start <= now && w.until <= now && forall i | 0 <= i < |log| :: log[i] < End(w)
    requires Within(log, w.start, w.until) <= Max0(s.limit)
    requires Within(log, w.start, w.until) > 0 ==> Long(w, s)
    requires w.count >= 1 && LeadsBounded(log, w.start, s) && Half(log, w, s) && s.period > 0
    ensures LeadsBounded(log, now, s)
  {
    SpanInWindow(log, w.start, End(w), w.start, now);
    forall t | t < now < t + s.period ensures Lead(log, t, now) <= Max0(s.limit) {
      if t >= w.start {
        SpanInWindow(log, w.start, End(w), t, now);
      } else {
        assert Lead(log, t, w.start) <= Max0(s.limit);
        WithinSplit(log, t, w.start, now);
        if s.limit == 2 && 2 * (w.start - t) <= s.period - 1 {
          assert Lead(log, t, w.start) <= 1;
        }
      }
      if w.until < w.start {
        WithinNone(log, w.start, End(w));
      }
    }
  }

  /** With a limit of two, the half period before a new window holds one run. */
  lemma HalfLeadOfNewWindow(log: seq<int>, w: Window, s: Setting, now: int)
    requires w.start <= now && w.until <= now && forall i | 0 <= i < |log| :: log[i] < End(w)
    requires Within(log, w.start, w.until) > 0 ==> Long(w, s)
    requires w.count >= 1 && Half(log, w, s) && s.period > 0 && s.limit == 2
    ensures HalfLeads(log, now, s)
  {
    SpanInWindow(log, w.start, End(w), w.start, now);
    if w.until < w.start {
      WithinNone(log, w.start, End(w));
    }
    forall t | t < now && 2 * (now - t) <= s.period - 1 ensures Lead(log, t, now) <= 1 {
      if t < w.start {
        assert Lead(log, t, w.start) <= 1;
        WithinSplit(log, t, w.start, now);
      } else if t == w.start {
        SpanInWindow(log, w.start, End(w), t, now);
      } else {
        SpanInWindow(log, w.start, End(w), t, now);
        SpanInWindow(log, w.start + 1, End(w), t, now);
        if w.until <= w.start {
          EmptySpan(log, w.start + 1, End(w));
        }
      }
    }
  }

  /** One more run in the window keeps its half. */
  lemma HalfAfterRun(log: seq<int>, w: Window, s: Setting, now: int)
    requires w.start <= now < w.until && w.count >= 1 && w.count + 1 <= s.limit && Half(log, w, s)
    ensures Half(log + [now], w.(count := w.count + 1), s)
  {
    if s.limit == 2 {
      WithinAfterRun(log, now, w.start, w.until);
      WithinAfterRun(log, now, w.start + 1, w.until);
      HalfLeadsAfterRun(log, w.start, s, now);
    }
  }

  lemma HalfLeadsAfterRun(log: seq<int>, start: int, s: Setting, now: int)
    requires start <= now && HalfLeads(log, start, s)
    ensures HalfLeads(log + [now], start, s)
  {
    forall t | t < start && 2 * (start - t) <= s.period - 1 ensures Lead(log + [now], t, start) <= 1 {
      assert Lead(log, t, start) <= 1;
      WithinAfterRun(log, now, t, start);
    }
  }

  /** A new window keeps the half. */
  lemma HalfOfNewWindow(log: seq<int>, s: Setting, now: int, period: int, runs: bool)
    requires (runs ==> period == s.period > 0) && (forall i | 0 <= i < |log| :: log[i] < now)
    requires s.limit == 2 ==> HalfLeads(log, now, s)
    ensures Half(log + if runs then [now] else [], Window(now, now + period, 1), s)
  {
    WithinNone(log, now, now + period);
    WithinNone(log, now + 1, now + period);
    if runs {
      WithinAfterRun(log, now, now + 1, now + period);
      if s.limit == 2 {
        HalfLeadsAfterRun(log, now, s, now);
      }
    } else {
      assert log + [] == log;
    }
  }

  /** The first call of a new window; `runs` says whether its handler runs. */
  lemma NewWindow(log: seq<int>, s: Setting, now: int, until: int, runs: bool)
    requires (runs ==> 1 <= s.limit && now < until) && (forall i | 0 <= i < |log| :: log[i] < now)
    requires SpansBounded(log, s) && LeadsBounded(log, now, s)
    ensures var after := log + if runs then [now] else [];
            && Within(after, now, until) == (if runs then 1 else 0)
            && SpansBounded(after, s) && LeadsBounded(after, now, s)
  {
    WithinNone(log, now, until);
    if runs {
      WithinAfterRun(log, now, now, until);
      LeadsAfterRun(log, now, s, now);
      forall t ensures Span(log + [now], t, s.period) <= 2 * Max0(s.limit) {
        assert Span(log, t, s.period) <= 2 * Max0(s.limit);
        WithinAfterRun(log, now, t, t + s.period);
        if t <= now < t + s.period {
          WithinSplit(log, t, now, t + s.period);
          WithinNone(log, now, t + s.period);
          if t == now {
            WithinNone(log, t, now);
          } else {
            assert Lead(log, t, now) <= Max0(s.limit);
          }
        }
      }
    } else {
      assert log + [] == log;
    }
  }

  lemma NothingSpent(s: Setting, start: int)
    ensures SpansBounded([], s) && LeadsBounded([], start, s) && HalfLeads([], start, s)
  {
  }

  lemma HalfAfterCount(log: seq<int>, w: Window, s: Setting)
    requires Half(log, w, s)
    ensures Half(log, w.(count := w.count + 1), s)
  {
  }

  /** A call counted in the current window. */
  lemma BudgetGoesOn(windows: Windows, log: seq<int>, key: string, s: Setting, before: int, now: int, runs: bool)
    requires before <= now && Budget(windows, log, key, s, before) && key in windows && now < windows[key].until
    requires runs ==> windows[key].count + 1 <= s.limit
    ensures var w := windows[key].(count := windows[key].count + 1);
            Budget(windows[key := w], log + if runs then [now] else [], key, s, now)
  {
    hide Within, Half, SpansBounded, LeadsBounded;
    var w := windows[key];
    if runs {
      SameWindow(log, w, s, now);
      HalfAfterRun(log, w, s, now);
    } else {
      HalfAfterCount(log, w, s);
      assert log + [] == log;
    }
  }

  /** A call that begins a window. */
  lemma BudgetBegins(windows: Windows, log: seq<int>, key: string, s: Setting, period: int, before: int, now: int,
                     runs: bool)
    requires s.period > 0 && before <= now && Budget(windows, log, key, s, before) && Fits(period, s)
    requires key in windows ==> windows[key].until <= now
    requires runs ==> period == s.period && 1 <= s.limit
    ensures Budget(windows[key := Window(now, now + period, 1)], log + if runs then [now] else [], key, s, now)
  {
    hide Within, Half, SpansBounded, LeadsBounded, HalfLeads;
    if key in windows {
      LeadOfNewWindow(log, windows[key], s, now);
      if s.limit == 2 {
        HalfLeadOfNewWindow(log, windows[key], s, now);
      }
    } else {
      NothingSpent(s, now);
    }
    HalfOfNewWindow(log, s, now, period, runs);
    NewWindow(log, s, now, now + period, runs);
  }

  /** Every call counted under the key keeps the budget, whichever identifier it comes from. */
  lemma BudgetStep(windows: Windows, log: seq<int>, key: string, s: Setting, period: int, before: int, now: int,
                   runs: bool)
    requires s.period > 0 && before <= now && Budget(windows, log, key, s, before) && Fits(period, s)
    requires runs ==> period == s.period && Counted(windows, key, period, now).count <= s.limit
    ensures Budget(windows[key := Counted(windows, key, period, now)], log + if runs then [now] else [], key, s, now)
  {
    hide Budget, Fits;
    if key in windows && now < windows[key].until {
      BudgetGoesOn(windows, log, key, s, before, now, runs);
    } else {
      BudgetBegins(windows, log, key, s, period, before, now, runs);
    }
  }

  lemma BudgetIdle(windows: Windows, log: seq<int>, key: string, s: Setting, before: int, now: int)
    requires before <= now && Budget(windows, log, key, s, before)
    ensures Budget(windows, log + [], key, s, now)
  {
    assert log + [] == log;
  }

  lemma {:induction false} BudgetKept(t: Snapshot, requests: seq<Request>, id: string, client: string)
    requires Tolerant(t, id) && t.limiters[id].period > 0
    requires requests != [] && Chronological(requests)
    ensures Budget(Run(t, requests), Log(t, requests, id, client), CounterKey(id, client), t.limiters[id],
                   requests[|requests| - 1].time)
  {
    var n, s, key := |requests| - 1, t.limiters[id], CounterKey(id, client);
    var r := requests[n];
    var windows, log := Run(t, requests[..n]), Log(t, requests[..n], id, client);
    var before := if n > 0 then requests[n - 1].time else r.time;
    if n > 0 {
      BudgetKept(t, requests[..n], id, client);
    }
    assert Budget(windows, log, key, s, before);
    var runs := Spends(t, windows, r, id, client);
    if Counts(t, r).Some? && Counts(t, r).value.0 == key && !r.store.FailsBefore? {
      SharedKeyMeets(id, client, IdentifierOf(t, r), r.client.value);
      BudgetStep(windows, log, key, s, Counts(t, r).value.1.period, before, r.time, runs);
    } else {
      assert !runs;
      BudgetIdle(windows, log, key, s, before, r.time);
    }
  }

  lemma {:induction false} EmptySpan(log: seq<int>, lo: int, hi: int)
    requires hi <= lo
    ensures Within(log, lo, hi) == 0
  {
    if log != [] { EmptySpan(log[..|log| - 1], lo, hi); }
  }

  /* ---------- What every window holds ---------- */

  /** Room is kept by every call counted under the key, whatever its identifier's period. */
  lemma RoomStep(windows: Windows, log: seq<int>, key: string, s: Setting, period: int, before: int, now: int,
                 runs: bool)
    requires s.period > 0 && before <= now && Room(windows, log, key, s, before)
    requires runs ==> period == s.period && Counted(windows, key, period, now).count <= s.limit
    ensures Room(windows[key := Counted(windows, key, period, now)], log + if runs then [now] else [], key, s, now)
  {
    hide Within;
    var w := Counted(windows, key, period, now);
    if !(key in windows && now < windows[key].until) {
      WithinNone(log, w.start, w.until);
    }
    if runs {
      WithinAfterRun(log, now, w.start, w.until);
    } else {
      assert log + [] == log;
    }
  }

  lemma {:induction false} RoomKept(t: Snapshot, requests: seq<Request>, id: string, client: string)
    requires id in t.limiters && t.limiters[id].period > 0 && requests != [] && Chronological(requests)
    ensures Room(Run(t, requests), Log(t, requests, id, client), CounterKey(id, client), t.limiters[id],
                 requests[|requests| - 1].time)
  {
    hide Room;
    var n, s, key := |requests| - 1, t.limiters[id], CounterKey(id, client);
    var r := requests[n];
    var windows, log := Run(t, requests[..n]), Log(t, requests[..n], id, client);
    var before := if n > 0 then requests[n - 1].time else r.time;
    if n > 0 {
      RoomKept(t, requests[..n], id, client);
    } else {
      NoRoomNeeded(key, s, before);
    }
    assert Room(windows, log, key, s, before);
    var runs := Spends(t, windows, r, id, client);
    if Counts(t, r).Some? && Counts(t, r).value.0 == key && !r.store.FailsBefore? {
      RoomStep(windows, log, key, s, Counts(t, r).value.1.period, before, r.time, runs);
    } else {
      assert !runs;
      RoomIdle(windows, Run(t, requests), log, key, s, before, r.time);
    }
  }

  lemma NoRoomNeeded(key: string, s: Setting, now: int)
    ensures Room(map[], [], key, s, now)
  {
  }

  lemma RoomIdle(windows: Windows, windows': Windows, log: seq<int>, key: string, s: Setting, before: int, now: int)
    requires before <= now && Room(windows, log, key, s, before)
    requires key in windows' <==> key in windows
    requires key in windows ==> windows'[key] == windows[key]
    ensures Room(windows', log + [], key, s, now)
  {
    assert log + [] == log;
  }

  /** A window stays the current one until it ends. */
  lemma {:induction false} WindowStays(t: Snapshot, requests: seq<Request>, n: nat, key: string)
    requires n <= |requests| && Chronological(requests) && requests != [] && key in Run(t, requests[..n])
    requires requests[|requests| - 1].time < Run(t, requests[..n])[key].until
    ensures key in Run(t, requests)
    ensures Run(t, requests)[key].start == Run(t, requests[..n])[key].start
    ensures Run(t, requests)[key].until == Run(t, requests[..n])[key].until
    decreases |requests|
  {
    var m := |requests| - 1;
    if n > m {
      assert requests[..n] == requests;
    } else {
      assert requests[..m][..n] == requests[..n];
      if m > 0 {
        WindowStays(t, requests[..m], n, key);
      }
    }
  }

  /** No window that a run of requests ever had under the key holds more than so many of the times. */
  ghost predicate WindowsBounded(t: Snapshot, requests: seq<Request>, key: string, log: seq<int>, limit: nat) {
    forall n | 0 <= n <= |requests| && key in Run(t, requests[..n]) ::
      Within(log, Run(t, requests[..n])[key].start, Run(t, requests[..n])[key].until) <= limit
  }

  /** At most Limit handler runs in every window, whoever else is counted under the key. */
  lemma {:induction false} WindowBudget(t: Snapshot, requests: seq<Request>, id: string, client: string)
    requires id in t.limiters && t.limiters[id].period > 0 && Chronological(requests)
    ensures WindowsBounded(t, requests, CounterKey(id, client), Log(t, requests, id, client),
                           Max0(t.limiters[id].limit))
    decreases |requests|
  {
    if requests != [] {
      var m, key, limit := |requests| - 1, CounterKey(id, client), Max0(t.limiters[id].limit);
      var earlier, log, now := Log(t, requests[..m], id, client), Log(t, requests, id, client), requests[m].time;
      WindowBudget(t, requests[..m], id, client);
      RoomKept(t, requests, id, client);
      forall n | 0 <= n <= |requests| && key in Run(t, requests[..n])
        ensures Within(log, Run(t, requests[..n])[key].start, Run(t, requests[..n])[key].until) <= limit
      {
        var w := Run(t, requests[..n])[key];
        if n == |requests| {
          assert requests[..n] == requests;
        } else if now < w.until {
          WindowStays(t, requests, n, key);
        } else {
          assert requests[..m][..n] == requests[..n];
          assert Within(earlier, w.start, w.until) <= limit;
          WithinAfterRun(earlier, now, w.start, w.until);
          assert earlier + [] == earlier;
        }
      }
    }
  }

  /**
    Shared budget. For each identifier and client, whatever endpoints and aliases the calls
    go through and whoever else is counted under their key: at most Limit handler runs in
    every window, and, when the periods on shared keys fit, at most twice Limit in any
    half-open span of one Period.
   */
  lemma SharedBudget(t: Snapshot, requests: seq<Request>, id: string, client: string)
    requires id in t.limiters && Chronological(requests)
    ensures var key, s, log := CounterKey(id, client), t.limiters[id], Log(t, requests, id, client);
            && (s.period > 0 ==> WindowsBounded(t, requests, key, log, Max0(s.limit)))
            && (Tolerant(t, id) ==> forall from :: Span(log, from, s.period) <= 2 * Max0(s.limit))
  {
    hide Tolerant, WindowsBounded;
    var s, log := t.limiters[id], Log(t, requests, id, client);
    if s.period > 0 {
      WindowBudget(t, requests, id, client);
    }
    if requests == [] {
      NothingSpent(s, 0);
    } else if s.period > 0 && Tolerant(t, id) {
      BudgetKept(t, requests, id, client);
      if CounterKey(id, client) !in Run(t, requests) {
        NothingSpent(s, 0);
      }
    } else if s.period <= 0 {
      forall from ensures Span(log, from, s.period) <= 2 * Max0(s.limit) {
        EmptySpan(log, from, from + s.period);
      }
    }
  }

  /* ---------- The budget of one endpoint ---------- */

  /** The tables after a call of InitializeLimiters whose loops took these orders. */
  function Initialized(active: Table, rates: Table, installed: seq<string>, built: seq<string>): Snapshot
    requires Ranges(installed, rates) && Ranges(built, Install(active, rates, installed))
  {
    Snapshot(Install(active, rates, installed), Build(Install(active, rates, installed), built))
  }

  /** The times at which a client's calls to some names ran their handlers without service authentication. */
  function EndpointLog(t: Snapshot, requests: seq<Request>, names: seq<string>, client: string): seq<int> {
    if requests == [] then []
    else
      var n := |requests| - 1;
      var r := requests[n];
      EndpointLog(t, requests[..n], names, client)
      + if r.endpoint in names && r.service.None? && r.client == Some(client)
           && Serve(t, Run(t, requests[..n]), r).0.Handled? then [r.time] else []
  }

  lemma {:induction false} EndpointLogIsCharged(t: Snapshot, requests: seq<Request>, names: seq<string>, id: string,
                                                client: string, lo: int, hi: int)
    requires id in t.limiters
    requires forall e | e in names :: EndpointRate(t.active, e).identifier == id
    ensures Within(EndpointLog(t, requests, names, client), lo, hi) <= Within(Log(t, requests, id, client), lo, hi)
  {
    if requests != [] {
      var n := |requests| - 1;
      var r := requests[n];
      EndpointLogIsCharged(t, requests[..n], names, id, client, lo, hi);
      var a, b := EndpointLog(t, requests[..n], names, client), Log(t, requests[..n], id, client);
      hide Within, Counted, EndpointRate, CounterKey;
      WithinAfterRun(a, r.time, lo, hi);
      WithinAfterRun(b, r.time, lo, hi);
      assert a + [] == a && b + [] == b;
      if r.endpoint in names && r.service.None? && r.client == Some(client) {
        HandledSpends(t, Run(t, requests[..n]), r, id, client);
      }
    }
  }

  /** A call of an endpoint of the identifier that runs is charged to its client. */
  lemma HandledSpends(t: Snapshot, windows: Windows, r: Request, id: string, client: string)
    requires r.service.None? && r.client == Some(client) && EndpointRate(t.active, r.endpoint).identifier == id
    ensures Serve(t, windows, r).0.Handled? ==> Spends(t, windows, r, id, client)
  {
  }

  /** An endpoint's identifier has a limiter with the endpoint's own setting. */
  lemma EndpointLimiter(active: Table, rates: Table, installed: seq<string>, built: seq<string>, k: string)
    requires Distinct(rates) && Ranges(installed, rates) && k in rates
    requires Agreeing(Install(active, rates, installed)) && Ranges(built, Install(active, rates, installed))
    ensures var t := Initialized(active, rates, installed, built);
            && rates[k].identifier in t.limiters
            && t.limiters[rates[k].identifier] == Setting(rates[k].limit, rates[k].period)
            && forall name | name in Names(rates, k) :: EndpointRate(t.active, name).identifier == rates[k].identifier
  {
    var result := Install(active, rates, installed);
    BuildCovers(result, built);
    forall name | name in Names(rates, k)
      ensures name in result && result[name].identifier == rates[k].identifier
      ensures result[name].limit == rates[k].limit && result[name].period == rates[k].period
    {
      AliasesShareSetting(active, rates, installed, k, name);
    }
    assert k in Names(rates, k);
    assert k in built;
    var e :| e in built && result[e].identifier == rates[k].identifier
             && Build(result, built)[rates[k].identifier] == Setting(result[e].limit, result[e].period);
  }

  /** All names of an endpoint draw on one counter for each client. */
  lemma EndpointSharesCounter(active: Table, rates: Table, installed: seq<string>, built: seq<string>, k: string,
                              r: Request)
    requires Distinct(rates) && Ranges(installed, rates) && k in rates
    requires Agreeing(Install(active, rates, installed)) && Ranges(built, Install(active, rates, installed))
    requires r.endpoint in Names(rates, k) && r.service.None? && r.client.Some?
    ensures Counts(Initialized(active, rates, installed, built), r)
         == Some((CounterKey(rates[k].identifier, r.client.value), Setting(rates[k].limit, rates[k].period)))
  {
    EndpointLimiter(active, rates, installed, built, k);
  }

  /**
    The budget of an endpoint. Whatever orders the loops of InitializeLimiters took: an
    endpoint and its aliases together run their handlers, for each client, at most Limit times
    in every window and, when the periods on shared keys fit, at most twice Limit in any
    half-open span of one Period.
   */
  lemma EndpointBudget(active: Table, rates: Table, installed: seq<string>, built: seq<string>, k: string,
                       requests: seq<Request>, client: string)
    requires Distinct(rates) && Ranges(installed, rates) && k in rates && Chronological(requests)
    requires Agreeing(Install(active, rates, installed)) && Ranges(built, Install(active, rates, installed))
    ensures var t, rate := Initialized(active, rates, installed, built), rates[k];
            var log, key := EndpointLog(t, requests, Names(rates, k), client), CounterKey(rate.identifier, client);
            && (rate.period > 0 ==> WindowsBounded(t, requests, key, log, Max0(rate.limit)))
            && (Tolerant(t, rate.identifier) ==> forall from :: Span(log, from, rate.period) <= 2 * Max0(rate.limit))
  {
    var t, id := Initialized(active, rates, installed, built), rates[k].identifier;
    EndpointLimiter(active, rates, installed, built, k);
    NamesBudget(t, requests, Names(rates, k), id, client);
  }

  lemma NamesBudget(t: Snapshot, requests: seq<Request>, names: seq<string>, id: string, client: string)
    requires id in t.limiters && Chronological(requests)
    requires forall e | e in names :: EndpointRate(t.active, e).identifier == id
    ensures var log, s := EndpointLog(t, requests, names, client), t.limiters[id];
            && (s.period > 0 ==> WindowsBounded(t, requests, CounterKey(id, client), log, Max0(s.limit)))
            && (Tolerant(t, id) ==> forall from :: Span(log, from, s.period) <= 2 * Max0(s.limit))
  {
    hide Tolerant;
    var s, key := t.limiters[id], CounterKey(id, client);
    SharedBudget(t, requests, id, client);
    if Tolerant(t, id) {
      forall from ensures Span(EndpointLog(t, requests, names, client), from, s.period) <= 2 * Max0(s.limit) {
        EndpointLogIsCharged(t, requests, names, id, client, from, from + s.period);
        assert Span(Log(t, requests, id, client), from, s.period) <= 2 * Max0(s.limit);
      }
    }
    if s.period > 0 {
      forall n | 0 <= n <= |requests| && key in Run(t, requests[..n])
        ensures Within(EndpointLog(t, requests, names, client), Run(t, requests[..n])[key].start,
                       Run(t, requests[..n])[key].until) <= Max0(s.limit)
      {
        var w := Run(t, requests[..n])[key];
        EndpointLogIsCharged(t, requests, names, id, client, w.start, w.until);
      }
    }
  }

  /* ---------- Authenticated services ---------- */

  function WithoutServices(requests: seq<Request>): seq<Request> {
    if requests == [] then []
    else
      var n := |requests| - 1;
      WithoutServices(requests[..n]) + if requests[n].service.Some? then [] else [requests[n]]
  }

  /** Calls of authenticated services always run, and leave every count as if they had not been made. */
  lemma {:induction false} ServicesUseNoBudget(t: Snapshot, requests: seq<Request>, id: string, client: string)
    ensures Run(t, requests) == Run(t, WithoutServices(requests))
    ensures Log(t, requests, id, client) == Log(t, WithoutServices(requests), id, client)
    ensures forall i | 0 <= i < |requests| && requests[i].service.Some? ::
              Serve(t, Run(t, requests[..i]), requests[i]).0.Handled?
  {
    if requests != [] {
      var n := |requests| - 1;
      ServicesUseNoBudget(t, requests[..n], id, client);
      var rest := WithoutServices(requests[..n]);
      if requests[n].service.None? {
        assert (rest + [requests[n]])[..|rest|] == rest;
      } else {
        assert WithoutServices(requests) == rest;
      }
    }
  }
}
