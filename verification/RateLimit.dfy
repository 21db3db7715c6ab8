/**
 The trigger rate limit: one counter row per hook and aligned window, incremented only below the limit, and
 an hourly sweep that deletes rows older than 48 hours.  Times are seconds since the epoch; database calls
 succeed.
 */
module RateLimit {
  import opened Database

  const TTL := 48 * 60 * 60

  /** max_requests is an unsigned 64-bit count; the window is in whole seconds. */
  datatype Limit = Limit(maxRequests: nat, window: nat)
  {
    function Window(): (w: nat)
      ensures w == (if window <= 1 then 1 else window)
    {
      if window > 1 then window else 1
    }

    /** The count as the signed number that the statement compares with. */
    function Bound(): int {
      if maxRequests < 0x8000_0000_0000_0000 then maxRequests else maxRequests - 0x1_0000_0000_0000_0000
    }

    /** What the comparison lets through in one window: the count, if the signed column can hold it, else nothing. */
    function Effective(): (effective: nat)
      ensures maxRequests <= 0x7FFF_FFFF_FFFF_FFFF ==> effective == maxRequests
      ensures 0x8000_0000_0000_0000 <= maxRequests <= 0xFFFF_FFFF_FFFF_FFFF ==> effective == 0
    {
      if Bound() > 0 then Bound() else 0
    }
  }

  type Config = map<Slug, Limit>
  type Counters = map<(Slug, int), int>

  function WindowStart(now: nat, window: nat): (start: nat)
    requires window > 0
    ensures start <= now
  {
    assert window * (now / window) <= now;
    (now / window) * window
  }

  function EvaluateAt(counters: Counters, hook: Slug, limit: Limit, now: nat): (Counters, bool) {
    var key := (hook, WindowStart(now, limit.Window()));
    var present := if key in counters then counters else counters[key := 0];
    if present[key] < limit.Bound() then (present[key := present[key] + 1], true) else (present, false)
  }

  function SweepAt(counters: Counters, now: nat): Counters {
    map key | key in counters && key.1 >= now - TTL :: counters[key]
  }

  class RateLimiter {
    var counters: Counters

    constructor ()
      ensures counters == map[]
    {
      counters := map[];
    }

    method Evaluate(hook: Slug, limit: Limit, now: nat) returns (allowed: bool)
      modifies this
      ensures (counters, allowed) == EvaluateAt(old(counters), hook, limit, now)
    {
      var key := (hook, WindowStart(now, limit.Window()));
      if key !in counters {
        counters := counters[key := 0];
      }
      allowed := counters[key] < limit.Bound();
      if allowed {
        counters := counters[key := counters[key] + 1];
      }
    }

    method Sweep(now: nat)
      modifies this
      ensures counters == SweepAt(old(counters), now)
    {
      counters := map key | key in counters && key.1 >= now - TTL :: counters[key];
    }
  }

  // ----- Runs -----

  datatype Event = Request(hook: Slug, now: nat) | Sweep(now: nat)

  /** Times never go back, and every request is for a configured hook. */
  predicate Timely(config: Config, events: seq<Event>) {
    && (forall i, j :: 0 <= i <= j < |events| ==> events[i].now <= events[j].now)
    && (forall i :: 0 <= i < |events| && events[i].Request? ==> events[i].hook in config)
  }

  function Last(events: seq<Event>): nat {
    if events == [] then 0 else events[|events| - 1].now
  }

  function Init<T>(s: seq<T>): seq<T>
    requires s != []
  {
    s[..|s| - 1]
  }

  function After(config: Config, events: seq<Event>): Counters
    requires Timely(config, events)
  {
    if events == [] then map[]
    else
      var before := After(config, Init(events));
      match events[|events| - 1]
      case Request(hook, now) => EvaluateAt(before, hook, config[hook], now).0
      case Sweep(now) => SweepAt(before, now)
  }

  predicate AsksIn(config: Config, event: Event, hook: Slug, start: int)
    requires hook in config
  {
    event.Request? && event.hook == hook && WindowStart(event.now, config[hook].Window()) == start
  }

  /** Requests of the hook in one aligned window. */
  function Requests(config: Config, events: seq<Event>, hook: Slug, start: int): nat
    requires hook in config
  {
    if events == [] then 0
    else Requests(config, Init(events), hook, start) + if AsksIn(config, events[|events| - 1], hook, start) then 1 else 0
  }

  /** Was the last request of the run allowed? */
  predicate LastAllowed(config: Config, events: seq<Event>)
    requires Timely(config, events) && events != []
  {
    var event := events[|events| - 1];
    event.Request? && EvaluateAt(After(config, Init(events)), event.hook, config[event.hook], event.now).1
  }

  /** Allowed requests of the hook in one aligned window. */
  function Allowed(config: Config, events: seq<Event>, hook: Slug, start: int): nat
    requires Timely(config, events) && hook in config
  {
    if events == [] then 0
    else
      Allowed(config, Init(events), hook, start)
      + if AsksIn(config, events[|events| - 1], hook, start) && LastAllowed(config, events) then 1 else 0
  }

  function Min(a: nat, b: nat): nat {
    if a < b then a else b
  }

  // ----- Windows -----

  lemma InWindow(now: nat, window: nat)
    requires window > 0
    ensures WindowStart(now, window) <= now < WindowStart(now, window) + window
  {
    assert now == (now / window) * window + now % window;
  }

  lemma NextMultiple(a: nat, b: nat, window: nat)
    requires a < b
    ensures a * window + window <= b * window
  {
    assert b * window == a * window + window + (b - a - 1) * window;
  }

  lemma SameWindow(now: nat, window: nat, q: nat)
    requires window > 0 && q * window <= now < (q + 1) * window
    ensures WindowStart(now, window) == q * window
  {
    var k := now / window;
    assert now == k * window + now % window;
    assert (q + 1) * window == q * window + window;
    if k < q {
      NextMultiple(k, q, window);
    } else if q < k {
      NextMultiple(q, k, window);
    }
  }

  /** A time within one window length of `from` falls into the window of `from` or the next one. */
  lemma TwoWindows(from: nat, now: nat, window: nat)
    requires window > 0 && from <= now < from + window
    ensures var start := WindowStart(from, window);
      WindowStart(now, window) == start || WindowStart(now, window) == start + window
  {
    var q := from / window;
    InWindow(from, window);
    assert (q + 1) * window == q * window + window && (q + 2) * window == q * window + window + window;
    if now < (q + 1) * window {
      SameWindow(now, window, q);
    } else {
      SameWindow(now, window, q + 1);
    }
  }

  // ----- The invariant of a run -----

  /** The row of a window holds the allowed count; it is missing only if unasked for or long over. */
  predicate RowOk(config: Config, events: seq<Event>, hook: Slug, start: int)
    requires Timely(config, events) && hook in config
  {
    var counters, asked := After(config, events), Requests(config, events, hook, start);
    && Allowed(config, events, hook, start) == Min(asked, config[hook].Effective())
    && (if (hook, start) in counters then counters[(hook, start)] == Min(asked, config[hook].Effective())
        else asked == 0 || start < Last(events) - TTL)
  }

  lemma InitTimely(config: Config, events: seq<Event>)
    requires Timely(config, events) && events != []
    ensures Timely(config, Init(events)) && Last(Init(events)) <= Last(events)
  {
  }

  lemma {:induction false} RowHolds(config: Config, events: seq<Event>, hook: Slug, start: int)
    requires Timely(config, events) && hook in config && config[hook].Window() <= TTL + 1
    ensures RowOk(config, events, hook, start)
  {
    if events != [] {
      InitTimely(config, events);
      RowHolds(config, Init(events), hook, start);
      var event := events[|events| - 1];
      if AsksIn(config, event, hook, start) {
        InWindow(event.now, config[hook].Window());
      }
    }
  }

  lemma MultipleMod(k: nat, window: nat)
    requires window > 0
    ensures k * window % window == 0
  {
    var now := k * window;
    var q := now / window;
    assert now == q * window + now % window;
    if q < k {
      NextMultiple(q, k, window);
    } else if k < q {
      NextMultiple(k, q, window);
    }
  }

  /** The aligned window of a time: the multiple of the window length, at least one second, at or before it. */
  lemma WindowAligned(limit: Limit, now: nat)
    ensures var length := if limit.window > 1 then limit.window else 1;
      var start := WindowStart(now, limit.Window());
      start % length == 0 && start <= now < start + length
  {
    var length := limit.Window();
    InWindow(now, length);
    MultipleMod(now / length, length);
  }

  /**
   The fixed window.  Over any run with a clock that does not go back, sweeps included, every aligned
   window of at most 48 hours and a second allows exactly the lesser of its requests and the configured
   count; and nothing at all if the count is 2^63 or more.
   */
  lemma WindowLimit(config: Config, events: seq<Event>, hook: Slug, start: int)
    requires Timely(config, events) && hook in config
    requires config[hook].window <= 172_801 && config[hook].maxRequests < 0x1_0000_0000_0000_0000
    ensures Allowed(config, events, hook, start)
            == if config[hook].maxRequests < 0x8000_0000_0000_0000
               then Min(Requests(config, events, hook, start), config[hook].maxRequests)
               else 0
  {
    RowHolds(config, events, hook, start);
  }

  /** A first request is allowed exactly if the configured count is from 1 to 2^63 - 1. */
  lemma FirstRequest(config: Config, hook: Slug, now: nat)
    requires hook in config && config[hook].maxRequests < 0x1_0000_0000_0000_0000
    ensures EvaluateAt(map[], hook, config[hook], now).1 <==> 1 <= config[hook].maxRequests < 0x8000_0000_0000_0000
  {
  }

  /** What is allowed in terms of the bound that the statement compares with. */
  lemma WindowEffective(config: Config, events: seq<Event>, hook: Slug, start: int)
    requires Timely(config, events) && hook in config && config[hook].Window() <= TTL + 1
    ensures Allowed(config, events, hook, start)
            == Min(Requests(config, events, hook, start), config[hook].Effective())
  {
    RowHolds(config, events, hook, start);
  }

  /** Allowed requests of the hook at times in [from, to). */
  function AllowedBetween(config: Config, events: seq<Event>, hook: Slug, from: nat, to: nat): nat
    requires Timely(config, events) && hook in config
  {
    if events == [] then 0
    else
      var event := events[|events| - 1];
      AllowedBetween(config, Init(events), hook, from, to)
      + if event.Request? && event.hook == hook && from <= event.now < to && LastAllowed(config, events) then 1 else 0
  }

  lemma {:induction false} BetweenIsTwoWindows(config: Config, events: seq<Event>, hook: Slug, from: nat)
    requires Timely(config, events) && hook in config
    ensures var window := config[hook].Window();
      var start := WindowStart(from, window);
      AllowedBetween(config, events, hook, from, from + window)
      <= Allowed(config, events, hook, start) + Allowed(config, events, hook, start + window)
  {
    if events != [] {
      var event := events[|events| - 1];
      BetweenIsTwoWindows(config, Init(events), hook, from);
      if from <= event.now < from + config[hook].Window() {
        TwoWindows(from, event.now, config[hook].Window());
      }
    }
  }

  /** Any interval of one window length, aligned or not, allows at most twice the limit. */
  lemma SlidingBound(config: Config, events: seq<Event>, hook: Slug, from: nat)
    requires Timely(config, events) && hook in config && config[hook].Window() <= TTL + 1
    ensures AllowedBetween(config, events, hook, from, from + config[hook].Window()) <= 2 * config[hook].Effective()
  {
    var window := config[hook].Window();
    var start := WindowStart(from, window);
    BetweenIsTwoWindows(config, events, hook, from);
    WindowEffective(config, events, hook, start);
    WindowEffective(config, events, hook, start + window);
  }

  // ----- Bursts -----

  /** The run with `n` more requests at one time. */
  function WithBurst(events: seq<Event>, hook: Slug, now: nat, n: nat): seq<Event> {
    if n == 0 then events else WithBurst(events, hook, now, n - 1) + [Request(hook, now)]
  }

  lemma OneMore(config: Config, events: seq<Event>, event: Event)
    requires Timely(config, events) && Last(events) <= event.now && (event.Request? ==> event.hook in config)
    ensures Timely(config, events + [event]) && Init(events + [event]) == events && Last(events + [event]) == event.now
  {
    assert Init(events + [event]) == events;
  }

  /** What one more request does to the counters and the counts. */
  lemma OneRequest(config: Config, events: seq<Event>, hook: Slug, now: nat, from: nat, to: nat)
    requires Timely(config, events) && Last(events) <= now && hook in config
    ensures var more := events + [Request(hook, now)];
      var start := WindowStart(now, config[hook].Window());
      var (counters, allowed) := EvaluateAt(After(config, events), hook, config[hook], now);
      && Timely(config, more) && Last(more) == now && After(config, more) == counters
      && Allowed(config, more, hook, start) == Allowed(config, events, hook, start) + (if allowed then 1 else 0)
      && AllowedBetween(config, more, hook, from, to)
         == AllowedBetween(config, events, hook, from, to) + if from <= now < to && allowed then 1 else 0
  {
    OneMore(config, events, Request(hook, now));
  }

  /** The counters after `n` requests were allowed in the window that starts at `start`. */
  function Filled(counters: Counters, hook: Slug, start: int, n: nat): Counters {
    if n == 0 then counters else counters[(hook, start) := n]
  }

  lemma OneFills(counters: Counters, hook: Slug, limit: Limit, now: nat, n: nat)
    requires (hook, WindowStart(now, limit.Window())) !in counters && n < limit.Effective()
    ensures var start := WindowStart(now, limit.Window());
      EvaluateAt(Filled(counters, hook, start, n), hook, limit, now) == (Filled(counters, hook, start, n + 1), true)
  {
    var key := (hook, WindowStart(now, limit.Window()));
    assert counters[key := 0][key := 1] == counters[key := 1];
    assert n > 0 ==> counters[key := n][key := n + 1] == counters[key := n + 1];
  }

  /** The run is `before` with `n` requests at one time, all allowed. */
  predicate Fills(config: Config, before: seq<Event>, events: seq<Event>, hook: Slug, now: nat, n: nat, from: nat, to: nat)
    requires Timely(config, before) && hook in config
  {
    var start := WindowStart(now, config[hook].Window());
    && Timely(config, events) && Last(events) <= now
    && After(config, events) == Filled(After(config, before), hook, start, n)
    && Allowed(config, events, hook, start) == Allowed(config, before, hook, start) + n
    && AllowedBetween(config, events, hook, from, to)
       == AllowedBetween(config, before, hook, from, to) + if from <= now < to then n else 0
  }

  lemma BurstStep(config: Config, before: seq<Event>, events: seq<Event>, hook: Slug, now: nat, n: nat, from: nat, to: nat)
    requires Timely(config, before) && hook in config && n < config[hook].Effective()
    requires (hook, WindowStart(now, config[hook].Window())) !in After(config, before)
    requires Fills(config, before, events, hook, now, n, from, to)
    ensures Fills(config, before, events + [Request(hook, now)], hook, now, n + 1, from, to)
  {
    OneFills(After(config, before), hook, config[hook], now, n);
    OneRequest(config, events, hook, now, from, to);
  }

  /** Up to the limit, a burst in a new window is allowed as a whole. */
  lemma {:induction false} BurstFills(config: Config, before: seq<Event>, hook: Slug, now: nat, n: nat, from: nat, to: nat)
    requires Timely(config, before) && hook in config && n <= config[hook].Effective() && Last(before) <= now
    requires (hook, WindowStart(now, config[hook].Window())) !in After(config, before)
    ensures Fills(config, before, WithBurst(before, hook, now, n), hook, now, n, from, to)
  {
    if n > 0 {
      BurstFills(config, before, hook, now, n - 1, from, to);
      BurstStep(config, before, WithBurst(before, hook, now, n - 1), hook, now, n - 1, from, to);
    }
  }

  // ----- Exactly which windows slide -----

  lemma WindowEdge(window: nat)
    requires window > 1
    ensures WindowStart(window - 1, window) == 0 && WindowStart(window, window) == window
  {
    SameWindow(window - 1, window, 0);
    SameWindow(window, window, 1);
  }

  /** A burst in the last second of one window and one in the first second of the next reach twice the limit. */
  lemma SlidingReached(config: Config, hook: Slug) returns (events: seq<Event>)
    requires hook in config && config[hook].Window() > 1
    ensures var window := config[hook].Window();
      Timely(config, events)
      && AllowedBetween(config, events, hook, window - 1, window - 1 + window) == 2 * config[hook].Effective()
  {
    var n, window := config[hook].Effective(), config[hook].Window();
    WindowEdge(window);
    BurstFills(config, [], hook, window - 1, n, window - 1, window - 1 + window);
    var first := WithBurst([], hook, window - 1, n);
    BurstFills(config, first, hook, window, n, window - 1, window - 1 + window);
    events := WithBurst(first, hook, window, n);
  }

  /** The interval of one window length from `from`, aligned or not, allows no more than the limit. */
  predicate SlidingOk(config: Config, events: seq<Event>, hook: Slug, from: nat)
    requires hook in config
  {
    Timely(config, events) ==>
      AllowedBetween(config, events, hook, from, from + config[hook].Window()) <= config[hook].Effective()
  }

  ghost predicate AlwaysSliding(config: Config, hook: Slug)
    requires hook in config
  {
    forall events, from: nat :: SlidingOk(config, events, hook, from)
  }

  /** In a window of one second every interval of that length is aligned. */
  lemma {:induction false} OneSecond(config: Config, events: seq<Event>, hook: Slug, from: nat)
    requires Timely(config, events) && hook in config && config[hook].Window() == 1
    ensures AllowedBetween(config, events, hook, from, from + 1) == Allowed(config, events, hook, from)
  {
    if events != [] {
      OneSecond(config, Init(events), hook, from);
    }
  }

  lemma {:induction false} NothingBetween(config: Config, events: seq<Event>, hook: Slug, from: nat, to: nat)
    requires Timely(config, events) && hook in config && config[hook].Effective() == 0
    ensures AllowedBetween(config, events, hook, from, to) == 0
  {
    if events != [] {
      var event := events[|events| - 1];
      NothingBetween(config, Init(events), hook, from, to);
      if event.Request? && event.hook == hook {
        NothingAllowed(config, Init(events), hook, WindowStart(event.now, config[hook].Window()));
      }
    }
  }

  /** The limit holds in every interval of one window length if and only if that is one second or nothing is allowed. */
  lemma SlidingExact(config: Config, hook: Slug)
    requires hook in config
    requires config[hook].maxRequests < 0x1_0000_0000_0000_0000
    ensures AlwaysSliding(config, hook)
       <==> config[hook].window <= 1 || config[hook].maxRequests == 0 || config[hook].maxRequests >= 0x8000_0000_0000_0000
  {
    if config[hook].Window() == 1 || config[hook].Effective() == 0 {
      forall events, from: nat ensures SlidingOk(config, events, hook, from) {
        if Timely(config, events) && config[hook].Window() == 1 {
          OneSecond(config, events, hook, from);
          WindowEffective(config, events, hook, from);
        } else if Timely(config, events) {
          NothingBetween(config, events, hook, from, from + config[hook].Window());
        }
      }
    } else {
      var events := SlidingReached(config, hook);
      assert !SlidingOk(config, events, hook, config[hook].Window() - 1);
    }
  }

  // ----- Exactly which windows are safe from the sweep -----

  /** A full window, a sweep that deletes its row, and one more request in the same window. */
  lemma LongWindowExceeds(config: Config, hook: Slug) returns (events: seq<Event>)
    requires hook in config && config[hook].Window() > TTL + 1 && config[hook].Effective() > 0
    ensures Timely(config, events) && Allowed(config, events, hook, 0) == config[hook].Effective() + 1
  {
    var n, window := config[hook].Effective(), config[hook].Window();
    SameWindow(0, window, 0);
    BurstFills(config, [], hook, 0, n, 0, 0);
    var full := WithBurst([], hook, 0, n);
    var swept := full + [Sweep(TTL + 1)];
    OneMore(config, full, Sweep(TTL + 1));
    assert (hook, 0) !in After(config, swept);
    OneRequest(config, swept, hook, TTL + 1, 0, 0);
    events := swept + [Request(hook, TTL + 1)];
    SameWindow(TTL + 1, window, 0);
  }

  /** The limit holds in every aligned window of every run. */
  ghost predicate AlwaysLimited(config: Config, hook: Slug)
    requires hook in config
  {
    forall events, start :: Timely(config, events) ==> Allowed(config, events, hook, start) <= config[hook].Effective()
  }

  /** The limit holds over all runs if and only if nothing is allowed at all or the window is short enough. */
  lemma LimitExact(config: Config, hook: Slug)
    requires hook in config
    requires config[hook].maxRequests < 0x1_0000_0000_0000_0000
    ensures AlwaysLimited(config, hook)
       <==> config[hook].window <= 172_801 || config[hook].maxRequests == 0 || config[hook].maxRequests >= 0x8000_0000_0000_0000
  {
    if config[hook].Window() <= TTL + 1 {
      forall events, start | Timely(config, events)
        ensures Allowed(config, events, hook, start) <= config[hook].Effective()
      {
        WindowEffective(config, events, hook, start);
      }
    } else if config[hook].Effective() > 0 {
      var events := LongWindowExceeds(config, hook);
      assert Timely(config, events) && Allowed(config, events, hook, 0) > config[hook].Effective();
    } else {
      forall events, start | Timely(config, events) ensures Allowed(config, events, hook, start) == 0 {
        NothingAllowed(config, events, hook, start);
      }
    }
  }

  lemma {:induction false} NothingAllowed(config: Config, events: seq<Event>, hook: Slug, start: int)
    requires Timely(config, events) && hook in config && config[hook].Effective() == 0
    ensures Allowed(config, events, hook, start) == 0
    ensures (hook, start) in After(config, events) ==> After(config, events)[(hook, start)] == 0
  {
    if events != [] {
      NothingAllowed(config, Init(events), hook, start);
    }
  }
}
