/**
 The request limiter: internal/middleware/rate_limit.go.  A Redis counter per key is incremented by
 every request and expires one window after its first request.  The source calls this a sliding
 window; it is a fixed window anchored at the first request, and this module shows what it bounds.
 */
module RateLimit {
  import opened Basics

  /**
   The counter of one key.  `start` is when its first request came; `deadline` is when it expires, and
   None until the EXPIRE that follows the first INCR has reached Redis.
   */
  datatype Entry = Absent | Live(count: nat, start: real, deadline: Option<real>)

  /** What Redis sees for one key, each at its own time: an INCR, or the EXPIRE of the request that got count 1. */
  datatype Event = Request(at: real) | Expire(at: real)

  datatype Limit = Limit(maxRequests: nat, window: real)

  /** A key is gone once its time to live has elapsed. */
  function Current(e: Entry, at: real): Entry {
    if e.Live? && e.deadline.Some? && e.deadline.value <= at then Absent else e
  }

  function Step(l: Limit, e: Entry, event: Event): Entry {
    var now := Current(e, event.at);
    match event
    case Request(at) => if now.Absent? then Live(1, at, None) else now.(count := now.count + 1)
    case Expire(at) => if now.Live? then now.(deadline := Some(at + l.window)) else e
  }

  function After(l: Limit, events: seq<Event>): Entry {
    if events == [] then Absent else Step(l, After(l, events[..|events| - 1]), events[|events| - 1])
  }

  /** The last of the events is a request that is let through. */
  predicate Admits(l: Limit, events: seq<Event>)
    requires events != []
  {
    events[|events| - 1].Request? && After(l, events).Live? && After(l, events).count <= l.maxRequests
  }

  predicate InTimeOrder(events: seq<Event>) {
    forall i, j :: 0 <= i < j < |events| ==> events[i].at <= events[j].at
  }

  predicate Within(l: Limit, at: real, from: real) {
    from <= at < from + l.window
  }

  /** How many requests are let through in the half-open interval of one window's length that begins at `from`. */
  function Admitted(l: Limit, events: seq<Event>, from: real): nat {
    if events == [] then 0
    else
      Admitted(l, events[..|events| - 1], from)
      + if Admits(l, events) && Within(l, events[|events| - 1].at, from) then 1 else 0
  }

  function Min(a: int, b: int): int {
    if a < b then a else b
  }

  /** The counter was started before the last event, and lives at least a window. */
  predicate EntryOk(l: Limit, e: Entry, now: real) {
    e.Live? ==> e.count >= 1 && e.start <= now && (e.deadline.Some? ==> e.deadline.value >= e.start + l.window)
  }

  /**
   How the count so far depends on when the current counter started: before the interval its first
   request is not counted, and once it has started in the interval the next one starts after it.
   */
  predicate Budget(l: Limit, e: Entry, now: real, from: real, admitted: nat) {
    && (now < from ==> admitted == 0)
    && match e
       case Absent => admitted == 0
       case Live(count, start, _) =>
         var counted := Min(count, l.maxRequests);
         if start < from then admitted <= counted - 1
         else if start < from + l.window then admitted <= l.maxRequests - 1 + counted
         else admitted <= 2 * l.maxRequests - 1
  }

  lemma StepKeepsBudget(l: Limit, e: Entry, now: real, event: Event, from: real, admitted: nat)
    requires l.maxRequests >= 1 && l.window > 0.0 && now <= event.at
    requires EntryOk(l, e, now) && Budget(l, e, now, from, admitted)
    ensures var e' := Step(l, e, event);
            var admitted' := event.Request? && e'.Live? && e'.count <= l.maxRequests && Within(l, event.at, from);
            var more := if admitted' then 1 else 0;
            EntryOk(l, e', event.at) && Budget(l, e', event.at, from, admitted + more)
  {
  }

  lemma {:induction false} EventsKeepBudget(l: Limit, events: seq<Event>, from: real)
    requires l.maxRequests >= 1 && l.window > 0.0 && InTimeOrder(events) && events != []
    ensures var now := events[|events| - 1].at;
            EntryOk(l, After(l, events), now) && Budget(l, After(l, events), now, from, Admitted(l, events, from))
  {
    var front, event := events[..|events| - 1], events[|events| - 1];
    if front == [] {
      StepKeepsBudget(l, Absent, event.at, event, from, 0);
    } else {
      EventsKeepBudget(l, front, from);
      StepKeepsBudget(l, After(l, front), front[|front| - 1].at, event, from, Admitted(l, front, from));
    }
  }

  /**
   However the requests of a key come, and however late or never their EXPIREs land: at most
   2 * maxRequests - 1 requests are let through in any half-open interval as long as the window.
   */
  lemma TwiceTheLimitIsNeverReached(l: Limit, events: seq<Event>, from: real)
    requires l.maxRequests >= 1 && l.window > 0.0 && InTimeOrder(events)
    ensures Admitted(l, events, from) <= 2 * l.maxRequests - 1
  {
    if events != [] {
      EventsKeepBudget(l, events, from);
    }
  }

  // ---------- the bound is attained ----------

  function Burst(at: real, n: nat): seq<Event> {
    seq(n, _ => Request(at))
  }

  /** A burst inside a live counter is let through as long as the limit allows. */
  lemma {:induction false} BurstIsAdmitted(l: Limit, events: seq<Event>, at: real, n: nat, from: real)
    requires Current(After(l, events), at).Live? && After(l, events).count + n <= l.maxRequests && Within(l, at, from)
    ensures var e := After(l, events);
            After(l, events + Burst(at, n)) == e.(count := e.count + n)
            && Admitted(l, events + Burst(at, n), from) == Admitted(l, events, from) + n
  {
    if n == 0 {
      assert events + Burst(at, 0) == events;
    } else {
      BurstIsAdmitted(l, events, at, n - 1, from);
      var all := events + Burst(at, n);
      assert all[..|all| - 1] == events + Burst(at, n - 1);
    }
  }

  /** One early request, the rest of the limit just before the counter expires, and a full limit just after. */
  function Straddle(l: Limit): seq<Event>
    requires l.maxRequests >= 1
  {
    var rest := l.maxRequests - 1;
    [Request(0.0), Expire(0.0)] + Burst(l.window / 2.0, rest) + [Request(l.window)] + Burst(l.window, rest)
  }

  /** A new counter starts, at the first request or once the old one has expired. */
  lemma RequestStartsACounter(l: Limit, events: seq<Event>, at: real, from: real)
    requires Current(After(l, events), at).Absent? && l.maxRequests >= 1
    ensures After(l, events + [Request(at)]) == Live(1, at, None)
    ensures Admitted(l, events + [Request(at)], from) ==
            Admitted(l, events, from) + if Within(l, at, from) then 1 else 0
  {
    assert (events + [Request(at)])[..|events|] == events;
  }

  lemma ExpireSetsTheDeadline(l: Limit, events: seq<Event>, at: real, from: real)
    requires Current(After(l, events), at).Live?
    ensures After(l, events + [Expire(at)]) == After(l, events).(deadline := Some(at + l.window))
    ensures Admitted(l, events + [Expire(at)], from) == Admitted(l, events, from)
  {
    assert (events + [Expire(at)])[..|events|] == events;
  }

  lemma StraddleIsInTimeOrder(l: Limit)
    requires l.maxRequests >= 1 && l.window > 0.0
    ensures InTimeOrder(Straddle(l))
  {
  }

  /** The first two events, and the counter they leave. */
  lemma FirstRequestExpires(l: Limit, from: real)
    requires l.maxRequests >= 1 && 0.0 < from
    ensures After(l, [Request(0.0), Expire(0.0)]) == Live(1, 0.0, Some(l.window))
    ensures Admitted(l, [Request(0.0), Expire(0.0)], from) == 0
  {
    RequestStartsACounter(l, [], 0.0, from);
    assert [] + [Request(0.0)] == [Request(0.0)];
    ExpireSetsTheDeadline(l, [Request(0.0)], 0.0, from);
    assert [Request(0.0)] + [Expire(0.0)] == [Request(0.0), Expire(0.0)];
  }

  lemma TheBoundIsAttained(l: Limit)
    requires l.maxRequests >= 1 && l.window > 0.0
    ensures InTimeOrder(Straddle(l)) && Admitted(l, Straddle(l), l.window / 2.0) == 2 * l.maxRequests - 1
  {
    hide After, Admitted, InTimeOrder;
    StraddleIsInTimeOrder(l);
    var from, rest := l.window / 2.0, l.maxRequests - 1;
    FirstRequestExpires(l, from);
    var first := [Request(0.0), Expire(0.0)];
    BurstIsAdmitted(l, first, from, rest, from);
    var second := first + Burst(from, rest);
    RequestStartsACounter(l, second, l.window, from);
    BurstIsAdmitted(l, second + [Request(l.window)], l.window, rest, from);
  }

  lemma {:induction false} NothingIsAdmitted(l: Limit, events: seq<Event>, from: real)
    requires l.maxRequests == 0
    ensures Admitted(l, events, from) == 0
  {
    if events != [] {
      NothingIsAdmitted(l, events[..|events| - 1], from);
    }
  }

  /** No interval of one window's length, wherever it begins, has more requests let through than the limit. */
  ghost predicate LimitsSlidingWindows(l: Limit) {
    forall events, from :: InTimeOrder(events) ==> Admitted(l, events, from) <= l.maxRequests
  }

  /** The limiter is a sliding-window limiter if and only if it lets at most one request through per window. */
  lemma SlidingExactlyWhenTheLimitIsOne(l: Limit)
    requires l.window > 0.0
    ensures LimitsSlidingWindows(l) <==> l.maxRequests <= 1
  {
    if l.maxRequests > 1 {
      TheBoundIsAttained(l);
      assert Admitted(l, Straddle(l), l.window / 2.0) > l.maxRequests;
    } else {
      forall events, from | InTimeOrder(events) ensures Admitted(l, events, from) <= l.maxRequests {
        if l.maxRequests == 0 {
          NothingIsAdmitted(l, events, from);
        } else {
          TwiceTheLimitIsNeverReached(l, events, from);
        }
      }
    }
  }

  // ---------- a counter's life ----------

  /** How many requests have been let through since the current counter started. */
  function AdmittedByCounter(l: Limit, events: seq<Event>): nat {
    if events == [] then 0
    else
      var front, event := events[..|events| - 1], events[|events| - 1];
      var starts := event.Request? && Current(After(l, front), event.at).Absent?;
      (if starts then 0 else AdmittedByCounter(l, front)) + if Admits(l, events) then 1 else 0
  }

  /** In every run, a counter has let through every request it has counted, up to the limit and no further. */
  lemma {:induction false} CounterAdmitsTheLimit(l: Limit, events: seq<Event>)
    ensures var e := After(l, events);
            AdmittedByCounter(l, events) == if e.Live? then Min(e.count, l.maxRequests) else 0
  {
    if events != [] {
      CounterAdmitsTheLimit(l, events[..|events| - 1]);
    }
  }

  lemma {:induction false} DeadlineIsAWindowAway(l: Limit, events: seq<Event>, last: real)
    requires l.window > 0.0 && forall i :: 0 <= i < |events| ==> events[i].at <= last
    ensures var e := After(l, events);
            e.Live? && e.deadline.Some? ==> e.deadline.value <= last + l.window
  {
    if events != [] {
      DeadlineIsAWindowAway(l, events[..|events| - 1], last);
    }
  }

  /**
   After a quiet window a request is let through, unless the EXPIRE of the current counter never
   landed and the counter has reached the limit.
   */
  lemma QuietWindowResets(l: Limit, events: seq<Event>, last: real, at: real)
    requires l.maxRequests >= 1 && l.window > 0.0 && last + l.window <= at
    requires forall i :: 0 <= i < |events| ==> events[i].at <= last
    ensures var e := After(l, events);
            Admits(l, events + [Request(at)]) <==> !(e.Live? && e.deadline == None && e.count >= l.maxRequests)
  {
    DeadlineIsAWindowAway(l, events, last);
    assert (events + [Request(at)])[..|events|] == events;
  }

  /** If that EXPIRE is lost, the key is shut for good: its error is ignored, and only it could reset the counter. */
  lemma {:induction false} LostExpireLocksOut(l: Limit, events: seq<Event>, more: seq<Event>)
    requires After(l, events).Live? && After(l, events).deadline == None && After(l, events).count >= l.maxRequests
    requires more != [] && forall e :: e in more ==> e.Request?
    ensures !Admits(l, events + more)
    ensures var e := After(l, events + more); e.Live? && e.deadline == None && e.count > l.maxRequests
  {
    var all := events + more;
    assert all[..|all| - 1] == events + more[..|more| - 1];
    assert more[|more| - 1] in more;
    if |more| > 1 {
      LostExpireLocksOut(l, events, more[..|more| - 1]);
    } else {
      assert events + more[..|more| - 1] == events;
    }
  }

  // ---------- the middleware ----------

  /** realIP: a proxy header if there is one, else the remote address without its port. */
  method RealIP(forwardedFor: string, realIp: string, addr: string) returns (ip: string)
    ensures forwardedFor != "" ==> ip == forwardedFor
    ensures forwardedFor == "" && realIp != "" ==> ip == realIp
    ensures forwardedFor == "" && realIp == "" && ':' !in addr ==> ip == addr
    ensures forwardedFor == "" && realIp == "" && ':' in addr ==>
              |ip| < |addr| && ip + ":" <= addr && ':' !in addr[|ip| + 1..]
  {
    if forwardedFor != "" {
      return forwardedFor;
    }
    if realIp != "" {
      return realIp;
    }
    var i := |addr| - 1;
    while i >= 0
      invariant -1 <= i < |addr|
      invariant ':' !in addr[i + 1..]
    {
      if addr[i] == ':' {
        return addr[..i];
      }
      i := i - 1;
    }
    ip := addr;
  }

  function CounterKey(route: string, ip: string): string {
    "rl:" + route + ":" + ip
  }

  /** Clients and routes do not share counters, as long as route names have no colon. */
  lemma CounterKeysAreInjective(route: string, ip: string, route': string, ip': string)
    requires ':' !in route && ':' !in route'
    requires CounterKey(route, ip) == CounterKey(route', ip')
    ensures route == route' && ip == ip'
  {
    var a, b := CounterKey(route, ip)[3..], CounterKey(route', ip')[3..];
    assert a == route + (":" + ip) && b == route' + (":" + ip');
    assert a[|route|] == ':' && b[|route'|] == ':';
    assert forall i :: 0 <= i < |route| ==> a[i] == route[i];
    assert forall i :: 0 <= i < |route'| ==> b[i] == route'[i];
    assert |route| == |route'|;
    assert route == a[..|route|] && ip == a[|route| + 1..];
  }

  lemma AfterNext(l: Limit, events: seq<Event>, event: Event)
    ensures After(l, events + [event]) == Step(l, After(l, events), event)
  {
    assert (events + [event])[..|events|] == events;
  }

  /** The counter of one route and client address, with the events Redis has seen for its key. */
  class Counter {
    const limit: Limit
    var entry: Entry
    ghost var log: seq<Event>

    constructor (limit: Limit)
      ensures this.limit == limit && log == [] && Valid()
    {
      this.limit, entry, log := limit, Absent, [];
    }

    ghost predicate Valid()
      reads this
    {
      entry == After(limit, log)
    }

    method Incr(now: real) returns (count: nat)
      requires Valid()
      modifies this
      ensures Valid() && log == old(log) + [Request(now)]
      ensures entry.Live? && count == entry.count
    {
      AfterNext(limit, log, Request(now));
      var e := Current(entry, now);
      count := if e.Live? then e.count + 1 else 1;
      entry := if e.Live? then e.(count := count) else Live(1, now, None);
      log := log + [Request(now)];
    }

    method SetExpiry(now: real)
      requires Valid()
      modifies this
      ensures Valid() && log == old(log) + [Expire(now)]
    {
      hide After;
      AfterNext(limit, log, Expire(now));
      var e := Current(entry, now);
      if e.Live? {
        entry := Live(e.count, e.start, Some(now + limit.window));
      }
      log := log + [Expire(now)];
    }

    /** Other requests of the same key, or their EXPIREs, reach Redis. */
    method Yield(others: seq<Event>)
      requires Valid()
      modifies this
      ensures Valid() && log == old(log) + others
    {
      for i := 0 to |others|
        invariant Valid() && log == old(log) + others[..i]
      {
        match others[i]
        case Request(at) => var _ := Incr(at);
        case Expire(at) => SetExpiry(at);
      }
    }

    /**
     The middleware for one request.  `answered` is whether Redis answers the INCR, `meanwhile` is what
     Redis sees of the key before the EXPIRE of a first request, and `expireAt` is when that lands, if
     it does.  Without an answer the request is let through; with one, exactly when the events admit it.
     */
    method RateLimit(now: real, answered: bool, meanwhile: seq<Event>, expireAt: Option<real>)
      returns (admitted: bool, remaining: int)
      requires Valid()
      modifies this
      ensures Valid()
      ensures !answered ==> admitted && log == old(log)
      ensures answered ==>
                var seen := old(log) + [Request(now)];
                && (admitted <==> Admits(limit, seen))
                && After(limit, seen).Live?
                && remaining == (if admitted then limit.maxRequests - After(limit, seen).count else 0)
                && log == seen + meanwhile
                     + if After(limit, seen).count == 1 && expireAt.Some? then [Expire(expireAt.value)] else []
    {
      if !answered {
        return true, limit.maxRequests;
      }
      var count := Incr(now);
      Yield(meanwhile);
      if count == 1 && expireAt.Some? {
        SetExpiry(expireAt.value);
      }
      remaining := limit.maxRequests - count;
      if remaining < 0 {
        remaining := 0;
      }
      admitted := !(count > limit.maxRequests);
    }
  }
}
