/** The fixed-window rate limiter: backend/core/ratelimit/limiter.py. */
module RateLimit {
  import opened Prelude

  /** A window's length, at least one second. */
  type Seconds = n: int | n >= 1 witness 1

  datatype Policy = Policy(limit: int, window: Seconds)

  /** The counter's name: the caller's key and the number of the window. */
  datatype Slot = Slot(key: string, index: int)

  /** A stored counter; without an expiry it stays for good. */
  datatype Counter = Counter(count: nat, expiresAt: Option<real>)

  /** What can go wrong with the increment: it never happened, or it did and the reply was lost. */
  datatype Fault = Healthy | Unreachable | ReplyLost

  datatype RateLimitResult = RateLimitResult(allowed: bool, limit: int, remaining: int, retryAfter: int)

  function SlotAt(key: string, window: Seconds, at: real): Slot {
    Slot(key, at.Floor / window)
  }

  predicate Expired(c: Counter, at: real) {
    c.expiresAt.Some? && c.expiresAt.value <= at
  }

  /** INCR: an expired counter is gone, so it starts again from one. */
  function Incremented(counters: map<Slot, Counter>, slot: Slot, at: real): (after: map<Slot, Counter>)
    ensures slot in after && after[slot].count >= 1
  {
    if slot in counters && !Expired(counters[slot], at)
    then counters[slot := counters[slot].(count := counters[slot].count + 1)]
    else counters[slot := Counter(1, None)]
  }

  /** EXPIRE: nothing happens to a counter that is not there. */
  function WithTtl(counters: map<Slot, Counter>, slot: Slot, window: Seconds, at: real): map<Slot, Counter> {
    if slot in counters && !Expired(counters[slot], at)
    then counters[slot := counters[slot].(expiresAt := Some(at + window as real))]
    else counters
  }

  /** The clock read at `read` picks the window; the increment reaches the store at `at`. */
  function Arrived(
    counters: map<Slot, Counter>, policy: Policy, key: string, read: real, at: real, fault: Fault): map<Slot, Counter>
  {
    if policy.limit <= 0 || fault == Unreachable then counters
    else Incremented(counters, SlotAt(key, policy.window, read), at)
  }

  /** Every failure lets the request through. */
  predicate Allowed(
    counters: map<Slot, Counter>, policy: Policy, key: string, read: real, at: real, fault: Fault)
  {
    || policy.limit <= 0
    || fault != Healthy
    || (var slot := SlotAt(key, policy.window, read);
        Incremented(counters, slot, at)[slot].count <= policy.limit)
  }

  class Limiter {
    var counters: map<Slot, Counter>

    constructor ()
      ensures counters == map[]
    {
      counters := map[];
    }

    /** The answer to a request above the limit. */
    static method Refusal(key: string, policy: Policy, read: real) returns (r: RateLimitResult)
      ensures !r.allowed && r.limit == policy.limit && r.remaining == 0 && 1 <= r.retryAfter <= policy.window
      ensures SlotAt(key, policy.window, read + r.retryAfter as real) ==
                Slot(key, SlotAt(key, policy.window, read).index + 1)
      ensures SlotAt(key, policy.window, read + (r.retryAfter - 1) as real) == SlotAt(key, policy.window, read)
    {
      var retryAfter := policy.window - read.Floor % policy.window;
      WaitReachesNextWindow(key, policy.window, read, retryAfter);
      WaitReachesNextWindow(key, policy.window, read, retryAfter - 1);
      return RateLimitResult(false, policy.limit, 0, if retryAfter < 1 then 1 else retryAfter);
    }

    /** One check: the clock is read at `read`, INCR runs at `at`, and EXPIRE, sent after a
        first hit, at `later`. */
    method CheckRateLimit(
      enabled: bool, connected: bool, key: string, policy: Policy,
      read: real, at: real, fault: Fault, later: real, expireFails: bool)
      returns (r: RateLimitResult)
      requires 0.0 <= read <= at <= later
      modifies this
      ensures !enabled || !connected ==> r.allowed && counters == old(counters)
      ensures enabled && connected ==>
                var hit := Arrived(old(counters), policy, key, read, at, fault);
                var slot := SlotAt(key, policy.window, read);
                && r.allowed == Allowed(old(counters), policy, key, read, at, fault)
                && counters == (if policy.limit > 0 && fault == Healthy && !expireFails && hit[slot].count == 1
                                then WithTtl(hit, slot, policy.window, later) else hit)
      ensures r.allowed ==> r.retryAfter == 0 && 0 <= r.remaining && (policy.limit > 0 ==> r.remaining <= policy.limit)
      ensures !r.allowed ==>
                && r.remaining == 0 && 1 <= r.retryAfter <= policy.window
                && SlotAt(key, policy.window, read + r.retryAfter as real)
                     == Slot(key, SlotAt(key, policy.window, read).index + 1)
                && SlotAt(key, policy.window, read + (r.retryAfter - 1) as real) == SlotAt(key, policy.window, read)
      ensures !enabled || policy.limit <= 0 ==> r == RateLimitResult(true, 0, 0, 0) && counters == old(counters)
      ensures enabled && policy.limit > 0 ==> r.limit == policy.limit
      ensures enabled && policy.limit > 0 && connected && fault == Healthy && !expireFails && r.allowed ==>
                r.remaining == policy.limit - counters[SlotAt(key, policy.window, read)].count
      ensures enabled && policy.limit > 0 && (!connected || fault != Healthy) ==> r.remaining == policy.limit
    {
      if !enabled || policy.limit <= 0 {
        return RateLimitResult(true, 0, 0, 0);
      }
      if !connected {
        return RateLimitResult(true, policy.limit, policy.limit, 0);
      }
      var now := read.Floor;
      var slot := Slot(key, now / policy.window);
      if fault == Unreachable {
        return RateLimitResult(true, policy.limit, policy.limit, 0);
      }
      counters := Incremented(counters, slot, at);
      if fault == ReplyLost {
        return RateLimitResult(true, policy.limit, policy.limit, 0);
      }
      var count := counters[slot].count;
      if count == 1 {
        if expireFails {
          return RateLimitResult(true, policy.limit, policy.limit, 0);
        }
        counters := WithTtl(counters, slot, policy.window, later);
      }
      if count > policy.limit {
        r := Refusal(key, policy, read);
        return;
      }
      return RateLimitResult(true, policy.limit, if policy.limit < count then 0 else policy.limit - count, 0);
    }
  }

  // ---- Windows -----------------------------------------------------------

  lemma WindowBounds(a: int, window: Seconds)
    ensures (a / window) * window <= a < (a / window + 1) * window
  {
  }

  lemma LaterWindow(a: int, b: int, window: Seconds)
    ensures a < b ==> (a + 1) * window <= b * window
  {
  }

  lemma WindowIs(a: int, window: Seconds, index: int)
    requires index * window <= a < (index + 1) * window
    ensures a / window == index
  {
    WindowBounds(a, window);
    LaterWindow(a / window, index, window);
    LaterWindow(index, a / window, window);
  }

  /** Waiting `retry_after` whole seconds is enough to reach the next window, and any whole
      number of seconds short of it is not. */
  lemma WaitReachesNextWindow(key: string, window: Seconds, at: real, wait: int)
    requires 0 <= wait <= window - at.Floor % window
    ensures SlotAt(key, window, at + wait as real).index ==
              SlotAt(key, window, at).index + (if wait == window - at.Floor % window then 1 else 0)
  {
    var now := at.Floor;
    var q := now / window;
    assert (at + wait as real).Floor == now + wait;
    assert now == q * window + now % window;
    if wait == window - now % window {
      assert now + wait == (q + 1) * window;
      WindowIs(now + wait, window, q + 1);
    } else {
      WindowIs(now + wait, window, q);
    }
  }

  // ---- Traces ------------------------------------------------------------

  type Policies = string -> Policy

  /** A request that read its clock at `read` and reaches the counter store at `at`, or a late
      EXPIRE reaching it. */
  datatype Event = Arrive(key: string, read: real, at: real, fault: Fault) | Ttl(slot: Slot, at: real)

  function EventSlot(p: Policies, e: Event): Slot {
    match e
    case Arrive(key, read, _, _) => SlotAt(key, p(key).window, read)
    case Ttl(slot, _) => slot
  }

  function Next(p: Policies, counters: map<Slot, Counter>, e: Event): map<Slot, Counter> {
    match e
    case Arrive(key, read, at, fault) => Arrived(counters, p(key), key, read, at, fault)
    case Ttl(slot, at) => WithTtl(counters, slot, p(slot.key).window, at)
  }

  function Counters(p: Policies, trace: seq<Event>): map<Slot, Counter> {
    if trace == [] then map[] else Next(p, Counters(p, trace[..|trace| - 1]), Last(trace))
  }

  /** The store's time moves forward, no request reaches it before reading its clock, and an
      EXPIRE follows a request of its own window. Any number of other requests may come between
      the two, and the EXPIRE may never arrive. */
  ghost predicate Timely(p: Policies, trace: seq<Event>) {
    && (forall i :: 0 <= i < |trace| ==> trace[i].at >= 0.0)
    && (forall i :: 0 <= i < |trace| && trace[i].Arrive? ==> 0.0 <= trace[i].read <= trace[i].at)
    && (forall i, j :: 0 <= i < j < |trace| ==> trace[i].at <= trace[j].at)
    && (forall j :: 0 <= j < |trace| && trace[j].Ttl? ==> FollowsArrival(p, trace, j))
  }

  ghost predicate FollowsArrival(p: Policies, trace: seq<Event>, j: nat)
    requires j < |trace|
  {
    exists i :: 0 <= i < j && trace[i].Arrive? && EventSlot(p, trace[i]) == EventSlot(p, trace[j])
  }

  lemma TimelyFront(p: Policies, trace: seq<Event>)
    requires Timely(p, trace) && trace != []
    ensures Timely(p, trace[..|trace| - 1])
  {
    var front := trace[..|trace| - 1];
    forall j | 0 <= j < |front| && front[j].Ttl? ensures FollowsArrival(p, front, j) {
      assert FollowsArrival(p, trace, j);
      var i :| 0 <= i < j && trace[i].Arrive? && EventSlot(p, trace[i]) == EventSlot(p, trace[j]);
      assert front[i] == trace[i];
    }
  }

  predicate Hits(p: Policies, e: Event, slot: Slot) {
    e.Arrive? && EventSlot(p, e) == slot
  }

  /** How many requests of a window there were; how many met a failure; how many were counted;
      how many were let through. */
  function Arrivals(p: Policies, trace: seq<Event>, slot: Slot): nat {
    if trace == [] then 0
    else Arrivals(p, trace[..|trace| - 1], slot) + (if Hits(p, Last(trace), slot) then 1 else 0)
  }

  function Faulty(p: Policies, trace: seq<Event>, slot: Slot): nat {
    if trace == [] then 0
    else
      Faulty(p, trace[..|trace| - 1], slot)
      + (if Hits(p, Last(trace), slot) && Last(trace).fault != Healthy then 1 else 0)
  }

  function Applied(p: Policies, trace: seq<Event>, slot: Slot): nat {
    if trace == [] then 0
    else
      Applied(p, trace[..|trace| - 1], slot)
      + (if Hits(p, Last(trace), slot) && Last(trace).fault != Unreachable then 1 else 0)
  }

  predicate Passes(p: Policies, before: seq<Event>, e: Event) {
    e.Arrive? && Allowed(Counters(p, before), p(e.key), e.key, e.read, e.at, e.fault)
  }

  function Admitted(p: Policies, trace: seq<Event>, slot: Slot): nat {
    if trace == [] then 0
    else
      var front := trace[..|trace| - 1];
      Admitted(p, front, slot) + (if Hits(p, Last(trace), slot) && Passes(p, front, Last(trace)) then 1 else 0)
  }

  /** The requests of a key read in an interval that were let through. */
  function AdmittedBetween(p: Policies, trace: seq<Event>, key: string, since: real, until: real): nat {
    if trace == [] then 0
    else
      var front, e := trace[..|trace| - 1], Last(trace);
      AdmittedBetween(p, front, key, since, until)
      + (if e.Arrive? && e.key == key && since <= e.read < until && Passes(p, front, e) then 1 else 0)
  }

  function CountOf(counters: map<Slot, Counter>, slot: Slot): nat {
    if slot in counters then counters[slot].count else 0
  }

  /** The i-th event is an increment of the window that finds its counter expired. */
  predicate LateAt(p: Policies, trace: seq<Event>, i: nat, slot: Slot)
    requires i < |trace|
  {
    var counters, e := Counters(p, trace[..i]), trace[i];
    Counted(p, e, slot) && slot in counters && Expired(counters[slot], e.at)
  }

  ghost predicate NeverLate(p: Policies, trace: seq<Event>, slot: Slot) {
    forall i {:trigger LateAt(p, trace, i, slot)} :: 0 <= i < |trace| ==> !LateAt(p, trace, i, slot)
  }

  predicate ExactAt(p: Policies, trace: seq<Event>, n: nat, slot: Slot)
    requires n <= |trace|
  {
    CountOf(Counters(p, trace[..n]), slot) == Applied(p, trace[..n], slot)
  }

  /** At every moment the stored count is the number of increments so far. */
  ghost predicate CountsExactly(p: Policies, trace: seq<Event>, slot: Slot) {
    forall n {:trigger ExactAt(p, trace, n, slot)} :: 0 <= n <= |trace| ==> ExactAt(p, trace, n, slot)
  }

  lemma NeverLateSnoc(p: Policies, front: seq<Event>, e: Event, slot: Slot)
    ensures NeverLate(p, front + [e], slot) <==> NeverLate(p, front, slot) && !LateAt(p, front + [e], |front|, slot)
  {
    var trace := front + [e];
    forall i | 0 <= i < |front| ensures LateAt(p, trace, i, slot) == LateAt(p, front, i, slot) {
      assert trace[..i] == front[..i];
    }
  }

  lemma CountsSnoc(p: Policies, front: seq<Event>, e: Event, slot: Slot)
    ensures CountsExactly(p, front + [e], slot) <==>
              CountsExactly(p, front, slot) && ExactAt(p, front + [e], |front| + 1, slot)
  {
    var trace := front + [e];
    forall n | 0 <= n <= |front| ensures ExactAt(p, trace, n, slot) == ExactAt(p, front, n, slot) {
      assert trace[..n] == front[..n];
    }
  }

  lemma {:induction false} StoredIsPositive(p: Policies, trace: seq<Event>, slot: Slot)
    ensures slot in Counters(p, trace) ==> Counters(p, trace)[slot].count >= 1
  {
    if trace != [] {
      StoredIsPositive(p, trace[..|trace| - 1], slot);
    }
  }

  predicate Counted(p: Policies, e: Event, slot: Slot) {
    Hits(p, e, slot) && e.fault != Unreachable && p(slot.key).limit > 0
  }

  /** One event's effect on the stored count: an increment that finds the counter expired starts
      it again from one. */
  lemma CountNext(p: Policies, counters: map<Slot, Counter>, e: Event, slot: Slot)
    ensures CountOf(Next(p, counters, e), slot) ==
              if !Counted(p, e, slot) then CountOf(counters, slot)
              else if slot in counters && Expired(counters[slot], e.at) then 1
              else CountOf(counters, slot) + 1
  {
  }

  lemma CountStep(p: Policies, front: seq<Event>, e: Event, slot: Slot)
    requires p(slot.key).limit > 0
    ensures var late := LateAt(p, front + [e], |front|, slot);
            && CountOf(Counters(p, front + [e]), slot) ==
                 (if late then 1 else CountOf(Counters(p, front), slot) + if Counted(p, e, slot) then 1 else 0)
            && Applied(p, front + [e], slot) == Applied(p, front, slot) + (if Counted(p, e, slot) then 1 else 0)
            && (late ==> CountOf(Counters(p, front), slot) >= 1 && Counted(p, e, slot))
  {
    var trace := front + [e];
    assert trace[..|trace| - 1] == front && trace[..|front|] == front && Last(trace) == e;
    CountNext(p, Counters(p, front), e, slot);
    StoredIsPositive(p, front, slot);
  }

  /** A window's count is right at every moment exactly when none of its increments reaches the
      store after its counter has expired. */
  lemma {:induction false} CountIsExact(p: Policies, trace: seq<Event>, slot: Slot)
    requires p(slot.key).limit > 0
    ensures CountsExactly(p, trace, slot) <==> NeverLate(p, trace, slot)
  {
    if trace == [] {
      assert trace[..0] == [];
    } else {
      var front, e := trace[..|trace| - 1], Last(trace);
      assert front + [e] == trace;
      CountIsExact(p, front, slot);
      NeverLateSnoc(p, front, e, slot);
      CountsSnoc(p, front, e, slot);
      CountStep(p, front, e, slot);
      assert front[..|front|] == front && trace[..|trace|] == trace;
      assert CountsExactly(p, front, slot) ==> ExactAt(p, front, |front|, slot);
    }
  }

  function EndOf(slot: Slot, window: Seconds): real {
    ((slot.index + 1) * window) as real
  }

  lemma InsideWindow(key: string, window: Seconds, at: real)
    ensures at < EndOf(SlotAt(key, window, at), window) <= at + window as real
  {
    var q := at.Floor / window;
    WindowBounds(at.Floor, window);
    assert (q + 1) * window == q * window + window;
  }

  predicate Outlives(counters: map<Slot, Counter>, slot: Slot, end: real) {
    slot in counters && counters[slot].expiresAt.Some? ==> counters[slot].expiresAt.value >= end
  }

  /** However late its EXPIRE comes, a counter outlives its window. */
  lemma {:induction false} CounterOutlives(p: Policies, trace: seq<Event>, slot: Slot)
    requires Timely(p, trace)
    ensures Outlives(Counters(p, trace), slot, EndOf(slot, p(slot.key).window))
  {
    if trace != [] {
      var e := Last(trace);
      TimelyFront(p, trace);
      CounterOutlives(p, trace[..|trace| - 1], slot);
      if e.Ttl? && e.slot == slot {
        ArrivalBefore(p, trace, slot);
      }
    }
  }

  lemma ArrivalBefore(p: Policies, trace: seq<Event>, slot: Slot)
    requires Timely(p, trace) && trace != [] && Last(trace) == Ttl(slot, Last(trace).at)
    ensures Last(trace).at + p(slot.key).window as real >= EndOf(slot, p(slot.key).window)
  {
    assert FollowsArrival(p, trace, |trace| - 1);
    var i :| 0 <= i < |trace| - 1 && trace[i].Arrive? && EventSlot(p, trace[i]) == slot;
    InsideWindow(trace[i].key, p(slot.key).window, trace[i].read);
  }

  /** Every increment of the window reaches the store before the window ends. */
  ghost predicate Prompt(p: Policies, trace: seq<Event>, slot: Slot) {
    forall e :: e in trace && Hits(p, e, slot) ==> e.at < EndOf(slot, p(slot.key).window)
  }

  /** Increments that land before their window ends are never late. */
  lemma {:induction false} PromptIsNeverLate(p: Policies, trace: seq<Event>, slot: Slot)
    requires Timely(p, trace) && Prompt(p, trace, slot)
    ensures NeverLate(p, trace, slot)
  {
    if trace != [] {
      var front, e := trace[..|trace| - 1], Last(trace);
      assert front + [e] == trace;
      TimelyFront(p, trace);
      PromptIsNeverLate(p, front, slot);
      CounterOutlives(p, front, slot);
      NeverLateSnoc(p, front, e, slot);
      assert trace[..|front|] == front;
    }
  }

  /** A request is let through exactly when its check failed or fewer than `limit` increments
      of its window came before it. */
  lemma PassesExactly(p: Policies, trace: seq<Event>, e: Event)
    requires e.Arrive? && p(e.key).limit > 0 && NeverLate(p, trace + [e], EventSlot(p, e))
    ensures Passes(p, trace, e) <==> e.fault != Healthy || Applied(p, trace, EventSlot(p, e)) < p(e.key).limit
  {
    var slot := EventSlot(p, e);
    NeverLateSnoc(p, trace, e, slot);
    CountIsExact(p, trace, slot);
    assert trace[..|trace|] == trace && ExactAt(p, trace, |trace|, slot);
    assert (trace + [e])[..|trace|] == trace && (trace + [e])[|trace|] == e;
    assert !LateAt(p, trace + [e], |trace|, slot);
    StoredIsPositive(p, trace, slot);
  }

  /** How the four counts of a window stand to each other at any moment. */
  predicate Balanced(limit: int, arrivals: nat, faulty: nat, applied: nat, admitted: nat) {
    && applied <= arrivals && admitted <= arrivals
    && (if applied <= limit then admitted == arrivals else admitted >= limit)
    && admitted <= faulty + (if applied <= limit then applied else limit)
  }

  lemma {:induction false} CountsBalance(p: Policies, trace: seq<Event>, slot: Slot)
    requires NeverLate(p, trace, slot) && p(slot.key).limit > 0
    ensures Balanced(p(slot.key).limit, Arrivals(p, trace, slot), Faulty(p, trace, slot), Applied(p, trace, slot),
        Admitted(p, trace, slot))
  {
    if trace != [] {
      var front, e := trace[..|trace| - 1], Last(trace);
      assert front + [e] == trace;
      NeverLateSnoc(p, front, e, slot);
      CountsBalance(p, front, slot);
      if Hits(p, e, slot) {
        PassesExactly(p, front, e);
      }
      BalanceStep(p, front, e, slot);
    }
  }

  lemma BalanceStep(p: Policies, front: seq<Event>, e: Event, slot: Slot)
    requires p(slot.key).limit > 0
    requires Balanced(p(slot.key).limit, Arrivals(p, front, slot), Faulty(p, front, slot), Applied(p, front, slot),
        Admitted(p, front, slot))
    requires Hits(p, e, slot) ==>
        (Passes(p, front, e) <==> e.fault != Healthy || Applied(p, front, slot) < p(slot.key).limit)
    ensures var trace := front + [e];
            Balanced(p(slot.key).limit, Arrivals(p, trace, slot), Faulty(p, trace, slot), Applied(p, trace, slot),
                Admitted(p, trace, slot))
  {
    var trace := front + [e];
    assert trace[..|trace| - 1] == front && Last(trace) == e;
  }

  /** Unless an increment is late, each window lets through exactly min(limit, arrivals) of its
      requests; failures can only add to that, one each. */
  lemma WindowAdmits(p: Policies, trace: seq<Event>, slot: Slot)
    requires NeverLate(p, trace, slot) && p(slot.key).limit > 0
    ensures var limit, n, d := p(slot.key).limit, Arrivals(p, trace, slot), Admitted(p, trace, slot);
            && (if n <= limit then d == n else limit <= d <= n)
            && d <= limit + Faulty(p, trace, slot)
  {
    CountsBalance(p, trace, slot);
  }

  /** An interval no longer than the window touches two windows at most. */
  lemma TwoWindows(p: Policies, key: string, since: real, at: real)
    requires since <= at < since + p(key).window as real
    ensures var i := SlotAt(key, p(key).window, since).index;
            i <= SlotAt(key, p(key).window, at).index <= i + 1
  {
    var w := p(key).window;
    var q, r := since.Floor / w, at.Floor / w;
    WindowBounds(since.Floor, w);
    WindowBounds(at.Floor, w);
    assert since.Floor <= at.Floor <= since.Floor + w;
    assert (q + 2) * w == (q + 1) * w + w;
    LaterWindow(r, q, w);
    LaterWindow(q + 1, r, w);
  }

  lemma {:induction false} IntervalIsTwoWindows(p: Policies, trace: seq<Event>, key: string, since: real, until: real)
    requires until <= since + p(key).window as real
    ensures var i := SlotAt(key, p(key).window, since).index;
            AdmittedBetween(p, trace, key, since, until) <= Admitted(p, trace, Slot(key, i))
                + Admitted(p, trace, Slot(key, i + 1))
  {
    if trace != [] {
      var front, e := trace[..|trace| - 1], Last(trace);
      IntervalIsTwoWindows(p, front, key, since, until);
      if e.Arrive? && e.key == key && since <= e.read < until {
        TwoWindows(p, key, since, e.read);
      }
    }
  }

  /** The documented bound: across a boundary a burst gets at most twice the limit, in any
      interval of one window's length. */
  lemma AtMostTwice(p: Policies, trace: seq<Event>, key: string, since: real, until: real)
    requires p(key).limit > 0 && until <= since + p(key).window as real
    requires forall i :: NeverLate(p, trace, Slot(key, i))
    ensures var i := SlotAt(key, p(key).window, since).index;
            AdmittedBetween(p, trace, key, since, until)
              <= 2 * p(key).limit + Faulty(p, trace, Slot(key, i)) + Faulty(p, trace, Slot(key, i + 1))
  {
    var i := SlotAt(key, p(key).window, since).index;
    IntervalIsTwoWindows(p, trace, key, since, until);
    WindowAdmits(p, trace, Slot(key, i));
    WindowAdmits(p, trace, Slot(key, i + 1));
  }

  /** Without that hypothesis a window may let through more, although nothing fails: a request
      that read its clock in the window increments after the counter has expired. */
  lemma LateIncrementStartsAgain(p: Policies, key: string)
    requires p(key).limit == 1
    ensures var w, slot := p(key).window as real, Slot(key, 0);
            var trace := [Arrive(key, 0.0, 0.0, Healthy), Ttl(slot, 0.05), Arrive(key, w - 0.1, w + 0.2, Healthy)];
            && Timely(p, trace) && Faulty(p, trace, slot) == 0 && Arrivals(p, trace, slot) == 2
            && Admitted(p, trace, slot) == 2
  {
    var w, slot := p(key).window as real, Slot(key, 0);
    var a, x, b := Arrive(key, 0.0, 0.0, Healthy), Ttl(slot, 0.05), Arrive(key, w - 0.1, w + 0.2, Healthy);
    var trace := [a, x, b];
    WindowIs(0, p(key).window, 0);
    assert (w - 0.1).Floor == p(key).window as int - 1;
    WindowIs(p(key).window as int - 1, p(key).window, 0);
    assert Hits(p, a, slot) && Hits(p, b, slot);
    assert trace[..2] == [a, x] && [a, x][..1] == [a] && [a][..0] == [];
    assert Counters(p, [a]) == map[slot := Counter(1, None)];
    assert Counters(p, [a, x]) == map[slot := Counter(1, Some(0.05 + w))];
    assert Passes(p, [], a) && Passes(p, [a, x], b);
    assert FollowsArrival(p, trace, 1) by { assert trace[0] == a; }
    TwoHits(p, a, x, b, slot);
  }

  lemma TwoHits(p: Policies, a: Event, x: Event, b: Event, slot: Slot)
    requires Hits(p, a, slot) && x.Ttl? && Hits(p, b, slot) && a.fault == b.fault == Healthy
    requires Passes(p, [], a) && Passes(p, [a, x], b)
    ensures Faulty(p, [a, x, b], slot) == 0 && Arrivals(p, [a, x, b], slot) == 2 && Admitted(p, [a, x, b], slot) == 2
  {
    var one, two, three := [a], [a, x], [a, x, b];
    assert one[..0] == [] && two[..1] == one && three[..2] == two;
    assert Admitted(p, one, slot) == 1 && Arrivals(p, one, slot) == 1 && Faulty(p, one, slot) == 0;
    assert Admitted(p, two, slot) == 1 && Arrivals(p, two, slot) == 1 && Faulty(p, two, slot) == 0;
  }

  /** A moment just before window 1 opens. */
  function Brink(window: Seconds): real {
    window as real - 0.5
  }

  lemma BrinkIsWindowZero(key: string, window: Seconds)
    ensures SlotAt(key, window, Brink(window)) == Slot(key, 0) && SlotAt(key, window, window as real) == Slot(key, 1)
    ensures Brink(window) < window as real < Brink(window) + window as real
  {
    assert Brink(window).Floor == window as int - 1;
    WindowIs(window as int - 1, window, 0);
    WindowIs(window, window, 1);
  }

  function AtOnce(key: string, at: real): Event {
    Arrive(key, at, at, Healthy)
  }

  /** n requests, the first `half` on the brink of window 1 and the rest as it opens. */
  function Straddle(key: string, window: Seconds, half: nat, n: nat): seq<Event> {
    if n == 0 then []
    else Straddle(key, window, half, n - 1) + [AtOnce(key, if n <= half then Brink(window) else window as real)]
  }

  /** What gets through in the interval of one window's length from the brink on. */
  function AdmittedInBurst(p: Policies, trace: seq<Event>, key: string): nat {
    var since := Brink(p(key).window);
    AdmittedBetween(p, trace, key, since, since + p(key).window as real)
  }

  ghost predicate OnTheBrink(p: Policies, key: string, e: Event) {
    && e.Arrive? && e.fault == Healthy && e.key == key && e.read == e.at
    && (Hits(p, e, Slot(key, 0)) || Hits(p, e, Slot(key, 1)))
    && Brink(p(key).window) <= e.at < Brink(p(key).window) + p(key).window as real
  }

  lemma {:induction false} StraddleIsTimely(p: Policies, key: string, half: nat, n: nat)
    ensures var trace := Straddle(key, p(key).window, half, n);
            && |trace| == n && Timely(p, trace)
            && (forall e :: e in trace ==>
                OnTheBrink(p, key, e) && e.at <= if n <= half then Brink(p(key).window) else p(key).window as real)
  {
    BrinkIsWindowZero(key, p(key).window);
    if n > 0 {
      StraddleIsTimely(p, key, half, n - 1);
    }
  }

  lemma {:induction false} StraddleArrivals(p: Policies, key: string, half: nat, n: nat)
    ensures var trace := Straddle(key, p(key).window, half, n);
            && Arrivals(p, trace, Slot(key, 0)) == (if n <= half then n else half)
            && Arrivals(p, trace, Slot(key, 1)) == (if n <= half then 0 else n - half)
  {
    if n > 0 {
      StraddleArrivals(p, key, half, n - 1);
      var front, e :=
          Straddle(key, p(key).window, half, n - 1),
          AtOnce(key, if n <= half then Brink(p(key).window) else p(key).window as real);
      BrinkIsWindowZero(key, p(key).window);
      ArrivalsSnoc(p, front, e, Slot(key, 0));
      ArrivalsSnoc(p, front, e, Slot(key, 1));
    }
  }

  lemma ArrivalsSnoc(p: Policies, front: seq<Event>, e: Event, slot: Slot)
    ensures Arrivals(p, front + [e], slot) == Arrivals(p, front, slot) + (if Hits(p, e, slot) then 1 else 0)
  {
    assert (front + [e])[..|front + [e]| - 1] == front;
  }

  lemma {:induction false} BrinkIsTwoWindows(p: Policies, trace: seq<Event>, key: string)
    requires forall e :: e in trace ==> OnTheBrink(p, key, e)
    ensures AdmittedInBurst(p, trace, key) == Admitted(p, trace, Slot(key, 0)) + Admitted(p, trace, Slot(key, 1))
    ensures Faulty(p, trace, Slot(key, 0)) == Faulty(p, trace, Slot(key, 1)) == 0
  {
    if trace != [] {
      BrinkIsTwoWindows(p, trace[..|trace| - 1], key);
      assert OnTheBrink(p, key, Last(trace));
    }
  }

  lemma TwoFullWindows(p: Policies, trace: seq<Event>, key: string)
    requires p(key).limit > 0 && Timely(p, trace) && forall e :: e in trace ==> OnTheBrink(p, key, e)
    requires Arrivals(p, trace, Slot(key, 0)) == Arrivals(p, trace, Slot(key, 1)) == p(key).limit
    ensures AdmittedInBurst(p, trace, key) == 2 * p(key).limit
  {
    BrinkIsTwoWindows(p, trace, key);
    BrinkIsPrompt(p, trace, key, 0);
    BrinkIsPrompt(p, trace, key, 1);
    WindowAdmits(p, trace, Slot(key, 0));
    WindowAdmits(p, trace, Slot(key, 1));
  }

  lemma BrinkIsPrompt(p: Policies, trace: seq<Event>, key: string, index: int)
    requires Timely(p, trace) && forall e :: e in trace ==> OnTheBrink(p, key, e)
    ensures NeverLate(p, trace, Slot(key, index))
  {
    forall e | e in trace && Hits(p, e, Slot(key, index)) ensures e.at < EndOf(Slot(key, index), p(key).window) {
      InsideWindow(key, p(key).window, e.at);
    }
    PromptIsNeverLate(p, trace, Slot(key, index));
  }

  /** Twice the limit is really reached, on a timely trace without any failure. */
  lemma TwiceIsReached(p: Policies, key: string, n: nat)
    requires n > 0 && p(key).limit == n
    ensures var trace := Straddle(key, p(key).window, n, 2 * n);
            && Timely(p, trace) && (forall e :: e in trace ==> OnTheBrink(p, key, e))
            && AdmittedInBurst(p, trace, key) == 2 * n
  {
    var trace := Straddle(key, p(key).window, n, 2 * n);
    StraddleIsTimely(p, key, n, 2 * n);
    assert AdmittedInBurst(p, trace, key) == 2 * n by {
      StraddleArrivals(p, key, n, 2 * n);
      TwoFullWindows(p, trace, key);
    }
  }

  // ---- One counter ---------------------------------------------------------

  /** A window is a stretch of whole window lengths from zero, and the next begins where it ends. */
  lemma SlotSpans(key: string, window: Seconds, at: real, index: int)
    ensures SlotAt(key, window, at) == Slot(key, index) <==>
              (index * window) as real <= at < ((index + 1) * window) as real
  {
    var a := at.Floor;
    WindowBounds(a, window);
    if (index * window) as real <= at < ((index + 1) * window) as real {
      WindowIs(a, window, index);
    }
  }

  /** An increment adds one to a counter that is there, and keeps its expiry; otherwise it starts
      one without an expiry. An EXPIRE makes a counter vanish one window later, not before. */
  lemma CounterEffects(counters: map<Slot, Counter>, slot: Slot, window: Seconds, at: real)
    ensures var c, after := Incremented(counters, slot, at)[slot], Incremented(counters, slot, at);
            && (slot in counters && (counters[slot].expiresAt.None? || at < counters[slot].expiresAt.value) ==>
                  c == Counter(counters[slot].count + 1, counters[slot].expiresAt))
            && (slot !in counters || (counters[slot].expiresAt.Some? && counters[slot].expiresAt.value <= at) ==>
                  c == Counter(1, None))
            && after == counters[slot := c]
    ensures slot in counters && (counters[slot].expiresAt.None? || at < counters[slot].expiresAt.value) ==>
              var after := WithTtl(counters, slot, window, at);
              && after == counters[slot := Counter(counters[slot].count, Some(at + window as real))]
              && forall x: real :: Expired(after[slot], x) <==> x >= at + window as real
  {
  }

  /** A first request, an EXPIRE, and a request after it: the counter is gone, and the count starts
      again, exactly when one window has passed since the EXPIRE. */
  lemma FreshAfterTtl(key: string, window: Seconds, at: real, ttl: real, again: real)
    requires 0.0 <= at <= ttl <= again
    ensures var slot := SlotAt(key, window, at);
            var timed := WithTtl(Incremented(map[], slot, at), slot, window, ttl);
            Incremented(timed, slot, again)[slot].count == if again < ttl + window as real then 2 else 1
  {
  }
}
