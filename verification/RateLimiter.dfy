/** The fixed-window limiter on run creation, and what it guarantees over whole request histories. */
module RateLimits {
  const WINDOW_SECONDS := 60.0

  /** The limiter as a value: when the current window began and how many requests it has seen. */
  datatype Window = Window(start: real, count: nat)

  const FIRST_WINDOW := Window(0.0, 0)

  predicate Expired(window: Window, now: real) {
    now - window.start >= WINDOW_SECONDS
  }

  function Arrive(window: Window, now: real): Window {
    if Expired(window, now) then Window(now, 1) else window.(count := window.count + 1)
  }

  /** The window after the first `n` requests of the history. */
  function After(times: seq<real>, n: nat): Window
    requires n <= |times|
  {
    if n == 0 then FIRST_WINDOW else Arrive(After(times, n - 1), times[n - 1])
  }

  /** The limiter lets request `i` of the history in. */
  predicate Admits(limit: int, times: seq<real>, i: nat)
    requires i < |times|
  {
    limit <= 0 || After(times, i + 1).count <= limit
  }

  class RateLimiter {
    const perMinute: int
    var windowStart: real
    var count: nat

    ghost function Current(): Window
      reads this
    {
      Window(windowStart, count)
    }

    constructor (perMinute: int)
      ensures this.perMinute == perMinute && Current() == FIRST_WINDOW
    {
      this.perMinute, windowStart, count := perMinute, 0.0, 0;
    }

    /** A limit of zero or less switches the limiter off; otherwise the request is counted, whether it is
        let in or not. */
    method Allow(now: real) returns (allowed: bool)
      modifies this
      ensures perMinute <= 0 ==> allowed && Current() == old(Current())
      ensures perMinute > 0 ==>
                && Current() == Arrive(old(Current()), now)
                && (allowed <==> Current().count <= perMinute)
    {
      if perMinute <= 0 {
        return true;
      }
      if now - windowStart >= 60.0 {
        windowStart := now;
        count := 0;
      }
      count := count + 1;
      return count <= perMinute;
    }

    /** Serves the requests in the order in which they take the lock. */
    method Serve(times: seq<real>) returns (allowed: seq<bool>)
      requires Current() == FIRST_WINDOW
      modifies this
      ensures |allowed| == |times|
      ensures forall i :: 0 <= i < |times| ==> (allowed[i] <==> Admits(perMinute, times, i))
    {
      allowed := [];
      for i := 0 to |times|
        invariant |allowed| == i
        invariant perMinute > 0 ==> Current() == After(times, i)
        invariant forall j :: 0 <= j < i ==> (allowed[j] <==> Admits(perMinute, times, j))
      {
        var verdict := Allow(times[i]);
        assert After(times, i + 1) == Arrive(After(times, i), times[i]);
        allowed := allowed + [verdict];
      }
    }
  }

  /******* Whole histories *******/

  predicate InOrder(times: seq<real>) {
    forall i, j :: 0 <= i < j < |times| ==> times[i] <= times[j]
  }

  function Min(x: nat, y: nat): nat {
    if x <= y then x else y
  }

  /******* Each window admits exactly its first requests *******/

  /** The number of windows begun after the first one, among the first `n` requests. */
  function WindowNumber(times: seq<real>, n: nat): nat
    requires n <= |times|
  {
    if n == 0 then 0
    else WindowNumber(times, n - 1) + if Expired(After(times, n - 1), times[n - 1]) then 1 else 0
  }

  function RequestsIn(times: seq<real>, n: nat, window: nat): nat
    requires n <= |times|
  {
    if n == 0 then 0
    else RequestsIn(times, n - 1, window) + if WindowNumber(times, n) == window then 1 else 0
  }

  function AdmittedIn(limit: int, times: seq<real>, n: nat, window: nat): nat
    requires n <= |times|
  {
    if n == 0 then 0
    else
      AdmittedIn(limit, times, n - 1, window) +
      if WindowNumber(times, n) == window && Admits(limit, times, n - 1) then 1 else 0
  }

  /** Of each window exactly the first requests up to the limit are let in, whatever the times are: never
      more than the limit, and never fewer than it when that many came. */
  lemma {:induction false} WindowAdmitsUpToLimit(limit: nat, times: seq<real>, n: nat, window: nat)
    requires 0 < limit && n <= |times|
    ensures AdmittedIn(limit, times, n, window) == Min(limit, RequestsIn(times, n, window))
    ensures window == WindowNumber(times, n) ==> RequestsIn(times, n, window) == After(times, n).count
    ensures window > WindowNumber(times, n) ==> RequestsIn(times, n, window) == 0
  {
    if n == 0 {
    } else {
      WindowAdmitsUpToLimit(limit, times, n - 1, window);
    }
  }

  /******* Any sixty seconds *******/

  predicate Within(time: real, from: real) {
    from <= time < from + WINDOW_SECONDS
  }

  /** How many of the first `n` requests are let in between `from` and sixty seconds later. */
  function AdmittedSince(limit: int, times: seq<real>, n: nat, from: real): nat
    requires n <= |times|
  {
    if n == 0 then 0
    else
      AdmittedSince(limit, times, n - 1, from) +
      if Within(times[n - 1], from) && Admits(limit, times, n - 1) then 1 else 0
  }

  /** What the requests of at most two windows can have added since `from`: all came in the window now open,
      or it began in the sixty seconds, or it began after them. */
  ghost predicate SinceIsBounded(limit: nat, times: seq<real>, n: nat, from: real)
    requires n <= |times|
  {
    var admitted, window := AdmittedSince(limit, times, n, from), After(times, n);
    && (admitted > 0 ==> n > 0 && times[n - 1] >= from)
    && (|| admitted <= Min(window.count, limit)
        || (window.start >= from && admitted <= limit + Min(window.count, limit))
        || (n > 0 && from + WINDOW_SECONDS <= window.start <= times[n - 1] && admitted <= 2 * limit))
  }

  lemma {:induction false} SinceStaysBounded(limit: nat, times: seq<real>, n: nat, from: real)
    requires 0 < limit && n <= |times| && InOrder(times)
    ensures SinceIsBounded(limit, times, n, from)
  {
    if n == 0 {
    } else {
      SinceStaysBounded(limit, times, n - 1, from);
      assert n > 1 ==> times[n - 2] <= times[n - 1];
    }
  }

  /** No sixty seconds see more than twice the limit let in. */
  lemma AtMostTwiceTheLimit(limit: nat, times: seq<real>, from: real)
    requires 0 < limit && InOrder(times)
    ensures AdmittedSince(limit, times, |times|, from) <= 2 * limit
  {
    SinceStaysBounded(limit, times, |times|, from);
  }

  /** A full load just before the window ends and another as the next one begins. */
  function Burst(limit: nat): (times: seq<real>)
    ensures InOrder(times)
  {
    seq(2 * limit, i => if i < limit then 59.0 else 60.0)
  }

  lemma {:induction false} BurstIsAdmitted(limit: nat, n: nat)
    requires 0 < limit && n <= 2 * limit
    ensures After(Burst(limit), n) == if n <= limit then Window(0.0, n) else Window(60.0, n - limit)
    ensures AdmittedSince(limit, Burst(limit), n, 59.0) == n
  {
    if n == 0 {
    } else {
      BurstIsAdmitted(limit, n - 1);
    }
  }

  /** The bound of twice the limit is reached, for every limit: the limiter does not promise the limit itself
      over arbitrary sixty seconds. */
  lemma TwiceTheLimitIsReached(limit: nat)
    requires 0 < limit
    ensures exists times, from :: InOrder(times) && AdmittedSince(limit, times, |times|, from) == 2 * limit
  {
    BurstIsAdmitted(limit, 2 * limit);
    assert InOrder(Burst(limit)) && AdmittedSince(limit, Burst(limit), |Burst(limit)|, 59.0) == 2 * limit;
  }
}
