/**
 * The retry/backoff loop of the nested `_fetch` coroutine of `Tools.scrape`.
 *
 * `Run` is the specification: the result, the events and the sleeps of a
 * fetch, as a function of the url, the `retries` valve and the replies the
 * network gives. `RetryLoop` is the loop itself, proved equal to `Run`.
 * The lemmas characterise `Run` independently: which attempts are made,
 * which event sits at each position of the trace, and the waits between
 * attempts.
 */
module Fetcher {
  import opened ScraperTypes

  /** `backoff_base = 0.5` seconds, in milliseconds. */
  const BackoffBaseMs: nat := 500

  function Pow2(k: nat): (p: nat)
    ensures p >= 1
  {
    if k == 0 then 1 else 2 * Pow2(k - 1)
  }

  /** The sleep after failed attempt `attempt`: `backoff_base * 2 ** (attempt - 1)`. */
  function BackoffMs(attempt: nat): (w: nat)
    requires attempt >= 1
    ensures w >= BackoffBaseMs
  {
    BackoffBaseMs * Pow2(attempt - 1)
  }

  /** `max(0, int(retries))`: the number of attempts the loop allows. */
  function Attempts(retries: int): (n: nat)
    ensures retries <= 0 ==> n == 0
    ensures retries > 0 ==> n == retries
  {
    if retries < 0 then 0 else retries
  }

  /** What one call of `_fetch` produces: its result, the events it emits and the waits it sleeps. */
  datatype FetchRun = FetchRun(result: Result<string, FetchError>, events: seq<Event>, waits: seq<nat>)

  /**
   * The loop from attempt `a` on, out of `n` allowed, where `last` is the
   * exception of the attempt before `a` (None before the first).
   */
  function RunFrom(url: string, n: nat, a: nat, net: Network, last: Option<Cause>): FetchRun
    requires 1 <= a <= n + 1
    decreases n + 1 - a
  {
    if a > n then
      FetchRun(Failure(FetchError(url, last)), [], [])
    else if Succeeds(net(a)) then
      FetchRun(Success(net(a).text), [FetchAttempt(a, url), Fetched(net(a).status, url)], [])
    else
      var c := CauseOf(net(a));
      var rest := RunFrom(url, n, a + 1, net, Some(c));
      if a < n then
        FetchRun(rest.result, [FetchAttempt(a, url), FetchRetry(a, BackoffMs(a), c)] + rest.events,
                 [BackoffMs(a)] + rest.waits)
      else
        FetchRun(rest.result, [FetchAttempt(a, url), FetchFailed(a, c)] + rest.events, rest.waits)
  }

  /** A whole call of `_fetch` with the `retries` valve. */
  function Run(url: string, retries: int, net: Network): FetchRun
  {
    RunFrom(url, Attempts(retries), 1, net, None)
  }

  /** Attempt `k` is the first of the `n` allowed attempts that succeeds. */
  ghost predicate FirstSuccess(net: Network, n: nat, k: nat)
  {
    1 <= k <= n && Succeeds(net(k)) && forall j :: 1 <= j < k ==> !Succeeds(net(j))
  }

  /** None of the `n` allowed attempts succeeds. */
  ghost predicate AllFail(net: Network, n: nat)
  {
    forall j :: 1 <= j <= n ==> !Succeeds(net(j))
  }

  /**
   * The event at position `i` of a trace: the even positions announce
   * attempt i/2 + 1, the odd ones report how that attempt ended.
   */
  function ExpectedEvent(url: string, n: nat, net: Network, i: nat): Event
  {
    if i % 2 == 0 then FetchAttempt(i / 2 + 1, url) else Outcome(url, n, net, i / 2 + 1)
  }

  /** The event that reports how attempt `j` ended. */
  function Outcome(url: string, n: nat, net: Network, j: nat): Event
    requires j >= 1
  {
    if Succeeds(net(j)) then Fetched(net(j).status, url)
    else if j < n then FetchRetry(j, BackoffMs(j), CauseOf(net(j)))
    else FetchFailed(j, CauseOf(net(j)))
  }

  /** Positions 2(a-1) and 2(a-1)+1 of a trace belong to attempt a. */
  lemma ExpectedPair(url: string, n: nat, net: Network, a: nat)
    requires a >= 1
    ensures ExpectedEvent(url, n, net, 2 * (a - 1)) == FetchAttempt(a, url)
    ensures ExpectedEvent(url, n, net, 2 * (a - 1) + 1) == Outcome(url, n, net, a)
  {
    assert (2 * (a - 1)) % 2 == 0 && (2 * (a - 1)) / 2 == a - 1;
    assert (2 * (a - 1) + 1) % 2 == 1 && (2 * (a - 1) + 1) / 2 == a - 1;
  }

  /** Every allowed attempt either is the first success or all of them fail. */
  lemma {:induction false} FirstSuccessOrAllFail(net: Network, n: nat) returns (k: nat)
    ensures k == 0 ==> AllFail(net, n)
    ensures k != 0 ==> FirstSuccess(net, n, k)
  {
    if n == 0 {
      k := 0;
    } else {
      k := FirstSuccessOrAllFail(net, n - 1);
      if k == 0 && Succeeds(net(n)) {
        k := n;
      }
    }
  }

  /** The events `e` are the expected ones for attempts a, a + 1, ... */
  ghost predicate EventsFrom(url: string, n: nat, net: Network, e: seq<Event>, a: nat)
    requires a >= 1
  {
    forall i :: 0 <= i < |e| ==> e[i] == ExpectedEvent(url, n, net, i + 2 * (a - 1))
  }

  /** The waits `w` are the backoffs after attempts a, a + 1, ... */
  ghost predicate WaitsFrom(w: seq<nat>, a: nat)
    requires a >= 1
  {
    forall i :: 0 <= i < |w| ==> w[i] == BackoffMs(i + a)
  }

  /** Prepending attempt a's two events to a trace that matches from attempt a + 1 on. */
  lemma ShiftedTrace(url: string, n: nat, net: Network, a: nat, events: seq<Event>, rest: seq<Event>)
    requires a >= 1
    requires events == [FetchAttempt(a, url), Outcome(url, n, net, a)] + rest
    requires EventsFrom(url, n, net, rest, a + 1)
    ensures EventsFrom(url, n, net, events, a)
  {
    ExpectedPair(url, n, net, a);
    forall i | 0 <= i < |events|
      ensures events[i] == ExpectedEvent(url, n, net, i + 2 * (a - 1))
    {
      if i >= 2 {
        assert events[i] == rest[i - 2];
        assert (i - 2) + 2 * a == i + 2 * (a - 1);
      }
    }
  }

  /** Prepending attempt a's backoff to the waits from attempt a + 1 on. */
  lemma ShiftedWaits(a: nat, waits: seq<nat>, rest: seq<nat>)
    requires a >= 1
    requires waits == [BackoffMs(a)] + rest
    requires WaitsFrom(rest, a + 1)
    ensures WaitsFrom(waits, a)
  {
    forall i | 0 <= i < |waits|
      ensures waits[i] == BackoffMs(i + a)
    {
      if i >= 1 {
        assert waits[i] == rest[i - 1];
      }
    }
  }

  /** A failed attempt `a` contributes its two events and, unless it is the last allowed, one sleep. */
  lemma RunFromStep(url: string, n: nat, a: nat, net: Network, last: Option<Cause>)
    requires 1 <= a <= n && !Succeeds(net(a))
    ensures var rest := RunFrom(url, n, a + 1, net, Some(CauseOf(net(a))));
      RunFrom(url, n, a, net, last)
        == FetchRun(rest.result, [FetchAttempt(a, url), Outcome(url, n, net, a)] + rest.events,
                    (if a < n then [BackoffMs(a)] else []) + rest.waits)
  {
  }

  /** A succeeding attempt `a` contributes its two events and ends the fetch with its text. */
  lemma RunFromHit(url: string, n: nat, a: nat, net: Network, last: Option<Cause>)
    requires 1 <= a <= n && Succeeds(net(a))
    ensures RunFrom(url, n, a, net, last)
         == FetchRun(Success(net(a).text), [FetchAttempt(a, url), Outcome(url, n, net, a)], [])
  {
  }

  lemma {:induction false} RunFromSucceeds(url: string, n: nat, a: nat, net: Network, last: Option<Cause>, k: nat)
    requires 1 <= a <= k <= n && Succeeds(net(k))
    requires forall j :: a <= j < k ==> !Succeeds(net(j))
    ensures var r := RunFrom(url, n, a, net, last);
      && r.result == Success(net(k).text)
      && |r.events| == 2 * (k - a + 1)
      && EventsFrom(url, n, net, r.events, a)
      && |r.waits| == k - a
      && WaitsFrom(r.waits, a)
    decreases k - a
  {
    if a < k {
      var c := CauseOf(net(a));
      var rest := RunFrom(url, n, a + 1, net, Some(c));
      RunFromSucceeds(url, n, a + 1, net, Some(c), k);
      RunFromStep(url, n, a, net, last);
      ShiftedTrace(url, n, net, a, [FetchAttempt(a, url), Outcome(url, n, net, a)] + rest.events, rest.events);
      ShiftedWaits(a, [BackoffMs(a)] + rest.waits, rest.waits);
    } else {
      RunFromHit(url, n, a, net, last);
      ShiftedTrace(url, n, net, a, [FetchAttempt(a, url), Outcome(url, n, net, a)], []);
    }
  }

  lemma {:induction false} RunFromExhausted(url: string, n: nat, a: nat, net: Network, last: Option<Cause>)
    requires 1 <= a <= n + 1
    requires forall j :: a <= j <= n ==> !Succeeds(net(j))
    ensures var r := RunFrom(url, n, a, net, last);
      && r.result == Failure(FetchError(url, if a <= n then Some(CauseOf(net(n))) else last))
      && |r.events| == 2 * (n + 1 - a)
      && EventsFrom(url, n, net, r.events, a)
      && |r.waits| == (if a <= n then n - a else 0)
      && WaitsFrom(r.waits, a)
    decreases n + 1 - a
  {
    if a <= n {
      var c := CauseOf(net(a));
      var rest := RunFrom(url, n, a + 1, net, Some(c));
      RunFromExhausted(url, n, a + 1, net, Some(c));
      RunFromStep(url, n, a, net, last);
      ShiftedTrace(url, n, net, a, [FetchAttempt(a, url), Outcome(url, n, net, a)] + rest.events, rest.events);
      if a < n {
        ShiftedWaits(a, [BackoffMs(a)] + rest.waits, rest.waits);
      }
    }
  }

  /**
   * A fetch stops at the first attempt that succeeds and returns exactly
   * that attempt's text; it has made k attempts, emitted two events per
   * attempt and slept k - 1 times, the waits doubling from 500 ms.
   */
  lemma StopsAtFirstSuccess(url: string, retries: int, net: Network, k: nat)
    requires FirstSuccess(net, Attempts(retries), k)
    ensures var r := Run(url, retries, net);
      && r.result == Success(net(k).text)
      && |r.events| == 2 * k
      && (forall i :: 0 <= i < |r.events| ==> r.events[i] == ExpectedEvent(url, Attempts(retries), net, i))
      && |r.waits| == k - 1
      && (forall i :: 0 <= i < |r.waits| ==> r.waits[i] == BackoffMs(i + 1))
  {
    RunFromSucceeds(url, Attempts(retries), 1, net, None, k);
  }

  /**
   * When every allowed attempt fails, the fetch raises with the last
   * attempt's exception (none at all when `retries <= 0`, and then no GET
   * is made), after max(0, retries) attempts and one sleep fewer.
   */
  lemma Exhausted(url: string, retries: int, net: Network)
    requires AllFail(net, Attempts(retries))
    ensures var n := Attempts(retries);
      var r := Run(url, retries, net);
      && r.result == Failure(FetchError(url, if n == 0 then None else Some(CauseOf(net(n)))))
      && |r.events| == 2 * n
      && (forall i :: 0 <= i < |r.events| ==> r.events[i] == ExpectedEvent(url, n, net, i))
      && |r.waits| == (if n == 0 then 0 else n - 1)
      && (forall i :: 0 <= i < |r.waits| ==> r.waits[i] == BackoffMs(i + 1))
  {
    RunFromExhausted(url, Attempts(retries), 1, net, None);
  }

  /**
   * `e` is the trace of `m` attempts out of `n`, all but possibly the last
   * failing, the last either succeeding or being attempt `n`.
   */
  ghost predicate Traced(url: string, n: nat, net: Network, e: seq<Event>, m: nat)
  {
    && m <= n
    && |e| == 2 * m
    && (forall j :: 1 <= j < m ==> !Succeeds(net(j)))
    && (m > 0 && !Succeeds(net(m)) ==> m == n)
    && (forall i :: 0 <= i < |e| ==> e[i] == ExpectedEvent(url, n, net, i))
  }

  /** The event kinds of a trace, position by position. */
  lemma TracedKinds(url: string, n: nat, net: Network, e: seq<Event>, m: nat, i: nat)
    requires Traced(url, n, net, e, m) && i < |e|
    ensures e[i].FetchAttempt? <==> i % 2 == 0
    ensures i % 2 == 0 ==> e[i] == FetchAttempt(i / 2 + 1, url)
    ensures e[i].Fetched? <==> i == |e| - 1 && Succeeds(net(m))
    ensures e[i].FetchFailed? <==> i == |e| - 1 && !Succeeds(net(m))
    ensures e[i].FetchRetry? <==> i % 2 == 1 && i < |e| - 1
  {
    var j := i / 2 + 1;
    assert 1 <= j <= m;
    assert i % 2 == 1 ==> (j == m <==> i == |e| - 1);
  }

  /** The trace of every run is `Traced`, its length counting the attempts made. */
  lemma RunIsTraced(url: string, retries: int, net: Network) returns (m: nat)
    ensures var r := Run(url, retries, net);
      && Traced(url, Attempts(retries), net, r.events, m)
      && (r.result.Success? <==> m > 0 && Succeeds(net(m)))
      && (r.result.Success? ==> r.result.value == net(m).text)
      && (r.result.Failure? <==> AllFail(net, Attempts(retries)))
      && |r.waits| == (if m == 0 then 0 else m - 1)
      && (forall i :: 0 <= i < |r.waits| ==> r.waits[i] == BackoffMs(i + 1))
  {
    var n := Attempts(retries);
    var k := FirstSuccessOrAllFail(net, n);
    if k == 0 {
      Exhausted(url, retries, net);
      m := n;
    } else {
      StopsAtFirstSuccess(url, retries, net, k);
      m := k;
    }
  }

  /**
   * Counting the events of a fetch: each attempt made (at most
   * max(0, retries) of them) is announced once with its 1-based number;
   * `fetched` is emitted exactly once, as the last event, iff the fetch
   * succeeds; `fetch_failed` exactly once, as the last event, iff it fails
   * after at least one attempt; every other attempt is followed by one
   * `fetch_retry` whose wait is the next sleep. With no attempt allowed
   * there is no event and no sleep, and the fetch fails with no cause. A
   * successful fetch returns the text of the attempt announced last.
   */
  lemma EventsOfRun(url: string, retries: int, net: Network)
    ensures var r := Run(url, retries, net);
      var e := r.events;
      && |e| % 2 == 0
      && |e| <= 2 * Attempts(retries)
      && (forall i :: 0 <= i < |e| ==> (e[i].FetchAttempt? <==> i % 2 == 0))
      && (forall i :: 0 <= i < |e| && i % 2 == 0 ==> e[i] == FetchAttempt(i / 2 + 1, url))
      && (forall i :: 0 <= i < |e| ==> (e[i].Fetched? <==> r.result.Success? && i == |e| - 1))
      && (forall i :: 0 <= i < |e| ==> (e[i].FetchFailed? <==> r.result.Failure? && i == |e| - 1))
      && (forall i :: 0 <= i < |e| ==> (e[i].FetchRetry? <==> i % 2 == 1 && i < |e| - 1))
      && (r.result.Failure? <==> AllFail(net, Attempts(retries)))
      && (r.result.Success? ==> |e| >= 2 && Succeeds(net(|e| / 2)) && r.result.value == net(|e| / 2).text)
      && (e == [] <==> Attempts(retries) == 0)
      && (e == [] ==> r.result == Failure(FetchError(url, None)) && r.waits == [])
      && (|r.waits| == if e == [] then 0 else |e| / 2 - 1)
      && (forall i :: 0 <= i < |r.waits| ==> e[2 * i + 1].FetchRetry? && e[2 * i + 1].attempt == i + 1 && e[2 * i + 1].waitMs == r.waits[i])
  {
    var n := Attempts(retries);
    var r := Run(url, retries, net);
    var e := r.events;
    var m := RunIsTraced(url, retries, net);
    assert n > 0 ==> |e| >= 2;
    forall i | 0 <= i < |e|
      ensures e[i].FetchAttempt? <==> i % 2 == 0
      ensures i % 2 == 0 ==> e[i] == FetchAttempt(i / 2 + 1, url)
      ensures e[i].Fetched? <==> r.result.Success? && i == |e| - 1
      ensures e[i].FetchFailed? <==> r.result.Failure? && i == |e| - 1
      ensures e[i].FetchRetry? <==> i % 2 == 1 && i < |e| - 1
    {
      TracedKinds(url, n, net, e, m, i);
    }
    forall i | 0 <= i < |r.waits|
      ensures e[2 * i + 1].FetchRetry? && e[2 * i + 1].attempt == i + 1
      ensures e[2 * i + 1].waitMs == r.waits[i]
    {
      ExpectedPair(url, n, net, i + 1);
    }
  }

  /** Each wait doubles the previous one. */
  lemma {:induction false} WaitsDouble(url: string, retries: int, net: Network)
    ensures var w := Run(url, retries, net).waits;
      |w| > 0 ==> w[0] == BackoffBaseMs
    ensures var w := Run(url, retries, net).waits;
      forall i :: 1 <= i < |w| ==> w[i] == 2 * w[i - 1]
  {
    var n := Attempts(retries);
    var k := FirstSuccessOrAllFail(net, n);
    if k == 0 {
      Exhausted(url, retries, net);
    } else {
      StopsAtFirstSuccess(url, retries, net, k);
    }
  }

  /**
   * The loop of `_fetch`. `events` is what the emitter receives (nothing
   * when there is none), `waits` the sleeps, in milliseconds.
   */
  method RetryLoop(url: string, retries: int, hasEmitter: bool, net: Network)
    returns (r: Result<string, FetchError>, events: seq<Event>, waits: seq<nat>)
    ensures r == Run(url, retries, net).result
    ensures events == Delivered(hasEmitter, Run(url, retries, net).events)
    ensures waits == Run(url, retries, net).waits
  {
    var n := if retries < 0 then 0 else retries;
    var last: Option<Cause> := None;
    ghost var trace: seq<Event> := [];
    ghost var total := Run(url, retries, net);
    events, waits := [], [];
    var attempt := 1;
    while attempt <= n
      invariant 1 <= attempt <= n + 1
      invariant attempt == 1 ==> last == None
      invariant events == Delivered(hasEmitter, trace)
      invariant total == Resume(trace, waits, RunFrom(url, n, attempt, net, last))
    {
      ghost var before := trace;
      events := Emit(hasEmitter, events, trace, FetchAttempt(attempt, url));
      trace := trace + [FetchAttempt(attempt, url)];
      var reply := net(attempt);
      if reply.Response? && reply.status < 400 {
        events := Emit(hasEmitter, events, trace, Fetched(reply.status, url));
        trace := trace + [Fetched(reply.status, url)];
        ResumeAtSuccess(url, n, attempt, net, last, before, waits);
        assert trace == before + [FetchAttempt(attempt, url), Fetched(reply.status, url)];
        r := Success(reply.text);
        return;
      }
      var e := CauseOf(reply);
      ResumeAfterFailure(url, n, attempt, net, last, before, waits);
      if attempt < n {
        var wait := BackoffMs(attempt);
        events := Emit(hasEmitter, events, trace, FetchRetry(attempt, wait, e));
        trace := trace + [FetchRetry(attempt, wait, e)];
        waits := waits + [wait];
      } else {
        events := Emit(hasEmitter, events, trace, FetchFailed(attempt, e));
        trace := trace + [FetchFailed(attempt, e)];
      }
      assert trace == before + [FetchAttempt(attempt, url), Outcome(url, n, net, attempt)];
      last := Some(e);
      attempt := attempt + 1;
    }
    r := Failure(FetchError(url, last));
  }

  /** The run whose first events and waits have already happened. */
  function Resume(trace: seq<Event>, waits: seq<nat>, rest: FetchRun): FetchRun
  {
    FetchRun(rest.result, trace + rest.events, waits + rest.waits)
  }

  /** A successful attempt ends the run with its text. */
  lemma ResumeAtSuccess(url: string, n: nat, a: nat, net: Network, last: Option<Cause>,
                        trace: seq<Event>, waits: seq<nat>)
    requires 1 <= a <= n && Succeeds(net(a))
    ensures Resume(trace, waits, RunFrom(url, n, a, net, last))
         == FetchRun(Success(net(a).text), trace + [FetchAttempt(a, url), Fetched(net(a).status, url)], waits)
  {
  }

  /** A failed attempt adds its two events (and its sleep, unless it was the last) and moves on. */
  lemma ResumeAfterFailure(url: string, n: nat, a: nat, net: Network, last: Option<Cause>,
                           trace: seq<Event>, waits: seq<nat>)
    requires 1 <= a <= n && !Succeeds(net(a))
    ensures Resume(trace, waits, RunFrom(url, n, a, net, last))
         == Resume(trace + [FetchAttempt(a, url), Outcome(url, n, net, a)],
                   waits + (if a < n then [BackoffMs(a)] else []),
                   RunFrom(url, n, a + 1, net, Some(CauseOf(net(a)))))
  {
    var rest := RunFrom(url, n, a + 1, net, Some(CauseOf(net(a))));
    var step := [FetchAttempt(a, url), Outcome(url, n, net, a)];
    var w := if a < n then [BackoffMs(a)] else [];
    RunFromStep(url, n, a, net, last);
    assert (trace + step) + rest.events == trace + (step + rest.events);
    assert (waits + w) + rest.waits == waits + (w + rest.waits);
  }
}
