/** The limiter in front of webhook deliveries: per URL, a list of the times at which
    requests were let through. */
module RateLimiter {

  const WINDOW_MS: nat := 1000

  type Windows = map<string, seq<int>>

  function Times(windows: Windows, url: string): seq<int> {
    if url in windows then windows[url] else []
  }

  /** The times that still lie in the window. */
  function Recent(times: seq<int>, now: int): seq<int> {
    if times == [] then []
    else Recent(times[..|times| - 1], now)
         + if now - times[|times| - 1] < WINDOW_MS then [times[|times| - 1]] else []
  }

  /** A request to a URL at a time. */
  datatype Request = Request(url: string, at: int)

  predicate Allowed(windows: Windows, max: nat, r: Request) {
    |Recent(Times(windows, r.url), r.at)| < max
  }

  function Next(windows: Windows, max: nat, r: Request): Windows {
    if Allowed(windows, max, r) then windows[r.url := Recent(Times(windows, r.url), r.at) + [r.at]] else windows
  }

  function Run(max: nat, requests: seq<Request>): Windows {
    if requests == [] then map[] else Next(Run(max, requests[..|requests| - 1]), max, requests[|requests| - 1])
  }

  /** The answer to the request at this place of the run. */
  predicate AllowedAt(max: nat, requests: seq<Request>, i: nat)
    requires i < |requests|
  {
    Allowed(Run(max, requests[..i]), max, requests[i])
  }
}

/** The window bound over every run with a clock that does not go back. */
module RateLimiterRuns {
  import opened RateLimiter

  predicate ClockForward(requests: seq<Request>) {
    forall i, j :: 0 <= i < j < |requests| ==> requests[i].at <= requests[j].at
  }

  /** How many requests to the URL were let through at times from `low` up to but not
      including `high`, counted over the whole run. */
  function AcceptedIn(max: nat, requests: seq<Request>, url: string, low: int, high: int): nat {
    if requests == [] then 0
    else
      var r := requests[|requests| - 1];
      AcceptedIn(max, requests[..|requests| - 1], url, low, high)
      + if r.url == url && low <= r.at < high && Allowed(Run(max, requests[..|requests| - 1]), max, r) then 1 else 0
  }

  /** The number of a list's times from `low` on. */
  function CountFrom(times: seq<int>, low: int): nat {
    if times == [] then 0
    else CountFrom(times[..|times| - 1], low) + if times[|times| - 1] >= low then 1 else 0
  }

  lemma {:induction false} RecentIsCount(times: seq<int>, now: int, low: int)
    requires low >= now - WINDOW_MS + 1
    ensures CountFrom(Recent(times, now), low) == CountFrom(times, low)
    ensures low == now - WINDOW_MS + 1 ==> |Recent(times, now)| == CountFrom(times, low)
  {
    if times != [] {
      RecentIsCount(times[..|times| - 1], now, low);
      var kept, last := Recent(times[..|times| - 1], now), times[|times| - 1];
      if now - last < WINDOW_MS {
        assert Recent(times, now) == kept + [last] && (kept + [last])[..|kept|] == kept;
      } else {
        assert Recent(times, now) == kept;
      }
    }
  }

  /** What is kept for a URL counts, for every window that can still matter, exactly the
      requests that were let through. */
  ghost predicate Tracks(max: nat, requests: seq<Request>, now: int) {
    forall url, low, high :: low >= now - WINDOW_MS + 1 && high > now
                             ==> CountFrom(Times(Run(max, requests), url), low)
                                 == AcceptedIn(max, requests, url, low, high)
  }

  lemma {:induction false} RunTracks(max: nat, requests: seq<Request>, now: int)
    requires ClockForward(requests)
    requires forall i :: 0 <= i < |requests| ==> requests[i].at <= now
    ensures Tracks(max, requests, now)
  {
    hide Recent;
    if requests != [] {
      var prior, r := requests[..|requests| - 1], requests[|requests| - 1];
      RunTracks(max, prior, r.at);
      forall url, low, high | low >= now - WINDOW_MS + 1 && high > now
        ensures CountFrom(Times(Run(max, requests), url), low) == AcceptedIn(max, requests, url, low, high)
      {
        var times := Times(Run(max, prior), url);
        assert CountFrom(times, low) == AcceptedIn(max, prior, url, low, high);
        if url == r.url {
          RecentIsCount(times, r.at, low);
          var kept := Recent(times, r.at);
          assert (kept + [r.at])[..|kept|] == kept;
        }
      }
    }
  }

  /** A request is refused exactly when the URL has had its maximum in the 1000 ms that
      end with the request, the earlier end excluded. */
  lemma RefusedIff(max: nat, requests: seq<Request>, i: nat)
    requires ClockForward(requests) && i < |requests|
    ensures var r := requests[i];
      !AllowedAt(max, requests, i)
      <==> AcceptedIn(max, requests[..i], r.url, r.at - WINDOW_MS + 1, r.at + 1) >= max
  {
    hide Recent, AcceptedIn, Run;
    var r := requests[i];
    RunTracks(max, requests[..i], r.at);
    RecentIsCount(Times(Run(max, requests[..i]), r.url), r.at, r.at - WINDOW_MS + 1);
  }

  lemma {:induction false} NarrowerCountsLess(max: nat, requests: seq<Request>, url: string, low: int, low': int,
                                              high: int, high': int)
    requires low' <= low && high <= high'
    ensures AcceptedIn(max, requests, url, low, high) <= AcceptedIn(max, requests, url, low', high')
  {
    hide Allowed, Run;
    if requests != [] {
      NarrowerCountsLess(max, requests[..|requests| - 1], url, low, low', high, high');
    }
  }

  /** In every run, for every URL, any half-open window of 1000 ms holds at most the
      maximum of accepted requests. */
  lemma {:induction false} WindowIsBounded(max: nat, requests: seq<Request>, url: string, start: int)
    requires ClockForward(requests)
    ensures AcceptedIn(max, requests, url, start, start + WINDOW_MS) <= max
  {
    hide Allowed, Run;
    if requests != [] {
      var prior, r := requests[..|requests| - 1], requests[|requests| - 1];
      WindowIsBounded(max, prior, url, start);
      if r.url == url && start <= r.at < start + WINDOW_MS && Allowed(Run(max, prior), max, r) {
        RefusedIff(max, requests, |prior|);
        AllInThePast(max, prior, url, start, start + WINDOW_MS, r.at + 1);
        NarrowerCountsLess(max, prior, url, start, r.at - WINDOW_MS + 1, r.at + 1, r.at + 1);
      }
    }
  }

  /** Nothing was accepted later than the last request. */
  lemma {:induction false} AllInThePast(max: nat, requests: seq<Request>, url: string, low: int, high: int, next: int)
    requires next <= high && forall i :: 0 <= i < |requests| ==> requests[i].at < next
    ensures AcceptedIn(max, requests, url, low, high) == AcceptedIn(max, requests, url, low, next)
  {
    hide Allowed, Run;
    if requests != [] {
      AllInThePast(max, requests[..|requests| - 1], url, low, high, next);
    }
  }

  /** One more request, as a step on what is kept for its URL. */
  lemma OneMore(max: nat, requests: seq<Request>, r: Request, low: int, high: int)
    ensures var recent := Recent(Times(Run(max, requests), r.url), r.at);
      && Times(Run(max, requests + [r]), r.url)
         == (if |recent| < max then recent + [r.at] else Times(Run(max, requests), r.url))
      && AcceptedIn(max, requests + [r], r.url, low, high)
         == AcceptedIn(max, requests, r.url, low, high) + if low <= r.at < high && |recent| < max then 1 else 0
  {
    assert (requests + [r])[..|requests|] == requests;
  }

  lemma RecentOneMore(times: seq<int>, last: int, now: int)
    ensures Recent(times + [last], now) == Recent(times, now) + if now - last < WINDOW_MS then [last] else []
    ensures Recent([], now) == []
  {
    assert (times + [last])[..|times|] == times;
  }

  lemma NothingYet(max: nat, url: string, low: int, high: int)
    ensures Times(Run(max, []), url) == [] && AcceptedIn(max, [], url, low, high) == 0
  {
  }

  // ---- Clocks that go back ----

  /** No request comes with a time more than `drift` before that of an earlier one. */
  predicate ClockWithin(requests: seq<Request>, drift: nat) {
    forall i, j :: 0 <= i < j < |requests| ==> requests[i].at - requests[j].at <= drift
  }

  /** How many requests to the URL were let through in the half-open window from `start`. */
  function InWindow(max: nat, requests: seq<Request>, url: string, start: int): nat {
    AcceptedIn(max, requests, url, start, start + WINDOW_MS)
  }

  /** The bound that the limiter is for, over all runs with such a clock. */
  ghost predicate BoundHolds(max: nat, drift: nat) {
    forall requests, url, start ::
      ClockWithin(requests, drift) ==> InWindow(max, requests, url, start) <= max
  }

  lemma {:induction false} NoSlot(requests: seq<Request>, url: string, low: int, high: int)
    ensures AcceptedIn(0, requests, url, low, high) == 0
  {
    hide Recent, Run;
    if requests != [] {
      NoSlot(requests[..|requests| - 1], url, low, high);
    }
  }

  /** With one slot the times let through lie at least a window apart, whatever the clock
      does: what is kept is the latest of them, and nothing was let through after it. */
  lemma {:induction false} OneSlot(requests: seq<Request>, url: string, low: int, high: int)
    requires high <= low + WINDOW_MS
    ensures var times := Times(Run(1, requests), url);
      && |times| <= 1
      && (times == [] || times[0] < low ==> AcceptedIn(1, requests, url, low, high) == 0)
      && AcceptedIn(1, requests, url, low, high) <= 1
  {
    hide Run, AcceptedIn, Times, Recent;
    if requests == [] {
      NothingYet(1, url, low, high);
    } else {
      var prior, r := requests[..|requests| - 1], requests[|requests| - 1];
      assert prior + [r] == requests;
      OneSlot(prior, url, low, high);
      if r.url == url {
        OneMore(1, prior, r, low, high);
        RecentOfAtMostOne(Times(Run(1, prior), url), r.at);
      } else {
        OtherUrl(1, prior, r, url, low, high);
      }
    }
  }

  lemma RecentOfAtMostOne(times: seq<int>, now: int)
    requires |times| <= 1
    ensures Recent(times, now) == if times != [] && now - times[0] < WINDOW_MS then times else []
  {
    if times != [] {
      assert times[..0] == [];
      assert [] + [times[0]] == times;
    }
  }

  /** A request leaves other URLs alone. */
  lemma OtherUrl(max: nat, requests: seq<Request>, r: Request, url: string, low: int, high: int)
    requires r.url != url
    ensures Times(Run(max, requests + [r]), url) == Times(Run(max, requests), url)
    ensures AcceptedIn(max, requests + [r], url, low, high) == AcceptedIn(max, requests, url, low, high)
  {
    assert (requests + [r])[..|requests|] == requests;
  }

  function Copies<T>(x: T, n: nat): (s: seq<T>)
    ensures |s| == n && forall i :: 0 <= i < n ==> s[i] == x
  {
    if n == 0 then [] else Copies(x, n - 1) + [x]
  }

  lemma {:induction false} RecentCopies(at: int, n: nat, now: int)
    ensures Recent(Copies(at, n), now) == if now - at < WINDOW_MS then Copies(at, n) else []
  {
    hide Recent;
    RecentOneMore([], at, now);
    if n > 0 {
      RecentCopies(at, n - 1, now);
      RecentOneMore(Copies(at, n - 1), at, now);
    }
  }

  /** The first `max` requests at one time are all let through. */
  lemma {:induction false} Burst(max: nat, url: string, n: nat)
    requires n <= max
    ensures Times(Run(max, Copies(Request(url, 0), n)), url) == Copies(0, n)
    ensures AcceptedIn(max, Copies(Request(url, 0), n), url, 0, WINDOW_MS) == n
  {
    hide Run, AcceptedIn, Times, Recent;
    if n == 0 {
      NothingYet(max, url, 0, WINDOW_MS);
    } else {
      Burst(max, url, n - 1);
      OneMore(max, Copies(Request(url, 0), n - 1), Request(url, 0), 0, WINDOW_MS);
      RecentCopies(0, n - 1, 0);
    }
  }

  /** One millisecond back is enough: the maximum at 0, one request at 1000, one at 999. */
  function SetBack(max: nat, url: string): seq<Request> {
    Copies(Request(url, 0), max) + [Request(url, 1000)] + [Request(url, 999)]
  }

  lemma OneMillisecondBreaksTheBound(max: nat, url: string)
    requires max >= 2
    ensures ClockWithin(SetBack(max, url), 1)
    ensures AcceptedIn(max, SetBack(max, url), url, 0, WINDOW_MS) == max + 1
  {
    hide Run, AcceptedIn, Times, Recent;
    var burst := Copies(Request(url, 0), max);
    Burst(max, url, max);
    RecentCopies(0, max, 1000);
    OneMore(max, burst, Request(url, 1000), 0, WINDOW_MS);
    OneMore(max, burst + [Request(url, 1000)], Request(url, 999), 0, WINDOW_MS);
    RecentOfAtMostOne([1000], 999);
    assert [] + [1000] == [1000];
  }

  /** For every maximum and drift: the window bound holds in all runs whose clock goes back
      by at most the drift exactly when the clock does not go back at all or the maximum is
      at most one. */
  lemma BoundHoldsIff(max: nat, drift: nat)
    ensures BoundHolds(max, drift) <==> drift == 0 || max <= 1
  {
    hide AcceptedIn, Run;
    if drift == 0 || max <= 1 {
      forall requests, url, start | ClockWithin(requests, drift)
        ensures InWindow(max, requests, url, start) <= max
      {
        if drift == 0 {
          assert ClockForward(requests);
          WindowIsBounded(max, requests, url, start);
        } else if max == 0 {
          NoSlot(requests, url, start, start + WINDOW_MS);
        } else {
          OneSlot(requests, url, start, start + WINDOW_MS);
        }
      }
    } else {
      var url := "";
      OneMillisecondBreaksTheBound(max, url);
      assert ClockWithin(SetBack(max, url), drift);
      assert InWindow(max, SetBack(max, url), url, 0) > max;
    }
  }
}

/** The limiter as the processor holds it. */
module WebhookDispatch {
  import opened RateLimiter
  import opened RateLimiterRuns

  class UrlRateLimiter {
    var windows: Windows
    const maxPerSecond: nat
    /** Every request so far. */
    ghost var requests: seq<Request>

    ghost predicate Valid()
      reads this
    {
      windows == Run(maxPerSecond, requests)
    }

    constructor (maxPerSecond: nat := 10)
      ensures Valid() && requests == [] && this.maxPerSecond == maxPerSecond
    {
      this.maxPerSecond, windows, requests := maxPerSecond, map[], [];
    }

    /** Lets a request through exactly when fewer than the maximum were let through in the
        1000 ms up to it, provided the clock has not gone back; then no window holds more
        than the maximum. */
    method IsAllowed(url: string, now: int) returns (allowed: bool)
      requires Valid()
      modifies this`windows, this`requests
      ensures Valid() && requests == old(requests) + [Request(url, now)]
      ensures windows == Next(old(windows), maxPerSecond, Request(url, now))
      ensures ClockForward(requests) ==>
                (allowed <==> AcceptedIn(maxPerSecond, old(requests), url, now - WINDOW_MS + 1, now + 1) < maxPerSecond)
      ensures ClockForward(requests) ==>
                forall u, start :: InWindow(maxPerSecond, requests, u, start) <= maxPerSecond
    {
      hide Run, AcceptedIn;
      var times := Times(windows, url);
      var existing: seq<int> := [];
      for i := 0 to |times|
        invariant existing == Recent(times[..i], now)
      {
        assert times[..i + 1][..i] == times[..i];
        if now - times[i] < WINDOW_MS {
          existing := existing + [times[i]];
        }
      }
      assert times[..|times|] == times;
      ghost var r := Request(url, now);
      requests := requests + [r];
      RunOneMore(maxPerSecond, old(requests), r);
      if ClockForward(requests) {
        RefusedIff(maxPerSecond, requests, |old(requests)|);
        assert requests[..|old(requests)|] == old(requests);
        forall u, start ensures InWindow(maxPerSecond, requests, u, start) <= maxPerSecond {
          WindowIsBounded(maxPerSecond, requests, u, start);
        }
      }
      if |existing| >= maxPerSecond { return false; }
      existing := existing + [now];
      windows := windows[url := existing];
      allowed := true;
    }
  }

  lemma RunOneMore(max: nat, requests: seq<Request>, r: Request)
    ensures Run(max, requests + [r]) == Next(Run(max, requests), max, r)
  {
    assert (requests + [r])[..|requests|] == requests;
  }
}
