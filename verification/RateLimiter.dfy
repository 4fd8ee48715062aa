/**
  The sliding-window limiter of `dzt_proxy/rate_limiter.py`: one timestamp list
  per DID, pruned when its DID calls, and a shared cleanup of all lists that runs
  at most every two minutes. `check_rate_limit` reads the clock for itself
  (`now`) and the cleanup reads it again (`cleanNow`).
 */
module RateLimiter {
  import opened Common

  const MAX_REQUESTS_PER_WINDOW: nat := 200
  const WINDOW_SECONDS: real := 60.0
  const CLEANUP_INTERVAL: real := 120.0

  datatype State = State(requests: map<string, seq<Time>>, lastCleanup: Time)

  const EMPTY: State := State(map[], 0.0)

  /** [t for t in timestamps if t > cutoff] */
  function Prune(ts: seq<Time>, cutoff: real): seq<Time> {
    if ts == [] then []
    else
      var init := Prune(ts[..|ts| - 1], cutoff);
      var t := ts[|ts| - 1];
      if t > cutoff then init + [t] else init
  }

  /** `_requests[did]` of the defaultdict, and `_requests.get(did, [])`. */
  function TimestampsOf(s: State, did: string): seq<Time> {
    if did in s.requests then s.requests[did] else []
  }

  predicate CleanupDue(s: State, cleanNow: Time) {
    cleanNow - s.lastCleanup >= CLEANUP_INTERVAL
  }

  /** State after `_cleanup`: every list pruned, emptied DIDs dropped. */
  function Cleaned(s: State, cleanNow: Time): State {
    if !CleanupDue(s, cleanNow) then s
    else
      var cutoff := cleanNow - WINDOW_SECONDS;
      State(map d | d in s.requests && Prune(s.requests[d], cutoff) != [] :: Prune(s.requests[d], cutoff), cleanNow)
  }

  /** The DID's timestamps inside the window, as `check_rate_limit` counts them. */
  function InWindow(s: State, did: string, now: Time, cleanNow: Time): seq<Time> {
    Prune(TimestampsOf(Cleaned(s, cleanNow), did), now - WINDOW_SECONDS)
  }

  predicate Admits(s: State, did: string, now: Time, cleanNow: Time) {
    |InWindow(s, did, now, cleanNow)| < MAX_REQUESTS_PER_WINDOW
  }

  /** State after `check_rate_limit`: a denied call records nothing. */
  function Checked(s: State, did: string, now: Time, cleanNow: Time): State {
    var ts := InWindow(s, did, now, cleanNow);
    var recorded := if Admits(s, did, now, cleanNow) then ts + [now] else ts;
    var c := Cleaned(s, cleanNow);
    c.(requests := c.requests[did := recorded])
  }

  class SlidingWindow {
    var requests: map<string, seq<Time>>
    var lastCleanup: Time

    function View(): State
      reads this
    {
      State(requests, lastCleanup)
    }

    constructor ()
      ensures View() == EMPTY
    {
      requests, lastCleanup := map[], 0.0;
    }

    method Cleanup(cleanNow: Time)
      modifies this
      ensures View() == Cleaned(old(View()), cleanNow)
      ensures cleanNow - old(lastCleanup) < 120.0 ==> requests == old(requests) && lastCleanup == old(lastCleanup)
      ensures cleanNow - old(lastCleanup) >= 120.0 ==> lastCleanup == cleanNow
    {
      if cleanNow - lastCleanup < CLEANUP_INTERVAL {
        return;
      }
      lastCleanup := cleanNow;
      var stale := PruneAll(cleanNow - WINDOW_SECONDS);
      DropAll(stale);
    }

    /** First loop of `_cleanup`: rewrite every list, collect the DIDs left empty. */
    method PruneAll(cutoff: real) returns (stale: seq<string>)
      modifies this`requests
      ensures requests == map d | d in old(requests) :: Prune(old(requests)[d], cutoff)
      ensures forall d :: d in stale <==> d in old(requests) && Prune(old(requests)[d], cutoff) == []
    {
      ghost var before := requests;
      stale := [];
      var todo := requests.Keys;
      while todo != {}
        invariant todo <= before.Keys == requests.Keys
        invariant forall d | d in before :: requests[d] == if d in todo then before[d] else Prune(before[d], cutoff)
        invariant forall d :: d in stale <==> d in before.Keys - todo && Prune(before[d], cutoff) == []
        decreases todo
      {
        var d :| d in todo;
        var kept := Prune(requests[d], cutoff);
        requests := requests[d := kept];
        if kept == [] {
          stale := stale + [d];
        }
        todo := todo - {d};
      }
    }

    /** Second loop of `_cleanup`: delete the collected DIDs. */
    method DropAll(stale: seq<string>)
      modifies this`requests
      ensures requests == map d | d in old(requests) && d !in stale :: old(requests)[d]
    {
      var i := 0;
      while i < |stale|
        invariant 0 <= i <= |stale|
        invariant requests == map d | d in old(requests) && d !in stale[..i] :: old(requests)[d]
      {
        requests := requests - {stale[i]};
        i := i + 1;
      }
    }

    method CheckRateLimit(did: string, now: Time, cleanNow: Time) returns (allowed: bool)
      modifies this
      ensures allowed == Admits(old(View()), did, now, cleanNow)
      ensures View() == Checked(old(View()), did, now, cleanNow)
    {
      var cutoff := now - WINDOW_SECONDS;
      Cleanup(cleanNow);
      var timestamps := Prune(if did in requests then requests[did] else [], cutoff);
      requests := requests[did := timestamps];
      if |timestamps| >= MAX_REQUESTS_PER_WINDOW {
        return false;
      }
      requests := requests[did := timestamps + [now]];
      return true;
    }

    method GetUsage(did: string, now: Time) returns (requestsInWindow: nat)
      ensures requestsInWindow == |Prune(TimestampsOf(View(), did), now - WINDOW_SECONDS)|
    {
      requestsInWindow := |Prune(if did in requests then requests[did] else [], now - WINDOW_SECONDS)|;
    }
  }
}
