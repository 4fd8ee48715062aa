/**
  The rate limiter inside the pipeline: what its verdicts and bounds mean in terms of
  the history, within one life of the process and across restarts.
 */
module PipelineRate {
  import opened Common
  import opened Pipeline
  import opened PipelineInvariant
  import PipelineSteps
  import RateLimiter
  import RateHistory
  import RateRefinement

  /** The timestamps of the DID's admitted calls since the process started. */
  function AdmittedTimes(log: seq<Event>, did: string): seq<Time> {
    if log == [] then []
    else
      var times, e := AdmittedTimes(log[..|log| - 1], did), log[|log| - 1];
      if e.ProcessRestarted? then []
      else if e.RateChecked? && e.did == did && e.admitted then times + [e.now]
      else times
  }

  /** The recorded verdict of a rate check is the limiter's. */
  lemma VerdictIsLimiters(env: Env, log: seq<Event>, i: nat)
    requires HistoryOk(env, log) && i < |log| && log[i].RateChecked?
    ensures log[i].admitted ==
            RateHistory.Allowed(RateCalls(log[..i]), RateHistory.Call(log[i].did, log[i].now, log[i].cleanNow))
  {
    assert EventOk(env, log[..i], log[i]);
  }

  lemma {:induction false} AdmittedIsHistory(env: Env, log: seq<Event>, did: string)
    requires HistoryOk(env, log)
    ensures AdmittedTimes(log, did) == RateHistory.History(RateCalls(log), did)
  {
    if log != [] {
      PrefixOk(env, log, |log| - 1);
      AdmittedIsHistory(env, log[..|log| - 1], did);
      AdmittedStep(env, log, did);
    }
  }

  lemma AdmittedStep(env: Env, log: seq<Event>, did: string)
    requires HistoryOk(env, log) && log != []
    requires AdmittedTimes(log[..|log| - 1], did) == RateHistory.History(RateCalls(log[..|log| - 1]), did)
    ensures AdmittedTimes(log, did) == RateHistory.History(RateCalls(log), did)
  {
    hide EventOk, HistoryOk, RateHistory.Allowed, RateHistory.History;
    var init, e := log[..|log| - 1], log[|log| - 1];
    if e.RateChecked? {
      VerdictIsLimiters(env, log, |init|);
      HistorySnoc(RateCalls(init), RateHistory.Call(e.did, e.now, e.cleanNow), did);
    } else if e.ProcessRestarted? {
      NoHistory(did);
    }
  }

  lemma NoHistory(did: string)
    ensures RateHistory.History([], did) == []
  {
  }

  lemma HistorySnoc(calls: seq<RateHistory.Call>, c: RateHistory.Call, did: string)
    ensures RateHistory.History(calls + [c], did) ==
            if c.did == did && RateHistory.Allowed(calls, c) then RateHistory.History(calls, did) + [c.now]
            else RateHistory.History(calls, did)
  {
    hide RateHistory.Allowed;
    assert (calls + [c])[..|calls|] == calls;
  }


  // ---- The limiter's calls in a run ----

  lemma HistoryOfRun(env: Env, steps: seq<Step>, s: State)
    requires Reaches(env, steps, s)
    ensures HistoryOk(env, s.log) && ReadingsUpTo(s.log, s.clock)
  {
    PipelineSteps.RunKeeps(env, steps, s);
  }

  /** A rate check reads the clock after everything before it. */
  lemma CheckReadsLater(env: Env, log: seq<Event>, i: nat)
    requires HistoryOk(env, log) && i < |log| && log[i].RateChecked?
    ensures ReadingsUpTo(log[..i], log[i].now) && log[i].now <= log[i].cleanNow
  {
    assert EventOk(env, log[..i], log[i]);
  }

  lemma ReadingsOfPrefix(log: seq<Event>, i: nat, now: Time)
    requires ReadingsUpTo(log, now) && i <= |log|
    ensures ReadingsUpTo(log[..i], now)
    ensures i < |log| && log[i].RateChecked? ==> log[i].cleanNow <= now
  {
    assert forall x | x in log[..i] :: x in log;
    assert i < |log| ==> log[i] in log;
  }

  lemma {:induction false} CallsInOrder(env: Env, log: seq<Event>, now: Time)
    requires HistoryOk(env, log) && ReadingsUpTo(log, now)
    ensures RateRefinement.Ordered(RateCalls(log)) && RateHistory.ReadingsUpTo(RateCalls(log), now)
  {
    hide HistoryOk, EventOk, ReadingsUpTo;
    if log != [] {
      var init, e := log[..|log| - 1], log[|log| - 1];
      PrefixOk(env, log, |log| - 1);
      ReadingsOfPrefix(log, |log| - 1, now);
      if e.RateChecked? {
        CheckReadsLater(env, log, |log| - 1);
        CallsInOrder(env, init, e.now);
        OrderedCall(RateCalls(init), RateHistory.Call(e.did, e.now, e.cleanNow), now);
      } else {
        CallsInOrder(env, init, now);
      }
    }
  }

  lemma OrderedCall(calls: seq<RateHistory.Call>, c: RateHistory.Call, now: Time)
    requires RateRefinement.Ordered(calls) && RateHistory.ReadingsUpTo(calls, c.now) && c.now <= c.cleanNow <= now
    ensures RateRefinement.Ordered(calls + [c]) && RateHistory.ReadingsUpTo(calls + [c], now)
  {
  }

  /** How many of the DID's admissions since the process started are younger than a minute. */
  function RecentlyAdmitted(log: seq<Event>, did: string, now: Time): nat {
    |RateLimiter.Prune(AdmittedTimes(log, did), now - 60.0)|
  }

  lemma RecentAgrees(env: Env, log: seq<Event>, did: string, now: Time)
    requires HistoryOk(env, log)
    ensures RecentlyAdmitted(log, did, now) == RateRefinement.RecentAdmissions(RateCalls(log), did, now)
  {
    AdmittedIsHistory(env, log, did);
  }

  /**
    Every verdict in every run is "fewer than 200 admissions of this DID, since the
    process started, in the minute before" the call's own reading, or the cleanup's
    if one runs; a denied call has exactly 200 in its last minute.
   */
  lemma VerdictsCountHistory(env: Env, steps: seq<Step>, s: State, i: nat)
    requires Reaches(env, steps, s) && i < |s.log| && s.log[i].RateChecked?
    ensures CountsHistory(s.log[..i], s.log[i])
  {
    HistoryOfRun(env, steps, s);
    VerdictCounts(env, s.log, i);
  }

  /** The verdict of rate check `e` in terms of the history `pre` before it. */
  predicate CountsHistory(pre: seq<Event>, e: Event)
    requires e.RateChecked?
  {
    var decisive := RateRefinement.Decisive(RateCalls(pre), RateHistory.Call(e.did, e.now, e.cleanNow));
    && decisive in {e.now, e.cleanNow}
    && (e.admitted <==> RecentlyAdmitted(pre, e.did, decisive) < 200)
    && (!e.admitted ==> RecentlyAdmitted(pre, e.did, e.now) == 200)
  }

  lemma VerdictCounts(env: Env, log: seq<Event>, i: nat)
    requires HistoryOk(env, log) && i < |log| && log[i].RateChecked?
    ensures CountsHistory(log[..i], log[i])
  {
    var pre, c := log[..i], RateHistory.Call(log[i].did, log[i].now, log[i].cleanNow);
    PrefixOk(env, log, i);
    VerdictIsLimiters(env, log, i);
    CheckReadsLater(env, log, i);
    CallsInOrder(env, pre, c.now);
    OrderedCall(RateCalls(pre), c, c.cleanNow);
    RateRefinement.VerdictIsCount(RateCalls(pre), c);
    RecentAgrees(env, pre, c.did, c.now);
    RecentAgrees(env, pre, c.did, RateRefinement.Decisive(RateCalls(pre), c));
    hide HistoryOk, ReadingsUpTo, RateHistory.Allowed, RateCalls, RecentlyAdmitted, RateRefinement.RecentAdmissions;
    hide RateRefinement.Ordered, RateRefinement.Decisive, RateHistory.ReadingsUpTo;
  }

  // ---- The bound within one life of the process ----

  /** The cleanup's reading is at most `d` seconds after the call's own. */
  ghost predicate CleanupLagAtMost(log: seq<Event>, d: real) {
    forall e | e in log && e.RateChecked? :: e.cleanNow - e.now <= d
  }

  lemma {:induction false} CallsLag(log: seq<Event>, d: real)
    requires CleanupLagAtMost(log, d)
    ensures RateRefinement.LagAtMost(RateCalls(log), d)
  {
    if log != [] {
      var init, e := log[..|log| - 1], log[|log| - 1];
      assert e in log && forall x | x in init :: x in log;
      CallsLag(init, d);
    }
  }

  /** Ordered readings run ahead of later ones by no more than a cleanup lags its call. */
  lemma OrderedSkew(calls: seq<RateHistory.Call>, d: real)
    requires RateRefinement.Ordered(calls) && RateRefinement.LagAtMost(calls, d) && 0.0 <= d
    ensures RateHistory.SkewAtMost(calls, d)
  {
  }

  /** Since the latest start, no DID gets more than 200 requests past the limiter in any 60 - d seconds. */
  lemma LifeBound(env: Env, log: seq<Event>, now: Time, did: string, d: real, lo: real)
    requires HistoryOk(env, log) && ReadingsUpTo(log, now) && 0.0 <= d && CleanupLagAtMost(log, d)
    ensures RateHistory.Count(AdmittedTimes(log, did), lo, lo + 60.0 - d)
            <= 200
  {
    AdmittedIsHistory(env, log, did);
    CallsInOrder(env, log, now);
    CallsLag(log, d);
    OrderedSkew(RateCalls(log), d);
    RateHistory.WindowBound(RateCalls(log), did, d, lo);
  }

  // ---- The bound over the whole run ----

  predicate AdmitsWithin(e: Event, did: string, lo: real, hi: real) {
    e.RateChecked? && e.did == did && e.admitted && lo <= e.now < hi
  }

  /** How many requests of the DID got past the limiter in [lo, hi), in the whole run. */
  function AdmissionsWithin(log: seq<Event>, did: string, lo: real, hi: real): nat {
    if log == [] then 0
    else AdmissionsWithin(log[..|log| - 1], did, lo, hi) + if AdmitsWithin(log[|log| - 1], did, lo, hi) then 1 else 0
  }

  /**
    In how many lives of the process the DID was admitted in [lo, hi): one, and one
    more for each restart after which it was admitted there again.
   */
  function Lives(log: seq<Event>, did: string, lo: real, hi: real): nat {
    if log == [] then 0
    else
      var init, e := log[..|log| - 1], log[|log| - 1];
      Lives(init, did, lo, hi)
      + if AdmitsWithin(e, did, lo, hi) && RateHistory.Count(AdmittedTimes(init, did), lo, hi) == 0 then 1 else 0
  }

  function Restarts(log: seq<Event>): nat {
    if log == [] then 0 else Restarts(log[..|log| - 1]) + if log[|log| - 1].ProcessRestarted? then 1 else 0
  }

  lemma {:induction false} LivesNeedRestarts(log: seq<Event>, did: string, lo: real, hi: real)
    ensures Lives(log, did, lo, hi) <= Restarts(log) + 1
    ensures RateHistory.Count(AdmittedTimes(log, did), lo, hi) == 0 ==> Lives(log, did, lo, hi) <= Restarts(log)
  {
    if log != [] {
      var init, e := log[..|log| - 1], log[|log| - 1];
      LivesNeedRestarts(init, did, lo, hi);
      CountGrows(init, e, did, lo, hi);
    }
  }

  /** What one event does to the count of the current life. */
  lemma CountGrows(init: seq<Event>, e: Event, did: string, lo: real, hi: real)
    ensures RateHistory.Count(AdmittedTimes(init + [e], did), lo, hi) ==
            if e.ProcessRestarted? then 0
            else RateHistory.Count(AdmittedTimes(init, did), lo, hi) + if AdmitsWithin(e, did, lo, hi) then 1 else 0
  {
    assert (init + [e])[..|init|] == init;
    if e.RateChecked? {
      RateHistory.CountSnoc(AdmittedTimes(init, did), e.now, lo, hi);
    }
  }

  lemma NothingAdmitted(did: string, lo: real, hi: real)
    ensures RateHistory.Count(AdmittedTimes([], did), lo, hi) == 0
  {
  }

  lemma LagOfPrefix(log: seq<Event>, i: nat, d: real)
    requires CleanupLagAtMost(log, d) && i <= |log|
    ensures CleanupLagAtMost(log[..i], d)
  {
    assert forall x | x in log[..i] :: x in log;
  }

  /** The bound that counts 200 for all earlier lives, through one event. */
  lemma LivesStep(admissions: nat, lives: nat, current: nat, restarts: bool, admits: bool)
    requires !(restarts && admits) && current <= 200 && (current > 0 ==> lives > 0)
    requires admissions <= 200 * (lives - if current > 0 then 1 else 0) + current
    ensures var one := if admits then 1 else 0;
            var lives', current' := lives + (if current == 0 then one else 0), if restarts then 0 else current + one;
            && (current' > 0 ==> lives' > 0)
            && admissions + one
               <= 200 * (lives' - if current' > 0 then 1 else 0) + current'
  {
  }

  /** What earlier lives admitted is within 200 each; the current life adds its own count. */
  lemma {:induction false} LivesBound(env: Env, log: seq<Event>, now: Time, did: string, d: real, lo: real)
    requires HistoryOk(env, log) && ReadingsUpTo(log, now) && 0.0 <= d && CleanupLagAtMost(log, d)
    ensures var hi := lo + 60.0 - d;
            var current := RateHistory.Count(AdmittedTimes(log, did), lo, hi);
            && current <= 200
            && (current > 0 ==> Lives(log, did, lo, hi) > 0)
            && AdmissionsWithin(log, did, lo, hi)
               <= 200 * (Lives(log, did, lo, hi) - if current > 0 then 1 else 0)
                  + current
  {
    hide HistoryOk, AdmittedTimes, RateHistory.Count, ReadingsUpTo, CleanupLagAtMost;
    LifeBound(env, log, now, did, d, lo);
    if log == [] {
      NothingAdmitted(did, lo, lo + 60.0 - d);
    } else {
      var init, e, hi := log[..|log| - 1], log[|log| - 1], lo + 60.0 - d;
      assert log == init + [e];
      PrefixOk(env, log, |init|);
      ReadingsOfPrefix(log, |init|, now);
      LagOfPrefix(log, |init|, d);
      LivesBound(env, init, now, did, d, lo);
      CountGrows(init, e, did, lo, hi);
      LivesStep(AdmissionsWithin(init, did, lo, hi), Lives(init, did, lo, hi),
                RateHistory.Count(AdmittedTimes(init, did), lo, hi), e.ProcessRestarted?, AdmitsWithin(e, did, lo, hi));
    }
  }

  lemma Slack(admissions: nat, lives: nat, current: nat)
    requires current <= 200
    requires admissions <= 200 * (lives - if current > 0 then 1 else 0) + current
    ensures admissions <= 200 * lives
  {
  }

  lemma LogBound(env: Env, log: seq<Event>, now: Time, did: string, d: real, lo: real)
    requires HistoryOk(env, log) && ReadingsUpTo(log, now) && 0.0 <= d && CleanupLagAtMost(log, d)
    ensures var hi := lo + 60.0 - d;
            && AdmissionsWithin(log, did, lo, hi) <= 200 * Lives(log, did, lo, hi)
            && Lives(log, did, lo, hi) <= Restarts(log) + 1
  {
    hide HistoryOk, ReadingsUpTo, CleanupLagAtMost, AdmittedTimes, Lives, Restarts, AdmissionsWithin, RateHistory.Count;
    var hi := lo + 60.0 - d;
    LivesBound(env, log, now, did, d, lo);
    LivesNeedRestarts(log, did, lo, hi);
    Slack(AdmissionsWithin(log, did, lo, hi), Lives(log, did, lo, hi),
          RateHistory.Count(AdmittedTimes(log, did), lo, hi));
  }

  /**
    Over the whole run: in any half-open window of length 60 - d at most 200 requests
    of a DID get past the limiter for each life of the process that admits it there,
    hence 200 in all where no restart falls between admissions of the window.
   */
  lemma RateBound(env: Env, steps: seq<Step>, s: State, did: string, d: real, lo: real)
    requires Reaches(env, steps, s) && 0.0 <= d && CleanupLagAtMost(s.log, d)
    ensures var hi := lo + 60.0 - d;
            && AdmissionsWithin(s.log, did, lo, hi) <= 200 * Lives(s.log, did, lo, hi)
            && Lives(s.log, did, lo, hi) <= Restarts(s.log) + 1
  {
    hide RunFrom, HistoryOk, ReadingsUpTo, CleanupLagAtMost, Lives, Restarts, AdmissionsWithin;
    HistoryOfRun(env, steps, s);
    LogBound(env, s.log, s.clock, did, d, lo);
  }
}
