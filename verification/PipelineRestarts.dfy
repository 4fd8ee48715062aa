/**
  The rate bound of the whole run is exact: a restart empties the limiter, so every life
  of the process can admit 200 requests within one window, and a window longer than
  60 - d seconds is not protected where cleanups read the clock `d` seconds late.
 */
module PipelineRestarts {
  import opened Common
  import opened Pipeline
  import opened PipelineRuns
  import opened PipelineRate
  import NonceStore
  import RateLimiter
  import RateHistory
  import RateRefinement
  import Policy

  // ---- Counting in a growing history ----

  /** The agent's admissions in the `w` seconds from `at` on. */
  function Admissions(log: seq<Event>, at: Time, w: real): nat {
    AdmissionsWithin(log, Policy.AGENT2, at, at + w)
  }

  lemma TallySnoc(log: seq<Event>, e: Event, at: Time, w: real)
    ensures Admissions(log + [e], at, w) ==
            Admissions(log, at, w) + if AdmitsWithin(e, Policy.AGENT2, at, at + w) then 1 else 0
    ensures Restarts(log + [e]) == Restarts(log) + if e.ProcessRestarted? then 1 else 0
  {
    assert (log + [e])[..|log|] == log;
  }

  lemma LagSnoc(log: seq<Event>, e: Event, d: real)
    requires CleanupLagAtMost(log, d) && (e.RateChecked? ==> e.cleanNow - e.now <= d)
    ensures CleanupLagAtMost(log + [e], d)
  {
  }

  lemma {:induction false} QuietTally(log: seq<Event>, log': seq<Event>, at: Time, w: real)
    requires Quiet(log, log')
    ensures Admissions(log', at, w) == Admissions(log, at, w) && Restarts(log') == Restarts(log)
    ensures forall d | CleanupLagAtMost(log, d) :: CleanupLagAtMost(log', d)
    decreases |log'|
  {
    if |log'| == |log| {
      assert log' == log;
    } else {
      var init := log'[..|log'| - 1];
      assert log' == init + [log'[|init|]];
      QuietTally(log, init, at, w);
      TallySnoc(init, log'[|init|], at, w);
      forall d | CleanupLagAtMost(log, d)
        ensures CleanupLagAtMost(log', d)
      {
        LagSnoc(init, log'[|init|], d);
      }
    }
  }

  /** What a passed check adds to the history. */
  lemma CheckTally(log: seq<Event>, id: nat, token: string, v: Time, t: Readings, at: Time, w: real, d: real)
    requires at <= t.tRate < at + w && t.tClean - t.tRate <= d && CleanupLagAtMost(log, d)
    ensures var nonce := NonceChecked(id, token, token, EXPIRY, v, t.tCheck, t.tStore, true);
            var log' := log + [nonce] + [RateChecked(id, Policy.AGENT2, t.tRate, t.tClean, true)];
            && Admissions(log', at, w) == Admissions(log, at, w) + 1 && Restarts(log') == Restarts(log)
            && CleanupLagAtMost(log', d)
  {
    var nonce := NonceChecked(id, token, token, EXPIRY, v, t.tCheck, t.tStore, true);
    var rate := RateChecked(id, Policy.AGENT2, t.tRate, t.tClean, true);
    TallySnoc(log, nonce, at, w);
    TallySnoc(log + [nonce], rate, at, w);
    LagSnoc(log, nonce, d);
    LagSnoc(log + [nonce], rate, d);
  }

  // ---- Bursts of requests in one instant ----

  /**
    The tokens before number `n` may have been used; the limiter holds `m` timestamps of
    the agent, all of the instant `at`, and no cleanup is due then.
   */
  ghost predicate Ready(s: State, n: nat, m: nat, at: Time) {
    && s.clock <= at < EXPIRY as real && at < s.limiter.lastCleanup + 120.0
    && (forall jti | jti in s.nonces.rows :: |jti| <= n)
    && AllAt(RateLimiter.TimestampsOf(s.limiter, Policy.AGENT2), m, at)
    && DocsOk(s) && CleanupLagAtMost(s.log, 0.0)
  }

  predicate AllAt(ts: seq<Time>, m: nat, at: Time) {
    |ts| == m && forall i | 0 <= i < m :: ts[i] == at
  }

  lemma FreshToken(nonces: NonceStore.State, n: nat, token: string, now: Time)
    requires |token| == n + 1 && forall jti | jti in nonces.rows :: |jti| <= n
    ensures !NonceStore.Seen(nonces, token, now)
    ensures var s' := NonceStore.Stored(NonceStore.Cleaned(nonces, now), token, EXPIRY, now);
            forall jti | jti in s'.rows :: |jti| <= n + 1
  {
  }

  lemma RoomForOne(limiter: RateLimiter.State, m: nat, at: Time)
    requires at < limiter.lastCleanup + 120.0 && m < 200
    requires AllAt(RateLimiter.TimestampsOf(limiter, Policy.AGENT2), m, at)
    ensures RateLimiter.Admits(limiter, Policy.AGENT2, at, at)
    ensures var s' := RateLimiter.Checked(limiter, Policy.AGENT2, at, at);
            s'.lastCleanup == limiter.lastCleanup && AllAt(RateLimiter.TimestampsOf(s', Policy.AGENT2), m + 1, at)
  {
    RateRefinement.PruneKeepsAll(RateLimiter.TimestampsOf(limiter, Policy.AGENT2), at - 60.0);
  }

  /** With fewer than 200 timestamps stored, one more request is admitted. */
  lemma AdmitNext(steps: seq<Step>, s: State, n: nat, m: nat, at: Time, w: real)
      returns (steps': seq<Step>, s': State)
    requires Reaches(DemoEnv(), steps, s) && Ready(s, n, m, at) && m < 200 && w > 0.0
    ensures Reaches(DemoEnv(), steps', s') && Ready(s', n + 1, m + 1, at)
    ensures s'.limiter.lastCleanup == s.limiter.lastCleanup
    ensures Admissions(s'.log, at, w) == Admissions(s.log, at, w) + 1 && Restarts(s'.log) == Restarts(s.log)
  {
    hide RunFrom, DemoEnv, NonceStore.Seen, NonceStore.Cleaned, NonceStore.Stored, Quiet, AllAt;
    hide RateLimiter.Admits, RateLimiter.Checked, RateLimiter.TimestampsOf, CleanupLagAtMost, Admissions, Restarts;
    var s1;
    steps', s1 := VerifyNext(steps, s, n, at);
    QuietTally(s.log, s1.log, at, w);
    FreshToken(s1.nonces, n, Token(n), at);
    RoomForOne(s1.limiter, m, at);
    steps', s' := CheckNext(steps', s1, s.nextId, n, at, At(at));
    CheckTally(s1.log, s.nextId, Token(n), at, At(at), at, w, 0.0);
  }

  lemma {:induction false} AdmitMany(steps: seq<Step>, s: State, n: nat, k: nat, at: Time, w: real)
      returns (steps': seq<Step>, s': State)
    requires Reaches(DemoEnv(), steps, s) && Ready(s, n, 0, at) && k <= 200 && w > 0.0
    ensures Reaches(DemoEnv(), steps', s') && Ready(s', n + k, k, at)
    ensures s'.limiter.lastCleanup == s.limiter.lastCleanup
    ensures Admissions(s'.log, at, w) == Admissions(s.log, at, w) + k && Restarts(s'.log) == Restarts(s.log)
  {
    hide Reaches, Ready, Admissions, Restarts, DemoEnv;
    if k == 0 {
      steps', s' := steps, s;
    } else {
      steps', s' := AdmitMany(steps, s, n, k - 1, at, w);
      steps', s' := AdmitNext(steps', s', n + k - 1, k - 1, at, w);
    }
  }

  lemma RunOfNothing(at: Time, w: real)
    ensures Reaches(DemoEnv(), [], INITIAL)
    ensures Admissions(INITIAL.log, at, w) == 0 && Restarts(INITIAL.log) == 0
  {
  }

  /** Any instant in the first two minutes will do to begin with. */
  lemma StartIsReady(at: Time)
    requires at < 120.0
    ensures Ready(INITIAL, 0, 0, at)
  {
    assert RateLimiter.TimestampsOf(RateLimiter.EMPTY, Policy.AGENT2) == [];
    hide RateLimiter.TimestampsOf;
  }

  // ---- Restarts ----

  /** A restart empties the limiter; the nonce rows stay. */
  lemma RestartNext(steps: seq<Step>, s: State, n: nat, m: nat, at: Time, w: real)
      returns (steps': seq<Step>, s': State)
    requires Reaches(DemoEnv(), steps, s) && Ready(s, n, m, at) && at < 120.0
    ensures Reaches(DemoEnv(), steps', s') && Ready(s', n, 0, at)
    ensures Admissions(s'.log, at, w) == Admissions(s.log, at, w) && Restarts(s'.log) == Restarts(s.log) + 1
  {
    hide RunFrom, DemoEnv, Admissions, Restarts, CleanupLagAtMost, Ready, Reaches;
    s' := Restart(s);
    steps' := steps + [RestartStep];
    OneMore(DemoEnv(), steps, s, RestartStep, s');
    TallySnoc(s.log, ProcessRestarted, at, w);
    RestartIsReady(s, n, m, at);
  }

  lemma RestartIsReady(s: State, n: nat, m: nat, at: Time)
    requires Ready(s, n, m, at) && at < 120.0
    ensures Ready(Restart(s), n, 0, at)
  {
    LagSnoc(s.log, ProcessRestarted, 0.0);
    hide CleanupLagAtMost;
  }

  /**
    With `k` restarts there is a run in which one DID gets 200 * (k + 1) requests past
    the limiter in one instant, without any lag: more than 200 as soon as k > 0.
   */
  lemma {:induction false} EveryLifeAdmits(k: nat, w: real) returns (steps: seq<Step>, s: State, n: nat)
    requires w > 0.0
    ensures Reaches(DemoEnv(), steps, s) && CleanupLagAtMost(s.log, 0.0) && Restarts(s.log) == k
    ensures Admissions(s.log, 0.0, w) == 200 * (k + 1)
    ensures Ready(s, n, 200, 0.0)
  {
    hide Admissions, Restarts, DemoEnv, RunFrom, RateLimiter.TimestampsOf, CleanupLagAtMost, DocsOk, AllAt;
    if k == 0 {
      RunOfNothing(0.0, w);
      StartIsReady(0.0);
      steps, s := AdmitMany([], INITIAL, 0, 200, 0.0, w);
      n := 200;
    } else {
      steps, s, n := EveryLifeAdmits(k - 1, w);
      steps, s := RestartNext(steps, s, n, 200, 0.0, w);
      steps, s := AdmitMany(steps, s, n, 200, 0.0, w);
      n := n + 200;
    }
  }

  // ---- Lag ----

  /** The cleanup at 160 takes away what was stored at 100. */
  lemma LateCleanup(limiter: RateLimiter.State, d: real)
    requires 0.0 <= d <= 60.0 && limiter.lastCleanup <= 40.0
    requires AllAt(RateLimiter.TimestampsOf(limiter, Policy.AGENT2), 200, 100.0)
    ensures RateLimiter.Admits(limiter, Policy.AGENT2, 160.0 - d, 160.0)
  {
    var list := RateLimiter.TimestampsOf(limiter, Policy.AGENT2);
    RateHistory.ListStep(limiter, RateHistory.Call(Policy.AGENT2, 160.0 - d, 160.0), Policy.AGENT2);
    NothingKept(list, 100.0);
    RateHistory.PruneShrinks([], 160.0 - d - 60.0, 160.0 - d - 60.0);
  }

  lemma {:induction false} NothingKept(ts: seq<Time>, cutoff: real)
    requires forall i | 0 <= i < |ts| :: ts[i] <= cutoff
    ensures RateLimiter.Prune(ts, cutoff) == []
  {
    if ts != [] {
      NothingKept(ts[..|ts| - 1], cutoff);
    }
  }

  /** 200 requests at second 100, and one whose cleanup reads 160 while its own reading is 160 - d. */
  lemma LagRun(d: real, w: real) returns (steps: seq<Step>, s: State)
    requires 0.0 <= d <= 60.0 < w + d
    ensures Reaches(DemoEnv(), steps, s) && CleanupLagAtMost(s.log, d) && Restarts(s.log) == 0
    ensures Admissions(s.log, 100.0, w) == 200 + 1
  {
    var n := 200;
    hide RunFrom, DemoEnv, NonceStore.Seen, NonceStore.Cleaned, NonceStore.Stored, Quiet, AllAt;
    hide RateLimiter.Admits, RateLimiter.Checked, RateLimiter.TimestampsOf, Admissions, Restarts;
    steps, s := AdmitWithoutCleanup(w);
    var burst, v := s, 160.0 - d;
    ZeroLag(burst.log, d);
    steps, s := VerifyNext(steps, burst, n, v);
    QuietTally(burst.log, s.log, 100.0, w);
    FreshToken(s.nonces, n, Token(n), v);
    LateCleanup(s.limiter, d);
    var log, t := s.log, Readings(v, v, v, 160.0);
    steps, s := CheckNext(steps, s, burst.nextId, n, v, t);
    CheckTally(log, burst.nextId, Token(n), v, t, 100.0, w, d);
  }

  lemma ZeroLag(log: seq<Event>, d: real)
    requires CleanupLagAtMost(log, 0.0) && 0.0 <= d
    ensures CleanupLagAtMost(log, d)
  {
  }

  /** In the burst no cleanup runs: the last one is that of a process just started. */
  lemma AdmitWithoutCleanup(w: real) returns (steps: seq<Step>, s: State)
    requires w > 0.0
    ensures var n := 200;
            Reaches(DemoEnv(), steps, s) && Ready(s, n, n, 100.0)
    ensures s.limiter.lastCleanup <= 40.0 && Restarts(s.log) == 0
    ensures Admissions(s.log, 100.0, w) == 200
  {
    hide Admissions, Restarts, DemoEnv, RunFrom, Ready;
    RunOfNothing(100.0, w);
    StartIsReady(100.0);
    steps, s := AdmitMany([], INITIAL, 0, 200, 100.0, w);
  }

  // ---- The bound is exact ----

  ghost predicate WithinWindow(log: seq<Event>, did: string, lo: real, w: real, limit: nat) {
    AdmissionsWithin(log, did, lo, lo + w) <= limit
  }

  /**
    Whatever the deployment, runs with up to `k` restarts and lag at most `d` keep every
    window of length `w` within `limit` admissions.
   */
  ghost predicate KeepsWithin(k: nat, d: real, w: real, limit: nat) {
    forall env, steps, s, did, lo ::
      Reaches(env, steps, s) && CleanupLagAtMost(s.log, d) && Restarts(s.log) <= k
      ==> WithinWindow(s.log, did, lo, w, limit)
  }

  lemma Scale(a: nat, b: nat)
    requires a <= b
    ensures 200 * a <= 200 * b
  {
  }

  lemma {:induction false} NarrowerCountsLess(log: seq<Event>, did: string, lo: real, hi: real, hi': real)
    requires hi <= hi'
    ensures AdmissionsWithin(log, did, lo, hi) <= AdmissionsWithin(log, did, lo, hi')
  {
    if log != [] {
      NarrowerCountsLess(log[..|log| - 1], did, lo, hi, hi');
    }
  }

  lemma EnoughForLives(k: nat, d: real, w: real, limit: nat)
    requires 0.0 <= d && w <= 60.0 - d
    requires limit >= 200 * (k + 1)
    ensures KeepsWithin(k, d, w, limit)
  {
    hide Reaches, CleanupLagAtMost, Restarts, WithinWindow;
    forall env, steps, s, did, lo | Reaches(env, steps, s) && CleanupLagAtMost(s.log, d) && Restarts(s.log) <= k
      ensures WithinWindow(s.log, did, lo, w, limit)
    {
      RateBound(env, steps, s, did, d, lo);
      LimitFromLives(s.log, did, lo, w, lo + 60.0 - d, k, limit);
    }
  }

  lemma LimitFromLives(log: seq<Event>, did: string, lo: real, w: real, hi: real, k: nat, limit: nat)
    requires lo + w <= hi && Lives(log, did, lo, hi) <= k + 1 && limit >= 200 * (k + 1)
    requires AdmissionsWithin(log, did, lo, hi) <= 200 * Lives(log, did, lo, hi)
    ensures WithinWindow(log, did, lo, w, limit)
  {
    hide Lives, AdmissionsWithin;
    NarrowerCountsLess(log, did, lo, lo + w, hi);
    Scale(Lives(log, did, lo, hi), k + 1);
  }

  lemma TooFewForLives(k: nat, d: real, w: real, limit: nat)
    requires 0.0 <= d && 0.0 < w && limit < 200 * (k + 1)
    ensures !KeepsWithin(k, d, w, limit)
  {
    hide Reaches, CleanupLagAtMost, Restarts, DemoEnv, Ready, AdmissionsWithin;
    var steps, s, n := EveryLifeAdmits(k, w);
    ZeroLag(s.log, d);
    assert !WithinWindow(s.log, Policy.AGENT2, 0.0, w, limit);
  }

  /** In protected windows, 200 for each life is exact: with up to `k` restarts, 200 * (k + 1) is the least limit. */
  lemma LimitWithRestarts(k: nat, d: real, w: real, limit: nat)
    requires 0.0 <= d && 0.0 < w <= 60.0 - d
    ensures KeepsWithin(k, d, w, limit) <==> limit >= 200 * (k + 1)
  {
    if limit >= 200 * (k + 1) {
      EnoughForLives(k, d, w, limit);
    } else {
      TooFewForLives(k, d, w, limit);
    }
  }

  /** And 60 - d seconds is exactly the window that a life protects in the running pipeline, for every lag. */
  lemma WindowExactly(d: real, w: real)
    requires 0.0 <= d <= 60.0
    ensures KeepsWithin(0, d, w, 200) <==> w <= 60.0 - d
  {
    if w <= 60.0 - d {
      EnoughForLives(0, d, w, 200);
    } else {
      TooWideForLag(d, w);
    }
  }

  lemma TooWideForLag(d: real, w: real)
    requires 0.0 <= d <= 60.0 < w + d
    ensures !KeepsWithin(0, d, w, 200)
  {
    hide Reaches, CleanupLagAtMost, Restarts, DemoEnv, AdmissionsWithin;
    var steps, s := LagRun(d, w);
    assert !WithinWindow(s.log, Policy.AGENT2, 100.0, w, 200);
  }
}
