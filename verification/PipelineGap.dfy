/**
  The one-second bound of the replay check is exact: with any longer wait between
  verification and check there is a run that forwards one token twice.
 */
module PipelineGap {
  import opened Common
  import opened Pipeline
  import opened PipelineRuns
  import opened PipelineSafety
  import NonceStore
  import RateLimiter
  import RateHistory
  import Policy

  /** Whatever the deployment and the run, waits of at most `gap` seconds keep every token to one forward. */
  ghost predicate OnceWithin(gap: real) {
    forall env, steps, s :: Reaches(env, steps, s) && GapAtMost(s.log, gap) ==> ForwardedOnce(s.log)
  }

  // ---- One request with the first token, from arrival to forward ----

  lemma GapGrows(log: seq<Event>, log': seq<Event>, gap: real)
    requires GapAtMost(log, gap) && log <= log'
    requires forall i | |log| <= i < |log'| && log'[i].NonceChecked? :: log'[i].tCheck - log'[i].tVerify <= gap
    ensures GapAtMost(log', gap)
  {
    forall e | e in log' && e.NonceChecked?
      ensures e.tCheck - e.tVerify <= gap
    {
      var i :| 0 <= i < |log'| && log'[i] == e;
      assert i < |log| ==> log[i] in log;
    }
  }

  /** The stores let the token through at `c`. */
  predicate Lets(s: State, c: Time) {
    !NonceStore.Seen(s.nonces, Token(0), c) && RateLimiter.Admits(s.limiter, Policy.AGENT2, c, c)
  }

  /** The token is verified at `v`, checked at `c` and forwarded, as the last thing that happens. */
  lemma ServeNext(steps: seq<Step>, s: State, v: Time, c: Time, gap: real) returns (steps': seq<Step>, s': State)
    requires Reaches(DemoEnv(), steps, s) && DocsOk(s) && GapAtMost(s.log, gap)
    requires s.clock <= v < EXPIRY as real && v <= c <= v + gap && Lets(s, c)
    ensures Reaches(DemoEnv(), steps', s') && DocsOk(s') && GapAtMost(s'.log, gap) && s'.clock == c
    ensures s'.nonces == NonceStore.Stored(NonceStore.Cleaned(s.nonces, c), Token(0), EXPIRY, c)
    ensures s'.limiter == RateLimiter.Checked(s.limiter, Policy.AGENT2, c, c)
    ensures s.log < s'.log
    ensures s'.log[|s'.log| - 1].CallForwarded? && s'.log[|s'.log| - 1].token == Token(0)
  {
    hide RunFrom, DemoEnv, Token, NonceStore.Seen, NonceStore.Cleaned, NonceStore.Stored, RateLimiter.Checked;
    hide RateLimiter.Admits, GapAtMost;
    var s1, s2;
    steps', s1 := VerifyNext(steps, s, 0, v);
    GapGrows(s.log, s1.log, gap);
    steps', s2 := CheckNext(steps', s1, s.nextId, 0, v, At(c));
    GapGrows(s1.log, s2.log, gap);
    var stale := s2.registry.localAt + 30.0;
    steps', s' := ForwardNext(steps', s2, s.nextId, 0, if s2.mono < stale then stale else s2.mono);
    GapGrows(s2.log, s'.log, gap);
  }

  // ---- Twice ----

  /** The token is verified a second time just before it expires. */
  function VerifyTime(gap: real): Time
    requires gap > 1.0
  {
    if gap < 1.5 then EXPIRY as real + 1.0 - gap else EXPIRY as real - 0.5
  }

  lemma FirstPasses()
    ensures Lets(INITIAL, 0.0)
    ensures NonceStore.Stored(NonceStore.Cleaned(NonceStore.EMPTY, 0.0), Token(0), EXPIRY, 0.0)
         == NonceStore.State(map[Token(0) := EXPIRY], 0.0)
    ensures RateLimiter.Checked(RateLimiter.EMPTY, Policy.AGENT2, 0.0, 0.0)
         == RateLimiter.State(map[Policy.AGENT2 := [0.0]], 0.0)
  {
    assert RateLimiter.InWindow(RateLimiter.EMPTY, Policy.AGENT2, 0.0, 0.0) == [];
    assert [] + [0.0 as Time] == [0.0 as Time];
  }

  /** The purge runs on a reading a second past the expiry, so the row is gone. */
  lemma SecondPasses(s: State, c: Time)
    requires s.nonces == NonceStore.State(map[Token(0) := EXPIRY], 0.0) && c >= EXPIRY as real + 1.0
    requires s.limiter == RateLimiter.State(map[Policy.AGENT2 := [0.0]], 0.0)
    ensures Lets(s, c)
  {
    assert NonceStore.Cleaned(s.nonces, c) == NonceStore.State(map[], c);
    var list, kept := [0.0 as Time], RateLimiter.TimestampsOf(RateLimiter.Cleaned(s.limiter, c), Policy.AGENT2);
    RateHistory.ListStep(s.limiter, RateHistory.Call(Policy.AGENT2, c, c), Policy.AGENT2);
    RateHistory.PruneShrinks(list, c - 60.0, c - 60.0);
    RateHistory.PruneShrinks(kept, c - 60.0, c - 60.0);
  }

  /** Waiting `gap` > 1 seconds once is enough to forward the token twice. */
  lemma ReplayRun(gap: real) returns (steps: seq<Step>, s: State)
    requires gap > 1.0
    ensures Reaches(DemoEnv(), steps, s) && GapAtMost(s.log, gap) && !ForwardedOnce(s.log)
  {
    hide Lets, DemoEnv, Token, NonceStore.Cleaned, NonceStore.Stored, RateLimiter.Checked;
    var s1;
    FirstPasses();
    steps, s1 := ServeNext([], INITIAL, 0.0, 0.0, gap);
    var c: Time := VerifyTime(gap) + gap;
    SecondPasses(s1, c);
    steps, s := ServeNext(steps, s1, VerifyTime(gap), c, gap);
    assert s.log[|s1.log| - 1] == s1.log[|s1.log| - 1];
  }

  /** One second is exactly the wait that at-most-once forwarding tolerates. */
  lemma ToleratedGap(gap: real)
    ensures OnceWithin(gap) <==> gap <= 1.0
  {
    if gap <= 1.0 {
      forall env, steps, s | Reaches(env, steps, s) && GapAtMost(s.log, gap)
        ensures ForwardedOnce(s.log)
      {
        AtMostOnce(env, steps, s);
      }
    } else {
      var steps, s := ReplayRun(gap);
    }
  }
}
