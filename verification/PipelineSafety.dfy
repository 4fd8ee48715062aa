/**
  Safety of the pipeline over every run of interleaved requests, fetches and
  restarts: mediation, replay protection, accounting, freshness, key coherence.
 */
module PipelineSafety {
  import opened Common
  import opened Tokens
  import opened Pipeline
  import opened PipelineInvariant
  import PipelineRate
  import PipelineSteps
  import Json
  import JsonCanonical
  import NonceStore
  import NonceHistory
  import RateLimiter
  import RateRefinement
  import Policy

  // ---- Complete mediation ----

  /** The token was verified for this request under the first key of a document resolved for its issuer. */
  ghost predicate VerifiedUnderIssuerKey(env: Env, pre: seq<Event>, id: nat, token: string, claims: Claims) {
    && env.crypto.decode(token) == Some(claims)
    && exists key, at ::
         && TokenVerified(id, token, key, at) in pre && Genuine(env.crypto, token, key, env.serverDid, at)
         && claims.iss.Some? && ResolvedKey(pre, claims.iss.value, key)
  }

  /** At position `j` the registry returned to the request a map, current then, with this hash for the tool. */
  ghost predicate FitsReturned(env: Env, pre: seq<Event>, j: nat, id: nat, tool: string, hash: Option<string>) {
    && j < |pre| && pre[j].SpecsReturned? && pre[j].id == id
    && Current(env, pre[..j], pre[j].start, pre[j].specs) && HasHash(env, pre[j].specs, tool, hash)
  }

  /** The token's hash is that of the tool's spec in a map that the registry returned to this request. */
  ghost predicate HashOfCurrentSpec(env: Env, pre: seq<Event>, id: nat, tool: string, hash: Option<string>) {
    exists j :: FitsReturned(env, pre, j, id, tool, hash)
  }

  /** All that must have happened, for this very request, before a call leaves the proxy. */
  ghost predicate Mediated(env: Env, pre: seq<Event>, id: nat, tool: string, params: Json.Value, token: string) {
    exists claims ::
      && Requested(pre, id, ToolCall(token, claims, tool, params))
      && VerifiedUnderIssuerKey(env, pre, id, token, claims)
      && claims.tool == Some(tool)
      && claims.jti.Some? && claims.jti.value != "" && NoncePassed(pre, id, token, claims.jti.value)
      && claims.iss.Some? && RatePassed(pre, id, claims.iss.value)
      && Policy.IsAllowed(env.mode, claims.iss.value, tool, params) == Policy.Allowed
      && claims.toolHash.Some? && HashOfCurrentSpec(env, pre, id, tool, claims.toolHash)
  }

  lemma KeyWasResolved(env: Env, log: seq<Event>, id: nat, token: string, key: string, at: Time)
    requires HistoryOk(env, log) && TokenVerified(id, token, key, at) in log
    ensures Genuine(env.crypto, token, key, env.serverDid, at)
    ensures ResolvedKey(log, env.crypto.decode(token).value.iss.value, key)
  {
    var i :| 0 <= i < |log| && log[i] == TokenVerified(id, token, key, at);
    assert EventOk(env, log[..i], log[i]);
    var did := env.crypto.decode(token).value.iss.value;
    var doc :| DocResolved(did, doc) in log[..i] && doc.methods != [] && doc.methods[0] == Some(key);
    assert DocResolved(did, doc) in log;
  }

  /** Where a map came back to the request, with the hash that was compared. */
  lemma FindReturned(env: Env, log: seq<Event>, id: nat, call: ToolCall) returns (j: nat)
    requires HistoryOk(env, log) && HashPassed(env, log, id, call)
    ensures FitsReturned(env, log, j, id, call.tool, call.claims.toolHash)
  {
    hide Current, HasHash;
    var start, specs :| SpecsReturned(id, start, specs) in log
                        && HasHash(env, specs, call.tool, call.claims.toolHash);
    var i :| 0 <= i < |log| && log[i] == SpecsReturned(id, start, specs);
    assert EventOk(env, log[..i], log[i]);
    j := i;
  }

  lemma ForwardedIsVetted(env: Env, log: seq<Event>, i: nat)
    requires HistoryOk(env, log) && i < |log| && log[i].CallForwarded?
    ensures env.crypto.decode(log[i].token).Some?
    ensures var call := ToolCall(log[i].token, env.crypto.decode(log[i].token).value, log[i].tool, log[i].params);
            Vetted(env, log[..i], log[i].id, call) && HashPassed(env, log[..i], log[i].id, call)
  {
    assert EventOk(env, log[..i], log[i]);
  }

  lemma VettedUnderIssuerKey(env: Env, log: seq<Event>, id: nat, call: ToolCall)
    requires HistoryOk(env, log) && Vetted(env, log, id, call)
    ensures VerifiedUnderIssuerKey(env, log, id, call.token, call.claims)
  {
    var at :| VerifiedAt(env, log, id, call.token, call.claims, at);
    var key :| TokenVerified(id, call.token, key, at) in log
               && Genuine(env.crypto, call.token, key, env.serverDid, at);
    KeyWasResolved(env, log, id, call.token, key, at);
  }

  /** No call leaves the proxy unless every check passed for it, beforehand and on exactly what is sent. */
  lemma CompleteMediation(env: Env, steps: seq<Step>, s: State, i: nat)
    requires Reaches(env, steps, s) && i < |s.log| && s.log[i].CallForwarded?
    ensures Mediated(env, s.log[..i], s.log[i].id, s.log[i].tool, s.log[i].params, s.log[i].token)
  {
    PipelineSteps.RunKeeps(env, steps, s);
    ForwardedIsVetted(env, s.log, i);
    PrefixOk(env, s.log, i);
    var pre, id, tool, params, token := s.log[..i], s.log[i].id, s.log[i].tool, s.log[i].params, s.log[i].token;
    var call := ToolCall(token, env.crypto.decode(token).value, tool, params);
    VettedUnderIssuerKey(env, pre, id, call);
    var j := FindReturned(env, pre, id, call);
    hide FitsReturned, Requested, VerifiedUnderIssuerKey, NoncePassed, RatePassed, HistoryOk, InvExcept;
  }

  /** What the request arrived with, at position `n` of the history, is what left at position `i`. */
  ghost predicate AsArrived(log: seq<Event>, n: nat, i: nat)
    requires i < |log| && log[i].CallForwarded?
  {
    && n < i && log[n].CallArrived? && log[n].id == log[i].id
    && Bears(log[n].auth, log[i].token)
    && log[n].body.Some? && log[n].body.value.tool == Some(log[i].tool) && Carries(log[n].body.value, log[i].params)
  }

  /**
    What leaves the proxy is what its client sent. In every run a forwarded call has
    exactly one arrival with its number, and it carries the tool and the token that
    arrived, and the very parameters: {} where they were missing or falsy.
   */
  lemma ForwardedAsArrived(env: Env, steps: seq<Step>, s: State, i: nat)
    requires Reaches(env, steps, s) && i < |s.log| && s.log[i].CallForwarded?
    ensures exists n :: AsArrived(s.log, n, i)
    ensures forall n: nat | n < |s.log| && s.log[n].CallArrived? && s.log[n].id == s.log[i].id :: AsArrived(s.log, n, i)
  {
    PipelineSteps.RunKeeps(env, steps, s);
    LogAsArrived(env, s.log, i);
  }

  lemma LogAsArrived(env: Env, log: seq<Event>, i: nat)
    requires HistoryOk(env, log) && i < |log| && log[i].CallForwarded?
    ensures exists n :: AsArrived(log, n, i)
    ensures forall n: nat | n < |log| && log[n].CallArrived? && log[n].id == log[i].id :: AsArrived(log, n, i)
  {
    ForwardedIsVetted(env, log, i);
    var e := log[i];
    var body, auth :| CallArrived(e.id, auth, Some(body)) in log[..i] && Bears(auth, e.token)
                      && body.tool == Some(e.tool) && Carries(body, e.params);
    var n: nat :| n < i && log[n] == CallArrived(e.id, auth, Some(body));
    assert AsArrived(log, n, i);
    forall m: nat | m < |log| && log[m].CallArrived? && log[m].id == e.id
      ensures m == n
    {
      ArrivesOnce(env, log, if m < n then m else n, if m < n then n else m);
    }
  }

  lemma ArrivesFirst(env: Env, log: seq<Event>, m: nat, n: nat)
    requires HistoryOk(env, log) && m < n < |log| && log[n].CallArrived?
    ensures IdOf(log[m]) != Some(log[n].id)
  {
    assert EventOk(env, log[..n], log[n]);
    assert log[m] in log[..n];
  }

  lemma ArrivesOnce(env: Env, log: seq<Event>, m: nat, n: nat)
    requires HistoryOk(env, log) && m <= n < |log| && log[m].CallArrived? && log[n].CallArrived?
    requires log[m].id == log[n].id
    ensures m == n
  {
    if m < n {
      ArrivesFirst(env, log, m, n);
    }
  }

  // ---- Replay protection ----

  lemma {:induction false} NonceOpsPrefix(log: seq<Event>, i: nat)
    requires i <= |log|
    ensures NonceOps(log[..i]) <= NonceOps(log)
    ensures i < |log| && log[i].NonceChecked? ==>
              var p := |NonceOps(log[..i])|;
              p < |NonceOps(log)|
              && NonceOps(log)[p] == NonceHistory.Admit(log[i].jti, log[i].exp, log[i].tCheck, log[i].tStore)
  {
    if i < |log| {
      var init := log[..|log| - 1];
      if i < |init| {
        assert init[..i] == log[..i];
        NonceOpsPrefix(init, i);
      } else {
        assert log[..i] == init;
      }
    } else {
      assert log[..i] == log;
    }
  }

  lemma LastReadings(env: Env, log: seq<Event>, now: Time)
    requires HistoryOk(env, log) && ReadingsUpTo(log, now) && log != []
    ensures var init, e := log[..|log| - 1], log[|log| - 1];
            && (e.NonceChecked? ==> ReadingsUpTo(init, e.tCheck) && e.tCheck <= e.tStore <= now)
            && ReadingsUpTo(init, now)
  {
    var init, e := log[..|log| - 1], log[|log| - 1];
    assert EventOk(env, log[..|log| - 1], log[|log| - 1]);
    assert e in log && forall x | x in init :: x in log;
  }

  lemma {:induction false} NonceReadings(env: Env, log: seq<Event>, now: Time)
    requires HistoryOk(env, log) && ReadingsUpTo(log, now)
    ensures forall m | 0 <= m < |NonceOps(log)| && !NonceOps(log)[m].Restart? ::
              NonceHistory.LastReading(NonceOps(log)[m]) <= now
    ensures NonceHistory.ClockOrdered(NonceOps(log))
  {
    hide EventOk;
    if log != [] {
      var init, e := log[..|log| - 1], log[|log| - 1];
      PrefixOk(env, log, |init|);
      LastReadings(env, log, now);
      NonceReadings(env, init, if e.NonceChecked? then e.tCheck else now);
    }
  }

  lemma UnseenIsAccepted(env: Env, log: seq<Event>, i: nat)
    requires HistoryOk(env, log) && i < |log| && log[i].NonceChecked? && log[i].unseen
    ensures NonceHistory.Accepted(NonceOps(log), |NonceOps(log[..i])|)
  {
    NonceOpsPrefix(log, i);
    assert EventOk(env, log[..i], log[i]);
    var ops, p := NonceOps(log), |NonceOps(log[..i])|;
    assert ops[..p] == NonceOps(log[..i]);
  }

  /** A verified token's expiry is positive, so the table keeps it as it is. */
  lemma ExpiryIsKept(env: Env, log: seq<Event>, i: nat)
    requires HistoryOk(env, log) && i < |log| && log[i].NonceChecked?
    ensures NonceStore.EffectiveExpiry(log[i].exp, log[i].tStore) == log[i].exp
  {
    assert EventOk(env, log[..i], log[i]);
  }

  /**
    Two requests pass the replay check with one jti only if the first one's expiry
    lies below floor of the second one's check time.
   */
  lemma NonceReuse(env: Env, steps: seq<Step>, s: State, i: nat, k: nat)
    requires Reaches(env, steps, s) && i < k < |s.log|
    requires s.log[i].NonceChecked? && s.log[i].unseen && s.log[k].NonceChecked? && s.log[k].unseen
    requires s.log[i].jti == s.log[k].jti
    ensures s.log[i].exp < s.log[k].tCheck.Floor
  {
    PipelineSteps.RunKeeps(env, steps, s);
    HistoryReuse(env, s.log, s.clock, i, k);
  }

  lemma HistoryReuse(env: Env, log: seq<Event>, now: Time, i: nat, k: nat)
    requires HistoryOk(env, log) && ReadingsUpTo(log, now) && i < k < |log|
    requires log[i].NonceChecked? && log[i].unseen && log[k].NonceChecked? && log[k].unseen
    requires log[i].jti == log[k].jti
    ensures log[i].exp < log[k].tCheck.Floor
  {
    var ops, p, q := NonceOps(log), |NonceOps(log[..i])|, |NonceOps(log[..k])|;
    NonceOpsPrefix(log, i);
    NonceOpsPrefix(log, k);
    assert p < q by {
      assert log[..k][..i] == log[..i];
      NonceOpsPrefix(log[..k], i);
    }
    UnseenIsAccepted(env, log, i);
    UnseenIsAccepted(env, log, k);
    NonceReadings(env, log, now);
    NonceHistory.ReadmissionIsPastExpiry(ops, p, q);
    ExpiryIsKept(env, log, i);
  }

  /** Every request was checked against the nonce table at most `gap` seconds after its verification. */
  ghost predicate GapAtMost(log: seq<Event>, gap: real) {
    forall e | e in log && e.NonceChecked? :: e.tCheck - e.tVerify <= gap
  }

  ghost predicate ForwardedOnce(log: seq<Event>) {
    forall i, k | 0 <= i < k < |log| && log[i].CallForwarded? && log[k].CallForwarded? :: log[i].token != log[k].token
  }

  /** Where a passed nonce check of the request stands in the history. */
  lemma FindNonce(log: seq<Event>, id: nat, token: string, jti: string) returns (n: nat)
    requires NoncePassed(log, id, token, jti)
    ensures n < |log| && log[n].NonceChecked? && log[n].unseen && log[n].id == id && log[n].token == token
  {
    var exp, tVerify, tCheck, tStore :| NonceChecked(id, token, jti, exp, tVerify, tCheck, tStore, true) in log;
    var m :| 0 <= m < |log| && log[m] == NonceChecked(id, token, jti, exp, tVerify, tCheck, tStore, true);
    n := m;
  }

  /** Each forwarded call has its own passed nonce check. */
  lemma ForwardHasNonce(env: Env, log: seq<Event>, i: nat) returns (n: nat)
    requires HistoryOk(env, log) && i < |log| && log[i].CallForwarded?
    ensures n < i && log[n].NonceChecked? && log[n].unseen
    ensures log[n].id == log[i].id && log[n].token == log[i].token
  {
    assert EventOk(env, log[..i], log[i]);
    var claims := env.crypto.decode(log[i].token).value;
    n := FindNonce(log[..i], log[i].id, log[i].token, claims.jti.value);
  }

  lemma DistinctForwards(env: Env, log: seq<Event>, i: nat, k: nat)
    requires HistoryOk(env, log) && i < k < |log| && log[i].CallForwarded? && log[k].CallForwarded?
    ensures log[i].id != log[k].id
  {
    assert EventOk(env, log[..k], log[k]);
    assert log[i] in log[..k];
  }

  /** One token passing the check in two requests needs more than a second between verification and check. */
  lemma ReuseNeedsGap(env: Env, log: seq<Event>, now: Time, i: nat, k: nat)
    requires HistoryOk(env, log) && ReadingsUpTo(log, now) && i < k < |log|
    requires log[i].NonceChecked? && log[i].unseen && log[k].NonceChecked? && log[k].unseen
    requires log[i].token == log[k].token
    ensures log[k].tCheck - log[k].tVerify > 1.0
  {
    assert EventOk(env, log[..i], log[i]) && EventOk(env, log[..k], log[k]);
    HistoryReuse(env, log, now, i, k);
  }

  lemma ForwardsAreOnce(env: Env, s: State)
    requires Inv(env, s) && GapAtMost(s.log, 1.0)
    ensures ForwardedOnce(s.log)
  {
    hide HistoryOk, ReadingsUpTo, PhaseOk;
    forall i, k | 0 <= i < k < |s.log| && s.log[i].CallForwarded? && s.log[k].CallForwarded?
      ensures s.log[i].token != s.log[k].token
    {
      var m := ForwardHasNonce(env, s.log, i);
      var n := ForwardHasNonce(env, s.log, k);
      DistinctForwards(env, s.log, i, k);
      if s.log[i].token == s.log[k].token {
        assert s.log[m] in s.log && s.log[n] in s.log;
        if m < n {
          ReuseNeedsGap(env, s.log, s.clock, m, n);
        } else {
          ReuseNeedsGap(env, s.log, s.clock, n, m);
        }
      }
    }
  }

  /**
    At most once: if no request waits more than one second between verifying its
    token and checking its nonce, no token is ever forwarded twice, across any
    interleaving of requests and any number of restarts.
   */
  lemma AtMostOnce(env: Env, steps: seq<Step>, s: State)
    requires Reaches(env, steps, s) && GapAtMost(s.log, 1.0)
    ensures ForwardedOnce(s.log)
  {
    PipelineSteps.RunKeeps(env, steps, s);
    ForwardsAreOnce(env, s);
  }

  // ---- Accounting ----

  /** The nonce that pays for a rate admission: same request, passed check, token issued by the charged DID. */
  ghost predicate PaysFor(env: Env, log: seq<Event>, n: nat, i: nat) {
    && n < i < |log| && log[n].NonceChecked? && log[i].RateChecked? && log[n].unseen
    && log[n].id == log[i].id
    && env.crypto.decode(log[n].token).Some?
    && env.crypto.decode(log[n].token).value.iss == Some(log[i].did)
    && VerifiedUnderIssuerKey(env, log, log[n].id, log[n].token, env.crypto.decode(log[n].token).value)
  }

  /**
    Every rate admission is paid for by a recorded nonce of a verified token of the
    charged DID, and no nonce pays twice; what the limiter stores is made of those
    admissions.
   */
  lemma Accounting(env: Env, steps: seq<Step>, s: State)
    requires Reaches(env, steps, s)
    ensures forall i | 0 <= i < |s.log| && s.log[i].RateChecked? :: exists n :: PaysFor(env, s.log, n, i)
    ensures forall n, i, k :: PaysFor(env, s.log, n, i) && PaysFor(env, s.log, n, k) ==> i == k
    ensures forall did ::
              multiset(RateLimiter.TimestampsOf(s.limiter, did)) <= multiset(PipelineRate.AdmittedTimes(s.log, did))
  {
    PipelineSteps.RunKeeps(env, steps, s);
    forall i | 0 <= i < |s.log| && s.log[i].RateChecked?
      ensures exists n :: PaysFor(env, s.log, n, i)
    {
      var n := PayingNonce(env, s.log, i);
    }
    forall n, i, k | PaysFor(env, s.log, n, i) && PaysFor(env, s.log, n, k)
      ensures i == k
    {
      if i < k {
        DistinctRateChecks(env, s.log, i, k);
      } else if k < i {
        DistinctRateChecks(env, s.log, k, i);
      }
    }
    forall did
      ensures multiset(RateLimiter.TimestampsOf(s.limiter, did)) <= multiset(PipelineRate.AdmittedTimes(s.log, did))
    {
      PipelineRate.AdmittedIsHistory(env, s.log, did);
      RateRefinement.ListIsPartOfHistory(RateCalls(s.log), did);
    }
  }

  lemma DistinctRateChecks(env: Env, log: seq<Event>, i: nat, k: nat)
    requires HistoryOk(env, log) && i < k < |log| && log[i].RateChecked? && log[k].RateChecked?
    ensures log[i].id != log[k].id
  {
    assert EventOk(env, log[..k], log[k]);
    assert log[i] in log[..k];
  }

  /** A nonce check was made on a token verified under a key of its issuer. */
  lemma NonceHasVerification(env: Env, log: seq<Event>, n: nat)
    requires HistoryOk(env, log) && n < |log| && log[n].NonceChecked?
    ensures env.crypto.decode(log[n].token).Some?
    ensures VerifiedUnderIssuerKey(env, log, log[n].id, log[n].token, env.crypto.decode(log[n].token).value)
  {
    var NonceChecked(id, token, _, _, tVerify, _, _, _) := log[n];
    assert EventOk(env, log[..n], log[n]);
    var key :| TokenVerified(id, token, key, tVerify) in log[..n]
               && Genuine(env.crypto, token, key, env.serverDid, tVerify);
    assert TokenVerified(id, token, key, tVerify) in log;
    KeyWasResolved(env, log, id, token, key, tVerify);
  }

  lemma PayingNonce(env: Env, log: seq<Event>, i: nat) returns (n: nat)
    requires HistoryOk(env, log) && i < |log| && log[i].RateChecked?
    ensures PaysFor(env, log, n, i)
  {
    var pre, id, did := log[..i], log[i].id, log[i].did;
    assert EventOk(env, pre, log[i]);
    var token, jti :| NoncePassed(pre, id, token, jti) && env.crypto.decode(token).Some?
                      && env.crypto.decode(token).value.iss == Some(did);
    n := FindNonce(pre, id, token, jti);
    NonceHasVerification(env, log, n);
  }

  // ---- Caches ----

  /**
    In local mode every spec map that a fetch returns, however fetches overlap and
    finish, is what upstream served later than 30 seconds before that fetch began.
   */
  lemma SpecFreshness(env: Env, steps: seq<Step>, s: State, i: nat)
    requires Reaches(env, steps, s) && i < |s.log| && s.log[i].SpecsReturned? && env.mode == "local"
    ensures exists at :: UpstreamServed(at, s.log[i].specs) in s.log[..i] && at > s.log[i].start - 30.0
  {
    PipelineSteps.RunKeeps(env, steps, s);
    assert EventOk(env, s.log[..i], s.log[i]);
  }

  // ---- What the hash of a forwarded call guarantees ----

  /** The registry returned to the request a map in which the tool's spec has the same canonical form, or collides. */
  ghost predicate SpecAgrees(env: Env, pre: seq<Event>, id: nat, tool: string, x: Json.Value) {
    exists start, specs ::
      && SpecsReturned(id, start, specs) in pre && tool in specs
      && (JsonCanonical.SameForm(specs[tool], x)
          || JsonCanonical.Collision(env.crypto.digest, Json.Dumps(specs[tool]), Json.Dumps(x)))
  }

  /**
    In every run, a forwarded call whose token carries the hash of spec `x` was compared
    with a spec of the same canonical form, which for parsed JSON means `x` up to key
    order, or else the two canonical forms are a collision of the digest.
   */
  lemma ForwardedSpecIsSigned(env: Env, steps: seq<Step>, s: State, i: nat, x: Json.Value)
    requires Reaches(env, steps, s) && i < |s.log| && s.log[i].CallForwarded?
    requires var claims := env.crypto.decode(s.log[i].token);
             claims.Some? && claims.value.toolHash == Some(env.crypto.digest(Json.Dumps(x)))
    ensures SpecAgrees(env, s.log[..i], s.log[i].id, s.log[i].tool, x)
  {
    PipelineSteps.RunKeeps(env, steps, s);
    ForwardedIsVetted(env, s.log, i);
    var CallForwarded(id, tool, _, token) := s.log[i];
    hide Vetted, RunFrom, InvExcept;
    var start, specs :| SpecsReturned(id, start, specs) in s.log[..i]
                        && HasHash(env, specs, tool, env.crypto.decode(token).value.toolHash);
    JsonCanonical.HashDetectsAnyChange(env.crypto.digest, specs[tool], x);
  }

  /**
    Every cached key of a DID is the first key of a document resolved for that DID,
    and every verification used such a key of the token's own issuer.
   */
  lemma KeyCacheCoherence(env: Env, steps: seq<Step>, s: State)
    requires Reaches(env, steps, s)
    ensures forall did | did in s.resolver.keys :: ResolvedKey(s.log, did, s.resolver.keys[did])
    ensures forall id, token, key, at | TokenVerified(id, token, key, at) in s.log ::
              Genuine(env.crypto, token, key, env.serverDid, at)
              && ResolvedKey(s.log, env.crypto.decode(token).value.iss.value, key)
  {
    PipelineSteps.RunKeeps(env, steps, s);
    forall id, token, key, at | TokenVerified(id, token, key, at) in s.log
      ensures Genuine(env.crypto, token, key, env.serverDid, at)
      ensures ResolvedKey(s.log, env.crypto.decode(token).value.iss.value, key)
    {
      KeyWasResolved(env, s.log, id, token, key, at);
    }
  }
}
