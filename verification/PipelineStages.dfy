/** The stage that a denial reports, and what a denied request leaves behind. */
module PipelineStages {
  import opened Common
  import opened Tokens
  import opened Pipeline
  import opened PipelineInvariant
  import Json
  import PipelineGap
  import PipelineRuns
  import PipelineSteps
  import NonceStore
  import RateLimiter
  import DidResolver
  import Policy

  /** One check of the pipeline with the outcome that its failure has. */
  datatype Guard = Guard(failure: Outcome, holds: bool)

  /** The outcome of the first guard, in order, that does not hold. */
  function FirstFailure(guards: seq<Guard>): Option<Outcome> {
    if guards == [] then None
    else if !guards[0].holds then Some(guards[0].failure)
    else FirstFailure(guards[1..])
  }

  // ---- Header to signature, lines 205-242 ----

  /** The issuer's key: cached, or from what the lookup brings. */
  function KeyFor(s: State, did: string, file: Option<DidResolver.Doc>, web: Option<DidResolver.Doc>): Option<string> {
    if did in s.resolver.keys then Some(s.resolver.keys[did]) else DidResolver.Finished(s.resolver, did, file, web).1
  }

  function EarlyGuards(env: Env, s: State, auth: string, file: Option<DidResolver.Doc>, web: Option<DidResolver.Doc>,
                       now: Time): seq<Guard> {
    var token := BearerToken(auth);
    var claims := if token.Some? then env.crypto.decode(token.value) else None;
    var key := if claims.Some? then KeyFor(s, IssuerOf(claims.value), file, web) else None;
    [ Guard(Denied(TokenPresence), token.Some?),
      Guard(Denied(JwtDecode), claims.Some?),
      Guard(Denied(DidResolution), key.Some?),
      Guard(Denied(JwtVerification),
            key.Some? && Genuine(env.crypto, token.value, key.value, env.serverDid, now)) ]
  }

  /** The state once the request is past the key lookup, whether or not it had to wait for it. */
  function AfterLookup(env: Env, s: State, id: nat, auth: string, body: Option<Body>,
                       file: Option<DidResolver.Doc>, web: Option<DidResolver.Doc>, now: Time): State {
    var s1 := Begin(env, s, id, auth, body, now);
    if id in s1.reqs && s1.reqs[id].Resolving? then
      KeyArrived(env, s1, id, s1.reqs[id].token, s1.reqs[id].claims, s1.reqs[id].body, file, web, now)
    else s1
  }

  lemma FirstFailureOfFour(g: seq<Guard>)
    requires |g| == 4
    ensures FirstFailure(g) ==
            if !g[0].holds then Some(g[0].failure) else if !g[1].holds then Some(g[1].failure)
            else if !g[2].holds then Some(g[2].failure) else if !g[3].holds then Some(g[3].failure) else None
  {
    assert g[1..][1..] == g[2..] && g[2..][1..] == g[3..] && g[3..][1..] == [];
    assert FirstFailure(g[3..]) == if !g[3].holds then Some(g[3].failure) else None;
    assert FirstFailure(g[2..]) == if !g[2].holds then Some(g[2].failure) else FirstFailure(g[3..]);
  }

  /** What verification under a key that may be missing makes of a request. */
  function VerifiedPhase(env: Env, token: string, claims: Claims, key: Option<string>, body: Option<Body>,
                         now: Time): Phase {
    if key.None? then Done(Denied(DidResolution))
    else if !Genuine(env.crypto, token, key.value, env.serverDid, now) then Done(Denied(JwtVerification))
    else Verified(token, claims, now, body)
  }

  lemma LookupEnds(env: Env, s: State, id: nat, token: string, claims: Claims, body: Option<Body>,
                   file: Option<DidResolver.Doc>, web: Option<DidResolver.Doc>, now: Time)
    requires env.crypto.decode(token) == Some(claims)
    ensures var s' := KeyArrived(env, s, id, token, claims, body, file, web, now);
            var key := DidResolver.Finished(s.resolver, IssuerOf(claims), file, web).1;
            && id in s'.reqs && s'.nonces == s.nonces && s'.limiter == s.limiter
            && s'.reqs[id] == VerifiedPhase(env, token, claims, key, body, now)
  {
    var key := DidResolver.Finished(s.resolver, IssuerOf(claims), file, web).1;
    if key.Some? {
      VerifiesExactly(env.crypto, token, key.value, env.serverDid, now);
    }
    hide VerifyToken, Genuine, DidResolver.Document, DidResolver.Finished;
  }

  lemma CachedEnds(env: Env, s: State, id: nat, token: string, claims: Claims, key: string, body: Option<Body>,
                   now: Time)
    requires env.crypto.decode(token) == Some(claims)
    ensures var s' := VerifyWith(env, s, id, token, claims, key, body, now);
            && id in s'.reqs && s'.nonces == s.nonces && s'.limiter == s.limiter
            && s'.reqs[id] == VerifiedPhase(env, token, claims, Some(key), body, now)
  {
    VerifiesExactly(env.crypto, token, key, env.serverDid, now);
    hide VerifyToken, Genuine;
  }

  /**
    Cached key or not, the reported stage is the first failing guard, a request that
    passes all four is verified with the claims of its token, and neither the nonce
    table nor the limiter has moved.
   */
  lemma EarlyStageIsFirstFailure(env: Env, s: State, id: nat, auth: string, body: Option<Body>,
                                 file: Option<DidResolver.Doc>, web: Option<DidResolver.Doc>, now: Time)
    ensures var s' := AfterLookup(env, s, id, auth, body, file, web, now);
            && id in s'.reqs && s'.nonces == s.nonces && s'.limiter == s.limiter
            && match FirstFailure(EarlyGuards(env, s, auth, file, web, now))
               case Some(failure) => s'.reqs[id] == Done(failure)
               case None => BearerToken(auth).Some? && env.crypto.decode(BearerToken(auth).value).Some?
                            && s'.reqs[id] == Verified(BearerToken(auth).value,
                                                       env.crypto.decode(BearerToken(auth).value).value, now, body)
  {
    FirstFailureOfFour(EarlyGuards(env, s, auth, file, web, now));
    hide FirstFailure, BearerToken, Genuine, DidResolver.Document, DidResolver.Finished, VerifyWith, KeyArrived;
    match BearerToken(auth)
    case None =>
    case Some(token) =>
      match env.crypto.decode(token)
      case None =>
      case Some(claims) =>
        if IssuerOf(claims) in s.resolver.keys {
          CachedEnds(env, s, id, token, claims, s.resolver.keys[IssuerOf(claims)], body, now);
        } else {
          LookupEnds(env, Goto(s, id, Resolving(token, claims, body)), id, token, claims, body, file, web, now);
        }
  }

  // ---- The check stretch, lines 246-286 ----

  /** What policy decides; a missing tool never gets that far. */
  function Decision(env: Env, did: string, body: Body, params: Json.Value): Policy.Decision {
    if body.tool.Some? then Policy.IsAllowed(env.mode, did, body.tool.value, params) else Policy.Blocked
  }

  /** The documented checks of the stretch, each evaluated on the state before the request. */
  function CheckGuards(env: Env, s: State, claims: Claims, body: Body, params: Json.Value,
                       t: Readings): seq<Guard> {
    var did := if claims.iss.Some? then claims.iss.value else "";
    [ Guard(Denied(RequestParse), Given(body.tool)),
      Guard(Denied(ToolBinding), claims.tool == body.tool),
      Guard(Denied(ReplayProtection), Given(claims.jti)),
      Guard(Denied(ReplayProtection), claims.jti.Some? && !NonceStore.Seen(s.nonces, claims.jti.value, t.tCheck)),
      Guard(Denied(RateLimit), RateLimiter.Admits(s.limiter, did, t.tRate, t.tClean)),
      Guard(Crashed, Decision(env, did, body, params) != Policy.Raises),
      Guard(Denied(PolicyEnforcement), Decision(env, did, body, params) != Policy.Blocked),
      Guard(Denied(ToolIntegrity), Given(claims.toolHash)) ]
  }

  /** All guards up to and including number `k` hold. */
  predicate HoldsThrough(guards: seq<Guard>, k: nat) {
    k < |guards| && forall i | 0 <= i <= k :: guards[i].holds
  }

  lemma FirstFailureOfEight(g: seq<Guard>)
    requires |g| == 8
    ensures FirstFailure(g) ==
            if !g[0].holds then Some(g[0].failure) else if !g[1].holds then Some(g[1].failure)
            else if !g[2].holds then Some(g[2].failure) else if !g[3].holds then Some(g[3].failure)
            else FirstFailure(g[4..])
    ensures FirstFailure(g[4..]) ==
            if !g[4].holds then Some(g[4].failure) else if !g[5].holds then Some(g[5].failure)
            else if !g[6].holds then Some(g[6].failure) else if !g[7].holds then Some(g[7].failure) else None
  {
    FirstFailureOfFour(g[4..]);
    assert g[1..][1..] == g[2..] && g[2..][1..] == g[3..] && g[3..][1..] == g[4..];
    assert FirstFailure(g[3..]) == if !g[3].holds then Some(g[3].failure) else FirstFailure(g[4..]);
    assert FirstFailure(g[2..]) == if !g[2].holds then Some(g[2].failure) else FirstFailure(g[3..]);
  }

  /**
    The reported stage is the first failing guard; a policy rule that raises ends the
    request without a stage. The nonce table is touched only once tool, binding and
    jti are right, a row is written only for an unseen jti, and the limiter is charged
    only after that.
   */
  lemma StageIsFirstFailure(env: Env, s: State, id: nat, token: string, claims: Claims, tVerify: Time,
                            body: Body, params: Json.Value, t: Readings)
    requires Carries(body, params)
    ensures var g := CheckGuards(env, s, claims, body, params, t);
            var s' := CheckRequest(env, s, id, token, claims, tVerify, Some(body), t);
            && id in s'.reqs
            && (match FirstFailure(g)
                case Some(failure) => s'.reqs[id] == Done(failure)
                case None => body.tool.Some? &&
                             s'.reqs[id] == Checked(ToolCall(token, claims, body.tool.value, params)))
            && (!HoldsThrough(g, 2) ==> s'.nonces == s.nonces)
            && (!HoldsThrough(g, 3) ==> s'.limiter == s.limiter && s'.nonces.rows.Keys <= s.nonces.rows.Keys)
            && (HoldsThrough(g, 3) ==> claims.jti.Some? && claims.jti.value in s'.nonces.rows)
  {
    FirstFailureOfEight(CheckGuards(env, s, claims, body, params, t));
    NormalParamsCarried(body);
    hide FirstFailure, Policy.IsAllowed, RateLimiter.Admits, RateLimiter.Checked;
  }

  /** A body that is no JSON object ends the request in a server error, before anything is touched. */
  lemma UnreadableBodyCrashes(env: Env, s: State, id: nat, t: Readings)
    requires Enabled(s, CheckStep(id, t)) && s.reqs[id].body == None
    ensures Apply(env, s, CheckStep(id, t)) == s.(reqs := s.reqs[id := Done(Crashed)], clock := t.tClean)
  {
  }

  /** In local mode a failed fetch of the specs ends the request in a server error and caches nothing. */
  lemma FailedFetchCrashes(env: Env, s: State, id: nat, servedAt: real, monoNow: real)
    requires env.mode == "local" && Enabled(s, AnswerStep(id, None, servedAt, monoNow))
    ensures var s' := Apply(env, s, AnswerStep(id, None, servedAt, monoNow));
            s'.reqs == s.reqs[id := Done(Crashed)] && s'.registry == s.registry
  {
  }

  // ---- Denials over whole runs ----

  /**
    In every reachable state of every run, a request that was denied has left exactly
    the trace of its stage: nothing before the replay check; there, a refused check
    and no more; at the rate limit, its recorded nonce and a refused rate check; at
    policy and tool integrity, its nonce and its admission; and never a forward.
   */
  lemma DenialsLeaveTheirTrace(env: Env, steps: seq<Step>, s: State, id: nat)
    requires Reaches(env, steps, s) && id in s.reqs && s.reqs[id].Done? && s.reqs[id].outcome.Denied?
    ensures DenialOk(s.log, id, s.reqs[id].outcome.stage) && NoForward(s.log, id)
  {
    PipelineSteps.RunKeeps(env, steps, s);
    assert PhaseOk(env, s.log, id, s.reqs[id]);
    hide InvExcept, HistoryOk;
  }

  /**
    What a request reports, against what happened upstream: success exactly if a reply
    arrived that was no error, and then its call was forwarded; a denial if nothing
    was sent. A request whose call was forwarded ends in success exactly with such a
    reply, and crashes with any other.
   */
  lemma OutcomeTellsUpstream(env: Env, steps: seq<Step>, s: State, id: nat)
    requires Reaches(env, steps, s) && id in s.reqs && s.reqs[id].Done?
    ensures s.reqs[id].outcome == Forwarded <==> ReplyArrived(id, true) in s.log
    ensures s.reqs[id].outcome == Forwarded ==> WasForwarded(s.log, id)
    ensures s.reqs[id].outcome.Denied? ==> !WasForwarded(s.log, id)
    ensures WasForwarded(s.log, id) ==> s.reqs[id].outcome in {Forwarded, Crashed}
  {
    PipelineSteps.RunKeeps(env, steps, s);
    assert PhaseOk(env, s.log, id, s.reqs[id]);
    if NoForward(s.log, id) {
      NothingSentNothingBack(s.log, id);
    }
    hide InvExcept, HistoryOk, WasForwarded;
  }

  /** A call can go upstream and its client still be told of a failure. */
  lemma CrashAfterForward() returns (steps: seq<Step>, s: State, id: nat)
    ensures Reaches(PipelineRuns.DemoEnv(), steps, s) && WasForwarded(s.log, id)
    ensures id in s.reqs && s.reqs[id] == Done(Crashed)
  {
    steps, s, id := ForwardedRun();
    hide PipelineRuns.DemoEnv, Reaches, RunFrom;
    var s' := Reply(s, id, false);
    PipelineRuns.OneMore(PipelineRuns.DemoEnv(), steps, s, ReplyStep(id, false), s');
    ForwardGrows(s.log, ReplyArrived(id, false), id);
    steps, s := steps + [ReplyStep(id, false)], s';
  }

  lemma ForwardedRun() returns (steps: seq<Step>, s: State, id: nat)
    ensures Reaches(PipelineRuns.DemoEnv(), steps, s) && WasForwarded(s.log, id)
    ensures id in s.reqs && s.reqs[id].Awaiting?
  {
    hide PipelineRuns.DemoEnv, PipelineRuns.Token, NonceStore.Stored, RateLimiter.Checked;
    PipelineGap.FirstPasses();
    id := INITIAL.nextId;
    steps, s := PipelineRuns.VerifyNext([], INITIAL, 0, 0.0);
    steps, s := PipelineRuns.CheckNext(steps, s, id, 0, 0.0, PipelineRuns.At(0.0));
    var log, m := s.log, 30.0;
    steps, s := PipelineRuns.ForwardNext(steps, s, id, 0, m);
    var call := PipelineRuns.CallOf(PipelineRuns.Token(0));
    assert s.log[|s.log| - 1] == CallForwarded(id, call.tool, call.params, call.token);
  }

  /** Only the check and a restart touch the nonce table and the limiter: earlier denials leave both as they were. */
  lemma OnlyChecksTouchStores(env: Env, s: State, step: Step)
    requires Enabled(s, step) && !step.CheckStep? && step != RestartStep
    ensures Apply(env, s, step).nonces == s.nonces && Apply(env, s, step).limiter == s.limiter
  {
  }
}
