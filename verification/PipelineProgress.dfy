/**
  No false positives: a request that is in order is never turned away, whatever the
  other requests do, and what is forwarded for it is exactly what it asked for.
 */
module PipelineProgress {
  import opened Common
  import opened Tokens
  import opened Pipeline
  import opened PipelineInvariant
  import PipelineSteps
  import PipelineRate
  import Json
  import NonceStore
  import NonceHistory
  import RateLimiter
  import RateHistory
  import DidResolver
  import Policy
  import ToolRegistry

  /** A request as the client sends it, what its token says under its issuer's key, and its parameters. */
  datatype Request = Request(auth: string, body: Body, token: string, claims: Claims, key: string, params: Json.Value)

  function CallOf(r: Request): ToolCall
    requires r.body.tool.Some?
  {
    ToolCall(r.token, r.claims, r.body.tool.value, r.params)
  }

  /** The request is in order, apart from time and the state of the stores. */
  ghost predicate InOrder(env: Env, r: Request) {
    && Bears(r.auth, r.token) && Carries(r.body, r.params)
    && env.crypto.decode(r.token) == Some(r.claims)
    && env.crypto.signedBy(r.token, r.key)
    && HasRequiredClaims(r.claims) && env.serverDid in r.claims.aud.value
    && Given(r.body.tool) && r.claims.tool == r.body.tool
    && Given(r.claims.jti) && Given(r.claims.toolHash)
    && Policy.IsAllowed(env.mode, r.claims.iss.value, r.body.tool.value, r.params) == Policy.Allowed
  }

  predicate InLifetime(claims: Claims, now: Time)
    requires HasRequiredClaims(claims)
  {
    claims.iat.value as real <= now < claims.exp.value as real
  }

  /** The step's request, for steps of a request. */
  function StepId(step: Step): Option<nat> {
    match step
    case BeginStep(id, _) => Some(id)
    case KeyStep(id, _, _, _) => Some(id)
    case CheckStep(id, _) => Some(id)
    case FetchStep(id, _) => Some(id)
    case AnswerStep(id, _, _, _) => Some(id)
    case ForwardStep(id) => Some(id)
    case ReplyStep(id, _) => Some(id)
    case _ => None
  }

  /** The tool's hash in a returned map is the one in the token. */
  predicate HashFits(env: Env, r: Request, specs: Option<ToolRegistry.Specs>)
    requires r.body.tool.Some?
  {
    specs.Some? && HasHash(env, specs.value, r.body.tool.value, r.claims.toolHash)
  }

  /** What the stores and the outside world must offer when the request takes this step. */
  ghost predicate Served(env: Env, s: State, id: nat, step: Step, r: Request)
    requires InOrder(env, r)
  {
    step != RestartStep &&
    (StepId(step) == Some(id) ==>
      match step
      case BeginStep(_, now) =>
        var key := DidResolver.CachedKey(s.resolver, r.claims.iss.value);
        key.Some? ==> key == Some(r.key) && InLifetime(r.claims, now)
      case KeyStep(_, file, web, now) =>
        InLifetime(r.claims, now)
        && DidResolver.Finished(s.resolver, r.claims.iss.value, file, web).1 == Some(r.key)
      case CheckStep(_, t) =>
        && !NonceStore.Seen(s.nonces, r.claims.jti.value, t.tCheck)
        && RateLimiter.Admits(s.limiter, r.claims.iss.value, t.tRate, t.tClean)
      case FetchStep(_, now) =>
        var specs := ToolRegistry.Begun(s.registry, UpstreamOf(env), now);
        specs.None? || HashFits(env, r, specs)
      case AnswerStep(_, answer, _, _) =>
        id in s.reqs && s.reqs[id].Fetching? ==>
          HashFits(env, r, ToolRegistry.Ended(s.registry, UpstreamOf(env), s.reqs[id].start, answer).1)
      case ForwardStep(_) => env.mode == "local" || env.hasPat
      case ReplyStep(_, ok) => ok
      case _ => true)
  }

  /** The request is still under way with its own values, or has been forwarded as it asked. */
  ghost predicate OnTrack(env: Env, s: State, id: nat, r: Request)
    requires InOrder(env, r)
  {
    id in s.reqs &&
    match s.reqs[id]
    case Arrived(auth, body) => auth == r.auth && body == Some(r.body)
    case ListArrived => false
    case Resolving(token, claims, body) => token == r.token && claims == r.claims && body == Some(r.body)
    case Verified(token, claims, _, body) => token == r.token && claims == r.claims && body == Some(r.body)
    case Checked(call) => call == CallOf(r)
    case Fetching(_, purpose) => purpose == Some(CallOf(r))
    case Passed(call) => call == CallOf(r)
    case Awaiting(_) => CallForwarded(id, r.body.tool.value, r.params, r.token) in s.log
    case Done(outcome) =>
      outcome == Forwarded && CallForwarded(id, r.body.tool.value, r.params, r.token) in s.log
  }

  /** Steps of other requests leave a request where it is; the history only grows. */
  lemma OthersKeepPhase(env: Env, s: State, step: Step, id: nat)
    requires Enabled(s, step) && StepId(step) != Some(id) && step != RestartStep
    requires id in s.reqs && id < s.nextId
    ensures id in Apply(env, s, step).reqs && Apply(env, s, step).reqs[id] == s.reqs[id]
  {
    hide DidResolver.CachedKey, DidResolver.Document, DidResolver.Finished, VerifyToken, BearerToken;
    hide NonceStore.Seen, NonceStore.Stored, RateLimiter.Admits, RateLimiter.Checked, Policy.IsAllowed;
    hide ToolRegistry.Begun, ToolRegistry.Ended, ToolRegistry.ToolHash;
  }

  lemma LogGrows(env: Env, s: State, step: Step)
    requires Enabled(s, step)
    ensures s.log <= Apply(env, s, step).log
  {
    hide DidResolver.CachedKey, DidResolver.Document, DidResolver.Finished, VerifyToken, BearerToken;
    hide NonceStore.Seen, NonceStore.Stored, RateLimiter.Admits, RateLimiter.Checked, Policy.IsAllowed;
    hide ToolRegistry.Begun, ToolRegistry.Ended, ToolRegistry.ToolHash;
  }

  lemma OwnStep(env: Env, s: State, step: Step, id: nat, r: Request)
    requires InOrder(env, r) && OnTrack(env, s, id, r) && Enabled(s, step) && StepId(step) == Some(id)
    requires Served(env, s, id, step, r)
    ensures OnTrack(env, Apply(env, s, step), id, r)
  {
    NormalParamsCarried(r.body);
    BearerExactly(r.auth, r.token);
    match step
    case BeginStep(_, now) => VerifiesExactly(env.crypto, r.token, r.key, env.serverDid, now);
    case KeyStep(_, _, _, now) => VerifiesExactly(env.crypto, r.token, r.key, env.serverDid, now);
    case FetchStep(_, now) =>
      var specs := ToolRegistry.Begun(s.registry, UpstreamOf(env), now);
      if specs.Some? {
        HashExactly(env, specs.value, r.body.tool.value, r.claims.toolHash);
      }
    case AnswerStep(_, answer, _, _) =>
      var specs := ToolRegistry.Ended(s.registry, UpstreamOf(env), s.reqs[id].start, answer).1;
      if specs.Some? {
        HashExactly(env, specs.value, r.body.tool.value, r.claims.toolHash);
      }
    case ReplyStep(_, ok) =>
      var call := CallForwarded(id, r.body.tool.value, r.params, r.token);
      assert call in s.log + [ReplyArrived(id, ok)];
    case ForwardStep(_) =>
      var e := CallForwarded(id, r.body.tool.value, r.params, r.token);
      assert e in s.log + [e];
    case _ =>
  }

  /** How many stretches of the handler are still ahead, at most. */
  function Ahead(phase: Phase): nat {
    match phase
    case Arrived(_, _) => 7
    case ListArrived => 4
    case Resolving(_, _, _) => 6
    case Verified(_, _, _, _) => 5
    case Checked(_) => 4
    case Fetching(_, _) => 3
    case Passed(_) => 2
    case Awaiting(_) => 1
    case Done(_) => 0
  }

  /** Every step of a request brings it closer to its end. */
  lemma OwnStepAdvances(env: Env, s: State, step: Step, id: nat)
    requires Enabled(s, step) && StepId(step) == Some(id)
    ensures id in s.reqs && id in Apply(env, s, step).reqs
    ensures Ahead(Apply(env, s, step).reqs[id]) < Ahead(s.reqs[id])
  {
    hide DidResolver.CachedKey, DidResolver.Document, DidResolver.Finished, VerifyToken, BearerToken;
    hide NonceStore.Seen, NonceStore.Stored, RateLimiter.Admits, RateLimiter.Checked, Policy.IsAllowed;
    hide ToolRegistry.Begun, ToolRegistry.Ended, ToolRegistry.ToolHash;
  }

  /** A request that is not done can always take its next step: no other request can block it. */
  lemma CanGoOn(s: State, id: nat) returns (step: Step)
    requires id in s.reqs && !s.reqs[id].Done?
    ensures StepId(step) == Some(id) && Enabled(s, step)
  {
    match s.reqs[id]
    case Arrived(_, _) => step := BeginStep(id, s.clock);
    case Resolving(_, _, _) => step := KeyStep(id, None, None, s.clock);
    case Verified(_, _, _, _) => step := CheckStep(id, Readings(s.clock, s.clock, s.clock, s.clock));
    case Fetching(start, _) =>
      var now := if s.mono < start then start else s.mono;
      step := AnswerStep(id, None, start, now);
    case Passed(_) => step := ForwardStep(id);
    case Awaiting(_) => step := ReplyStep(id, true);
    case _ => step := FetchStep(id, s.mono);
  }

  function OwnSteps(steps: seq<Step>, id: nat): nat {
    if steps == [] then 0
    else OwnSteps(steps[..|steps| - 1], id) + if StepId(steps[|steps| - 1]) == Some(id) then 1 else 0
  }

  lemma TrackStep(env: Env, s: State, step: Step, id: nat, r: Request)
    requires InOrder(env, r) && OnTrack(env, s, id, r) && id < s.nextId
    requires Enabled(s, step) && Served(env, s, id, step, r)
    ensures OnTrack(env, Apply(env, s, step), id, r) && id < Apply(env, s, step).nextId
    ensures Ahead(Apply(env, s, step).reqs[id]) + (if StepId(step) == Some(id) then 1 else 0) <= Ahead(s.reqs[id])
  {
    NextIdGrows(env, s, step);
    if StepId(step) == Some(id) {
      OwnStep(env, s, step, id, r);
      OwnStepAdvances(env, s, step, id);
    } else {
      OthersKeepPhase(env, s, step, id);
      LogGrows(env, s, step);
    }
  }

  lemma NextIdGrows(env: Env, s: State, step: Step)
    requires Enabled(s, step)
    ensures s.nextId <= Apply(env, s, step).nextId
  {
    hide DidResolver.CachedKey, DidResolver.Document, DidResolver.Finished, VerifyToken, BearerToken;
    hide NonceStore.Seen, NonceStore.Stored, RateLimiter.Admits, RateLimiter.Checked, Policy.IsAllowed;
    hide ToolRegistry.Begun, ToolRegistry.Ended, ToolRegistry.ToolHash;
  }

  /** Every step of the run is `Served` where it happens. */
  ghost predicate AllServed(env: Env, s: State, steps: seq<Step>, id: nat, r: Request)
    requires InOrder(env, r)
  {
    forall k | 0 <= k < |steps| && RunFrom(env, s, steps[..k]).Some? ::
      Served(env, RunFrom(env, s, steps[..k]).value, id, steps[k], r)
  }

  lemma {:induction false} StaysOnTrack(env: Env, s: State, steps: seq<Step>, s': State, id: nat, r: Request)
    requires InOrder(env, r) && OnTrack(env, s, id, r) && id < s.nextId
    requires RunFrom(env, s, steps) == Some(s') && AllServed(env, s, steps, id, r)
    ensures OnTrack(env, s', id, r) && id < s'.nextId
    ensures Ahead(s'.reqs[id]) + OwnSteps(steps, id) <= Ahead(s.reqs[id])
  {
    if steps != [] {
      hide InOrder, Served, Apply, Enabled, Ahead;
      var init, step := steps[..|steps| - 1], steps[|steps| - 1];
      var prev := RunFrom(env, s, init).value;
      assert steps == init + [step];
      assert AllServed(env, s, init, id, r) by {
        forall k | 0 <= k < |init|
          ensures init[..k] == steps[..k]
        {
        }
      }
      StaysOnTrack(env, s, init, prev, id, r);
      TrackStep(env, prev, step, id, r);
    }
  }

  // ---- In terms of the history ----

  /** No request has passed the replay check with this jti so far. */
  ghost predicate NeverUsed(log: seq<Event>, jti: string) {
    forall e | e in log && e.NonceChecked? && e.unseen :: e.jti != jti
  }

  /** The DID has fewer than 200 admissions younger than a minute. */
  predicate HasRoom(log: seq<Event>, did: string, now: Time) {
    |RateLimiter.Prune(PipelineRate.AdmittedTimes(log, did), now - 60.0)|
      < 200
  }

  lemma {:induction false} AdmitsComeFromLog(env: Env, log: seq<Event>, p: nat)
    requires HistoryOk(env, log) && NonceHistory.Accepted(NonceOps(log), p)
    ensures exists e :: e in log && e.NonceChecked? && e.unseen && e.jti == NonceOps(log)[p].jti
  {
    var init, e := log[..|log| - 1], log[|log| - 1];
    assert log == init + [e];
    var ops := NonceOps(init);
    PrefixOk(env, log, |init|);
    if p < |ops| {
      assert NonceOps(log)[..p] == ops[..p];
      AdmitsComeFromLog(env, init, p);
      var x :| x in init && x.NonceChecked? && x.unseen && x.jti == ops[p].jti;
      assert x in log;
    } else {
      assert NonceOps(log)[..p] == ops;
      assert EventOk(env, log[..|init|], log[|init|]);
      assert e in log;
    }
  }

  /** A fresh jti is all that the nonce table asks for. */
  lemma FreshPasses(env: Env, s: State, jti: string, now: Time)
    requires Inv(env, s) && NeverUsed(s.log, jti)
    ensures !NonceStore.Seen(s.nonces, jti, now)
  {
    if NonceStore.Seen(s.nonces, jti, now) {
      NonceHistory.SeenWasAdmitted(NonceOps(s.log), jti, now);
      var p :| NonceHistory.Accepted(NonceOps(s.log), p) && NonceOps(s.log)[p].jti == jti;
      AdmitsComeFromLog(env, s.log, p);
    }
  }

  /** Room in the full history is all that the limiter asks for. */
  lemma RoomPasses(env: Env, s: State, did: string, now: Time, cleanNow: Time)
    requires Inv(env, s) && HasRoom(s.log, did, now)
    ensures RateLimiter.Admits(s.limiter, did, now, cleanNow)
  {
    var cutoff := now - 60.0;
    var calls := RateCalls(s.log);
    PipelineRate.AdmittedIsHistory(env, s.log, did);
    hide RateHistory.Run, RateHistory.History, RateLimiter.Prune, RateCalls, PipelineRate.AdmittedTimes;
    RateHistory.ListBelowHistory(calls, did, cutoff);
    RateHistory.AtMostOneMore(s.limiter, RateHistory.Call(did, now, cleanNow), did, cutoff);
  }

  /** `Served`, with the two stores described by the history alone. */
  ghost predicate Welcome(env: Env, s: State, id: nat, step: Step, r: Request)
    requires InOrder(env, r)
  {
    if step.CheckStep? && step.id == id then
      NeverUsed(s.log, r.claims.jti.value) && HasRoom(s.log, r.claims.iss.value, step.t.tRate)
    else Served(env, s, id, step, r)
  }

  ghost predicate AllWelcome(env: Env, s: State, steps: seq<Step>, id: nat, r: Request)
    requires InOrder(env, r)
  {
    forall k | 0 <= k < |steps| && RunFrom(env, s, steps[..k]).Some? ::
      Welcome(env, RunFrom(env, s, steps[..k]).value, id, steps[k], r)
  }

  lemma {:induction false} InvContinues(env: Env, s: State, steps: seq<Step>, s': State)
    requires Inv(env, s) && RunFrom(env, s, steps) == Some(s')
    ensures Inv(env, s')
  {
    if steps != [] {
      var prev := RunFrom(env, s, steps[..|steps| - 1]).value;
      InvContinues(env, s, steps[..|steps| - 1], prev);
      PipelineSteps.StepKeeps(env, prev, steps[|steps| - 1]);
    }
  }

  lemma WelcomeIsServed(env: Env, s: State, steps: seq<Step>, id: nat, r: Request)
    requires InOrder(env, r) && Inv(env, s) && AllWelcome(env, s, steps, id, r)
    ensures AllServed(env, s, steps, id, r)
  {
    forall k | 0 <= k < |steps| && RunFrom(env, s, steps[..k]).Some?
      ensures Served(env, RunFrom(env, s, steps[..k]).value, id, steps[k], r)
    {
      var sk := RunFrom(env, s, steps[..k]).value;
      assert Welcome(env, sk, id, steps[k], r);
      if steps[k].CheckStep? && steps[k].id == id {
        InvContinues(env, s, steps[..k], sk);
        FreshPasses(env, sk, r.claims.jti.value, steps[k].t.tCheck);
        RoomPasses(env, sk, r.claims.iss.value, steps[k].t.tRate, steps[k].t.tClean);
      }
    }
  }

  /**
    The call has left the proxy with the tool and the token of the request, and with what
    its body has as "params": that very value, or {} where it is missing or falsy.
   */
  ghost predicate ForwardedAsAsked(s: State, id: nat, token: string, body: Body) {
    && id in s.reqs && s.reqs[id] == Done(Forwarded) && body.tool.Some?
    && exists params :: Carries(body, params) && CallForwarded(id, body.tool.value, params, token) in s.log
  }

  /**
    A request in order that arrives after any run, and during whose steps its token
    is alive, its jti unused, its DID below the limit and the tool's spec current, is
    never denied. It can go on until it is done, needs at most seven steps, and once it
    is done the call has been forwarded with the requested tool and parameters and the
    client's token. Other requests take any steps in between.
   */
  lemma NoFalsePositives(env: Env, before: seq<Step>, s0: State, after: seq<Step>, s: State, r: Request)
    requires Reaches(env, before, s0) && InOrder(env, r)
    requires RunFrom(env, Apply(env, s0, ArriveCall(r.auth, Some(r.body))), after) == Some(s)
    requires AllWelcome(env, Apply(env, s0, ArriveCall(r.auth, Some(r.body))), after, s0.nextId, r)
    ensures OnTrack(env, s, s0.nextId, r)
    ensures s.reqs[s0.nextId].Done? ==> ForwardedAsAsked(s, s0.nextId, r.token, r.body)
    ensures !s.reqs[s0.nextId].Done? ==> exists step :: StepId(step) == Some(s0.nextId) && Enabled(s, step)
    ensures OwnSteps(after, s0.nextId) >= 7 ==> ForwardedAsAsked(s, s0.nextId, r.token, r.body)
  {
    WelcomeStaysOnTrack(env, before, s0, after, s, r);
    assert Carries(r.body, r.params);
    hide RunFrom, AllWelcome, InOrder, Apply, Reaches, OwnSteps;
    if !s.reqs[s0.nextId].Done? {
      var step := CanGoOn(s, s0.nextId);
    }
  }

  lemma WelcomeStaysOnTrack(env: Env, before: seq<Step>, s0: State, after: seq<Step>, s: State, r: Request)
    requires Reaches(env, before, s0) && InOrder(env, r)
    requires RunFrom(env, Apply(env, s0, ArriveCall(r.auth, Some(r.body))), after) == Some(s)
    requires AllWelcome(env, Apply(env, s0, ArriveCall(r.auth, Some(r.body))), after, s0.nextId, r)
    ensures OnTrack(env, s, s0.nextId, r) && Ahead(s.reqs[s0.nextId]) + OwnSteps(after, s0.nextId) <= 7
  {
    var arrival, id := ArriveCall(r.auth, Some(r.body)), s0.nextId;
    var s1 := Apply(env, s0, arrival);
    assert OnTrack(env, s1, id, r) && id < s1.nextId && Ahead(s1.reqs[id]) == 7;
    hide RunFrom, AllWelcome, AllServed, InOrder, Inv, OnTrack, Reaches, Apply, Ahead, OwnSteps;
    PipelineSteps.RunKeeps(env, before, s0);
    PipelineSteps.StepKeeps(env, s0, arrival);
    WelcomeIsServed(env, s1, after, id, r);
    StaysOnTrack(env, s1, after, s, id, r);
  }

  /** The request that a client makes with a token from `sign_token`. */
  function SignedRequest(env: Env, privateKey: string, publicKey: string, did: string, tool: string, jti: string,
                         ttl: int, toolHash: string, mint: Time, body: Body, params: Json.Value): Request {
    var token := SignToken(env.crypto, privateKey, did, env.serverDid, tool, jti, ttl, Some(toolHash), mint);
    var claims := NewClaims(did, env.serverDid, tool, jti, ttl, Some(toolHash), mint);
    Request("Bearer " + token, body, token, claims, publicKey, params)
  }

  /** What `sign_token` produces is in order for the agent whose key pair it is, when policy consents. */
  lemma SignedRequestIsInOrder(env: Env, privateKey: string, publicKey: string, did: string, tool: string, jti: string,
                               ttl: int, toolHash: string, mint: Time, body: Body, params: Json.Value)
    requires KeyPair(env.crypto, privateKey, publicKey)
    requires tool != "" && jti != "" && toolHash != "" && body.tool == Some(tool)
    requires Carries(body, params) && Policy.IsAllowed(env.mode, did, tool, params) == Policy.Allowed
    requires var token := SignToken(env.crypto, privateKey, did, env.serverDid, tool, jti, ttl, Some(toolHash), mint);
             Trimmed(token)
    ensures var token := SignToken(env.crypto, privateKey, did, env.serverDid, tool, jti, ttl, Some(toolHash), mint);
            var claims := NewClaims(did, env.serverDid, tool, jti, ttl, Some(toolHash), mint);
            var r := SignedRequest(env, privateKey, publicKey, did, tool, jti, ttl, toolHash, mint, body, params);
            && InOrder(env, r)
            && forall now: Time :: InLifetime(claims, now) <==> mint.Floor as real <= now < (mint.Floor + ttl) as real
  {
    var token := SignToken(env.crypto, privateKey, did, env.serverDid, tool, jti, ttl, Some(toolHash), mint);
    var claims := NewClaims(did, env.serverDid, tool, jti, ttl, Some(toolHash), mint);
    assert ("Bearer " + token)[7..] == token && ("Bearer " + token)[..7] == "Bearer ";
    BearerExactly("Bearer " + token, token);
    assert env.crypto.encode(claims, privateKey) == token;
    assert env.crypto.decode(token) == Some(claims) && env.crypto.signedBy(token, publicKey);
    assert (mint + ttl as real).Floor == mint.Floor + ttl;
    assert mint + ttl as real < 0.0 ==> Truncate(mint + ttl as real) <= 0 <= mint.Floor;
  }

  /**
    From `sign_token` to the forward: a request whose token was signed under the
    agent's key pair, for a call that policy allows, is forwarded as asked once it has
    taken its steps, if it is welcome at each of them.
   */
  lemma SignedRequestIsForwarded(env: Env, privateKey: string, publicKey: string, did: string, tool: string,
                                 jti: string, ttl: int, toolHash: string, mint: Time, body: Body,
                                 params: Json.Value, before: seq<Step>, s0: State, after: seq<Step>, s: State)
    requires KeyPair(env.crypto, privateKey, publicKey)
    requires tool != "" && jti != "" && toolHash != "" && body.tool == Some(tool)
    requires Carries(body, params) && Policy.IsAllowed(env.mode, did, tool, params) == Policy.Allowed
    requires Trimmed(SignToken(env.crypto, privateKey, did, env.serverDid, tool, jti, ttl, Some(toolHash), mint))
    requires var r := SignedRequest(env, privateKey, publicKey, did, tool, jti, ttl, toolHash, mint, body, params);
             var arrival := ArriveCall(r.auth, Some(r.body));
             && Reaches(env, before, s0) && RunFrom(env, Apply(env, s0, arrival), after) == Some(s)
             && (InOrder(env, r) ==> AllWelcome(env, Apply(env, s0, arrival), after, s0.nextId, r))
    ensures var token := SignToken(env.crypto, privateKey, did, env.serverDid, tool, jti, ttl, Some(toolHash), mint);
            s0.nextId in s.reqs && (s.reqs[s0.nextId].Done? || OwnSteps(after, s0.nextId) >= 7
                                    ==> ForwardedAsAsked(s, s0.nextId, token, body))
  {
    var r := SignedRequest(env, privateKey, publicKey, did, tool, jti, ttl, toolHash, mint, body, params);
    SignedRequestIsInOrder(env, privateKey, publicKey, did, tool, jti, ttl, toolHash, mint, body, params);
    NoFalsePositives(env, before, s0, after, s, r);
  }
}
