/**
  The handler `proxy_tool_call` in the source's own form: an object whose methods are
  the stretches between awaits, a sequence of early-return guards around calls that
  change the stores. Each method is proved to take the corresponding step of the
  machine in module Pipeline, so the theorems about its runs speak about this code.
 */
module ProxyApp {
  import opened Common
  import opened Tokens
  import opened Pipeline
  import Json
  import NonceStore
  import RateLimiter
  import DidResolver
  import Policy
  import ToolRegistry

  class Proxy {
    const env: Env
    const nonces: NonceStore.NonceTable
    const limiter: RateLimiter.SlidingWindow
    const resolver: DidResolver.Resolver
    const registry: ToolRegistry.Registry
    /** The suspended coroutines with their local variables. */
    var reqs: map<nat, Phase>
    var nextId: nat
    ghost var log: seq<Event>
    ghost var clock: Time
    ghost var mono: real

    ghost function View(): State
      reads this, nonces, limiter, resolver, registry
    {
      State(reqs, nextId, nonces.View(), limiter.View(), resolver.View(), registry.View(), log, clock, mono)
    }

    /** `_startup` of a new process over the nonce rows that the previous one, in state `prev`, left on disk. */
    constructor Startup(env: Env, onDisk: map<string, int>, firstId: nat, ghost prev: State)
      requires onDisk == prev.nonces.rows && firstId == prev.nextId
      ensures this.env == env && View() == Apply(env, prev, RestartStep)
      ensures reqs == map[] && nextId == firstId && nonces.rows == onDisk && nonces.lastCleanup == 0.0
      ensures limiter.requests == map[] && limiter.lastCleanup == 0.0
      ensures resolver.docs == map[] && resolver.keys == map[]
      ensures registry.local == None && registry.remote == None
    {
      this.env := env;
      nonces := new NonceStore.NonceTable.InitDb(onDisk);
      limiter := new RateLimiter.SlidingWindow();
      resolver := new DidResolver.Resolver();
      registry := new ToolRegistry.Registry();
      reqs, nextId := map[], firstId;
      log, clock, mono := prev.log + [ProcessRestarted], prev.clock, prev.mono;
      new;
      registry.InvalidateCache();
    }

    method Accept(auth: string, body: Option<Body>) returns (id: nat)
      modifies this
      ensures id == old(nextId) && View() == Apply(env, old(View()), ArriveCall(auth, body))
    {
      id := nextId;
      log := log + [CallArrived(id, auth, body)];
      reqs := reqs[id := Arrived(auth, body)];
      nextId := nextId + 1;
    }

    method AcceptListing() returns (id: nat)
      modifies this
      ensures id == old(nextId) && View() == Apply(env, old(View()), ArriveList)
    {
      id := nextId;
      reqs := reqs[id := ListArrived];
      nextId := nextId + 1;
    }

    method Respond(id: nat, outcome: Outcome)
      modifies this`reqs
      ensures View() == Finish(old(View()), id, outcome)
    {
      reqs := reqs[id := Done(outcome)];
    }

    /** Lines 229-245: verify the signature and the claims, then wait for the body. */
    method Verify(id: nat, token: string, claims: Claims, key: string, body: Option<Body>, now: Time)
      modifies this
      ensures View() == VerifyWith(env, old(View()), id, token, claims, key, body, now)
    {
      var payload := VerifyToken(env.crypto, token, key, env.serverDid, now);
      if payload.None? {
        Respond(id, Denied(JwtVerification));
        return;
      }
      log := log + [TokenVerified(id, token, key, now)];
      reqs := reqs[id := Verified(token, claims, now, body)];
    }

    /** Lines 205-224, and on without a pause if the issuer's key is cached. */
    method BeginRequest(id: nat, now: Time)
      requires Enabled(View(), BeginStep(id, now))
      modifies this
      ensures View() == Apply(env, old(View()), BeginStep(id, now))
    {
      clock := now;
      var Arrived(auth, body) := reqs[id];
      if !StartsWith(auth, "Bearer ") {
        Respond(id, Denied(TokenPresence));
        return;
      }
      var token := Strip(auth[7..]);
      if token == "" {
        Respond(id, Denied(TokenPresence));
        return;
      }
      var unverified := env.crypto.decode(token);
      if unverified.None? {
        Respond(id, Denied(JwtDecode));
        return;
      }
      var iss := IssuerOf(unverified.value);
      if iss !in resolver.keys {
        reqs := reqs[id := Resolving(token, unverified.value, body)];
        return;
      }
      Verify(id, token, unverified.value, resolver.keys[iss], body, now);
    }

    /** The key lookup comes back with what the file or the web gave. */
    method ResumeWithKey(id: nat, file: Option<DidResolver.Doc>, web: Option<DidResolver.Doc>, now: Time)
      requires Enabled(View(), KeyStep(id, file, web, now))
      modifies this, resolver
      ensures View() == Apply(env, old(View()), KeyStep(id, file, web, now))
    {
      clock := now;
      var Resolving(token, claims, body) := reqs[id];
      var iss := IssuerOf(claims);
      ghost var doc := DidResolver.Document(resolver.View(), iss, file, web);
      var key := resolver.FinishLookup(iss, file, web);
      if doc.Some? {
        log := log + [DocResolved(iss, doc.value)];
      }
      if key.None? {
        Respond(id, Denied(DidResolution));
        return;
      }
      Verify(id, token, claims, key.value, body, now);
    }

    /** Lines 246-286: binding, replay, rate, policy and hash presence, without a pause. */
    method CheckBody(id: nat, t: Readings)
      requires Enabled(View(), CheckStep(id, t))
      modifies this, nonces, limiter
      ensures View() == Apply(env, old(View()), CheckStep(id, t))
    {
      clock := t.tClean;
      var Verified(token, payload, tVerify, body) := reqs[id];
      if body.None? {
        Respond(id, Crashed);
        return;
      }
      var requestedTool := body.value.tool;
      if !Given(requestedTool) {
        Respond(id, Denied(RequestParse));
        return;
      }
      if payload.tool != requestedTool {
        Respond(id, Denied(ToolBinding));
        return;
      }
      if !Given(payload.jti) {
        Respond(id, Denied(ReplayProtection));
        return;
      }
      var call := ToolCall(token, payload, requestedTool.value, NormalParams(body.value));
      CheckReplayAndRest(id, call, tVerify, t);
    }

    method CheckReplayAndRest(id: nat, call: ToolCall, ghost tVerify: Time, t: Readings)
      requires Given(call.claims.jti)
      modifies this, nonces, limiter
      ensures View() == CheckNonce(env, old(View()), id, call, tVerify, t)
    {
      var jti := call.claims.jti.value;
      var seen := nonces.SeenBefore(jti, t.tCheck);
      log := log + [NonceChecked(id, call.token, jti, ExpOf(call.claims), tVerify, t.tCheck, t.tStore, !seen)];
      if seen {
        Respond(id, Denied(ReplayProtection));
        return;
      }
      nonces.StoreNonce(jti, ExpOf(call.claims), t.tStore);
      CheckRateAndRest(id, call, t);
    }

    method CheckRateAndRest(id: nat, call: ToolCall, t: Readings)
      modifies this, limiter
      ensures View() == CheckRate(env, old(View()), id, call, t)
    {
      var agentDid := if call.claims.iss.Some? then call.claims.iss.value else "";
      var allowed := limiter.CheckRateLimit(agentDid, t.tRate, t.tClean);
      log := log + [RateChecked(id, agentDid, t.tRate, t.tClean, allowed)];
      if !allowed {
        Respond(id, Denied(RateLimit));
        return;
      }
      var decision := Policy.IsAllowed(env.mode, agentDid, call.tool, call.params);
      if decision.Raises? {
        Respond(id, Crashed);
        return;
      }
      if decision.Blocked? {
        Respond(id, Denied(PolicyEnforcement));
        return;
      }
      if !Given(call.claims.toolHash) {
        Respond(id, Denied(ToolIntegrity));
        return;
      }
      reqs := reqs[id := Checked(call)];
    }

    /** Lines 288-305: compare the token's hash with the registry's. */
    method CompareHash(id: nat, purpose: Option<ToolCall>, ghost start: real, specs: ToolRegistry.Specs)
      modifies this
      ensures View() == UseSpecs(env, old(View()), id, purpose, start, specs)
    {
      log := log + [SpecsReturned(id, start, specs)];
      if purpose.None? {
        Respond(id, Listed);
        return;
      }
      var call := purpose.value;
      if call.tool !in specs || !Json.Truthy(specs[call.tool]) {
        Respond(id, Denied(ToolIntegrity));
        return;
      }
      var expected := ToolRegistry.ToolHash(env.crypto.digest, specs, call.tool);
      if call.claims.toolHash != expected {
        Respond(id, Denied(ToolIntegrity));
        return;
      }
      reqs := reqs[id := Passed(call)];
    }

    /** `fetch_tool_specs` up to the request to upstream, or to the end on a cache hit. */
    method BeginFetchSpecs(id: nat, monoNow: real)
      requires Enabled(View(), FetchStep(id, monoNow))
      modifies this
      ensures View() == Apply(env, old(View()), FetchStep(id, monoNow))
    {
      mono := monoNow;
      var purpose := if reqs[id].Checked? then Some(reqs[id].call) else None;
      var specs := registry.BeginFetch(UpstreamOf(env), monoNow);
      if specs.None? {
        reqs := reqs[id := Fetching(monoNow, purpose)];
        return;
      }
      CompareHash(id, purpose, monoNow, specs.value);
    }

    /** Upstream's answer to a fetch; None is a failed request. */
    method EndFetchSpecs(id: nat, answer: Option<ToolRegistry.Specs>, ghost servedAt: real, ghost monoNow: real)
      requires Enabled(View(), AnswerStep(id, answer, servedAt, monoNow))
      modifies this, registry
      ensures View() == Apply(env, old(View()), AnswerStep(id, answer, servedAt, monoNow))
    {
      mono := monoNow;
      var Fetching(start, purpose) := reqs[id];
      var specs := registry.EndFetch(UpstreamOf(env), start, answer);
      log := log + [AnswerOf(answer, servedAt)];
      if specs.None? {
        Respond(id, Crashed);
        return;
      }
      CompareHash(id, purpose, start, specs.value);
    }

    /**
      Line 308: send the call upstream, to the local server with its token, to GitHub
      without; without a GitHub token nothing is sent.
     */
    method ForwardUpstream(id: nat) returns (sent: Option<Sent>)
      requires Enabled(View(), ForwardStep(id))
      modifies this
      ensures View() == Apply(env, old(View()), ForwardStep(id))
      ensures var call := old(reqs[id].call);
              sent == if env.mode == "local" then Some(Sent(call.tool, call.params, Some(call.token)))
                      else if env.hasPat then Some(Sent(call.tool, call.params, None)) else None
      ensures sent.Some? <==> View().log != old(View().log)
      ensures sent.None? ==> id in reqs && reqs[id] == Done(Crashed)
    {
      var call := reqs[id].call;
      if UpstreamOf(env).Github? && !env.hasPat {
        Respond(id, Crashed);
        return None;
      }
      log := log + [CallForwarded(id, call.tool, call.params, call.token)];
      reqs := reqs[id := Awaiting(call)];
      return Some(Sent(call.tool, call.params, if UpstreamOf(env).Local? then Some(call.token) else None));
    }

    /** Lines 308-314: the result goes back to the client; an exception of the upstream call propagates. */
    method ReceiveReply(id: nat, ok: bool)
      requires Enabled(View(), ReplyStep(id, ok))
      modifies this
      ensures View() == Apply(env, old(View()), ReplyStep(id, ok))
    {
      log := log + [ReplyArrived(id, ok)];
      if !ok {
        Respond(id, Crashed);
        return;
      }
      Respond(id, Forwarded);
    }
  }
}
