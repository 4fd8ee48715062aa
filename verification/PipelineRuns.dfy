/**
  Runs of the pipeline built one request at a time, in a deployment whose tokens all
  verify until one second, `EXPIRY`. The counterexamples that make bounds exact are such runs.
 */
module PipelineRuns {
  import opened Common
  import opened Tokens
  import opened Pipeline
  import Json
  import NonceStore
  import RateLimiter
  import DidResolver
  import Policy
  import ToolRegistry

  // ---- The deployment ----

  const EXPIRY: int := 1000
  const HASH := "h"
  const SPECS: ToolRegistry.Specs := map["echo" := Json.Bool(true)]
  const AGENT_DOC := DidResolver.Doc([Some("key")])
  const ECHO_BODY := Body(Some("echo"), None)

  /** Every token says this about itself, and is its own jti. */
  function ClaimsOf(token: string): Claims {
    Claims(Some(Policy.AGENT2), Some(["server"]), Some("echo"), Some(token), Some(0), Some(EXPIRY), Some(HASH))
  }

  function DemoEnv(): Env {
    Env(Crypto((t: string) => Some(ClaimsOf(t)), (c: Claims, k: string) => "k", (t: string, k: string) => true,
               (s: string) => HASH),
        "server", "local", false)
  }

  function Token(n: nat): string {
    seq(n + 1, _ => 'k')
  }

  function CallOf(token: string): ToolCall {
    ToolCall(token, ClaimsOf(token), "echo", Json.Obj([]))
  }

  function At(t: Time): Readings {
    Readings(t, t, t, t)
  }

  lemma OneMore(env: Env, steps: seq<Step>, s: State, step: Step, s': State)
    requires Reaches(env, steps, s) && Enabled(s, step) && Apply(env, s, step) == s'
    ensures Reaches(env, steps + [step], s')
  {
    assert (steps + [step])[..|steps|] == steps;
  }

  lemma HeaderCarriesToken(n: nat)
    ensures BearerToken("Bearer " + Token(n)) == Some(Token(n))
  {
    assert ("Bearer " + Token(n))[7..] == Token(n) && ("Bearer " + Token(n))[..7] == "Bearer ";
  }

  lemma EchoOfNothingIsAllowed()
    ensures NormalParams(ECHO_BODY) == Json.Obj([])
    ensures Policy.IsAllowed("local", Policy.AGENT2, "echo", Json.Obj([])) == Policy.Allowed
  {
    Policy.GrantsExactly("local", Policy.AGENT2, "echo", Json.Obj([]));
  }

  // ---- From arrival to verification ----

  /** The history grew by arrivals, lookups and verifications only. */
  ghost predicate Quiet(log: seq<Event>, log': seq<Event>) {
    && log <= log'
    && forall i | |log| <= i < |log'| ::
         log'[i].CallArrived? || log'[i].DocResolved? || log'[i].TokenVerified?
  }

  ghost predicate DocsOk(s: State) {
    Policy.AGENT2 in s.resolver.docs ==> s.resolver.docs[Policy.AGENT2] == AGENT_DOC
  }

  /** What a request's way to its verification leaves alone. */
  ghost predicate Kept(s: State, s': State) {
    && s'.nonces == s.nonces && s'.limiter == s.limiter && s'.registry == s.registry && s'.mono == s.mono
    && (DocsOk(s) ==> DocsOk(s')) && Quiet(s.log, s'.log)
  }

  function VerifiedPhase(token: string, v: Time): Phase {
    Verified(token, ClaimsOf(token), v, Some(ECHO_BODY))
  }

  lemma VerifyStep(s: State, id: nat, token: string, key: string, v: Time)
    requires v < EXPIRY as real
    ensures var s' := VerifyWith(DemoEnv(), s, id, token, ClaimsOf(token), key, Some(ECHO_BODY), v);
            Kept(s, s') && s'.clock == s.clock && id in s'.reqs && s'.reqs[id] == VerifiedPhase(token, v)
  {
  }

  lemma BeginStepVerifies(s: State, id: nat, token: string, v: Time)
    requires s.clock <= v < EXPIRY as real && id in s.reqs && s.reqs[id] == Arrived("Bearer " + token, Some(ECHO_BODY))
    requires BearerToken("Bearer " + token) == Some(token)
    ensures var s' := Apply(DemoEnv(), s, BeginStep(id, v));
            && Kept(s, s') && s'.clock == v && id in s'.reqs
            && s'.reqs[id] in {VerifiedPhase(token, v), Resolving(token, ClaimsOf(token), Some(ECHO_BODY))}
  {
    hide BearerToken, VerifyWith;
    if Policy.AGENT2 in s.resolver.keys {
      VerifyStep(s.(clock := v), id, token, s.resolver.keys[Policy.AGENT2], v);
    }
  }

  lemma KeyStepVerifies(s: State, id: nat, token: string, v: Time)
    requires s.clock <= v < EXPIRY as real && DocsOk(s)
    requires id in s.reqs && s.reqs[id] == Resolving(token, ClaimsOf(token), Some(ECHO_BODY))
    ensures var s' := Apply(DemoEnv(), s, KeyStep(id, Some(AGENT_DOC), None, v));
            Kept(s, s') && s'.clock == v && id in s'.reqs && s'.reqs[id] == VerifiedPhase(token, v)
  {
    hide VerifyWith;
    assert Policy.AGENT2 in DidResolver.LOCAL_DIDS;
    var e := DocResolved(Policy.AGENT2, AGENT_DOC);
    var resolver := DidResolver.Finished(s.resolver, Policy.AGENT2, Some(AGENT_DOC), None).0;
    VerifyStep(Note(s.(clock := v), e).(resolver := resolver), id, token, "key", v);
  }

  lemma KeptIsTransitive(s: State, s': State, s'': State)
    requires Kept(s, s') && Kept(s', s'')
    ensures Kept(s, s'')
  {
  }

  lemma BeginNext(steps: seq<Step>, s: State, n: nat, v: Time) returns (steps': seq<Step>, s': State)
    requires Reaches(DemoEnv(), steps, s) && s.clock <= v < EXPIRY as real
    ensures Reaches(DemoEnv(), steps', s') && Kept(s, s') && s'.clock == v && s.nextId in s'.reqs
    ensures s'.reqs[s.nextId] in
              {VerifiedPhase(Token(n), v), Resolving(Token(n), ClaimsOf(Token(n)), Some(ECHO_BODY))}
  {
    hide RunFrom, DemoEnv, BearerToken, Token, Begin;
    var arrival, begin := ArriveCall("Bearer " + Token(n), Some(ECHO_BODY)), BeginStep(s.nextId, v);
    HeaderCarriesToken(n);
    var s1 := Apply(DemoEnv(), s, arrival);
    OneMore(DemoEnv(), steps, s, arrival, s1);
    BeginStepVerifies(s1, s.nextId, Token(n), v);
    s' := Apply(DemoEnv(), s1, begin);
    steps' := steps + [arrival] + [begin];
    OneMore(DemoEnv(), steps + [arrival], s1, begin, s');
  }

  lemma LookUpNext(steps: seq<Step>, s: State, id: nat, n: nat, v: Time) returns (steps': seq<Step>, s': State)
    requires Reaches(DemoEnv(), steps, s) && s.clock <= v < EXPIRY as real && DocsOk(s)
    requires id in s.reqs && s.reqs[id] == Resolving(Token(n), ClaimsOf(Token(n)), Some(ECHO_BODY))
    ensures Reaches(DemoEnv(), steps', s') && Kept(s, s') && s'.clock == v
    ensures id in s'.reqs && s'.reqs[id] == VerifiedPhase(Token(n), v)
  {
    hide RunFrom, DemoEnv, Token, KeyArrived, Kept;
    var lookup := KeyStep(id, Some(AGENT_DOC), None, v);
    KeyStepVerifies(s, id, Token(n), v);
    s' := Apply(DemoEnv(), s, lookup);
    OneMore(DemoEnv(), steps, s, lookup, s');
    steps' := steps + [lookup];
  }

  /** A new request is verified at `v`; its issuer's key is looked up if no earlier request has. */
  lemma VerifyNext(steps: seq<Step>, s: State, n: nat, v: Time) returns (steps': seq<Step>, s': State)
    requires Reaches(DemoEnv(), steps, s) && s.clock <= v < EXPIRY as real && DocsOk(s)
    ensures Reaches(DemoEnv(), steps', s') && Kept(s, s') && s'.clock == v
    ensures s.nextId in s'.reqs && s'.reqs[s.nextId] == VerifiedPhase(Token(n), v)
  {
    hide RunFrom, DemoEnv, Token;
    steps', s' := BeginNext(steps, s, n, v);
    if s'.reqs[s.nextId].Resolving? {
      var s1 := s';
      steps', s' := LookUpNext(steps', s1, s.nextId, n, v);
      KeptIsTransitive(s, s1, s');
    }
  }

  // ---- The check ----

  function AfterNonce(s: State, id: nat, call: ToolCall, tVerify: Time, t: Readings): State
    requires Given(call.claims.jti) && call.claims.exp.Some?
  {
    var jti, exp := call.claims.jti.value, call.claims.exp.value;
    s.(nonces := NonceStore.Stored(NonceStore.Cleaned(s.nonces, t.tCheck), jti, exp, t.tStore),
       log := s.log + [NonceChecked(id, call.token, jti, exp, tVerify, t.tCheck, t.tStore, true)])
  }

  lemma UnseenGoesOn(env: Env, s: State, id: nat, call: ToolCall, tVerify: Time, t: Readings)
    requires Given(call.claims.jti) && call.claims.exp.Some?
    requires !NonceStore.Seen(s.nonces, call.claims.jti.value, t.tCheck)
    ensures CheckNonce(env, s, id, call, tVerify, t) ==
            CheckRate(env, AfterNonce(s, id, call, tVerify, t), id, call, t)
  {
  }

  function AfterRate(s: State, id: nat, call: ToolCall, t: Readings): State
    requires call.claims.iss.Some?
  {
    var did := call.claims.iss.value;
    s.(reqs := s.reqs[id := Checked(call)], limiter := RateLimiter.Checked(s.limiter, did, t.tRate, t.tClean),
       log := s.log + [RateChecked(id, did, t.tRate, t.tClean, true)])
  }

  lemma AdmittedGoesOn(env: Env, s: State, id: nat, call: ToolCall, t: Readings)
    requires call.claims.iss.Some? && Given(call.claims.toolHash)
    requires RateLimiter.Admits(s.limiter, call.claims.iss.value, t.tRate, t.tClean)
    requires Policy.IsAllowed(env.mode, call.claims.iss.value, call.tool, call.params) == Policy.Allowed
    ensures CheckRate(env, s, id, call, t) == AfterRate(s, id, call, t)
  {
  }

  predicate NotBackwards(s: State, t: Readings) {
    s.clock <= t.tCheck <= t.tStore <= t.tRate <= t.tClean
  }

  function AfterCheck(s: State, id: nat, token: string, v: Time, t: Readings): State
    requires token != ""
  {
    AfterRate(AfterNonce(s.(clock := t.tClean), id, CallOf(token), v, t), id, CallOf(token), t)
  }

  lemma CheckPasses(s: State, id: nat, token: string, v: Time, t: Readings)
    requires id in s.reqs && s.reqs[id] == VerifiedPhase(token, v) && NotBackwards(s, t) && token != ""
    requires !NonceStore.Seen(s.nonces, token, t.tCheck)
    requires RateLimiter.Admits(s.limiter, Policy.AGENT2, t.tRate, t.tClean)
    ensures Apply(DemoEnv(), s, CheckStep(id, t)) == AfterCheck(s, id, token, v, t)
  {
    hide NonceStore.Seen, NonceStore.Cleaned, NonceStore.Stored, RateLimiter.Admits, RateLimiter.Checked;
    hide Policy.IsAllowed, NormalParams, CheckNonce, CheckRate;
    EchoOfNothingIsAllowed();
    var s1 := s.(clock := t.tClean);
    UnseenGoesOn(DemoEnv(), s1, id, CallOf(token), v, t);
    AdmittedGoesOn(DemoEnv(), AfterNonce(s1, id, CallOf(token), v, t), id, CallOf(token), t);
  }

  /** A verified request passes the check, if the stores let it. */
  lemma CheckNext(steps: seq<Step>, s: State, id: nat, n: nat, v: Time, t: Readings)
      returns (steps': seq<Step>, s': State)
    requires Reaches(DemoEnv(), steps, s) && NotBackwards(s, t)
    requires id in s.reqs && s.reqs[id] == VerifiedPhase(Token(n), v)
    requires !NonceStore.Seen(s.nonces, Token(n), t.tCheck)
    requires RateLimiter.Admits(s.limiter, Policy.AGENT2, t.tRate, t.tClean)
    ensures Reaches(DemoEnv(), steps', s') && s' == AfterCheck(s, id, Token(n), v, t)
  {
    hide RunFrom, DemoEnv, CheckRequest, NonceStore.Seen, RateLimiter.Admits;
    CheckPasses(s, id, Token(n), v, t);
    s' := Apply(DemoEnv(), s, CheckStep(id, t));
    steps' := steps + [CheckStep(id, t)];
    OneMore(DemoEnv(), steps, s, CheckStep(id, t), s');
  }

  // ---- The tool hash, and the forward ----

  /** The state after a fetch that upstream answers at `m`, and the forward. */
  function AfterForward(s: State, id: nat, call: ToolCall, m: real): State {
    s.(reqs := s.reqs[id := Awaiting(call)], mono := m,
       registry := s.registry.(local := Some(SPECS), localAt := m),
       log := s.log + [UpstreamServed(m, SPECS)] + [SpecsReturned(id, m, SPECS)]
              + [CallForwarded(id, call.tool, call.params, call.token)])
  }

  lemma FetchStarts(s: State, id: nat, call: ToolCall, m: real)
    requires id in s.reqs && s.reqs[id] == Checked(call)
    requires s.mono <= m && s.registry.localAt + 30.0 <= m
    ensures Apply(DemoEnv(), s, FetchStep(id, m)) == s.(reqs := s.reqs[id := Fetching(m, Some(call))], mono := m)
  {
  }

  lemma FetchEnds(s: State, id: nat, token: string, m: real)
    requires id in s.reqs && s.reqs[id] == Fetching(m, Some(CallOf(token))) && s.mono == m
    ensures Apply(DemoEnv(), s, AnswerStep(id, Some(SPECS), m, m)) ==
            s.(reqs := s.reqs[id := Passed(CallOf(token))],
               registry := s.registry.(local := Some(SPECS), localAt := m),
               log := s.log + [UpstreamServed(m, SPECS)] + [SpecsReturned(id, m, SPECS)])
  {
    assert ToolRegistry.ToolHash(DemoEnv().crypto.digest, SPECS, "echo") == Some(HASH);
  }

  lemma CallLeaves(s: State, id: nat, call: ToolCall)
    requires id in s.reqs && s.reqs[id] == Passed(call)
    ensures Apply(DemoEnv(), s, ForwardStep(id)) ==
            s.(reqs := s.reqs[id := Awaiting(call)],
               log := s.log + [CallForwarded(id, call.tool, call.params, call.token)])
  {
  }

  lemma ForwardNext(steps: seq<Step>, s: State, id: nat, n: nat, m: real) returns (steps': seq<Step>, s': State)
    requires Reaches(DemoEnv(), steps, s)
    requires id in s.reqs && s.reqs[id] == Checked(CallOf(Token(n)))
    requires s.mono <= m && s.registry.localAt + 30.0 <= m
    ensures Reaches(DemoEnv(), steps', s') && s' == AfterForward(s, id, CallOf(Token(n)), m)
  {
    hide RunFrom, DemoEnv, BeginFetch, EndFetch, Forward, Token;
    var fetch, answer, forward := FetchStep(id, m), AnswerStep(id, Some(SPECS), m, m), ForwardStep(id);
    FetchStarts(s, id, CallOf(Token(n)), m);
    var s1 := Apply(DemoEnv(), s, fetch);
    OneMore(DemoEnv(), steps, s, fetch, s1);
    FetchEnds(s1, id, Token(n), m);
    var s2 := Apply(DemoEnv(), s1, answer);
    OneMore(DemoEnv(), steps + [fetch], s1, answer, s2);
    CallLeaves(s2, id, CallOf(Token(n)));
    s' := Apply(DemoEnv(), s2, forward);
    OneMore(DemoEnv(), steps + [fetch] + [answer], s2, forward, s');
    steps' := steps + [fetch] + [answer] + [forward];
    assert s2.reqs[id := Awaiting(CallOf(Token(n)))] == s.reqs[id := Awaiting(CallOf(Token(n)))];
  }
}
