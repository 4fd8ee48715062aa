/**
  What every reachable state of the pipeline satisfies. `EventOk` relates each entry
  of the history to the entries before it, `PhaseOk` each request in flight to the
  history, and the stores are what the component models compute from the history.
 */
module PipelineInvariant {
  import opened Common
  import opened Tokens
  import opened Pipeline
  import NonceStore
  import NonceHistory
  import RateLimiter
  import RateHistory
  import Json
  import DidResolver
  import Policy
  import ToolRegistry

  // ---- The stores as functions of the history ----

  function ExtendOps(ops: seq<NonceHistory.Op>, e: Event): seq<NonceHistory.Op> {
    match e
    case NonceChecked(_, _, jti, exp, _, tCheck, tStore, _) => ops + [NonceHistory.Admit(jti, exp, tCheck, tStore)]
    case ProcessRestarted => ops + [NonceHistory.Restart]
    case _ => ops
  }

  /** The uses of the nonce table, in order. */
  function NonceOps(log: seq<Event>): seq<NonceHistory.Op> {
    if log == [] then [] else ExtendOps(NonceOps(log[..|log| - 1]), log[|log| - 1])
  }

  function ExtendCalls(calls: seq<RateHistory.Call>, e: Event): seq<RateHistory.Call> {
    match e
    case RateChecked(_, did, now, cleanNow, _) => calls + [RateHistory.Call(did, now, cleanNow)]
    case ProcessRestarted => []
    case _ => calls
  }

  /** The calls of the rate limiter since the process started. */
  function RateCalls(log: seq<Event>): seq<RateHistory.Call> {
    if log == [] then [] else ExtendCalls(RateCalls(log[..|log| - 1]), log[|log| - 1])
  }

  /** The latest answer of upstream to a fetch since the process started; a failed one counts as empty. */
  function LastAnswer(log: seq<Event>): Option<ToolRegistry.Specs> {
    if log == [] then None
    else
      match log[|log| - 1]
      case UpstreamServed(_, specs) => Some(specs)
      case UpstreamFailed => Some(map[])
      case ProcessRestarted => None
      case _ => LastAnswer(log[..|log| - 1])
  }

  // ---- Evidence in the history ----

  /** "params" of the body as the pipeline carries it: the very value sent, or {} where that is missing or falsy. */
  predicate Carries(body: Body, params: Json.Value) {
    params == if body.params.None? || Json.Falsy(body.params.value) then Json.Obj([]) else body.params.value
  }

  lemma NormalParamsCarried(body: Body)
    ensures Carries(body, NormalParams(body))
  {
    if body.params.Some? {
      Json.TruthyExactly(body.params.value);
    }
  }

  /** The request arrived with this token in its header and with this body. */
  ghost predicate CameWith(log: seq<Event>, id: nat, token: string, body: Option<Body>) {
    exists auth :: CallArrived(id, auth, body) in log && Bears(auth, token)
  }

  /** The call is what the request asked for on arrival. */
  ghost predicate Requested(log: seq<Event>, id: nat, call: ToolCall) {
    exists body ::
      CameWith(log, id, call.token, Some(body)) && body.tool == Some(call.tool) && Carries(body, call.params)
  }

  ghost predicate ResolvedKey(log: seq<Event>, did: string, key: string) {
    exists doc :: DocResolved(did, doc) in log && doc.methods != [] && doc.methods[0] == Some(key)
  }

  ghost predicate VerifiedAt(env: Env, log: seq<Event>, id: nat, token: string, claims: Claims, at: Time) {
    && env.crypto.decode(token) == Some(claims)
    && exists key :: TokenVerified(id, token, key, at) in log && Genuine(env.crypto, token, key, env.serverDid, at)
  }

  ghost predicate NoncePassed(log: seq<Event>, id: nat, token: string, jti: string) {
    exists exp, tVerify, tCheck, tStore :: NonceChecked(id, token, jti, exp, tVerify, tCheck, tStore, true) in log
  }

  ghost predicate RatePassed(log: seq<Event>, id: nat, did: string) {
    exists now, cleanNow :: RateChecked(id, did, now, cleanNow, true) in log
  }

  /** Everything that lines 203-286 check for a call, each check recorded under the same request. */
  ghost predicate Vetted(env: Env, log: seq<Event>, id: nat, call: ToolCall) {
    && HasRequiredClaims(call.claims) && Given(call.claims.jti) && Requested(log, id, call)
    && (exists at :: VerifiedAt(env, log, id, call.token, call.claims, at))
    && NoncePassed(log, id, call.token, call.claims.jti.value)
    && RatePassed(log, id, call.claims.iss.value)
    && call.claims.tool == Some(call.tool)
    && Policy.IsAllowed(env.mode, call.claims.iss.value, call.tool, call.params) == Policy.Allowed
  }

  /** The hash of the tool's spec in the map, where it has one: a spec that Python counts as true. */
  predicate HasHash(env: Env, specs: ToolRegistry.Specs, tool: string, hash: Option<string>) {
    tool in specs && !Json.Falsy(specs[tool]) && hash == Some(env.crypto.digest(Json.Dumps(specs[tool])))
  }

  lemma HashExactly(env: Env, specs: ToolRegistry.Specs, tool: string, hash: Option<string>)
    ensures var expected := ToolRegistry.ToolHash(env.crypto.digest, specs, tool);
            HasHash(env, specs, tool, hash) <==> expected.Some? && hash == expected
  {
    if tool in specs {
      Json.TruthyExactly(specs[tool]);
    }
  }

  /** The registry returned to this request a spec map in which the call's tool has the token's hash. */
  ghost predicate HashPassed(env: Env, log: seq<Event>, id: nat, call: ToolCall) {
    exists start, specs ::
      SpecsReturned(id, start, specs) in log && HasHash(env, specs, call.tool, call.claims.toolHash)
  }

  /** The two maps laid over each other, tool by tool; where both have a tool, the second one's spec counts. */
  ghost predicate Overlaid(specs: ToolRegistry.Specs, under: ToolRegistry.Specs, over: ToolRegistry.Specs) {
    forall tool ::
      && (tool in specs <==> tool in under || tool in over)
      && (tool in over ==> tool in specs && specs[tool] == over[tool])
      && (tool in under && tool !in over ==> tool in specs && specs[tool] == under[tool])
  }

  lemma SumIsOverlaid(under: ToolRegistry.Specs, over: ToolRegistry.Specs)
    ensures Overlaid(under + over, under, over)
  {
  }

  /** Upstream is asked for specs: in local mode, and in GitHub mode with a token. */
  predicate AsksUpstream(env: Env) {
    env.mode == "local" || env.hasPat
  }

  /**
    What a fetch that began at `start` may return now. In local mode: what upstream served
    less than 30 seconds before the start, or later. In GitHub mode: the local specs, under
    those of upstream's latest answer if there is a token to ask with.
   */
  ghost predicate Current(env: Env, log: seq<Event>, start: real, specs: ToolRegistry.Specs) {
    if env.mode == "local" then exists at :: UpstreamServed(at, specs) in log && at > start - 30.0
    else if !env.hasPat then specs == ToolRegistry.LOCAL_TOOL_SPECS
    else LastAnswer(log).Some? && Overlaid(specs, ToolRegistry.LOCAL_TOOL_SPECS, LastAnswer(log).value)
  }

  ghost predicate NoNonceCheck(log: seq<Event>, id: nat) {
    forall e | e in log && e.NonceChecked? :: e.id != id
  }

  ghost predicate NoRateCheck(log: seq<Event>, id: nat) {
    forall e | e in log && e.RateChecked? :: e.id != id
  }

  /** Nothing of the request has gone upstream, so nothing has come back either. */
  ghost predicate NoForward(log: seq<Event>, id: nat) {
    forall e | e in log && (e.CallForwarded? || e.ReplyArrived?) :: e.id != id
  }

  ghost predicate WasForwarded(log: seq<Event>, id: nat) {
    exists tool, params, token :: CallForwarded(id, tool, params, token) in log
  }

  ghost predicate NoReply(log: seq<Event>, id: nat) {
    forall e | e in log && e.ReplyArrived? :: e.id != id
  }

  ghost predicate Unchecked(log: seq<Event>, id: nat) {
    NoNonceCheck(log, id) && NoRateCheck(log, id) && NoForward(log, id)
  }

  /** No clock reading in the history is later than `now`. */
  ghost predicate ReadingsUpTo(log: seq<Event>, now: Time) {
    forall e | e in log ::
      match e
      case TokenVerified(_, _, _, at) => at <= now
      case NonceChecked(_, _, _, _, _, tCheck, tStore, _) => tCheck <= now && tStore <= now
      case RateChecked(_, _, t, cleanNow, _) => t <= now && cleanNow <= now
      case _ => true
  }

  /** What holds of an event given the history `pre` before it. */
  ghost predicate EventOk(env: Env, pre: seq<Event>, e: Event) {
    match e
    case CallArrived(id, _, _) => forall x | x in pre :: IdOf(x) != Some(id)
    case TokenVerified(id, token, key, at) =>
      && Trimmed(token) && Genuine(env.crypto, token, key, env.serverDid, at)
      && ResolvedKey(pre, env.crypto.decode(token).value.iss.value, key)
    case NonceChecked(id, token, jti, exp, tVerify, tCheck, tStore, unseen) =>
      && NoNonceCheck(pre, id) && ReadingsUpTo(pre, tCheck) && tVerify <= tCheck <= tStore
      && unseen == !NonceStore.Seen(NonceHistory.Run(NonceOps(pre)), jti, tCheck)
      && env.crypto.decode(token).Some?
      && var claims := env.crypto.decode(token).value;
         && claims.jti == Some(jti) && claims.exp == Some(exp) && tVerify < exp as real
         && VerifiedAt(env, pre, id, token, claims, tVerify)
    case RateChecked(id, did, now, cleanNow, admitted) =>
      && NoRateCheck(pre, id) && ReadingsUpTo(pre, now) && now <= cleanNow
      && admitted == RateLimiter.Admits(RateHistory.Run(RateCalls(pre)), did, now, cleanNow)
      && exists token, jti ::
           NoncePassed(pre, id, token, jti) && env.crypto.decode(token).Some?
           && env.crypto.decode(token).value.iss == Some(did)
    case SpecsReturned(id, start, specs) => Current(env, pre, start, specs)
    case CallForwarded(id, tool, params, token) =>
      && NoForward(pre, id) && env.crypto.decode(token).Some?
      && var call := ToolCall(token, env.crypto.decode(token).value, tool, params);
         Vetted(env, pre, id, call) && HashPassed(env, pre, id, call)
    case ReplyArrived(id, _) => WasForwarded(pre, id) && NoReply(pre, id)
    case _ => true
  }

  ghost predicate HistoryOk(env: Env, log: seq<Event>) {
    forall i | 0 <= i < |log| :: EventOk(env, log[..i], log[i])
  }

  /** Some nonce check of the request passed. */
  ghost predicate NonceRecorded(log: seq<Event>, id: nat) {
    exists token, jti :: NoncePassed(log, id, token, jti)
  }

  ghost predicate NonceRefused(log: seq<Event>, id: nat) {
    forall e | e in log && e.NonceChecked? && e.id == id :: !e.unseen
  }

  ghost predicate RateAdmitted(log: seq<Event>, id: nat) {
    exists did :: RatePassed(log, id, did)
  }

  ghost predicate RateRefused(log: seq<Event>, id: nat) {
    exists did, now, cleanNow :: RateChecked(id, did, now, cleanNow, false) in log
  }

  /** What a denied request has left in the history: the checks before its stage passed, none after it was made. */
  ghost predicate DenialOk(log: seq<Event>, id: nat, stage: Stage) {
    match stage
    case ReplayProtection => NonceRefused(log, id) && NoRateCheck(log, id) && NoForward(log, id)
    case RateLimit => NonceRecorded(log, id) && RateRefused(log, id) && NoForward(log, id)
    case PolicyEnforcement => NonceRecorded(log, id) && RateAdmitted(log, id) && NoForward(log, id)
    case ToolIntegrity => NonceRecorded(log, id) && RateAdmitted(log, id) && NoForward(log, id)
    case _ => Unchecked(log, id)
  }

  ghost predicate EndOk(log: seq<Event>, id: nat, outcome: Outcome) {
    match outcome
    case Denied(stage) => DenialOk(log, id, stage)
    case Crashed => ReplyArrived(id, true) !in log
    case Forwarded => WasForwarded(log, id) && ReplyArrived(id, true) in log
    case Listed => Unchecked(log, id)
  }

  ghost predicate PhaseOk(env: Env, log: seq<Event>, id: nat, phase: Phase) {
    match phase
    case Arrived(auth, body) => Unchecked(log, id) && CallArrived(id, auth, body) in log
    case ListArrived => Unchecked(log, id)
    case Resolving(token, claims, body) =>
      Unchecked(log, id) && CameWith(log, id, token, body) && env.crypto.decode(token) == Some(claims)
    case Verified(token, claims, tVerify, body) =>
      Unchecked(log, id) && CameWith(log, id, token, body) && VerifiedAt(env, log, id, token, claims, tVerify)
    case Checked(call) => Vetted(env, log, id, call) && NoForward(log, id)
    case Fetching(start, purpose) => FetchOk(env, log, id, purpose) && AsksUpstream(env)
    case Passed(call) => Vetted(env, log, id, call) && HashPassed(env, log, id, call) && NoForward(log, id)
    case Awaiting(call) => WasForwarded(log, id) && NoReply(log, id)
    case Done(outcome) => EndOk(log, id, outcome)
  }

  /** A fetch is for a vetted call, or for a listing that checks nothing. */
  ghost predicate FetchOk(env: Env, log: seq<Event>, id: nat, purpose: Option<ToolCall>) {
    if purpose.Some? then Vetted(env, log, id, purpose.value) && NoForward(log, id) else Unchecked(log, id)
  }

  function IdOf(e: Event): Option<nat> {
    match e
    case CallArrived(id, _, _) => Some(id)
    case TokenVerified(id, _, _, _) => Some(id)
    case NonceChecked(id, _, _, _, _, _, _, _) => Some(id)
    case RateChecked(id, _, _, _, _) => Some(id)
    case SpecsReturned(id, _, _) => Some(id)
    case CallForwarded(id, _, _, _) => Some(id)
    case ReplyArrived(id, _) => Some(id)
    case _ => None
  }

  /** Every cached key and document of a DID is from a document resolved for that DID. */
  ghost predicate ResolverOk(s: DidResolver.State, log: seq<Event>) {
    && (forall did | did in s.keys :: ResolvedKey(log, did, s.keys[did]))
    && (forall did | did in s.docs :: DocResolved(did, s.docs[did]) in log)
  }

  /** The local map was served by upstream, not before its recorded start time; the remote one is the latest answer. */
  ghost predicate RegistryOk(env: Env, s: ToolRegistry.State, log: seq<Event>) {
    && (s.local.Some? ==> exists at :: UpstreamServed(at, s.local.value) in log && s.localAt <= at)
    && (env.mode != "local" && env.hasPat ==> s.remote == LastAnswer(log))
  }

  /** The invariant, but for the phase of request `id`. */
  ghost predicate InvExcept(env: Env, s: State, id: nat) {
    && HistoryOk(env, s.log)
    && s.nonces == NonceHistory.Run(NonceOps(s.log))
    && s.limiter == RateHistory.Run(RateCalls(s.log))
    && ReadingsUpTo(s.log, s.clock)
    && ResolverOk(s.resolver, s.log)
    && RegistryOk(env, s.registry, s.log)
    && (forall e | e in s.log && IdOf(e).Some? :: IdOf(e).value < s.nextId)
    && (forall i | i in s.reqs :: i < s.nextId)
    && (forall i | i in s.reqs && i != id :: PhaseOk(env, s.log, i, s.reqs[i]))
  }

  ghost predicate Inv(env: Env, s: State) {
    InvExcept(env, s, s.nextId)
  }

  // ---- Growing the history ----

  lemma HistorySnoc(env: Env, log: seq<Event>, e: Event)
    requires HistoryOk(env, log) && EventOk(env, log, e)
    ensures HistoryOk(env, log + [e])
  {
    var all := log + [e];
    forall i | 0 <= i < |all|
      ensures EventOk(env, all[..i], all[i])
    {
      assert all[..i] == if i < |log| then log[..i] else log;
    }
  }

  lemma PrefixOk(env: Env, log: seq<Event>, i: nat)
    requires HistoryOk(env, log) && i <= |log|
    ensures HistoryOk(env, log[..i])
  {
    forall k | 0 <= k < i
      ensures EventOk(env, log[..i][..k], log[..i][k])
    {
      assert log[..i][..k] == log[..k];
    }
  }

  lemma DerivedSnoc(log: seq<Event>, e: Event)
    ensures NonceOps(log + [e]) == ExtendOps(NonceOps(log), e)
    ensures RateCalls(log + [e]) == ExtendCalls(RateCalls(log), e)
  {
    assert (log + [e])[..|log|] == log;
  }

  lemma CameWithGrows(log: seq<Event>, e: Event, id: nat, token: string, body: Option<Body>)
    requires CameWith(log, id, token, body)
    ensures CameWith(log + [e], id, token, body)
  {
    var auth :| CallArrived(id, auth, body) in log && Bears(auth, token);
    assert CallArrived(id, auth, body) in log + [e];
  }

  lemma RequestedGrows(log: seq<Event>, e: Event, id: nat, call: ToolCall)
    requires Requested(log, id, call)
    ensures Requested(log + [e], id, call)
  {
    var body :| CameWith(log, id, call.token, Some(body)) && body.tool == Some(call.tool) && Carries(body, call.params);
    CameWithGrows(log, e, id, call.token, Some(body));
  }

  lemma VettedGrows(env: Env, log: seq<Event>, e: Event, id: nat, call: ToolCall)
    requires Vetted(env, log, id, call)
    ensures Vetted(env, log + [e], id, call)
    ensures HashPassed(env, log, id, call) ==> HashPassed(env, log + [e], id, call)
  {
    RequestedGrows(log, e, id, call);
    var at :| VerifiedAt(env, log, id, call.token, call.claims, at);
    assert VerifiedAt(env, log + [e], id, call.token, call.claims, at);
  }

  /** Checks that passed or failed stay in the history. */
  lemma EvidenceGrows(log: seq<Event>, e: Event, id: nat)
    ensures NonceRecorded(log, id) ==> NonceRecorded(log + [e], id)
    ensures RateAdmitted(log, id) ==> RateAdmitted(log + [e], id)
    ensures RateRefused(log, id) ==> RateRefused(log + [e], id)
  {
    if NonceRecorded(log, id) {
      var token, jti :| NoncePassed(log, id, token, jti);
      assert NoncePassed(log + [e], id, token, jti);
    }
    if RateAdmitted(log, id) {
      var did :| RatePassed(log, id, did);
      assert RatePassed(log + [e], id, did);
    }
  }

  lemma EndGrows(log: seq<Event>, e: Event, id: nat, outcome: Outcome)
    requires EndOk(log, id, outcome) && IdOf(e) != Some(id)
    ensures EndOk(log + [e], id, outcome)
  {
    EvidenceGrows(log, e, id);
    ForwardGrows(log, e, id);
    hide NonceRecorded, RateAdmitted, RateRefused, WasForwarded;
  }

  lemma NothingSentNothingBack(log: seq<Event>, id: nat)
    requires NoForward(log, id)
    ensures EndOk(log, id, Crashed) && !WasForwarded(log, id) && NoReply(log, id)
  {
  }

  lemma ForwardGrows(log: seq<Event>, e: Event, id: nat)
    ensures WasForwarded(log, id) ==> WasForwarded(log + [e], id)
  {
    if WasForwarded(log, id) {
      var tool, params, token :| CallForwarded(id, tool, params, token) in log;
      assert CallForwarded(id, tool, params, token) in log + [e];
    }
  }

  /** What a vetted call has behind it, should it still be denied. */
  lemma VettedEvidence(env: Env, log: seq<Event>, id: nat, call: ToolCall)
    requires Vetted(env, log, id, call)
    ensures NonceRecorded(log, id) && RateAdmitted(log, id)
  {
  }

  /** An event of another request leaves a request's evidence standing. */
  lemma PhaseGrows(env: Env, log: seq<Event>, e: Event, id: nat, phase: Phase)
    requires PhaseOk(env, log, id, phase) && IdOf(e) != Some(id)
    ensures PhaseOk(env, log + [e], id, phase)
  {
    match phase
    case Resolving(token, _, body) => CameWithGrows(log, e, id, token, body);
    case Verified(token, _, _, body) => CameWithGrows(log, e, id, token, body);
    case Checked(call) => VettedGrows(env, log, e, id, call);
    case Fetching(_, purpose) => if purpose.Some? { VettedGrows(env, log, e, id, purpose.value); }
    case Done(outcome) => EndGrows(log, e, id, outcome);
    case Passed(call) => VettedGrows(env, log, e, id, call);
    case Awaiting(_) => ForwardGrows(log, e, id);
    case _ =>
  }

  lemma ResolverGrows(s: DidResolver.State, log: seq<Event>, e: Event)
    requires ResolverOk(s, log)
    ensures ResolverOk(s, log + [e])
  {
    forall did | did in s.keys
      ensures ResolvedKey(log + [e], did, s.keys[did])
    {
      assert ResolvedKey(log, did, s.keys[did]);
      var doc :| DocResolved(did, doc) in log && doc.methods != [] && doc.methods[0] == Some(s.keys[did]);
      assert DocResolved(did, doc) in log + [e];
    }
  }

  /** The event says nothing about upstream's specs. */
  predicate NoAnswer(e: Event) {
    !e.UpstreamServed? && !e.UpstreamFailed? && !e.ProcessRestarted?
  }

  lemma RegistryGrows(env: Env, s: ToolRegistry.State, log: seq<Event>, e: Event)
    requires RegistryOk(env, s, log) && NoAnswer(e)
    ensures RegistryOk(env, s, log + [e])
  {
    assert (log + [e])[..|log|] == log;
  }

  /** What recording an event keeps, when the stores follow it. */
  lemma NoteKeeps(env: Env, s: State, s': State, e: Event, id: nat)
    requires InvExcept(env, s, id) && EventOk(env, s.log, e)
    requires IdOf(e) in {None, Some(id)} && id < s.nextId
    requires s' == Note(s, e).(nonces := s'.nonces, limiter := s'.limiter, registry := s'.registry)
    requires s'.nonces == NonceHistory.Run(NonceOps(s'.log)) && s'.limiter == RateHistory.Run(RateCalls(s'.log))
    requires RegistryOk(env, s'.registry, s'.log)
    requires ReadingsUpTo([e], s.clock)
    ensures InvExcept(env, s', id)
  {
    hide NonceHistory.Run, RateHistory.Run, NonceOps, RateCalls, EventOk, HistoryOk, PhaseOk, ResolverOk, RegistryOk;
    HistorySnoc(env, s.log, e);
    ResolverGrows(s.resolver, s.log, e);
    forall i | i in s.reqs && i != id
      ensures PhaseOk(env, s'.log, i, s.reqs[i])
    {
      PhaseGrows(env, s.log, e, i, s.reqs[i]);
    }
    assert ReadingsUpTo(s'.log, s.clock) by {
      forall x | x in s'.log
        ensures x in s.log || x in [e]
      {
      }
    }
  }

  /** The case where no store changes. */
  lemma NotePlain(env: Env, s: State, e: Event, id: nat)
    requires InvExcept(env, s, id) && EventOk(env, s.log, e)
    requires IdOf(e) in {None, Some(id)} && id < s.nextId
    requires !e.NonceChecked? && !e.RateChecked? && NoAnswer(e)
    requires ReadingsUpTo([e], s.clock)
    ensures InvExcept(env, Note(s, e), id)
  {
    hide NonceHistory.Run, RateHistory.Run, EventOk, HistoryOk, PhaseOk, ResolverOk, RegistryOk;
    DerivedSnoc(s.log, e);
    RegistryGrows(env, s.registry, s.log, e);
    NoteKeeps(env, s, Note(s, e), e, id);
  }

  /** The case of an answer of upstream, which the registry takes in. */
  lemma NoteAnswer(env: Env, s: State, e: Event, registry: ToolRegistry.State, id: nat)
    requires InvExcept(env, s, id) && id < s.nextId && (e.UpstreamServed? || e.UpstreamFailed?)
    requires RegistryOk(env, registry, s.log + [e])
    ensures InvExcept(env, Note(s, e).(registry := registry), id)
  {
    hide NonceHistory.Run, RateHistory.Run, HistoryOk, PhaseOk, ResolverOk, RegistryOk;
    DerivedSnoc(s.log, e);
    NoteKeeps(env, s, Note(s, e).(registry := registry), e, id);
  }

  lemma GotoKeeps(env: Env, s: State, id: nat, phase: Phase)
    requires InvExcept(env, s, id) && id < s.nextId && PhaseOk(env, s.log, id, phase)
    ensures Inv(env, Goto(s, id, phase))
  {
    hide NonceHistory.Run, RateHistory.Run, NonceOps, RateCalls, HistoryOk, PhaseOk, ResolverOk, RegistryOk;
  }

  /** A resolver cache that agrees with the history can replace the present one. */
  lemma ResolverKeeps(env: Env, s: State, resolver: DidResolver.State, id: nat)
    requires InvExcept(env, s, id) && ResolverOk(resolver, s.log)
    ensures InvExcept(env, s.(resolver := resolver), id)
  {
    hide NonceHistory.Run, RateHistory.Run, NonceOps, RateCalls, HistoryOk, PhaseOk, ResolverOk, RegistryOk;
  }
}
