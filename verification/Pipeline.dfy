/**
  The secure-mode handler `proxy_tool_call` (`dzt_proxy/app.py`) as a step machine.
  Any number of requests are in flight; a request can be suspended only where the
  coroutine awaits (the key lookup, the body, the tool hash, the upstream call), so
  each step below runs one stretch of the handler between two awaits, atomically on
  the event loop. `log` is the history that the theorems speak about; no step reads it.
 */
module Pipeline {
  import opened Common
  import opened Tokens
  import Json
  import NonceStore
  import RateLimiter
  import DidResolver
  import Policy
  import ToolRegistry

  /** Everything that stays fixed while the system runs. */
  datatype Env = Env(crypto: Crypto, serverDid: string, mode: string, hasPat: bool)

  /** `upstream_mode()`: unknown values mean GitHub. */
  function UpstreamOf(env: Env): ToolRegistry.Mode {
    if env.mode == "local" then ToolRegistry.Local else ToolRegistry.Github(env.hasPat)
  }

  /** The JSON body; a request whose body is no JSON object carries None. */
  datatype Body = Body(tool: Option<string>, params: Option<Json.Value>)

  /** body.get("params", {}) or {} */
  function NormalParams(body: Body): Json.Value {
    if body.params.Some? && Json.Truthy(body.params.value) then body.params.value else Json.Obj([])
  }

  datatype Stage =
    | TokenPresence | JwtDecode | DidResolution | JwtVerification | RequestParse
    | ToolBinding | ReplayProtection | RateLimit | PolicyEnforcement | ToolIntegrity

  datatype Outcome = Denied(stage: Stage) | Crashed | Forwarded | Listed

  /** The local variables of a request that has passed all checks before the tool hash. */
  datatype ToolCall = ToolCall(token: string, claims: Claims, tool: string, params: Json.Value)

  /** Where a request is, with the local variables that are live there. */
  datatype Phase =
    | Arrived(auth: string, body: Option<Body>)
    | ListArrived
    | Resolving(token: string, claims: Claims, body: Option<Body>)
    | Verified(token: string, claims: Claims, tVerify: Time, body: Option<Body>)
    | Checked(call: ToolCall)
    | Fetching(start: real, purpose: Option<ToolCall>)
    | Passed(call: ToolCall)
    | Awaiting(call: ToolCall)
    | Done(outcome: Outcome)

  /** What upstream receives of a call: the bearer token only in local mode. */
  datatype Sent = Sent(tool: string, params: Json.Value, bearer: Option<string>)

  /** What the history records; `CallForwarded` keeps the token of the call also where upstream does not get it. */
  datatype Event =
    | CallArrived(id: nat, auth: string, body: Option<Body>)
    | DocResolved(did: string, doc: DidResolver.Doc)
    | TokenVerified(id: nat, token: string, key: string, at: Time)
    | NonceChecked(id: nat, token: string, jti: string, exp: int, tVerify: Time, tCheck: Time, tStore: Time,
                   unseen: bool)
    | RateChecked(id: nat, did: string, now: Time, cleanNow: Time, admitted: bool)
    | UpstreamServed(servedAt: real, specs: ToolRegistry.Specs)
    | UpstreamFailed
    | SpecsReturned(id: nat, start: real, specs: ToolRegistry.Specs)
    | CallForwarded(id: nat, tool: string, params: Json.Value, token: string)
    | ReplyArrived(id: nat, ok: bool)
    | ProcessRestarted

  datatype State = State(
    reqs: map<nat, Phase>,
    nextId: nat,
    nonces: NonceStore.State,
    limiter: RateLimiter.State,
    resolver: DidResolver.State,
    registry: ToolRegistry.State,
    log: seq<Event>,
    clock: Time,
    mono: real)

  const INITIAL: State :=
    State(map[], 0, NonceStore.EMPTY, RateLimiter.EMPTY, DidResolver.EMPTY, ToolRegistry.EMPTY, [], 0.0, 0.0)

  function Goto(s: State, id: nat, phase: Phase): State {
    s.(reqs := s.reqs[id := phase])
  }

  function Finish(s: State, id: nat, outcome: Outcome): State {
    Goto(s, id, Done(outcome))
  }

  function Deny(s: State, id: nat, stage: Stage): State {
    Finish(s, id, Denied(stage))
  }

  function Note(s: State, e: Event): State {
    s.(log := s.log + [e])
  }

  /** unverified.get("iss", "unknown") */
  function IssuerOf(claims: Claims): string {
    if claims.iss.Some? then claims.iss.value else "unknown"
  }

  // ---- Lines 203-242: header, unverified decode, key lookup, verification ----

  function VerifyWith(env: Env, s: State, id: nat, token: string, claims: Claims, key: string,
                      body: Option<Body>, now: Time): State {
    if VerifyToken(env.crypto, token, key, env.serverDid, now).None? then Deny(s, id, JwtVerification)
    else Goto(Note(s, TokenVerified(id, token, key, now)), id, Verified(token, claims, now, body))
  }

  function Begin(env: Env, s: State, id: nat, auth: string, body: Option<Body>, now: Time): State {
    match BearerToken(auth)
    case None => Deny(s, id, TokenPresence)
    case Some(token) =>
      match env.crypto.decode(token)
      case None => Deny(s, id, JwtDecode)
      case Some(claims) =>
        match DidResolver.CachedKey(s.resolver, IssuerOf(claims))
        case Some(key) => VerifyWith(env, s, id, token, claims, key, body, now)
        case None => Goto(s, id, Resolving(token, claims, body))
  }

  /** The rest of the key lookup after a fetch, then verification, without another await. */
  function KeyArrived(env: Env, s: State, id: nat, token: string, claims: Claims, body: Option<Body>,
                      file: Option<DidResolver.Doc>, web: Option<DidResolver.Doc>, now: Time): State {
    var did := IssuerOf(claims);
    var doc := DidResolver.Document(s.resolver, did, file, web);
    var (resolver, key) := DidResolver.Finished(s.resolver, did, file, web);
    var s1 := (if doc.Some? then Note(s, DocResolved(did, doc.value)) else s).(resolver := resolver);
    match key
    case None => Deny(s1, id, DidResolution)
    case Some(k) => VerifyWith(env, s1, id, token, claims, k, body, now)
  }

  // ---- Lines 246-286: one stretch with no await ----

  /** Clock readings of the stretch: `seen_before`, `store_nonce`, `check_rate_limit` and its cleanup. */
  datatype Readings = Readings(tCheck: Time, tStore: Time, tRate: Time, tClean: Time)

  function CheckRequest(env: Env, s: State, id: nat, token: string, claims: Claims, tVerify: Time,
                        body: Option<Body>, t: Readings): State {
    if body.None? then Finish(s, id, Crashed)
    else if !Given(body.value.tool) then Deny(s, id, RequestParse)
    else if claims.tool != body.value.tool then Deny(s, id, ToolBinding)
    else if !Given(claims.jti) then Deny(s, id, ReplayProtection)
    else CheckNonce(env, s, id, ToolCall(token, claims, body.value.tool.value, NormalParams(body.value)), tVerify, t)
  }

  function ExpOf(claims: Claims): int {
    if claims.exp.Some? then claims.exp.value else 0
  }

  function CheckNonce(env: Env, s: State, id: nat, call: ToolCall, tVerify: Time, t: Readings): State
    requires Given(call.claims.jti)
  {
    var jti, exp := call.claims.jti.value, ExpOf(call.claims);
    var seen := NonceStore.Seen(s.nonces, jti, t.tCheck);
    var cleaned := NonceStore.Cleaned(s.nonces, t.tCheck);
    var s1 := Note(s, NonceChecked(id, call.token, jti, exp, tVerify, t.tCheck, t.tStore, !seen));
    if seen then Deny(s1.(nonces := cleaned), id, ReplayProtection)
    else CheckRate(env, s1.(nonces := NonceStore.Stored(cleaned, jti, exp, t.tStore)), id, call, t)
  }

  function CheckRate(env: Env, s: State, id: nat, call: ToolCall, t: Readings): State {
    var did := if call.claims.iss.Some? then call.claims.iss.value else "";
    var admitted := RateLimiter.Admits(s.limiter, did, t.tRate, t.tClean);
    var s1 := Note(s, RateChecked(id, did, t.tRate, t.tClean, admitted))
              .(limiter := RateLimiter.Checked(s.limiter, did, t.tRate, t.tClean));
    if !admitted then Deny(s1, id, RateLimit)
    else
      match Policy.IsAllowed(env.mode, did, call.tool, call.params)
      case Raises => Finish(s1, id, Crashed)
      case Blocked => Deny(s1, id, PolicyEnforcement)
      case Allowed =>
        if !Given(call.claims.toolHash) then Deny(s1, id, ToolIntegrity) else Goto(s1, id, Checked(call))
  }

  // ---- Lines 288-302 and tool_registry.py 102-156: the tool hash ----

  /** A fetch returned `specs` to request `id`: compare hashes, or hand the map to a listing. */
  function UseSpecs(env: Env, s: State, id: nat, purpose: Option<ToolCall>, start: real,
                    specs: ToolRegistry.Specs): State {
    var s1 := Note(s, SpecsReturned(id, start, specs));
    match purpose
    case None => Finish(s1, id, Listed)
    case Some(call) =>
      var expected := ToolRegistry.ToolHash(env.crypto.digest, specs, call.tool);
      if expected.None? || call.claims.toolHash != expected then Deny(s1, id, ToolIntegrity)
      else Goto(s1, id, Passed(call))
  }

  function BeginFetch(env: Env, s: State, id: nat, purpose: Option<ToolCall>, now: real): State {
    match ToolRegistry.Begun(s.registry, UpstreamOf(env), now)
    case Some(specs) => UseSpecs(env, s, id, purpose, now, specs)
    case None => Goto(s, id, Fetching(now, purpose))
  }

  /** What a fetch's request to upstream came to. */
  function AnswerOf(answer: Option<ToolRegistry.Specs>, servedAt: real): Event {
    if answer.Some? then UpstreamServed(servedAt, answer.value) else UpstreamFailed
  }

  function EndFetch(env: Env, s: State, id: nat, start: real, purpose: Option<ToolCall>,
                    answer: Option<ToolRegistry.Specs>, servedAt: real): State {
    var (registry, specs) := ToolRegistry.Ended(s.registry, UpstreamOf(env), start, answer);
    var s1 := Note(s, AnswerOf(answer, servedAt)).(registry := registry);
    match specs
    case None => Finish(s1, id, Crashed)
    case Some(m) => UseSpecs(env, s1, id, purpose, start, m)
  }

  // ---- Lines 308-314 ----

  /** Forwarding to GitHub without a token is a 502 and sends nothing. */
  function Forward(env: Env, s: State, id: nat, call: ToolCall): State {
    if UpstreamOf(env).Github? && !env.hasPat then Finish(s, id, Crashed)
    else Goto(Note(s, CallForwarded(id, call.tool, call.params, call.token)), id, Awaiting(call))
  }

  /**
    The upstream call comes back: with a result, or with an exception for a refused
    connection, a timeout, an error status or a body that is no JSON.
   */
  function Reply(s: State, id: nat, ok: bool): State {
    Finish(Note(s, ReplyArrived(id, ok)), id, if ok then Forwarded else Crashed)
  }

  /** A new process: the nonce rows are on disk, everything in memory is gone. */
  function Restart(s: State): State {
    Note(s, ProcessRestarted).(
      reqs := map[], nonces := NonceStore.Restarted(s.nonces), limiter := RateLimiter.EMPTY,
      resolver := DidResolver.EMPTY, registry := ToolRegistry.EMPTY)
  }

  // ---- The machine ----

  datatype Step =
    | ArriveCall(auth: string, body: Option<Body>)
    | ArriveList
    | BeginStep(id: nat, now: Time)
    | KeyStep(id: nat, file: Option<DidResolver.Doc>, web: Option<DidResolver.Doc>, now: Time)
    | CheckStep(id: nat, t: Readings)
    | FetchStep(id: nat, monoNow: real)
    | AnswerStep(id: nat, answer: Option<ToolRegistry.Specs>, servedAt: real, monoNow: real)
    | ForwardStep(id: nat)
    | ReplyStep(id: nat, ok: bool)
    | RestartStep

  function Arrive(s: State, phase: Phase): State {
    Goto(s, s.nextId, phase).(nextId := s.nextId + 1)
  }

  /** The step can happen: its request is at that point and its clock readings do not go backwards. */
  predicate Enabled(s: State, step: Step) {
    match step
    case ArriveCall(_, _) => true
    case ArriveList => true
    case BeginStep(id, now) => id in s.reqs && s.reqs[id].Arrived? && s.clock <= now
    case KeyStep(id, _, _, now) => id in s.reqs && s.reqs[id].Resolving? && s.clock <= now
    case CheckStep(id, t) =>
      id in s.reqs && s.reqs[id].Verified? && s.clock <= t.tCheck <= t.tStore <= t.tRate <= t.tClean
    case FetchStep(id, monoNow) =>
      id in s.reqs && (s.reqs[id].Checked? || s.reqs[id].ListArrived?) && s.mono <= monoNow
    case AnswerStep(id, _, servedAt, monoNow) =>
      id in s.reqs && s.reqs[id].Fetching? && s.mono <= monoNow && s.reqs[id].start <= servedAt <= monoNow
    case ForwardStep(id) => id in s.reqs && s.reqs[id].Passed?
    case ReplyStep(id, _) => id in s.reqs && s.reqs[id].Awaiting?
    case RestartStep => true
  }

  function Apply(env: Env, s: State, step: Step): State
    requires Enabled(s, step)
  {
    match step
    case ArriveCall(auth, body) => Arrive(Note(s, CallArrived(s.nextId, auth, body)), Arrived(auth, body))
    case ArriveList => Arrive(s, ListArrived)
    case BeginStep(id, now) =>
      Begin(env, s.(clock := now), id, s.reqs[id].auth, s.reqs[id].body, now)
    case KeyStep(id, file, web, now) =>
      KeyArrived(env, s.(clock := now), id, s.reqs[id].token, s.reqs[id].claims, s.reqs[id].body, file, web, now)
    case CheckStep(id, t) =>
      var v := s.reqs[id];
      CheckRequest(env, s.(clock := t.tClean), id, v.token, v.claims, v.tVerify, v.body, t)
    case FetchStep(id, monoNow) =>
      BeginFetch(env, s.(mono := monoNow), id, if s.reqs[id].Checked? then Some(s.reqs[id].call) else None, monoNow)
    case AnswerStep(id, answer, servedAt, monoNow) =>
      EndFetch(env, s.(mono := monoNow), id, s.reqs[id].start, s.reqs[id].purpose, answer, servedAt)
    case ForwardStep(id) => Forward(env, s, id, s.reqs[id].call)
    case ReplyStep(id, ok) => Reply(s, id, ok)
    case RestartStep => Restart(s)
  }

  /** The state after more steps, if each of them can happen where it stands. */
  function RunFrom(env: Env, s: State, steps: seq<Step>): Option<State> {
    if steps == [] then Some(s)
    else
      match RunFrom(env, s, steps[..|steps| - 1])
      case None => None
      case Some(prev) =>
        if Enabled(prev, steps[|steps| - 1]) then Some(Apply(env, prev, steps[|steps| - 1])) else None
  }

  /** The steps are a possible run of the system that leads to `s`. */
  predicate Reaches(env: Env, steps: seq<Step>, s: State) {
    RunFrom(env, INITIAL, steps) == Some(s)
  }
}
