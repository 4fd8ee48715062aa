/** Every step of the pipeline keeps the invariant; hence it holds in every reachable state. */
module PipelineSteps {
  import opened Common
  import opened Tokens
  import opened Pipeline
  import opened PipelineInvariant
  import NonceStore
  import NonceHistory
  import RateLimiter
  import RateHistory
  import DidResolver
  import Policy
  import ToolRegistry

  /** A request that runs leaves the others as they were; the clocks only move on. */
  lemma EnterStep(env: Env, s: State, id: nat, clock: Time, mono: real)
    requires Inv(env, s) && id in s.reqs && s.clock <= clock
    ensures InvExcept(env, s.(clock := clock, mono := mono), id) && id < s.nextId
    ensures PhaseOk(env, s.log, id, s.reqs[id])
  {
  }

  lemma FinishKeeps(env: Env, s: State, id: nat, outcome: Outcome)
    requires InvExcept(env, s, id) && id < s.nextId && EndOk(s.log, id, outcome)
    ensures Inv(env, Finish(s, id, outcome))
  {
    GotoKeeps(env, s, id, Done(outcome));
  }

  lemma VerifiedEventOk(env: Env, log: seq<Event>, id: nat, token: string, claims: Claims, key: string,
                        body: Option<Body>, now: Time)
    requires Unchecked(log, id) && CameWith(log, id, token, body) && env.crypto.decode(token) == Some(claims)
    requires ResolvedKey(log, IssuerOf(claims), key) && Genuine(env.crypto, token, key, env.serverDid, now)
    ensures var e := TokenVerified(id, token, key, now);
            EventOk(env, log, e) && PhaseOk(env, log + [e], id, Verified(token, claims, now, body))
  {
    hide ResolvedKey;
    var e := TokenVerified(id, token, key, now);
    CameWithGrows(log, e, id, token, body);
    assert e in log + [e];
    assert VerifiedAt(env, log + [e], id, token, claims, now);
  }

  lemma VerifyWithKeeps(env: Env, s: State, id: nat, token: string, claims: Claims, key: string,
                        body: Option<Body>, now: Time)
    requires InvExcept(env, s, id) && id < s.nextId && Unchecked(s.log, id) && s.clock == now
    requires CameWith(s.log, id, token, body) && env.crypto.decode(token) == Some(claims)
    requires ResolvedKey(s.log, IssuerOf(claims), key)
    ensures Inv(env, VerifyWith(env, s, id, token, claims, key, body, now))
  {
    hide NonceHistory.Run, RateHistory.Run, NonceOps, RateCalls, HistoryOk, PhaseOk, ResolverOk, RegistryOk, EventOk;
    hide ResolvedKey, Unchecked, VerifyToken, CameWith, Genuine;
    VerifiesExactly(env.crypto, token, key, env.serverDid, now);
    if VerifyToken(env.crypto, token, key, env.serverDid, now).None? {
      FinishKeeps(env, s, id, Denied(JwtVerification));
    } else {
      var e := TokenVerified(id, token, key, now);
      VerifiedEventOk(env, s.log, id, token, claims, key, body, now);
      NotePlain(env, s, e, id);
      GotoKeeps(env, Note(s, e), id, Verified(token, claims, now, body));
    }
  }

  lemma BeginKeeps(env: Env, s: State, id: nat, auth: string, body: Option<Body>, now: Time)
    requires InvExcept(env, s, id) && id < s.nextId && Unchecked(s.log, id) && s.clock == now
    requires CallArrived(id, auth, body) in s.log
    ensures Inv(env, Begin(env, s, id, auth, body, now))
  {
    match BearerToken(auth)
    case None => FinishKeeps(env, s, id, Denied(TokenPresence));
    case Some(token) =>
      BearerExactly(auth, token);
      match env.crypto.decode(token)
      case None => FinishKeeps(env, s, id, Denied(JwtDecode));
      case Some(claims) =>
        match DidResolver.CachedKey(s.resolver, IssuerOf(claims))
        case Some(key) => VerifyWithKeeps(env, s, id, token, claims, key, body, now);
        case None => GotoKeeps(env, s, id, Resolving(token, claims, body));
  }

  /** A finished lookup caches for its DID only what is in the document resolved for it. */
  lemma FinishedIsResolved(s: DidResolver.State, log: seq<Event>, did: string, file: Option<DidResolver.Doc>,
                           web: Option<DidResolver.Doc>)
    requires ResolverOk(s, log)
    requires var doc := DidResolver.Document(s, did, file, web);
             doc.Some? ==> DocResolved(did, doc.value) in log
    ensures var (resolver, key) := DidResolver.Finished(s, did, file, web);
            ResolverOk(resolver, log) && (key.Some? ==> ResolvedKey(log, did, key.value))
  {
  }

  /** The document of a finished lookup is recorded before anything from it is cached. */
  lemma ResolutionKeeps(env: Env, s: State, id: nat, did: string, file: Option<DidResolver.Doc>,
                        web: Option<DidResolver.Doc>)
    requires InvExcept(env, s, id) && id < s.nextId && Unchecked(s.log, id)
    ensures var doc := DidResolver.Document(s.resolver, did, file, web);
            var (resolver, key) := DidResolver.Finished(s.resolver, did, file, web);
            var s1 := (if doc.Some? then Note(s, DocResolved(did, doc.value)) else s).(resolver := resolver);
            && InvExcept(env, s1, id) && Unchecked(s1.log, id)
            && (key.Some? ==> ResolvedKey(s1.log, did, key.value))
            && forall token, body | CameWith(s.log, id, token, body) :: CameWith(s1.log, id, token, body)
  {
    hide NonceHistory.Run, RateHistory.Run, NonceOps, RateCalls, HistoryOk, PhaseOk, ResolverOk, RegistryOk;
    hide DidResolver.Document, DidResolver.Finished, ResolvedKey, CameWith;
    var doc := DidResolver.Document(s.resolver, did, file, web);
    var resolver := DidResolver.Finished(s.resolver, did, file, web).0;
    var s1 := s;
    if doc.Some? {
      var e := DocResolved(did, doc.value);
      NotePlain(env, s, e, id);
      forall token, body | CameWith(s.log, id, token, body)
        ensures CameWith(s.log + [e], id, token, body)
      {
        CameWithGrows(s.log, e, id, token, body);
      }
      assert e in s.log + [e];
      s1 := Note(s, e);
    }
    FinishedIsResolved(s1.resolver, s1.log, did, file, web);
    ResolverKeeps(env, s1, resolver, id);
  }

  lemma KeyArrivedKeeps(env: Env, s: State, id: nat, token: string, claims: Claims, body: Option<Body>,
                        file: Option<DidResolver.Doc>, web: Option<DidResolver.Doc>, now: Time)
    requires InvExcept(env, s, id) && id < s.nextId && Unchecked(s.log, id) && s.clock == now
    requires CameWith(s.log, id, token, body) && env.crypto.decode(token) == Some(claims)
    ensures Inv(env, KeyArrived(env, s, id, token, claims, body, file, web, now))
  {
    var did := IssuerOf(claims);
    ResolutionKeeps(env, s, id, did, file, web);
    hide InvExcept, Inv, PhaseOk, Unchecked, ResolvedKey, CameWith, VerifyWith;
    hide DidResolver.Document, DidResolver.Finished;
    var doc := DidResolver.Document(s.resolver, did, file, web);
    var (resolver, key) := DidResolver.Finished(s.resolver, did, file, web);
    var s1 := (if doc.Some? then Note(s, DocResolved(did, doc.value)) else s).(resolver := resolver);
    match key
    case None => FinishKeeps(env, s1, id, Denied(DidResolution));
    case Some(k) => VerifyWithKeeps(env, s1, id, token, claims, k, body, now);
  }

  /** A nonce check leaves the other checks of its request still to come. */
  lemma NonceEventGrows(env: Env, log: seq<Event>, e: Event, id: nat, token: string, claims: Claims, tVerify: Time,
                        t: Readings)
    requires e.NonceChecked? && Unchecked(log, id) && VerifiedAt(env, log, id, token, claims, tVerify)
    requires ReadingsUpTo(log, t.tRate) && e.tCheck <= t.tRate && e.tStore <= t.tRate
    ensures NoRateCheck(log + [e], id) && NoForward(log + [e], id) && ReadingsUpTo(log + [e], t.tRate)
    ensures VerifiedAt(env, log + [e], id, token, claims, tVerify)
  {
  }

  lemma NonceEventOk(env: Env, s: State, id: nat, call: ToolCall, tVerify: Time, t: Readings)
    requires InvExcept(env, s, id) && Unchecked(s.log, id)
    requires VerifiedAt(env, s.log, id, call.token, call.claims, tVerify)
    requires Given(call.claims.jti) && ReadingsUpTo(s.log, t.tCheck) && t.tCheck <= t.tStore
    ensures var jti := call.claims.jti.value;
            EventOk(env, s.log, NonceChecked(id, call.token, jti, ExpOf(call.claims), tVerify, t.tCheck, t.tStore,
                                             !NonceStore.Seen(s.nonces, jti, t.tCheck)))
  {
    hide NonceHistory.Run, NonceOps;
  }

  /** The nonce check: table and history advance together. */
  lemma NonceNoted(env: Env, s: State, id: nat, call: ToolCall, tVerify: Time, t: Readings)
    requires InvExcept(env, s, id) && id < s.nextId && Unchecked(s.log, id)
    requires VerifiedAt(env, s.log, id, call.token, call.claims, tVerify)
    requires Given(call.claims.jti) && ReadingsUpTo(s.log, t.tCheck) && t.tCheck <= t.tStore <= s.clock
    ensures var jti, exp := call.claims.jti.value, ExpOf(call.claims);
            var seen := NonceStore.Seen(s.nonces, jti, t.tCheck);
            var cleaned := NonceStore.Cleaned(s.nonces, t.tCheck);
            var nonces := if seen then cleaned else NonceStore.Stored(cleaned, jti, exp, t.tStore);
            var e := NonceChecked(id, call.token, jti, exp, tVerify, t.tCheck, t.tStore, !seen);
            var s1 := Note(s, e).(nonces := nonces);
            InvExcept(env, s1, id) && (!seen ==> NoncePassed(s1.log, id, call.token, jti))
  {
    hide NonceHistory.Run, RateHistory.Run, NonceOps, RateCalls, EventOk;
    var jti, exp := call.claims.jti.value, ExpOf(call.claims);
    var seen := NonceStore.Seen(s.nonces, jti, t.tCheck);
    var cleaned := NonceStore.Cleaned(s.nonces, t.tCheck);
    var nonces := if seen then cleaned else NonceStore.Stored(cleaned, jti, exp, t.tStore);
    var e := NonceChecked(id, call.token, jti, exp, tVerify, t.tCheck, t.tStore, !seen);
    NonceEventOk(env, s, id, call, tVerify, t);
    DerivedSnoc(s.log, e);
    NonceHistory.RunSnoc(NonceOps(s.log), NonceHistory.Admit(jti, exp, t.tCheck, t.tStore));
    RegistryGrows(env, s.registry, s.log, e);
    NoteKeeps(env, s, Note(s, e).(nonces := nonces), e, id);
    assert e in s.log + [e];
  }

  lemma RateEventOk(env: Env, s: State, id: nat, call: ToolCall, t: Readings)
    requires InvExcept(env, s, id) && NoRateCheck(s.log, id)
    requires call.claims.iss.Some? && call.claims.jti.Some? && env.crypto.decode(call.token) == Some(call.claims)
    requires NoncePassed(s.log, id, call.token, call.claims.jti.value)
    requires ReadingsUpTo(s.log, t.tRate) && t.tRate <= t.tClean
    ensures var did := call.claims.iss.value;
            var admitted := RateLimiter.Admits(s.limiter, did, t.tRate, t.tClean);
            EventOk(env, s.log, RateChecked(id, did, t.tRate, t.tClean, admitted))
  {
    hide NonceHistory.Run, RateHistory.Run, NonceOps, RateCalls, HistoryOk, PhaseOk, ResolverOk, RegistryOk;
    hide NoRateCheck, NoncePassed, ReadingsUpTo, RateLimiter.Admits;
  }

  lemma RateEventPasses(log: seq<Event>, id: nat, did: string, now: Time, cleanNow: Time)
    ensures RatePassed(log + [RateChecked(id, did, now, cleanNow, true)], id, did)
  {
    var e := RateChecked(id, did, now, cleanNow, true);
    assert e in log + [e];
  }

  lemma RateNoted(env: Env, s: State, id: nat, call: ToolCall, t: Readings)
    requires InvExcept(env, s, id) && id < s.nextId && NoRateCheck(s.log, id)
    requires call.claims.iss.Some? && call.claims.jti.Some? && env.crypto.decode(call.token) == Some(call.claims)
    requires NoncePassed(s.log, id, call.token, call.claims.jti.value)
    requires ReadingsUpTo(s.log, t.tRate) && t.tRate <= t.tClean <= s.clock
    ensures var did := call.claims.iss.value;
            var admitted := RateLimiter.Admits(s.limiter, did, t.tRate, t.tClean);
            var e := RateChecked(id, did, t.tRate, t.tClean, admitted);
            var s1 := Note(s, e).(limiter := RateLimiter.Checked(s.limiter, did, t.tRate, t.tClean));
            InvExcept(env, s1, id) && (admitted ==> RatePassed(s1.log, id, did))
  {
    var did := call.claims.iss.value;
    var admitted := RateLimiter.Admits(s.limiter, did, t.tRate, t.tClean);
    var e := RateChecked(id, did, t.tRate, t.tClean, admitted);
    hide NonceHistory.Run, RateHistory.Run, NonceOps, RateCalls, HistoryOk, PhaseOk, ResolverOk, RegistryOk;
    hide EventOk, RateLimiter.Admits, RateLimiter.Checked, RateHistory.Allowed, NoRateCheck, NoncePassed, RatePassed;
    RateEventOk(env, s, id, call, t);
    DerivedSnoc(s.log, e);
    RateHistory.RunSnoc(RateCalls(s.log), RateHistory.Call(did, t.tRate, t.tClean));
    RegistryGrows(env, s.registry, s.log, e);
    assert ReadingsUpTo([e], s.clock);
    hide ReadingsUpTo;
    NoteKeeps(env, s, Note(s, e).(limiter := RateLimiter.Checked(s.limiter, did, t.tRate, t.tClean)), e, id);
    if admitted {
      RateEventPasses(s.log, id, did, t.tRate, t.tClean);
    }
  }

  /** What a rate check leaves behind, whatever its verdict. */
  lemma CheckEvidence(log: seq<Event>, e: Event, id: nat, token: string, jti: string)
    requires NoncePassed(log, id, token, jti) && NoForward(log, id) && e.RateChecked? && e.id == id
    ensures NonceRecorded(log + [e], id) && NoForward(log + [e], id)
    ensures if e.admitted then RateAdmitted(log + [e], id) else RateRefused(log + [e], id)
  {
    assert NonceRecorded(log, id);
    EvidenceGrows(log, e, id);
    assert e in log + [e];
    if e.admitted {
      assert RatePassed(log + [e], id, e.did);
    }
  }

  /** After the rate check, a call that policy allows has passed everything but the tool hash. */
  lemma AdmittedIsVetted(env: Env, log: seq<Event>, e: Event, id: nat, call: ToolCall, tVerify: Time)
    requires VerifiedAt(env, log, id, call.token, call.claims, tVerify) && NoForward(log, id)
    requires Given(call.claims.jti) && call.claims.tool == Some(call.tool) && Requested(log, id, call)
    requires NoncePassed(log, id, call.token, call.claims.jti.value)
    requires e.RateChecked? && RatePassed(log + [e], id, call.claims.iss.value)
    requires Policy.IsAllowed(env.mode, call.claims.iss.value, call.tool, call.params) == Policy.Allowed
    ensures Vetted(env, log + [e], id, call) && NoForward(log + [e], id)
    ensures PhaseOk(env, log + [e], id, Checked(call))
  {
    RequestedGrows(log, e, id, call);
    hide RatePassed, Policy.IsAllowed, Requested;
    assert VerifiedAt(env, log + [e], id, call.token, call.claims, tVerify);
  }

  lemma CheckRateKeeps(env: Env, s: State, id: nat, call: ToolCall, tVerify: Time, t: Readings)
    requires InvExcept(env, s, id) && id < s.nextId && NoRateCheck(s.log, id) && NoForward(s.log, id)
    requires VerifiedAt(env, s.log, id, call.token, call.claims, tVerify)
    requires Given(call.claims.jti) && call.claims.tool == Some(call.tool) && Requested(s.log, id, call)
    requires NoncePassed(s.log, id, call.token, call.claims.jti.value)
    requires ReadingsUpTo(s.log, t.tRate) && t.tRate <= t.tClean <= s.clock
    ensures Inv(env, CheckRate(env, s, id, call, t))
  {
    hide NonceHistory.Run, RateHistory.Run, NonceOps, RateCalls, HistoryOk, PhaseOk, ResolverOk, RegistryOk, EventOk;
    RateNoted(env, s, id, call, t);
    var did := call.claims.iss.value;
    var admitted := RateLimiter.Admits(s.limiter, did, t.tRate, t.tClean);
    var e := RateChecked(id, did, t.tRate, t.tClean, admitted);
    var s1 := Note(s, e).(limiter := RateLimiter.Checked(s.limiter, did, t.tRate, t.tClean));
    CheckEvidence(s.log, e, id, call.token, call.claims.jti.value);
    if !admitted {
      FinishKeeps(env, s1, id, Denied(RateLimit));
    } else {
      match Policy.IsAllowed(env.mode, did, call.tool, call.params)
      case Raises => FinishKeeps(env, s1, id, Crashed);
      case Blocked => FinishKeeps(env, s1, id, Denied(PolicyEnforcement));
      case Allowed =>
        AdmittedIsVetted(env, s.log, e, id, call, tVerify);
        if !Given(call.claims.toolHash) {
          FinishKeeps(env, s1, id, Denied(ToolIntegrity));
        } else {
          GotoKeeps(env, s1, id, Checked(call));
        }
    }
  }

  lemma CheckNonceKeeps(env: Env, s: State, id: nat, call: ToolCall, tVerify: Time, t: Readings)
    requires InvExcept(env, s, id) && id < s.nextId && Unchecked(s.log, id)
    requires VerifiedAt(env, s.log, id, call.token, call.claims, tVerify)
    requires Given(call.claims.jti) && call.claims.tool == Some(call.tool) && Requested(s.log, id, call)
    requires ReadingsUpTo(s.log, t.tCheck) && t.tCheck <= t.tStore <= t.tRate <= t.tClean == s.clock
    ensures Inv(env, CheckNonce(env, s, id, call, tVerify, t))
  {
    hide NonceHistory.Run, RateHistory.Run, NonceOps, RateCalls, HistoryOk, PhaseOk, ResolverOk, RegistryOk;
    hide CheckRate, NonceStore.Seen, NonceStore.Cleaned, NonceStore.Stored, VerifiedAt, NoncePassed, Requested;
    NonceNoted(env, s, id, call, tVerify, t);
    var jti, exp := call.claims.jti.value, ExpOf(call.claims);
    var seen := NonceStore.Seen(s.nonces, jti, t.tCheck);
    var cleaned := NonceStore.Cleaned(s.nonces, t.tCheck);
    var s1 := Note(s, NonceChecked(id, call.token, jti, exp, tVerify, t.tCheck, t.tStore, !seen));
    if seen {
      FinishKeeps(env, s1.(nonces := cleaned), id, Denied(ReplayProtection));
    } else {
      NonceEventGrows(env, s.log, s1.log[|s.log|], id, call.token, call.claims, tVerify, t);
      RequestedGrows(s.log, s1.log[|s.log|], id, call);
      CheckRateKeeps(env, s1.(nonces := NonceStore.Stored(cleaned, jti, exp, t.tStore)), id, call, tVerify, t);
    }
  }

  lemma CheckRequestKeeps(env: Env, s: State, id: nat, token: string, claims: Claims, tVerify: Time,
                          body: Option<Body>, t: Readings)
    requires InvExcept(env, s, id) && id < s.nextId && Unchecked(s.log, id) && CameWith(s.log, id, token, body)
    requires VerifiedAt(env, s.log, id, token, claims, tVerify)
    requires ReadingsUpTo(s.log, t.tCheck) && t.tCheck <= t.tStore <= t.tRate <= t.tClean == s.clock
    ensures Inv(env, CheckRequest(env, s, id, token, claims, tVerify, body, t))
  {
    if body.None? {
      FinishKeeps(env, s, id, Crashed);
    } else if !Given(body.value.tool) {
      FinishKeeps(env, s, id, Denied(RequestParse));
    } else if claims.tool != body.value.tool {
      FinishKeeps(env, s, id, Denied(ToolBinding));
    } else if !Given(claims.jti) {
      FinishKeeps(env, s, id, Denied(ReplayProtection));
    } else {
      var call := ToolCall(token, claims, body.value.tool.value, NormalParams(body.value));
      NormalParamsCarried(body.value);
      assert Requested(s.log, id, call);
      CheckNonceKeeps(env, s, id, call, tVerify, t);
    }
  }

  lemma ComparedIsPassed(env: Env, log: seq<Event>, id: nat, call: ToolCall, start: real, specs: ToolRegistry.Specs)
    requires FetchOk(env, log, id, Some(call)) && HasHash(env, specs, call.tool, call.claims.toolHash)
    ensures PhaseOk(env, log + [SpecsReturned(id, start, specs)], id, Passed(call))
  {
    hide Vetted, HasHash;
    var e := SpecsReturned(id, start, specs);
    VettedGrows(env, log, e, id, call);
    assert e in log + [e];
    assert HashPassed(env, log + [e], id, call);
  }

  lemma UseSpecsKeeps(env: Env, s: State, id: nat, purpose: Option<ToolCall>, start: real, specs: ToolRegistry.Specs)
    requires InvExcept(env, s, id) && id < s.nextId && Current(env, s.log, start, specs)
    requires FetchOk(env, s.log, id, purpose)
    ensures Inv(env, UseSpecs(env, s, id, purpose, start, specs))
  {
    hide NonceHistory.Run, RateHistory.Run, NonceOps, RateCalls, HistoryOk, PhaseOk, ResolverOk, RegistryOk;
    hide FetchOk, Current, EndOk, InvExcept, HasHash;
    var e := SpecsReturned(id, start, specs);
    SpecsNoted(env, s, id, start, specs);
    var s1 := Note(s, e);
    match purpose
    case None =>
      ListingEnds(env, s.log, id, start, specs);
      FinishKeeps(env, s1, id, Listed);
    case Some(call) =>
      var expected := ToolRegistry.ToolHash(env.crypto.digest, specs, call.tool);
      HashExactly(env, specs, call.tool, call.claims.toolHash);
      if expected.None? || call.claims.toolHash != expected {
        MismatchEnds(env, s.log, id, call, start, specs);
        FinishKeeps(env, s1, id, Denied(ToolIntegrity));
      } else {
        ComparedIsPassed(env, s.log, id, call, start, specs);
        GotoKeeps(env, s1, id, Passed(call));
      }
  }

  lemma SpecsNoted(env: Env, s: State, id: nat, start: real, specs: ToolRegistry.Specs)
    requires InvExcept(env, s, id) && id < s.nextId && Current(env, s.log, start, specs)
    ensures InvExcept(env, Note(s, SpecsReturned(id, start, specs)), id)
  {
    hide InvExcept, Current;
    NotePlain(env, s, SpecsReturned(id, start, specs), id);
  }

  lemma ListingEnds(env: Env, log: seq<Event>, id: nat, start: real, specs: ToolRegistry.Specs)
    requires FetchOk(env, log, id, None)
    ensures EndOk(log + [SpecsReturned(id, start, specs)], id, Listed)
  {
  }

  lemma MismatchEnds(env: Env, log: seq<Event>, id: nat, call: ToolCall, start: real, specs: ToolRegistry.Specs)
    requires FetchOk(env, log, id, Some(call))
    ensures EndOk(log + [SpecsReturned(id, start, specs)], id, Denied(ToolIntegrity))
  {
    VettedEvidence(env, log, id, call);
    EvidenceGrows(log, SpecsReturned(id, start, specs), id);
    hide Vetted, NonceRecorded, RateAdmitted;
  }

  lemma BegunIsCurrent(env: Env, registry: ToolRegistry.State, log: seq<Event>, now: real)
    requires RegistryOk(env, registry, log)
    ensures var specs := ToolRegistry.Begun(registry, UpstreamOf(env), now);
            if specs.Some? then Current(env, log, now, specs.value) else AsksUpstream(env)
  {
    if registry.remote.Some? {
      SumIsOverlaid(ToolRegistry.LOCAL_TOOL_SPECS, registry.remote.value);
    }
    hide Overlaid;
  }

  lemma BeginFetchKeeps(env: Env, s: State, id: nat, purpose: Option<ToolCall>, now: real)
    requires InvExcept(env, s, id) && id < s.nextId
    requires FetchOk(env, s.log, id, purpose)
    ensures Inv(env, BeginFetch(env, s, id, purpose, now))
  {
    hide NonceHistory.Run, RateHistory.Run, NonceOps, RateCalls, HistoryOk, ResolverOk, RegistryOk, Vetted, Unchecked;
    hide ToolRegistry.Begun, UseSpecs, Current;
    BegunIsCurrent(env, s.registry, s.log, now);
    match ToolRegistry.Begun(s.registry, UpstreamOf(env), now)
    case Some(specs) => UseSpecsKeeps(env, s, id, purpose, now, specs);
    case None => GotoKeeps(env, s, id, Fetching(now, purpose));
  }

  /** What the rest of a fetch stores and returns, given upstream's answer as the latest one. */
  lemma EndedIsCurrent(env: Env, registry: ToolRegistry.State, log: seq<Event>, start: real,
                       answer: Option<ToolRegistry.Specs>, servedAt: real)
    requires RegistryOk(env, registry, log) && AsksUpstream(env) && start <= servedAt
    ensures var (registry', specs) := ToolRegistry.Ended(registry, UpstreamOf(env), start, answer);
            var log' := log + [AnswerOf(answer, servedAt)];
            RegistryOk(env, registry', log') && (specs.Some? ==> Current(env, log', start, specs.value))
  {
    var e := AnswerOf(answer, servedAt);
    var remote := if answer.Some? then answer.value else map[];
    SumIsOverlaid(ToolRegistry.LOCAL_TOOL_SPECS, remote);
    hide Overlaid;
    assert e in log + [e];
    assert LastAnswer(log + [e]) == Some(remote);
  }

  /** The event is recorded, and what it brought enters the cache with it. */
  lemma AnswerNoted(env: Env, s: State, id: nat, start: real, answer: Option<ToolRegistry.Specs>, servedAt: real)
    requires InvExcept(env, s, id) && id < s.nextId && start <= servedAt && AsksUpstream(env)
    ensures var (registry, specs) := ToolRegistry.Ended(s.registry, UpstreamOf(env), start, answer);
            var s1 := Note(s, AnswerOf(answer, servedAt)).(registry := registry);
            InvExcept(env, s1, id) && (specs.Some? ==> Current(env, s1.log, start, specs.value))
  {
    EndedIsCurrent(env, s.registry, s.log, start, answer, servedAt);
    hide ToolRegistry.Ended, RegistryOk, Current;
    var registry := ToolRegistry.Ended(s.registry, UpstreamOf(env), start, answer).0;
    NoteAnswer(env, s, AnswerOf(answer, servedAt), registry, id);
  }

  lemma FetchOkGrows(env: Env, log: seq<Event>, e: Event, id: nat, purpose: Option<ToolCall>)
    requires FetchOk(env, log, id, purpose) && (e.UpstreamServed? || e.UpstreamFailed?)
    ensures FetchOk(env, log + [e], id, purpose)
  {
    if purpose.Some? {
      VettedGrows(env, log, e, id, purpose.value);
      hide Vetted;
    }
  }

  lemma FetchOkForwardsNothing(env: Env, log: seq<Event>, id: nat, purpose: Option<ToolCall>)
    requires FetchOk(env, log, id, purpose)
    ensures NoForward(log, id) && EndOk(log, id, Crashed)
  {
  }

  lemma EndFetchKeeps(env: Env, s: State, id: nat, start: real, purpose: Option<ToolCall>,
                      answer: Option<ToolRegistry.Specs>, servedAt: real)
    requires InvExcept(env, s, id) && id < s.nextId && start <= servedAt
    requires FetchOk(env, s.log, id, purpose) && AsksUpstream(env)
    ensures Inv(env, EndFetch(env, s, id, start, purpose, answer, servedAt))
  {
    hide NonceHistory.Run, RateHistory.Run, NonceOps, RateCalls, HistoryOk, ResolverOk, RegistryOk, Current, PhaseOk;
    hide FetchOk, ToolRegistry.Ended, UseSpecs, InvExcept;
    AnswerNoted(env, s, id, start, answer, servedAt);
    var (registry, specs) := ToolRegistry.Ended(s.registry, UpstreamOf(env), start, answer);
    var s1 := Note(s, AnswerOf(answer, servedAt)).(registry := registry);
    FetchOkGrows(env, s.log, AnswerOf(answer, servedAt), id, purpose);
    FetchOkForwardsNothing(env, s1.log, id, purpose);
    match specs
    case None => FinishKeeps(env, s1, id, Crashed);
    case Some(m) => UseSpecsKeeps(env, s1, id, purpose, start, m);
  }

  lemma VettedIsDecoded(env: Env, log: seq<Event>, id: nat, call: ToolCall)
    requires Vetted(env, log, id, call)
    ensures env.crypto.decode(call.token) == Some(call.claims) && call.claims.tool == Some(call.tool)
  {
  }

  lemma ForwardEventOk(env: Env, log: seq<Event>, id: nat, call: ToolCall)
    requires Vetted(env, log, id, call) && HashPassed(env, log, id, call) && NoForward(log, id)
    ensures EventOk(env, log, CallForwarded(id, call.tool, call.params, call.token))
  {
    VettedIsDecoded(env, log, id, call);
    hide Vetted, HashPassed, NoForward;
    assert call == ToolCall(call.token, env.crypto.decode(call.token).value, call.tool, call.params);
  }

  lemma ForwardKeeps(env: Env, s: State, id: nat, call: ToolCall)
    requires InvExcept(env, s, id) && id < s.nextId && PhaseOk(env, s.log, id, Passed(call))
    ensures Inv(env, Forward(env, s, id, call))
  {
    hide NonceHistory.Run, RateHistory.Run, NonceOps, RateCalls, HistoryOk, ResolverOk, RegistryOk, Vetted, HashPassed;
    hide NoForward, EventOk;
    if UpstreamOf(env).Github? && !env.hasPat {
      NothingSentNothingBack(s.log, id);
      FinishKeeps(env, s, id, Crashed);
    } else {
      var e := CallForwarded(id, call.tool, call.params, call.token);
      ForwardEventOk(env, s.log, id, call);
      NotePlain(env, s, e, id);
      ForwardIsAwaited(s.log, id, call);
      GotoKeeps(env, Note(s, e), id, Awaiting(call));
    }
  }

  lemma ForwardIsAwaited(log: seq<Event>, id: nat, call: ToolCall)
    requires NoForward(log, id)
    ensures var log' := log + [CallForwarded(id, call.tool, call.params, call.token)];
            WasForwarded(log', id) && NoReply(log', id)
  {
    var e := CallForwarded(id, call.tool, call.params, call.token);
    assert e in log + [e];
  }

  lemma ReplyEnds(log: seq<Event>, id: nat, ok: bool)
    requires WasForwarded(log, id) && NoReply(log, id)
    ensures EndOk(log + [ReplyArrived(id, ok)], id, if ok then Forwarded else Crashed)
  {
    var e := ReplyArrived(id, ok);
    assert e in log + [e];
    ForwardGrows(log, e, id);
    hide WasForwarded;
  }

  lemma ReplyKeeps(env: Env, s: State, id: nat, ok: bool)
    requires InvExcept(env, s, id) && id < s.nextId && WasForwarded(s.log, id) && NoReply(s.log, id)
    ensures Inv(env, Reply(s, id, ok))
  {
    hide NonceHistory.Run, RateHistory.Run, NonceOps, RateCalls, HistoryOk, ResolverOk, RegistryOk, EndOk;
    hide WasForwarded, NoReply;
    var e := ReplyArrived(id, ok);
    NotePlain(env, s, e, id);
    ReplyEnds(s.log, id, ok);
    FinishKeeps(env, Note(s, e), id, if ok then Forwarded else Crashed);
  }

  lemma RestartKeeps(env: Env, s: State)
    requires Inv(env, s)
    ensures Inv(env, Restart(s))
  {
    hide NonceHistory.Run, NonceOps, RateCalls, HistoryOk, PhaseOk;
    var e := ProcessRestarted;
    DerivedSnoc(s.log, e);
    NonceHistory.RunSnoc(NonceOps(s.log), NonceHistory.Restart);
    HistorySnoc(env, s.log, e);
  }

  /** A new number has no past. */
  lemma NewIdIsUnused(env: Env, s: State)
    requires Inv(env, s)
    ensures InvExcept(env, s.(nextId := s.nextId + 1), s.nextId) && Unchecked(s.log, s.nextId)
    ensures forall e | e in s.log :: IdOf(e) != Some(s.nextId)
  {
    hide PhaseOk, HistoryOk, NonceHistory.Run, RateHistory.Run, ResolverOk, RegistryOk, ReadingsUpTo;
  }

  lemma CallArrivalKeeps(env: Env, s: State, auth: string, body: Option<Body>)
    requires Inv(env, s)
    ensures Inv(env, Apply(env, s, ArriveCall(auth, body)))
  {
    hide InvExcept, PhaseOk, Inv, EventOk, Unchecked, HistoryOk;
    var id, e := s.nextId, CallArrived(s.nextId, auth, body);
    var s1 := s.(nextId := id + 1);
    NewIdIsUnused(env, s);
    ArrivalEventOk(env, s.log, id, auth, body);
    ArrivalIsNew(env, s.log, id, auth, body);
    NotePlain(env, s1, e, id);
    GotoKeeps(env, Note(s1, e), id, Arrived(auth, body));
    ArrivalInTwo(env, s, auth, body);
  }

  lemma ArrivalEventOk(env: Env, log: seq<Event>, id: nat, auth: string, body: Option<Body>)
    requires forall e | e in log :: IdOf(e) != Some(id)
    ensures EventOk(env, log, CallArrived(id, auth, body))
  {
  }

  lemma ArrivalInTwo(env: Env, s: State, auth: string, body: Option<Body>)
    ensures Apply(env, s, ArriveCall(auth, body)) ==
            Goto(Note(s.(nextId := s.nextId + 1), CallArrived(s.nextId, auth, body)), s.nextId, Arrived(auth, body))
  {
  }

  lemma ArrivalIsNew(env: Env, log: seq<Event>, id: nat, auth: string, body: Option<Body>)
    requires Unchecked(log, id)
    ensures PhaseOk(env, log + [CallArrived(id, auth, body)], id, Arrived(auth, body))
  {
    var e := CallArrived(id, auth, body);
    assert e in log + [e];
  }

  lemma ListArrivalKeeps(env: Env, s: State)
    requires Inv(env, s)
    ensures Inv(env, Apply(env, s, ArriveList))
  {
    NewIdIsUnused(env, s);
    var s1 := s.(nextId := s.nextId + 1);
    assert PhaseOk(env, s1.log, s.nextId, ListArrived);
    hide InvExcept, PhaseOk, Inv;
    GotoKeeps(env, s1, s.nextId, ListArrived);
    assert Apply(env, s, ArriveList) == Goto(s1, s.nextId, ListArrived);
  }

  /** The invariant is kept by every step. */
  lemma StepKeeps(env: Env, s: State, step: Step)
    requires Inv(env, s) && Enabled(s, step)
    ensures Inv(env, Apply(env, s, step))
  {
    match step
    case ArriveCall(auth, body) => CallArrivalKeeps(env, s, auth, body);
    case ArriveList => ListArrivalKeeps(env, s);
    case BeginStep(id, now) =>
      EnterStep(env, s, id, now, s.mono);
      BeginKeeps(env, s.(clock := now), id, s.reqs[id].auth, s.reqs[id].body, now);
    case KeyStep(id, file, web, now) =>
      EnterStep(env, s, id, now, s.mono);
      KeyArrivedKeeps(env, s.(clock := now), id, s.reqs[id].token, s.reqs[id].claims, s.reqs[id].body, file, web, now);
    case CheckStep(id, t) =>
      EnterStep(env, s, id, t.tClean, s.mono);
      var v := s.reqs[id];
      CheckRequestKeeps(env, s.(clock := t.tClean), id, v.token, v.claims, v.tVerify, v.body, t);
    case FetchStep(id, monoNow) =>
      EnterStep(env, s, id, s.clock, monoNow);
      var purpose := if s.reqs[id].Checked? then Some(s.reqs[id].call) else None;
      BeginFetchKeeps(env, s.(mono := monoNow), id, purpose, monoNow);
    case AnswerStep(id, answer, servedAt, monoNow) =>
      EnterStep(env, s, id, s.clock, monoNow);
      EndFetchKeeps(env, s.(mono := monoNow), id, s.reqs[id].start, s.reqs[id].purpose, answer, servedAt);
    case ForwardStep(id) =>
      EnterStep(env, s, id, s.clock, s.mono);
      ForwardKeeps(env, s, id, s.reqs[id].call);
    case ReplyStep(id, ok) =>
      EnterStep(env, s, id, s.clock, s.mono);
      ReplyKeeps(env, s, id, ok);
    case RestartStep => RestartKeeps(env, s);
  }

  /** The invariant holds after every possible run. */
  lemma {:induction false} RunKeeps(env: Env, steps: seq<Step>, s: State)
    requires Reaches(env, steps, s)
    ensures Inv(env, s)
  {
    if steps != [] {
      var prev := RunFrom(env, INITIAL, steps[..|steps| - 1]).value;
      RunKeeps(env, steps[..|steps| - 1], prev);
      StepKeeps(env, prev, steps[|steps| - 1]);
    }
  }
}
