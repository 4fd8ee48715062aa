/**
  What the maps of the registry are and how fresh: 30 seconds in local mode, exactly; in
  GitHub mode with a token upstream's latest answer over the local specs, without a bound
  on its age, and a failed fetch counts as an empty answer until the process restarts.
 */
module PipelineFreshness {
  import opened Common
  import opened Pipeline
  import opened PipelineInvariant
  import DidResolver
  import Json
  import NonceHistory
  import NonceStore
  import PipelineProgress
  import PipelineRuns
  import PipelineSafety
  import PipelineSteps
  import Policy
  import RateHistory
  import RateLimiter
  import Tokens
  import ToolRegistry

  /** The map is made of this answer of upstream. */
  ghost predicate MadeOf(env: Env, specs: ToolRegistry.Specs, answer: ToolRegistry.Specs) {
    if env.mode == "local" then specs == answer else Overlaid(specs, ToolRegistry.LOCAL_TOOL_SPECS, answer)
  }

  /**
    Upstream served what is in the map, later than `b` seconds before `start`. Without a
    GitHub token upstream is never asked, and the map is the constant one.
   */
  ghost predicate ServedWithin(env: Env, pre: seq<Event>, start: real, specs: ToolRegistry.Specs, b: real) {
    if env.mode != "local" && !env.hasPat then specs == ToolRegistry.LOCAL_TOOL_SPECS
    else exists at, answer :: UpstreamServed(at, answer) in pre && MadeOf(env, specs, answer) && at > start - b
  }

  /** In every run of the deployment, every returned map was served within `b` seconds of its fetch's start. */
  ghost predicate FreshWithin(env: Env, b: real) {
    forall steps, s, i: nat :: Reaches(env, steps, s) && i < |s.log| && s.log[i].SpecsReturned? ==>
      ServedWithin(env, s.log[..i], s.log[i].start, s.log[i].specs, b)
  }

  lemma LocalIsFresh(env: Env, b: real)
    requires env.mode == "local" && b >= 30.0
    ensures FreshWithin(env, b)
  {
    forall steps, s, i: nat | Reaches(env, steps, s) && i < |s.log| && s.log[i].SpecsReturned?
      ensures ServedWithin(env, s.log[..i], s.log[i].start, s.log[i].specs, b)
    {
      PipelineSafety.SpecFreshness(env, steps, s, i);
      var at :| UpstreamServed(at, s.log[i].specs) in s.log[..i] && at > s.log[i].start - 30.0;
      assert MadeOf(env, s.log[i].specs, s.log[i].specs);
    }
  }

  // ---- A listing that upstream answers, and a second one that the cache answers ----

  const NOTHING: ToolRegistry.Specs := map[]

  function Offered(env: Env, answer: ToolRegistry.Specs): ToolRegistry.Specs {
    if UpstreamOf(env).Local? then answer else ToolRegistry.LOCAL_TOOL_SPECS + answer
  }

  function AfterFirst(env: Env): State {
    INITIAL.(reqs := map[0 := Done(Listed)], nextId := 1,
             registry := if UpstreamOf(env).Local? then ToolRegistry.State(Some(NOTHING), 0.0, None)
                         else ToolRegistry.State(None, 0.0, Some(NOTHING)),
             log := [UpstreamServed(0.0, NOTHING), SpecsReturned(0, 0.0, Offered(env, NOTHING))])
  }

  lemma FirstListing(env: Env)
    requires AsksUpstream(env)
    ensures Reaches(env, [ArriveList] + [FetchStep(0, 0.0)] + [AnswerStep(0, Some(NOTHING), 0.0, 0.0)], AfterFirst(env))
  {
    var s1 := INITIAL.(reqs := map[0 := ListArrived], nextId := 1);
    var s2 := s1.(reqs := map[0 := Fetching(0.0, None)]);
    hide RunFrom;
    RunOfNothing(env);
    PipelineRuns.OneMore(env, [], INITIAL, ArriveList, s1);
    PipelineRuns.OneMore(env, [] + [ArriveList], s1, FetchStep(0, 0.0), s2);
    PipelineRuns.OneMore(env, [] + [ArriveList] + [FetchStep(0, 0.0)], s2,
                         AnswerStep(0, Some(NOTHING), 0.0, 0.0), AfterFirst(env));
    assert [] + [ArriveList] == [ArriveList];
  }

  lemma RunOfNothing(env: Env)
    ensures Reaches(env, [], INITIAL)
  {
  }

  /** The second listing comes at `m`, while the cache still answers. */
  lemma SecondListing(env: Env, m: real) returns (steps: seq<Step>, s: State)
    requires AsksUpstream(env) && 0.0 <= m && (env.mode == "local" ==> m < 30.0)
    ensures Reaches(env, steps, s) && s.log == AfterFirst(env).log + [SpecsReturned(1, m, Offered(env, NOTHING))]
  {
    hide RunFrom;
    FirstListing(env);
    steps := [ArriveList] + [FetchStep(0, 0.0)] + [AnswerStep(0, Some(NOTHING), 0.0, 0.0)];
    var s1 := Apply(env, AfterFirst(env), ArriveList);
    PipelineRuns.OneMore(env, steps, AfterFirst(env), ArriveList, s1);
    s := Apply(env, s1, FetchStep(1, m));
    PipelineRuns.OneMore(env, steps + [ArriveList], s1, FetchStep(1, m), s);
    steps := steps + [ArriveList] + [FetchStep(1, m)];
  }

  lemma StaleListing(env: Env, b: real)
    requires AsksUpstream(env) && !(env.mode == "local" && b >= 30.0)
    ensures !FreshWithin(env, b)
  {
    var m := if b < 0.0 then 0.0 else b;
    var steps, s := SecondListing(env, m);
    assert s.log[..2] == AfterFirst(env).log && s.log[2] == SpecsReturned(1, m, Offered(env, NOTHING));
    assert !ServedWithin(env, s.log[..2], m, s.log[2].specs, b);
  }

  lemma ReturnedIsCurrent(env: Env, steps: seq<Step>, s: State, i: nat)
    requires Reaches(env, steps, s) && i < |s.log| && s.log[i].SpecsReturned?
    ensures Current(env, s.log[..i], s.log[i].start, s.log[i].specs)
  {
    PipelineSteps.RunKeeps(env, steps, s);
    assert EventOk(env, s.log[..i], s.log[i]);
  }

  /** Without a GitHub token every returned map is the constant one, in every run. */
  lemma ConstantWithoutToken(env: Env, b: real)
    requires env.mode != "local" && !env.hasPat
    ensures FreshWithin(env, b)
  {
    forall steps, s, i: nat | Reaches(env, steps, s) && i < |s.log| && s.log[i].SpecsReturned?
      ensures s.log[i].specs == ToolRegistry.LOCAL_TOOL_SPECS
    {
      ReturnedIsCurrent(env, steps, s, i);
    }
  }

  /**
    Maps are guaranteed to be at most `b` seconds old if and only if the deployment is
    local and `b` is at least 30, or nothing is ever asked of upstream. In GitHub mode
    with a token no age is ever too old.
   */
  lemma FreshExactly(env: Env, b: real)
    ensures FreshWithin(env, b) <==> if env.mode == "local" then b >= 30.0 else !env.hasPat
  {
    if env.mode == "local" && b >= 30.0 {
      LocalIsFresh(env, b);
    } else if AsksUpstream(env) {
      StaleListing(env, b);
    } else {
      ConstantWithoutToken(env, b);
    }
  }

  // ---- What a map is made of ----

  /** Before `i`, upstream's latest answer came at `j`; the process has not restarted in between. */
  ghost predicate LatestAt(log: seq<Event>, i: nat, j: nat) {
    && j < i <= |log| && (log[j].UpstreamServed? || log[j].UpstreamFailed?)
    && forall k | j < k < i :: NoAnswer(log[k])
  }

  /** The specs that the answer brought; a failed request brought none. */
  function Brought(e: Event): ToolRegistry.Specs {
    if e.UpstreamServed? then e.specs else map[]
  }

  lemma {:induction false} FindLatest(log: seq<Event>, i: nat) returns (j: nat)
    requires i <= |log| && LastAnswer(log[..i]).Some?
    ensures LatestAt(log, i, j) && LastAnswer(log[..i]) == Some(Brought(log[j]))
  {
    assert i > 0 && log[..i][..i - 1] == log[..i - 1];
    if NoAnswer(log[i - 1]) {
      j := FindLatest(log, i - 1);
    } else {
      j := i - 1;
    }
  }

  /**
    In GitHub mode with a token every returned map, in every run, is upstream's latest
    answer over the local specs, tool by tool. It is the local map exactly if that
    answer says nothing of its own: it failed, was empty, or repeats local specs.
   */
  lemma MapIsOverlay(env: Env, steps: seq<Step>, s: State, i: nat) returns (j: nat)
    requires Reaches(env, steps, s) && i < |s.log| && s.log[i].SpecsReturned?
    requires env.mode != "local" && env.hasPat
    ensures LatestAt(s.log, i, j)
    ensures Overlaid(s.log[i].specs, ToolRegistry.LOCAL_TOOL_SPECS, Brought(s.log[j]))
    ensures s.log[i].specs == ToolRegistry.LOCAL_TOOL_SPECS <==>
            forall tool | tool in Brought(s.log[j]) ::
              tool in ToolRegistry.LOCAL_TOOL_SPECS && Brought(s.log[j])[tool] == ToolRegistry.LOCAL_TOOL_SPECS[tool]
  {
    ReturnedIsCurrent(env, steps, s, i);
    j := FindLatest(s.log, i);
    OverlayIsUnder(s.log[i].specs, ToolRegistry.LOCAL_TOOL_SPECS, Brought(s.log[j]));
  }

  lemma OverlayIsUnder(specs: ToolRegistry.Specs, under: ToolRegistry.Specs, over: ToolRegistry.Specs)
    requires Overlaid(specs, under, over)
    ensures specs == under <==> forall tool | tool in over :: tool in under && over[tool] == under[tool]
  {
    if forall tool | tool in over :: tool in under && over[tool] == under[tool] {
      assert forall tool :: tool in specs <==> tool in under;
      assert forall tool | tool in under :: specs[tool] == under[tool];
      assert specs.Keys == under.Keys;
    }
  }

  // ---- Steps that hand out no specs ----

  /** The step leaves the registry alone, starts no fetch and returns no specs. */
  ghost predicate Aside(s: State, s': State) {
    && s'.registry == s.registry && s.log <= s'.log
    && (forall id | id in s'.reqs && s'.reqs[id].Fetching? :: id in s.reqs && s.reqs[id] == s'.reqs[id])
    && (forall k | |s.log| <= k < |s'.log| :: !s'.log[k].SpecsReturned?)
  }

  lemma VerificationIsAside(env: Env, s: State, step: Step)
    requires Enabled(s, step) && (step.BeginStep? || step.KeyStep?)
    ensures Aside(s, Apply(env, s, step))
  {
    hide DidResolver.CachedKey, DidResolver.Document, DidResolver.Finished, Tokens.VerifyToken, Tokens.BearerToken;
  }

  lemma CheckIsAside(env: Env, s: State, step: Step)
    requires Enabled(s, step) && step.CheckStep?
    ensures Aside(s, Apply(env, s, step))
  {
    hide NonceStore.Seen, NonceStore.Stored, RateLimiter.Admits, RateLimiter.Checked, Policy.IsAllowed;
  }

  lemma OtherSteps(env: Env, s: State, step: Step)
    requires Enabled(s, step) && !step.FetchStep? && !step.AnswerStep? && !step.RestartStep?
    ensures Aside(s, Apply(env, s, step))
  {
    if step.BeginStep? || step.KeyStep? {
      VerificationIsAside(env, s, step);
      hide *;
    } else if step.CheckStep? {
      CheckIsAside(env, s, step);
      hide *;
    }
  }

  /** What a returned map means for the request: its call passes exactly if the tool's hash in it is the token's. */
  lemma ComparedExactly(env: Env, s: State, id: nat, purpose: Option<ToolCall>, start: real, specs: ToolRegistry.Specs)
    ensures var s' := UseSpecs(env, s, id, purpose, start, specs);
            && s'.log == s.log + [SpecsReturned(id, start, specs)] && s'.registry == s.registry
            && id in s'.reqs && s'.reqs == s.reqs[id := s'.reqs[id]]
            && s'.reqs[id] == match purpose
                              case None => Done(Listed)
                              case Some(call) =>
                                if HasHash(env, specs, call.tool, call.claims.toolHash) then Passed(call)
                                else Done(Denied(ToolIntegrity))
  {
    if purpose.Some? {
      HashExactly(env, specs, purpose.value.tool, purpose.value.claims.toolHash);
    }
  }

  // ---- After an answer, with no other fetch under way ----

  /** The remote cache holds `r`, and no fetch is under way that could still change it. */
  ghost predicate Settled(env: Env, s: State, r: ToolRegistry.Specs) {
    && env.mode != "local" && env.hasPat && s.registry.remote == Some(r)
    && forall id | id in s.reqs :: !s.reqs[id].Fetching?
  }

  /** Upstream's answer settles the cache; a failed request settles it on nothing. */
  lemma AnswerSettles(env: Env, s: State, id: nat, answer: Option<ToolRegistry.Specs>, servedAt: real, monoNow: real)
    requires env.mode != "local" && env.hasPat && Enabled(s, AnswerStep(id, answer, servedAt, monoNow))
    requires forall other | other in s.reqs && other != id :: !s.reqs[other].Fetching?
    ensures Settled(env, Apply(env, s, AnswerStep(id, answer, servedAt, monoNow)),
                    if answer.Some? then answer.value else map[])
  {
  }

  /** Every map handed out between the two states is `r` over the local specs. */
  ghost predicate OnlyOverlays(s: State, s': State, r: ToolRegistry.Specs) {
    && s.log <= s'.log
    && forall k | |s.log| <= k < |s'.log| && s'.log[k].SpecsReturned? ::
         Overlaid(s'.log[k].specs, ToolRegistry.LOCAL_TOOL_SPECS, r)
  }

  /** The hash is that of the tool's spec in `r`, or of its local spec where `r` has none. */
  predicate FitsSettled(env: Env, r: ToolRegistry.Specs, tool: string, hash: Option<string>) {
    if tool in r then HasHash(env, r, tool, hash) else HasHash(env, ToolRegistry.LOCAL_TOOL_SPECS, tool, hash)
  }

  lemma OverlayHash(env: Env, specs: ToolRegistry.Specs, r: ToolRegistry.Specs, tool: string, hash: Option<string>)
    requires Overlaid(specs, ToolRegistry.LOCAL_TOOL_SPECS, r)
    ensures HasHash(env, specs, tool, hash) <==> FitsSettled(env, r, tool, hash)
  {
  }

  /** A fetch now compares with what upstream answered then, whatever it would serve by now. */
  lemma SettledIsCompared(env: Env, s: State, r: ToolRegistry.Specs, id: nat, monoNow: real)
    requires Settled(env, s, r) && Enabled(s, FetchStep(id, monoNow)) && s.reqs[id].Checked?
    ensures var call := s.reqs[id].call;
            Apply(env, s, FetchStep(id, monoNow)).reqs[id] ==
            if FitsSettled(env, r, call.tool, call.claims.toolHash) then Passed(call) else Done(Denied(ToolIntegrity))
  {
    var call, specs := s.reqs[id].call, ToolRegistry.LOCAL_TOOL_SPECS + r;
    SumIsOverlaid(ToolRegistry.LOCAL_TOOL_SPECS, r);
    OverlayHash(env, specs, r, call.tool, call.claims.toolHash);
    ComparedExactly(env, s.(mono := monoNow), id, Some(call), monoNow, specs);
    hide UseSpecs, HasHash, FitsSettled, Overlaid;
  }

  lemma SettledStep(env: Env, s: State, r: ToolRegistry.Specs, step: Step)
    requires Settled(env, s, r) && Enabled(s, step) && step != RestartStep
    ensures Settled(env, Apply(env, s, step), r) && OnlyOverlays(s, Apply(env, s, step), r)
  {
    if step.FetchStep? {
      SumIsOverlaid(ToolRegistry.LOCAL_TOOL_SPECS, r);
      var purpose := if s.reqs[step.id].Checked? then Some(s.reqs[step.id].call) else None;
      ComparedExactly(env, s.(mono := step.monoNow), step.id, purpose, step.monoNow, ToolRegistry.LOCAL_TOOL_SPECS + r);
      hide UseSpecs, Overlaid, HasHash;
    } else if !step.AnswerStep? {
      OtherSteps(env, s, step);
      hide Apply, Enabled;
    }
  }

  /** From then on, until a restart, the cache stays as it is and every map handed out is made of it. */
  lemma {:induction false} SettledLasts(env: Env, s: State, r: ToolRegistry.Specs, steps: seq<Step>, s': State)
    requires Settled(env, s, r) && RunFrom(env, s, steps) == Some(s') && RestartStep !in steps
    ensures Settled(env, s', r) && OnlyOverlays(s, s', r)
  {
    if steps != [] {
      hide Settled, Apply, Enabled, Overlaid;
      var prev := RunFrom(env, s, steps[..|steps| - 1]).value;
      SettledLasts(env, s, r, steps[..|steps| - 1], prev);
      SettledStep(env, prev, r, steps[|steps| - 1]);
    }
  }

  /** Without a restart the remote cache never holds anything else again. */
  ghost predicate StaysAt(env: Env, s: State, r: ToolRegistry.Specs) {
    forall steps, s' ::
      RunFrom(env, s, steps) == Some(s') && RestartStep !in steps ==> s'.registry.remote == Some(r)
  }

  /** The remote cache keeps what it holds exactly if no fetch is under way; so the empty one left by a failure, too. */
  lemma SettledExactly(env: Env, s: State, r: ToolRegistry.Specs)
    requires env.mode != "local" && env.hasPat
    ensures StaysAt(env, s, r) <==> Settled(env, s, r)
  {
    if Settled(env, s, r) {
      forall steps, s' | RunFrom(env, s, steps) == Some(s') && RestartStep !in steps
        ensures s'.registry.remote == Some(r)
      {
        SettledLasts(env, s, r, steps, s');
      }
    } else {
      assert RunFrom(env, s, []) == Some(s);
      if id :| id in s.reqs && s.reqs[id].Fetching? {
        LateAnswerFills(env, s, r, id);
      }
    }
  }

  const LATE: ToolRegistry.Specs := map["get_me" := Json.Bool(true)]

  lemma LateAnswerFills(env: Env, s: State, r: ToolRegistry.Specs, id: nat)
    requires env.mode != "local" && env.hasPat && id in s.reqs && s.reqs[id].Fetching?
    ensures !StaysAt(env, s, r)
  {
    var start, answer := s.reqs[id].start, if r == LATE then NOTHING else LATE;
    var step := AnswerStep(id, Some(answer), start, if s.mono < start then start else s.mono);
    var s' := Apply(env, s, step);
    assert "get_me" in LATE;
    assert s'.registry.remote == Some(answer) && answer != r;
    assert [step][..0] == [] && RunFrom(env, s, []) == Some(s);
    assert RunFrom(env, s, [step]) == Some(s') && RestartStep !in [step];
  }

  /**
    What an answer means for calls: of the requests that come later, until a restart, only
    those are forwarded whose token carries the hash of upstream's spec, for a tool that
    the answer named, or of the local stub, for any other. So after a failure a token with
    the hash of upstream's own spec is turned away, unless the two hashes agree.
   */
  lemma AnswerDecides(env: Env, before: seq<Step>, s: State, r: ToolRegistry.Specs, steps: seq<Step>, s': State, k: nat)
    requires Reaches(env, before, s) && Settled(env, s, r)
    requires RunFrom(env, s, steps) == Some(s') && RestartStep !in steps
    requires |s.log| <= k < |s'.log| && s'.log[k].CallForwarded? && s'.log[k].id >= s.nextId
    ensures var CallForwarded(_, tool, _, token) := s'.log[k];
            && env.crypto.decode(token).Some?
            && var hash := env.crypto.decode(token).value.toolHash;
               && (tool in r ==> hash == Some(env.crypto.digest(Json.Dumps(r[tool]))))
               && (tool !in r ==> tool in ToolRegistry.LOCAL_TOOL_SPECS
                                  && hash == Some(env.crypto.digest(Json.Dumps(ToolRegistry.LOCAL_TOOL_SPECS[tool]))))
  {
    PipelineSteps.RunKeeps(env, before, s);
    PipelineProgress.InvContinues(env, s, steps, s');
    SettledLasts(env, s, r, steps, s');
    hide RunFrom, Settled;
    PipelineSafety.ForwardedIsVetted(env, s'.log, k);
    hide Vetted, HasHash, Overlaid;
    var CallForwarded(id, tool, params, token) := s'.log[k];
    var hash := env.crypto.decode(token).value.toolHash;
    var start, specs :| SpecsReturned(id, start, specs) in s'.log[..k] && HasHash(env, specs, tool, hash);
    SpecsAreLater(env, s, s', r, k, id, start, specs);
    OverlayHash(env, specs, r, tool, hash);
    SettledHash(env, r, tool, hash);
  }

  lemma SettledHash(env: Env, r: ToolRegistry.Specs, tool: string, hash: Option<string>)
    requires FitsSettled(env, r, tool, hash)
    ensures tool in r ==> hash == Some(env.crypto.digest(Json.Dumps(r[tool])))
    ensures tool !in r ==> tool in ToolRegistry.LOCAL_TOOL_SPECS
                           && hash == Some(env.crypto.digest(Json.Dumps(ToolRegistry.LOCAL_TOOL_SPECS[tool])))
  {
  }

  /** A map returned to a later request was returned later. */
  lemma SpecsAreLater(env: Env, s: State, s': State, r: ToolRegistry.Specs, k: nat, id: nat, start: real,
                      specs: ToolRegistry.Specs)
    requires Inv(env, s) && OnlyOverlays(s, s', r) && k <= |s'.log| && id >= s.nextId
    requires SpecsReturned(id, start, specs) in s'.log[..k]
    ensures Overlaid(specs, ToolRegistry.LOCAL_TOOL_SPECS, r)
  {
    var e := SpecsReturned(id, start, specs);
    var j :| 0 <= j < k && s'.log[j] == e;
    assert j < |s.log| ==> s.log[j] == s'.log[j];
    NotYet(env, s, id, e);
  }

  lemma NotYet(env: Env, s: State, id: nat, e: Event)
    requires Inv(env, s) && id >= s.nextId && IdOf(e) == Some(id)
    ensures e !in s.log
  {
    hide HistoryOk, NonceHistory.Run, RateHistory.Run, ReadingsUpTo, ResolverOk, RegistryOk, PhaseOk;
  }

  // ---- Who is affected ----

  /** The tools that policy can grant. */
  predicate Grantable(tool: string) {
    tool in {"echo", "read_file", "get_me"}
  }

  lemma GrantedIsLocal(env: Env, log: seq<Event>, id: nat, call: ToolCall)
    requires Vetted(env, log, id, call)
    ensures Grantable(call.tool) && call.tool in ToolRegistry.LOCAL_TOOL_SPECS
  {
    Policy.GrantsExactly(env.mode, call.claims.iss.value, call.tool, call.params);
    hide Policy.IsAllowed;
  }

  /** Policy grants no tool without a local stub: none gets as far as the hash comparison, in any mode. */
  lemma OnlyLocalTools(env: Env, steps: seq<Step>, s: State, id: nat)
    requires Reaches(env, steps, s) && id in s.reqs
    ensures (s.reqs[id].Checked? || s.reqs[id].Passed?) ==>
              Grantable(s.reqs[id].call.tool) && s.reqs[id].call.tool in ToolRegistry.LOCAL_TOOL_SPECS
    ensures s.reqs[id].Fetching? && s.reqs[id].purpose.Some? ==>
              Grantable(s.reqs[id].purpose.value.tool)
              && s.reqs[id].purpose.value.tool in ToolRegistry.LOCAL_TOOL_SPECS
  {
    PipelineSteps.RunKeeps(env, steps, s);
    assert PhaseOk(env, s.log, id, s.reqs[id]);
    hide InvExcept, Vetted, Grantable;
    match s.reqs[id]
    case Checked(call) => GrantedIsLocal(env, s.log, id, call);
    case Passed(call) => GrantedIsLocal(env, s.log, id, call);
    case Fetching(_, purpose) => if purpose.Some? { GrantedIsLocal(env, s.log, id, purpose.value); }
    case _ =>
  }

  // ---- Runs from the start ----

  /** One listing is enough to settle the cache, on what upstream answers it or, if it fails, on nothing. */
  lemma SettledRun(env: Env, answer: Option<ToolRegistry.Specs>) returns (steps: seq<Step>, s: State)
    requires env.mode != "local" && env.hasPat
    ensures Reaches(env, steps, s) && Settled(env, s, if answer.Some? then answer.value else map[])
  {
    hide RunFrom;
    RunOfNothing(env);
    var s1 := Apply(env, INITIAL, ArriveList);
    PipelineRuns.OneMore(env, [], INITIAL, ArriveList, s1);
    var s2 := Apply(env, s1, FetchStep(0, 0.0));
    PipelineRuns.OneMore(env, [] + [ArriveList], s1, FetchStep(0, 0.0), s2);
    s := Apply(env, s2, AnswerStep(0, answer, 0.0, 0.0));
    steps := [] + [ArriveList] + [FetchStep(0, 0.0)] + [AnswerStep(0, answer, 0.0, 0.0)];
    PipelineRuns.OneMore(env, [] + [ArriveList] + [FetchStep(0, 0.0)], s2, AnswerStep(0, answer, 0.0, 0.0), s);
  }

  /** With a second fetch under way the same failure loses nothing for good. */
  lemma OverlapRun(env: Env) returns (steps: seq<Step>, s: State)
    requires env.mode != "local" && env.hasPat
    ensures Reaches(env, steps, s) && s.registry.remote == Some(map[]) && !StaysAt(env, s, map[])
  {
    hide RunFrom;
    RunOfNothing(env);
    var s1 := INITIAL.(reqs := map[0 := ListArrived], nextId := 1);
    PipelineRuns.OneMore(env, [], INITIAL, ArriveList, s1);
    var s2 := s1.(reqs := map[0 := Fetching(0.0, None)]);
    steps := [] + [ArriveList];
    PipelineRuns.OneMore(env, steps, s1, FetchStep(0, 0.0), s2);
    steps := steps + [FetchStep(0, 0.0)];
    var s3 := s2.(reqs := map[0 := Fetching(0.0, None), 1 := ListArrived], nextId := 2);
    PipelineRuns.OneMore(env, steps, s2, ArriveList, s3);
    steps := steps + [ArriveList];
    var s4 := s3.(reqs := map[0 := Fetching(0.0, None), 1 := Fetching(0.0, None)]);
    PipelineRuns.OneMore(env, steps, s3, FetchStep(1, 0.0), s4);
    steps := steps + [FetchStep(1, 0.0)];
    s := Apply(env, s4, AnswerStep(0, None, 0.0, 0.0));
    PipelineRuns.OneMore(env, steps, s4, AnswerStep(0, None, 0.0, 0.0), s);
    steps := steps + [AnswerStep(0, None, 0.0, 0.0)];
    assert 1 in s.reqs && s.reqs[1].Fetching?;
    LateAnswerFills(env, s, map[], 1);
  }
}
