/**
  Proxy and secured server together: two verifiers and two nonce tables on the same
  token. Calls reach the server through the proxy, each forwarded call at most once,
  or around it.
 */
module System {
  import opened Common
  import opened Tokens
  import Pipeline
  import PipelineInvariant
  import PipelineSteps
  import PipelineSafety
  import PipelineProgress
  import Server
  import DidResolver
  import Json
  import NonceStore
  import Policy
  import RateLimiter
  import ToolRegistry

  /**
    `delivered`: positions in the proxy's history of the forwarded calls that have reached
    the server; `accepted`: of those among them that it answered with status 200.
   */
  datatype State = State(proxy: Pipeline.State, server: Server.State, delivered: set<nat>, accepted: set<nat>)

  const INITIAL: State := State(Pipeline.INITIAL, Server.INITIAL, {}, {})

  datatype Times = Times(tVerify: Time, tCheck: Time, tStore: Time)

  datatype Step =
    | ProxyStep(step: Pipeline.Step)
    | Deliver(i: nat, doc: Option<DidResolver.Doc>, t: Times)
    | Direct(auth: string, tool: string, params: Json.Value, doc: Option<DidResolver.Doc>, t: Times)
    | RestartServer

  /** `_forward_local`: the forwarded call as the server receives it. */
  function DeliveredCall(s: State, i: nat, doc: Option<DidResolver.Doc>, t: Times): Server.Call
    requires i < |s.proxy.log| && s.proxy.log[i].CallForwarded?
  {
    var e := s.proxy.log[i];
    Server.Call(Some(i), "Bearer " + e.token, e.tool, e.params, doc, t.tVerify, t.tCheck, t.tStore)
  }

  function DirectCall(step: Step): Server.Call
    requires step.Direct?
  {
    var Direct(auth, tool, params, doc, t) := step;
    Server.Call(None, auth, tool, params, doc, t.tVerify, t.tCheck, t.tStore)
  }

  /** The forward at position `i` of the proxy's history was made for request `id`. */
  predicate ForwardOf(s: State, i: nat, id: nat) {
    i < |s.proxy.log| && s.proxy.log[i].CallForwarded? && s.proxy.log[i].id == id
  }

  /** The server has answered a forward of the request with status 200. */
  ghost predicate Answered(s: State, id: nat) {
    exists i :: i in s.accepted && ForwardOf(s, i, id)
  }

  /** A local upstream that reports success has the server's answer to report. */
  ghost predicate ReplyIsReal(env: Pipeline.Env, s: State, p: Pipeline.Step) {
    p.ReplyStep? && p.ok && env.mode == "local" ==> Answered(s, p.id)
  }

  /** Only a proxy in local mode has the secured server as its upstream. */
  ghost predicate Enabled(env: Pipeline.Env, s: State, step: Step) {
    match step
    case ProxyStep(p) => Pipeline.Enabled(s.proxy, p) && ReplyIsReal(env, s, p)
    case Deliver(i, doc, t) =>
      env.mode == "local" && i < |s.proxy.log| && s.proxy.log[i].CallForwarded? && i !in s.delivered
      && Server.InOrder(s.server, DeliveredCall(s, i, doc, t))
    case Direct(_, _, _, _, _) => Server.InOrder(s.server, DirectCall(step))
    case RestartServer => true
  }

  /** `aud` is the server's own DID constant. */
  ghost function Apply(env: Pipeline.Env, aud: string, s: State, step: Step): State
    requires Enabled(env, s, step)
  {
    match step
    case ProxyStep(p) => s.(proxy := Pipeline.Apply(env, s.proxy, p))
    case Deliver(i, doc, t) =>
      var (server, outcome) := Server.CallTool(env.crypto, aud, s.server, DeliveredCall(s, i, doc, t));
      s.(server := server, delivered := s.delivered + {i},
         accepted := if Server.Accepts(outcome) then s.accepted + {i} else s.accepted)
    case Direct(_, _, _, _, _) => s.(server := Server.CallTool(env.crypto, aud, s.server, DirectCall(step)).0)
    case RestartServer => s.(server := Server.Restart(s.server))
  }

  ghost function Run(env: Pipeline.Env, aud: string, steps: seq<Step>): Option<State> {
    if steps == [] then Some(INITIAL)
    else
      match Run(env, aud, steps[..|steps| - 1])
      case None => None
      case Some(s) =>
        if Enabled(env, s, steps[|steps| - 1]) then Some(Apply(env, aud, s, steps[|steps| - 1])) else None
  }

  ghost predicate Reaches(env: Pipeline.Env, aud: string, steps: seq<Step>, s: State) {
    Run(env, aud, steps) == Some(s)
  }

  // ---- Invariant ----

  /** A check at the server that came through the proxy is of the forwarded call it names. */
  ghost predicate SourceOk(s: State, n: nat)
    requires n < |s.server.log|
  {
    s.server.log[n].Checked? && s.server.log[n].source.Some? ==>
      var i := s.server.log[n].source.value;
      i in s.delivered && i < |s.proxy.log| && s.proxy.log[i].CallForwarded?
      && s.server.log[n].token == s.proxy.log[i].token && s.server.log[n].tool == s.proxy.log[i].tool
      && s.server.log[n].params == s.proxy.log[i].params
  }

  ghost predicate SourcesOk(s: State) {
    && (forall n | 0 <= n < |s.server.log| :: SourceOk(s, n))
    && (forall m, n | 0 <= m < n < |s.server.log| && s.server.log[m].Checked? && s.server.log[n].Checked?
                      && s.server.log[n].source.Some? :: s.server.log[m].source != s.server.log[n].source)
  }

  /** The check at the server that let forward `i` through. */
  predicate LetThrough(log: seq<Server.Event>, i: nat, n: nat) {
    n < |log| && log[n].Checked? && log[n].source == Some(i) && log[n].unseen
  }

  /** Every answered forward was let through by a check at the server; every success has an answer behind it. */
  ghost predicate RepliesOk(env: Pipeline.Env, s: State) {
    && (forall i | i in s.accepted :: exists n :: LetThrough(s.server.log, i, n))
    && (env.mode == "local" ==>
          forall id | Pipeline.ReplyArrived(id, true) in s.proxy.log :: Answered(s, id))
  }

  ghost predicate Inv(env: Pipeline.Env, aud: string, s: State) {
    && PipelineInvariant.Inv(env, s.proxy)
    && Server.Inv(env.crypto, aud, s.server)
    && SourcesOk(s) && RepliesOk(env, s)
  }

  /** A server call appends at most one event, of the token in its header and with its own source. */
  lemma CallLogs(crypto: Crypto, aud: string, s: Server.State, c: Server.Call)
    ensures var (s', outcome) := Server.CallTool(crypto, aud, s, c);
            || (s'.log == s.log && !Server.Accepts(outcome) && outcome != Server.Refused(Server.Replay))
            || (s'.log == s.log + [s'.log[|s.log|]] && s'.log[|s.log|].Checked?
                && s'.log[|s.log|].source == c.source && s'.log[|s.log|].token == Strip(c.auth[7..])
                && s'.log[|s.log|].tool == c.tool && s'.log[|s.log|].params == c.params && s'.log[|s.log|].doc == c.doc
                && s'.log[|s.log|].tVerify == c.tVerify
                && (s'.log[|s.log|].unseen <==> outcome == Server.Dispatch(c.tool))
                && (s'.log[|s.log|].unseen <==> Server.Accepts(outcome))
                && (!s'.log[|s.log|].unseen <==> outcome == Server.Refused(Server.Replay)))
  {
  }

  /** A new event keeps the sources in order if it names no forward, or one not delivered before. */
  lemma SourcesAppend(s: State, s': State, e: Server.Event)
    requires SourcesOk(s) && s'.proxy == s.proxy && s.delivered <= s'.delivered && s'.server.log == s.server.log + [e]
    requires e.Checked? && e.source.Some? ==>
               var i := e.source.value;
               i !in s.delivered && i in s'.delivered && i < |s.proxy.log| && s.proxy.log[i].CallForwarded?
               && e.token == s.proxy.log[i].token && e.tool == s.proxy.log[i].tool
               && e.params == s.proxy.log[i].params
    ensures SourcesOk(s')
  {
    forall n | 0 <= n < |s'.server.log|
      ensures SourceOk(s', n)
    {
      if n < |s.server.log| {
        assert SourceOk(s, n);
      }
    }
    forall m, n | 0 <= m < n < |s'.server.log| && s'.server.log[m].Checked? && s'.server.log[n].Checked?
                  && s'.server.log[n].source.Some?
      ensures s'.server.log[m].source != s'.server.log[n].source
    {
      assert SourceOk(s, m);
    }
  }

  lemma SourcesKept(s: State, s': State)
    requires SourcesOk(s) && s'.proxy == s.proxy && s.delivered <= s'.delivered && s'.server.log == s.server.log
    ensures SourcesOk(s')
  {
    forall n | 0 <= n < |s'.server.log|
      ensures SourceOk(s', n)
    {
      assert SourceOk(s, n);
    }
  }

  lemma DeliverKeeps(env: Pipeline.Env, aud: string, s: State, i: nat, doc: Option<DidResolver.Doc>, t: Times)
    requires Inv(env, aud, s) && Enabled(env, s, Deliver(i, doc, t))
    ensures SourcesOk(Apply(env, aud, s, Deliver(i, doc, t)))
  {
    var c, s' := DeliveredCall(s, i, doc, t), Apply(env, aud, s, Deliver(i, doc, t));
    var token := s.proxy.log[i].token;
    CallLogs(env.crypto, aud, s.server, c);
    ForwardedTokenIsTrimmed(env, s.proxy.log, i);
    assert ("Bearer " + token)[7..] == token;
    hide Server.CallTool, SourcesOk, Server.Inv, PipelineInvariant.Inv, Strip;
    if s'.server.log == s.server.log {
      SourcesKept(s, s');
    } else {
      SourcesAppend(s, s', s'.server.log[|s.server.log|]);
    }
  }

  lemma DirectKeeps(env: Pipeline.Env, aud: string, s: State, step: Step)
    requires Inv(env, aud, s) && Enabled(env, s, step) && step.Direct?
    ensures SourcesOk(Apply(env, aud, s, step))
  {
    var s' := Apply(env, aud, s, step);
    CallLogs(env.crypto, aud, s.server, DirectCall(step));
    hide Server.CallTool, SourcesOk, Server.Inv, PipelineInvariant.Inv;
    if s'.server.log == s.server.log {
      SourcesKept(s, s');
    } else {
      SourcesAppend(s, s', s'.server.log[|s.server.log|]);
    }
  }

  lemma ForwardedTokenIsTrimmed(env: Pipeline.Env, log: seq<Pipeline.Event>, i: nat)
    requires PipelineInvariant.HistoryOk(env, log) && i < |log| && log[i].CallForwarded?
    ensures Trimmed(log[i].token)
  {
    var n := PipelineSafety.ForwardHasNonce(env, log, i);
    assert PipelineInvariant.EventOk(env, log[..n], log[n]);
    var token, tVerify := log[n].token, log[n].tVerify;
    var key :| Pipeline.TokenVerified(log[n].id, token, key, tVerify) in log[..n];
    var m :| 0 <= m < n && log[m] == Pipeline.TokenVerified(log[n].id, token, key, tVerify);
    assert PipelineInvariant.EventOk(env, log[..m], log[m]);
  }

  lemma ProxyKeeps(env: Pipeline.Env, aud: string, s: State, p: Pipeline.Step)
    requires Inv(env, aud, s) && Enabled(env, s, ProxyStep(p))
    ensures Inv(env, aud, Apply(env, aud, s, ProxyStep(p)))
  {
    PipelineSteps.StepKeeps(env, s.proxy, p);
    PipelineProgress.LogGrows(env, s.proxy, p);
    var s' := Apply(env, aud, s, ProxyStep(p));
    assert forall i | 0 <= i < |s.proxy.log| :: s'.proxy.log[i] == s.proxy.log[i];
    forall n | 0 <= n < |s.server.log|
      ensures SourceOk(s', n)
    {
      assert SourceOk(s, n);
    }
    ProxyRepliesOk(env, s, s', p);
  }

  lemma ServerRestartKeeps(env: Pipeline.Env, aud: string, s: State)
    requires Inv(env, aud, s)
    ensures Inv(env, aud, Apply(env, aud, s, RestartServer))
  {
    Server.RestartKeeps(env.crypto, aud, s.server);
    var s' := Apply(env, aud, s, RestartServer);
    SourcesAppend(s, s', Server.Restarted);
    RepliesKept(env, s, s');
  }

  // ---- What answers rest on ----

  lemma AnsweredGrows(s: State, s': State, id: nat)
    requires Answered(s, id) && s.proxy.log <= s'.proxy.log && s.accepted <= s'.accepted
    ensures Answered(s', id)
  {
    var i :| i in s.accepted && ForwardOf(s, i, id);
    assert i in s'.accepted && ForwardOf(s', i, id);
  }

  /** The server's history may grow, as long as new answers are let through. */
  lemma RepliesKept(env: Pipeline.Env, s: State, s': State)
    requires RepliesOk(env, s) && s'.proxy.log == s.proxy.log && s.server.log <= s'.server.log
    requires s.accepted <= s'.accepted
    requires forall i | i in s'.accepted - s.accepted :: exists n :: LetThrough(s'.server.log, i, n)
    ensures RepliesOk(env, s')
  {
    forall i | i in s'.accepted
      ensures exists n :: LetThrough(s'.server.log, i, n)
    {
      if i in s.accepted {
        var n :| LetThrough(s.server.log, i, n);
        assert LetThrough(s'.server.log, i, n);
      } else {
        assert i in s'.accepted - s.accepted;
      }
    }
    forall id | env.mode == "local" && Pipeline.ReplyArrived(id, true) in s'.proxy.log
      ensures Answered(s', id)
    {
      AnsweredGrows(s, s', id);
    }
  }

  lemma DeliverRepliesOk(env: Pipeline.Env, aud: string, s: State, i: nat, doc: Option<DidResolver.Doc>, t: Times)
    requires Inv(env, aud, s) && Enabled(env, s, Deliver(i, doc, t))
    ensures RepliesOk(env, Apply(env, aud, s, Deliver(i, doc, t)))
  {
    var c, s' := DeliveredCall(s, i, doc, t), Apply(env, aud, s, Deliver(i, doc, t));
    CallLogs(env.crypto, aud, s.server, c);
    hide Server.CallTool, SourcesOk, Server.Inv, PipelineInvariant.Inv, Strip, RepliesOk;
    if i in s'.accepted - s.accepted {
      assert LetThrough(s'.server.log, i, |s.server.log|);
    }
    RepliesKept(env, s, s');
  }

  lemma DirectRepliesOk(env: Pipeline.Env, aud: string, s: State, step: Step)
    requires Inv(env, aud, s) && Enabled(env, s, step) && step.Direct?
    ensures RepliesOk(env, Apply(env, aud, s, step))
  {
    CallLogs(env.crypto, aud, s.server, DirectCall(step));
    hide Server.CallTool, SourcesOk, Server.Inv, PipelineInvariant.Inv, Strip, RepliesOk;
    RepliesKept(env, s, Apply(env, aud, s, step));
  }

  /** A step of the proxy adds a success only where the server has answered. */
  lemma ProxyRepliesOk(env: Pipeline.Env, s: State, s': State, p: Pipeline.Step)
    requires RepliesOk(env, s) && Pipeline.Enabled(s.proxy, p) && ReplyIsReal(env, s, p)
    requires s' == s.(proxy := Pipeline.Apply(env, s.proxy, p))
    ensures RepliesOk(env, s')
  {
    PipelineProgress.LogGrows(env, s.proxy, p);
    forall id | env.mode == "local" && Pipeline.ReplyArrived(id, true) in s'.proxy.log
      ensures Answered(s', id)
    {
      NewReply(env, s.proxy, p, id);
      AnsweredGrows(s, s', id);
    }
  }

  lemma NewReply(env: Pipeline.Env, s: Pipeline.State, p: Pipeline.Step, id: nat)
    requires Pipeline.Enabled(s, p) && Pipeline.ReplyArrived(id, true) in Pipeline.Apply(env, s, p).log
    ensures Pipeline.ReplyArrived(id, true) in s.log || p == Pipeline.ReplyStep(id, true)
  {
    if !p.ReplyStep? {
      OthersAddNoReply(env, s, p);
      hide Pipeline.Apply, Pipeline.Enabled;
    }
  }

  ghost predicate AddsNoReply(s: Pipeline.State, s': Pipeline.State) {
    forall id :: Pipeline.ReplyArrived(id, true) in s'.log ==> Pipeline.ReplyArrived(id, true) in s.log
  }

  lemma CheckAddsNoReply(env: Pipeline.Env, s: Pipeline.State, p: Pipeline.Step)
    requires Pipeline.Enabled(s, p) && p.CheckStep?
    ensures AddsNoReply(s, Pipeline.Apply(env, s, p))
  {
    hide NonceStore.Seen, NonceStore.Stored, RateLimiter.Admits, RateLimiter.Checked, Policy.IsAllowed;
  }

  lemma VerificationAddsNoReply(env: Pipeline.Env, s: Pipeline.State, p: Pipeline.Step)
    requires Pipeline.Enabled(s, p) && (p.BeginStep? || p.KeyStep?)
    ensures AddsNoReply(s, Pipeline.Apply(env, s, p))
  {
    hide DidResolver.CachedKey, DidResolver.Document, DidResolver.Finished, VerifyToken, BearerToken;
  }

  lemma OthersAddNoReply(env: Pipeline.Env, s: Pipeline.State, p: Pipeline.Step)
    requires Pipeline.Enabled(s, p) && !p.ReplyStep?
    ensures AddsNoReply(s, Pipeline.Apply(env, s, p))
  {
    if p.CheckStep? {
      CheckAddsNoReply(env, s, p);
      hide *;
    } else if p.BeginStep? || p.KeyStep? {
      VerificationAddsNoReply(env, s, p);
      hide *;
    } else {
      hide ToolRegistry.Begun, ToolRegistry.Ended, ToolRegistry.ToolHash;
    }
  }

  lemma StepKeeps(env: Pipeline.Env, aud: string, s: State, step: Step)
    requires Inv(env, aud, s) && Enabled(env, s, step)
    ensures Inv(env, aud, Apply(env, aud, s, step))
  {
    match step
    case ProxyStep(p) => ProxyKeeps(env, aud, s, p);
    case Deliver(i, doc, t) =>
      Server.CallKeeps(env.crypto, aud, s.server, DeliveredCall(s, i, doc, t));
      DeliverKeeps(env, aud, s, i, doc, t);
      DeliverRepliesOk(env, aud, s, i, doc, t);
    case Direct(_, _, _, _, _) =>
      Server.CallKeeps(env.crypto, aud, s.server, DirectCall(step));
      DirectKeeps(env, aud, s, step);
      DirectRepliesOk(env, aud, s, step);
    case RestartServer => ServerRestartKeeps(env, aud, s);
  }

  lemma {:induction false} RunKeeps(env: Pipeline.Env, aud: string, steps: seq<Step>, s: State)
    requires Reaches(env, aud, steps, s)
    ensures Inv(env, aud, s)
  {
    if steps != [] {
      var prev := Run(env, aud, steps[..|steps| - 1]).value;
      RunKeeps(env, aud, steps[..|steps| - 1], prev);
      StepKeeps(env, aud, prev, steps[|steps| - 1]);
    }
  }

  // ---- Main results ----

  /**
    Complete mediation at the server, over any mix of proxied and direct calls: every use of
    its table was by a token entitled to the very tool that the call asked for.
   */
  lemma OnlyEntitledCalls(env: Pipeline.Env, aud: string, steps: seq<Step>, s: State, n: nat)
    requires Reaches(env, aud, steps, s) && n < |s.server.log| && s.server.log[n].Checked?
    ensures var e := s.server.log[n]; Server.Entitled(env.crypto, aud, e.token, e.tool, e.doc, e.key, e.tVerify)
  {
    RunKeeps(env, aud, steps, s);
    Server.CheckedIsEntitled(env.crypto, aud, s.server, n);
  }

  /** What the server checked in `e` is what the client sent in `arrival`: token, tool and "params". */
  ghost predicate SentBy(e: Server.Event, arrival: Pipeline.Event)
    requires e.Checked?
  {
    && arrival.CallArrived? && Bears(arrival.auth, e.token)
    && arrival.body.Some? && arrival.body.value.tool == Some(e.tool)
    && PipelineInvariant.Carries(arrival.body.value, e.params)
  }

  /**
    End to end, from client to server: every call of the proxy that the server checks, in
    any run, was sent to the proxy by a client with that token, that tool and those very
    parameters, {} where they were missing or falsy.
   */
  lemma CheckedAsSent(env: Pipeline.Env, aud: string, steps: seq<Step>, s: State, n: nat)
    requires Reaches(env, aud, steps, s) && n < |s.server.log|
    requires s.server.log[n].Checked? && s.server.log[n].source.Some?
    ensures exists a :: 0 <= a < |s.proxy.log| && SentBy(s.server.log[n], s.proxy.log[a])
  {
    HistoryOfProxy(env, aud, steps, s);
    SourceIsForward(env, aud, steps, s, n);
    hide PipelineInvariant.HistoryOk, PipelineSafety.AsArrived, SentBy, Run;
    var i := s.server.log[n].source.value;
    PipelineSafety.LogAsArrived(env, s.proxy.log, i);
    var a :| PipelineSafety.AsArrived(s.proxy.log, a, i);
    ForwardWasSent(s.proxy.log, a, i, s.server.log[n]);
  }

  /** A proxied check is of the forwarded call that it names. */
  ghost predicate ChecksForward(e: Server.Event, log: seq<Pipeline.Event>, i: nat) {
    && e.Checked? && i < |log| && log[i].CallForwarded?
    && e.token == log[i].token && e.tool == log[i].tool && e.params == log[i].params
  }

  lemma SourceIsForward(env: Pipeline.Env, aud: string, steps: seq<Step>, s: State, n: nat)
    requires Reaches(env, aud, steps, s) && n < |s.server.log|
    requires s.server.log[n].Checked? && s.server.log[n].source.Some?
    ensures ChecksForward(s.server.log[n], s.proxy.log, s.server.log[n].source.value)
  {
    RunKeeps(env, aud, steps, s);
    assert SourceOk(s, n);
    hide PipelineInvariant.Inv, Server.Inv, RepliesOk;
  }

  lemma ForwardWasSent(log: seq<Pipeline.Event>, a: nat, i: nat, e: Server.Event)
    requires ChecksForward(e, log, i) && PipelineSafety.AsArrived(log, a, i)
    ensures a < |log| && SentBy(e, log[a])
  {
    hide Bears, PipelineInvariant.Carries;
  }

  /** Over any mix of proxied and direct calls, and restarts of either side, a token runs a tool at most once. */
  lemma ExecutesAtMostOnce(env: Pipeline.Env, aud: string, steps: seq<Step>, s: State)
    requires Reaches(env, aud, steps, s) && Server.GapAtMost(s.server.log, 1.0)
    ensures Server.ExecutedOnce(s.server.log)
  {
    RunKeeps(env, aud, steps, s);
    Server.ServerAtMostOnce(env.crypto, aud, s.server);
  }

  /**
    A client of the proxy that is told of success had its call let through by the secured
    server: a check there of the forwarded token, found unseen, was made for its forward.
   */
  lemma SuccessWasLetThrough(env: Pipeline.Env, aud: string, steps: seq<Step>, s: State, id: nat)
    requires Reaches(env, aud, steps, s) && env.mode == "local"
    requires id in s.proxy.reqs && s.proxy.reqs[id] == Pipeline.Done(Pipeline.Forwarded)
    ensures exists i: nat, n: nat :: ForwardOf(s, i, id) && LetThrough(s.server.log, i, n)
                           && s.server.log[n].token == s.proxy.log[i].token
  {
    RunKeeps(env, aud, steps, s);
    assert PipelineInvariant.PhaseOk(env, s.proxy.log, id, s.proxy.reqs[id]);
    var i :| i in s.accepted && ForwardOf(s, i, id);
    var n :| LetThrough(s.server.log, i, n);
    assert SourceOk(s, n);
  }

  /** Every replay check at the server was of a forwarded call. */
  ghost predicate AllProxied(log: seq<Server.Event>) {
    forall n | 0 <= n < |log| && log[n].Checked? :: log[n].source.Some?
  }

  /** Forwarded tokens with one jti are one token. */
  ghost predicate JtisOwned(crypto: Crypto, log: seq<Pipeline.Event>) {
    forall i, k | 0 <= i < |log| && 0 <= k < |log| && log[i].CallForwarded? && log[k].CallForwarded?
                  && crypto.decode(log[i].token).Some? && crypto.decode(log[k].token).Some?
                  && crypto.decode(log[i].token).value.jti == crypto.decode(log[k].token).value.jti ::
      log[i].token == log[k].token
  }

  /**
    If all traffic comes through a proxy that forwards each token at most once, and no
    two tokens share a jti, the server never mistakes a forwarded call for a replay.
   */
  lemma NoSpuriousReplay(env: Pipeline.Env, aud: string, steps: seq<Step>, s: State, n: nat)
    requires Reaches(env, aud, steps, s)
    requires PipelineSafety.ForwardedOnce(s.proxy.log)
    requires AllProxied(s.server.log) && JtisOwned(env.crypto, s.proxy.log)
    requires n < |s.server.log| && s.server.log[n].Checked?
    ensures s.server.log[n].unseen
  {
    hide PipelineSafety.ForwardedOnce;
    RunKeeps(env, aud, steps, s);
    if !s.server.log[n].unseen {
      var m := Server.ReplayHasCause(env.crypto, aud, s.server, n);
      assert SourceOk(s, m) && SourceOk(s, n);
      assert Server.EventOk(env.crypto, aud, s.server.log, m) && Server.EventOk(env.crypto, aud, s.server.log, n);
      var i, k := s.server.log[m].source.value, s.server.log[n].source.value;
      ForwardsDiffer(s.proxy.log, i, k);
    }
  }

  lemma ForwardsDiffer(log: seq<Pipeline.Event>, i: nat, k: nat)
    requires PipelineSafety.ForwardedOnce(log) && i != k && i < |log| && k < |log|
    requires log[i].CallForwarded? && log[k].CallForwarded?
    ensures log[i].token != log[k].token
  {
  }

  /** The premise on forwards holds where no request waits more than a second between its two readings. */
  lemma ShortWaitsSuffice(env: Pipeline.Env, aud: string, steps: seq<Step>, s: State)
    requires Reaches(env, aud, steps, s) && PipelineSafety.GapAtMost(s.proxy.log, 1.0)
    ensures PipelineSafety.ForwardedOnce(s.proxy.log)
  {
    RunKeeps(env, aud, steps, s);
    PipelineSafety.ForwardsAreOnce(env, s.proxy);
  }

  /**
    Under the same premises the two verifiers agree: a forwarded call that reaches the
    server while its token is good there, under the first key of its issuer's document, is
    let through. A tool that the server has is then executed; only parameters that are no
    object stop the call before.
   */
  lemma ForwardedIsExecuted(env: Pipeline.Env, aud: string, steps: seq<Step>, s: State,
                            i: nat, doc: Option<DidResolver.Doc>, key: string, t: Times)
    requires Reaches(env, aud, steps, s) && Enabled(env, s, Deliver(i, doc, t))
    requires PipelineSafety.ForwardedOnce(s.proxy.log)
    requires AllProxied(s.server.log) && JtisOwned(env.crypto, s.proxy.log)
    requires Genuine(env.crypto, s.proxy.log[i].token, key, aud, t.tVerify)
    requires doc.Some? && doc.value.methods != [] && doc.value.methods[0] == Some(key)
    requires env.crypto.decode(s.proxy.log[i].token).value.iss.value in
               {"did:web:dzt.local:agent1", "did:web:dzt.local:agent2", "did:web:dzt.local:mcpserver"}
    ensures Server.CallTool(env.crypto, aud, s.server, DeliveredCall(s, i, doc, t)).1 ==
            if !s.proxy.log[i].params.Obj? then Server.Refused(Server.Unprocessable)
            else if s.proxy.log[i].tool in {"echo", "read_file", "run_cmd"} then Server.Executed
            else Server.UnknownTool
  {
    hide Server.CallTool, Strip, Genuine, Run, PipelineSafety.ForwardedOnce, JtisOwned, AllProxied, Server.InOrder;
    var c := DeliveredCall(s, i, doc, t);
    if c.params.Obj? {
      HistoryOfProxy(env, aud, steps, s);
      ForwardedTokenIsTrimmed(env, s.proxy.log, i);
      ForwardIsEntitled(env, aud, s.proxy.log, i, doc, key, t.tVerify);
      hide Server.Entitled, PipelineInvariant.HistoryOk;
      OnlyReplayIsLeft(env.crypto, aud, s.server, c, s.proxy.log[i].token, key);
      NotTakenForReplay(env, aud, steps, s, i, doc, t);
    } else {
      NoObjectIsRefused(env.crypto, aud, s.server, c);
    }
  }

  lemma HistoryOfProxy(env: Pipeline.Env, aud: string, steps: seq<Step>, s: State)
    requires Reaches(env, aud, steps, s)
    ensures PipelineInvariant.HistoryOk(env, s.proxy.log)
  {
    RunKeeps(env, aud, steps, s);
  }

  lemma NoObjectIsRefused(crypto: Crypto, aud: string, s: Server.State, c: Server.Call)
    requires !c.params.Obj?
    ensures Server.CallTool(crypto, aud, s, c).1 == Server.Refused(Server.Unprocessable)
  {
  }

  /** Under the premises on forwards and jtis, a delivery is not refused as a replay. */
  lemma NotTakenForReplay(env: Pipeline.Env, aud: string, steps: seq<Step>, s: State,
                          i: nat, doc: Option<DidResolver.Doc>, t: Times)
    requires Reaches(env, aud, steps, s) && Enabled(env, s, Deliver(i, doc, t))
    requires PipelineSafety.ForwardedOnce(s.proxy.log)
    requires AllProxied(s.server.log) && JtisOwned(env.crypto, s.proxy.log)
    ensures Server.CallTool(env.crypto, aud, s.server, DeliveredCall(s, i, doc, t)).1 != Server.Refused(Server.Replay)
  {
    var step, c := Deliver(i, doc, t), DeliveredCall(s, i, doc, t);
    CallLogs(env.crypto, aud, s.server, c);
    var s' := Apply(env, aud, s, step);
    hide Server.CallTool, Strip, PipelineSafety.ForwardedOnce, JtisOwned, Server.InOrder;
    if s'.server.log != s.server.log {
      assert Reaches(env, aud, steps + [step], s') by {
        assert (steps + [step])[..|steps|] == steps;
      }
      NoSpuriousReplay(env, aud, steps + [step], s', |s.server.log|);
    }
  }

  lemma ForwardIsEntitled(env: Pipeline.Env, aud: string, log: seq<Pipeline.Event>, i: nat,
                          doc: Option<DidResolver.Doc>, key: string, now: Time)
    requires PipelineInvariant.HistoryOk(env, log) && i < |log| && log[i].CallForwarded?
    requires Genuine(env.crypto, log[i].token, key, aud, now)
    requires doc.Some? && doc.value.methods != [] && doc.value.methods[0] == Some(key)
    requires env.crypto.decode(log[i].token).value.iss.value in
               {"did:web:dzt.local:agent1", "did:web:dzt.local:agent2", "did:web:dzt.local:mcpserver"}
    ensures Server.Entitled(env.crypto, aud, log[i].token, log[i].tool, doc, key, now)
  {
    assert PipelineInvariant.EventOk(env, log[..i], log[i]);
  }

  /** A call whose token verifies and fits the tool can be refused as a replay only. */
  lemma OnlyReplayIsLeft(crypto: Crypto, aud: string, s: Server.State, c: Server.Call, token: string, key: string)
    requires c.params.Obj? && c.auth == "Bearer " + token && Trimmed(token)
    requires Server.Entitled(crypto, aud, token, c.tool, c.doc, key, c.tVerify)
    ensures Server.CallTool(crypto, aud, s, c).1 in {Server.Dispatch(c.tool), Server.Refused(Server.Replay)}
    ensures Server.CallTool(crypto, aud, s, c).0.log != s.log
  {
    VerifiesExactly(crypto, token, key, aud, c.tVerify);
    assert c.auth[7..] == token && c.auth[..7] == "Bearer ";
  }
}
