/**
  The secured MCP server (`mcp_server/server.py`): a second, independent verifier
  with its own nonce table. Its handler contains no await, so a call is one step.
 */
module Server {
  import opened Common
  import opened Tokens
  import Json
  import NonceStore
  import NonceHistory
  import DidResolver

  datatype Refusal =
    | Unprocessable | MissingBearer | MalformedToken | MissingIssuer | UnknownIssuer
    | VerificationFailed | ToolMismatch | MissingJti | Replay

  datatype Outcome = Refused(why: Refusal) | Executed | UnknownTool

  /** The tools that the handler dispatches; any other name gets a reply that it is unknown. */
  const DISPATCHED: set<string> := {"echo", "read_file", "run_cmd"}

  /** The call passed every check and was answered with status 200. */
  predicate Accepts(outcome: Outcome) {
    outcome in {Executed, UnknownTool}
  }

  /**
    One use of the server's nonce table, with the call that led there, the issuer's document
    and the key that the token was verified under; `unseen` calls go on to the dispatch.
   */
  datatype Event =
    | Checked(source: Option<nat>, token: string, tool: string, params: Json.Value, doc: Option<DidResolver.Doc>,
              key: string, jti: string, exp: int, tVerify: Time, tCheck: Time, tStore: Time, unseen: bool)
    | Restarted

  /** `log` is history for the theorems; the handler does not read it. */
  datatype State = State(nonces: NonceStore.State, log: seq<Event>, clock: Time)

  const INITIAL: State := State(NonceStore.EMPTY, [], 0.0)

  /** A request: header, requested tool and parameters, the issuer's document file, and the handler's clock readings. */
  datatype Call = Call(source: Option<nat>, auth: string, tool: string, params: Json.Value,
                       doc: Option<DidResolver.Doc>, tVerify: Time, tCheck: Time, tStore: Time)

  /** `get_public_key_pem` of the server: local documents only, never cached. */
  function KeyOf(did: string, doc: Option<DidResolver.Doc>): Option<string> {
    if did in DidResolver.LOCAL_DIDS && doc.Some? then DidResolver.FirstKey(doc.value) else None
  }

  /** The request model wants `params` to be an object, and is checked before the handler runs. */
  function CallTool(crypto: Crypto, aud: string, s: State, c: Call): (State, Outcome) {
    var s1 := s.(clock := c.tStore);
    if !c.params.Obj? then (s1, Refused(Unprocessable))
    else if !StartsWith(c.auth, "Bearer ") then (s1, Refused(MissingBearer))
    else
      var token := Strip(c.auth[7..]);
      match crypto.decode(token)
      case None => (s1, Refused(MalformedToken))
      case Some(unverified) =>
        if !Given(unverified.iss) then (s1, Refused(MissingIssuer))
        else
          match KeyOf(unverified.iss.value, c.doc)
          case None => (s1, Refused(UnknownIssuer))
          case Some(key) =>
            match VerifyToken(crypto, token, key, aud, c.tVerify)
            case None => (s1, Refused(VerificationFailed))
            case Some(payload) => CheckAndRun(s1, c, token, key, payload)
  }

  /** Tool binding, replay check, execution. */
  function CheckAndRun(s: State, c: Call, token: string, key: string, payload: Claims): (State, Outcome) {
    if payload.tool != Some(c.tool) then (s, Refused(ToolMismatch))
    else if !Given(payload.jti) then (s, Refused(MissingJti))
    else
      var jti, exp := payload.jti.value, if payload.exp.Some? then payload.exp.value else 0;
      var seen := NonceStore.Seen(s.nonces, jti, c.tCheck);
      var s1 := s.(log := s.log + [CheckOf(c, token, key, jti, exp, !seen)]);
      var cleaned := NonceStore.Cleaned(s.nonces, c.tCheck);
      if seen then (s1.(nonces := cleaned), Refused(Replay))
      else (s1.(nonces := NonceStore.Stored(cleaned, jti, exp, c.tStore)), Dispatch(c.tool))
  }

  function CheckOf(c: Call, token: string, key: string, jti: string, exp: int, unseen: bool): Event {
    Checked(c.source, token, c.tool, c.params, c.doc, key, jti, exp, c.tVerify, c.tCheck, c.tStore, unseen)
  }

  function Dispatch(tool: string): Outcome {
    if tool in DISPATCHED then Executed else UnknownTool
  }

  function Restart(s: State): State {
    s.(nonces := NonceStore.Restarted(s.nonces), log := s.log + [Restarted])
  }

  predicate InOrder(s: State, c: Call) {
    s.clock <= c.tVerify <= c.tCheck <= c.tStore
  }

  /** The handler as an object with its own nonce table. */
  class SecuredServer {
    const crypto: Crypto
    const aud: string
    const nonces: NonceStore.NonceTable
    ghost var log: seq<Event>
    ghost var clock: Time

    ghost function View(): State
      reads this, nonces
    {
      State(nonces.View(), log, clock)
    }

    constructor Startup(crypto: Crypto, aud: string, onDisk: map<string, int>, ghost prev: State)
      requires onDisk == prev.nonces.rows
      ensures this.crypto == crypto && this.aud == aud && View() == Restart(prev)
      ensures nonces.rows == onDisk && nonces.lastCleanup == 0.0
    {
      this.crypto, this.aud := crypto, aud;
      nonces := new NonceStore.NonceTable.InitDb(onDisk);
      log, clock := prev.log + [Restarted], prev.clock;
    }

    method HandleCall(c: Call) returns (outcome: Outcome)
      modifies this, nonces
      ensures (View(), outcome) == CallTool(crypto, aud, old(View()), c)
    {
      clock := c.tStore;
      if !c.params.Obj? {
        return Refused(Unprocessable);
      }
      if !StartsWith(c.auth, "Bearer ") {
        return Refused(MissingBearer);
      }
      var token := Strip(c.auth[7..]);
      var unverified := crypto.decode(token);
      if unverified.None? {
        return Refused(MalformedToken);
      }
      if !Given(unverified.value.iss) {
        return Refused(MissingIssuer);
      }
      var key := KeyOf(unverified.value.iss.value, c.doc);
      if key.None? {
        return Refused(UnknownIssuer);
      }
      var payload := VerifyToken(crypto, token, key.value, aud, c.tVerify);
      if payload.None? {
        return Refused(VerificationFailed);
      }
      if payload.value.tool != Some(c.tool) {
        return Refused(ToolMismatch);
      }
      if !Given(payload.value.jti) {
        return Refused(MissingJti);
      }
      var jti := payload.value.jti.value;
      var exp := if payload.value.exp.Some? then payload.value.exp.value else 0;
      var seen := nonces.SeenBefore(jti, c.tCheck);
      log := log + [CheckOf(c, token, key.value, jti, exp, !seen)];
      if seen {
        return Refused(Replay);
      }
      nonces.StoreNonce(jti, exp, c.tStore);
      if c.tool == "echo" || c.tool == "read_file" || c.tool == "run_cmd" {
        return Executed;
      }
      return UnknownTool;
    }
  }

  // ---- What every reachable state of the server satisfies ----

  function OpOf(e: Event): NonceHistory.Op {
    match e
    case Checked(_, _, _, _, _, _, jti, exp, _, tCheck, tStore, _) => NonceHistory.Admit(jti, exp, tCheck, tStore)
    case Restarted => NonceHistory.Restart
  }

  /** The uses of the server's nonce table, one for each event. */
  function NonceOps(log: seq<Event>): seq<NonceHistory.Op> {
    seq(|log|, i requires 0 <= i < |log| => OpOf(log[i]))
  }

  lemma OpsOfPrefix(log: seq<Event>, i: nat)
    requires i <= |log|
    ensures NonceOps(log[..i]) == NonceOps(log)[..i]
  {
  }

  /**
    What entitles a token to a call of `tool` at `now`: its issuer is one of the three local
    identities, the first key of that issuer's document has signed it, and it is good for
    this server and names the tool and a jti.
   */
  predicate Entitled(crypto: Crypto, aud: string, token: string, tool: string, doc: Option<DidResolver.Doc>,
                     key: string, now: Time) {
    && Genuine(crypto, token, key, aud, now)
    && doc.Some? && doc.value.methods != [] && doc.value.methods[0] == Some(key)
    && var claims := crypto.decode(token).value;
       && claims.iss.value in
            {"did:web:dzt.local:agent1", "did:web:dzt.local:agent2", "did:web:dzt.local:mcpserver"}
       && claims.tool.value == tool && claims.jti.value != ""
  }

  ghost predicate EventOk(crypto: Crypto, aud: string, log: seq<Event>, i: nat)
    requires i < |log|
  {
    match log[i]
    case Checked(_, token, tool, _, doc, key, jti, exp, tVerify, tCheck, tStore, unseen) =>
      && tVerify <= tCheck <= tStore
      && (unseen == !NonceStore.Seen(NonceHistory.Run(NonceOps(log[..i])), jti, tCheck))
      && Entitled(crypto, aud, token, tool, doc, key, tVerify)
      && crypto.decode(token).value.jti == Some(jti) && crypto.decode(token).value.exp == Some(exp)
      && forall k | 0 <= k < i && log[k].Checked? :: log[k].tStore <= tVerify
    case Restarted => true
  }

  ghost predicate Inv(crypto: Crypto, aud: string, s: State) {
    && s.nonces == NonceHistory.Run(NonceOps(s.log))
    && (forall i | 0 <= i < |s.log| :: EventOk(crypto, aud, s.log, i))
    && (forall k | 0 <= k < |s.log| && s.log[k].Checked? :: s.log[k].tStore <= s.clock)
  }

  lemma EventsGrow(crypto: Crypto, aud: string, log: seq<Event>, e: Event)
    requires forall i | 0 <= i < |log| :: EventOk(crypto, aud, log, i)
    requires EventOk(crypto, aud, log + [e], |log|)
    ensures forall i | 0 <= i < |log + [e]| :: EventOk(crypto, aud, log + [e], i)
    ensures NonceHistory.Run(NonceOps(log + [e])) == NonceHistory.Step(NonceHistory.Run(NonceOps(log)), OpOf(e))
  {
    var all := log + [e];
    forall i | 0 <= i < |log|
      ensures EventOk(crypto, aud, all, i)
    {
      assert all[..i] == log[..i];
      assert EventOk(crypto, aud, log, i);
    }
    assert all[..|log|] == log && NonceOps(all) == NonceOps(log) + [OpOf(e)];
    NonceHistory.RunSnoc(NonceOps(log), OpOf(e));
  }

  /** What the handler has established when it comes to the replay check. */
  lemma VerifiedIsEntitled(crypto: Crypto, aud: string, c: Call, token: string, key: string)
    requires crypto.decode(token).Some?
    requires Given(crypto.decode(token).value.iss) && KeyOf(crypto.decode(token).value.iss.value, c.doc) == Some(key)
    requires VerifyToken(crypto, token, key, aud, c.tVerify).Some?
    requires crypto.decode(token).value.tool == Some(c.tool) && Given(crypto.decode(token).value.jti)
    ensures Entitled(crypto, aud, token, c.tool, c.doc, key, c.tVerify)
  {
    VerifiesExactly(crypto, token, key, aud, c.tVerify);
  }

  lemma CheckAndRunKeeps(crypto: Crypto, aud: string, s: State, c: Call, token: string, key: string, prev: Time)
    requires crypto.decode(token).Some?
    requires Inv(crypto, aud, s.(clock := prev)) && prev <= c.tVerify <= c.tCheck <= c.tStore == s.clock
    requires var claims := crypto.decode(token).value;
             claims.tool == Some(c.tool) && Given(claims.jti) ==>
               Entitled(crypto, aud, token, c.tool, c.doc, key, c.tVerify)
    ensures Inv(crypto, aud, CheckAndRun(s, c, token, key, crypto.decode(token).value).0)
  {
    var payload := crypto.decode(token).value;
    if payload.tool == Some(c.tool) && Given(payload.jti) {
      var jti, exp := payload.jti.value, payload.exp.value;
      var unseen := !NonceStore.Seen(s.nonces, jti, c.tCheck);
      var e := CheckOf(c, token, key, jti, exp, unseen);
      assert (s.log + [e])[..|s.log|] == s.log;
      EventsGrow(crypto, aud, s.log, e);
    }
  }

  lemma CallKeeps(crypto: Crypto, aud: string, s: State, c: Call)
    requires Inv(crypto, aud, s) && InOrder(s, c)
    ensures Inv(crypto, aud, CallTool(crypto, aud, s, c).0)
  {
    var s1 := s.(clock := c.tStore);
    assert Inv(crypto, aud, s1);
    if c.params.Obj? && StartsWith(c.auth, "Bearer ") {
      var token := Strip(c.auth[7..]);
      var unverified := crypto.decode(token);
      if unverified.Some? && Given(unverified.value.iss) {
        var key := KeyOf(unverified.value.iss.value, c.doc);
        if key.Some? && VerifyToken(crypto, token, key.value, aud, c.tVerify).Some? {
          if unverified.value.tool == Some(c.tool) && Given(unverified.value.jti) {
            VerifiedIsEntitled(crypto, aud, c, token, key.value);
          }
          CheckAndRunKeeps(crypto, aud, s1, c, token, key.value, s.clock);
        }
      }
    }
  }

  lemma RestartKeeps(crypto: Crypto, aud: string, s: State)
    requires Inv(crypto, aud, s)
    ensures Inv(crypto, aud, Restart(s))
  {
    EventsGrow(crypto, aud, s.log, Restarted);
  }

  // ---- Who gets through ----

  /** No row of the table is in the way: there is none, or a due cleanup removes it first. */
  predicate Unused(nonces: NonceStore.State, jti: string, now: Time) {
    jti in nonces.rows ==> now - nonces.lastCleanup >= 60.0 && nonces.rows[jti] < now.Floor
  }

  /** What the handler needs to come to status 200. */
  ghost predicate InOrderFor(crypto: Crypto, aud: string, s: State, c: Call, token: string, key: string) {
    && c.params.Obj? && StartsWith(c.auth, "Bearer ") && StripsTo(c.auth[7..], token)
    && Entitled(crypto, aud, token, c.tool, c.doc, key, c.tVerify)
    && Unused(s.nonces, crypto.decode(token).value.jti.value, c.tCheck)
  }

  /** From an entitled token on, only the table decides. */
  lemma EntitledIsChecked(crypto: Crypto, aud: string, s: State, c: Call, token: string, key: string)
    requires c.params.Obj? && StartsWith(c.auth, "Bearer ") && token == Strip(c.auth[7..])
    requires Entitled(crypto, aud, token, c.tool, c.doc, key, c.tVerify)
    ensures CallTool(crypto, aud, s, c).1 in {Executed, UnknownTool} <==>
            Unused(s.nonces, crypto.decode(token).value.jti.value, c.tCheck)
  {
    VerifiesExactly(crypto, token, key, aud, c.tVerify);
  }

  lemma AcceptedIsInOrder(crypto: Crypto, aud: string, s: State, c: Call)
    requires CallTool(crypto, aud, s, c).1 in {Executed, UnknownTool}
    ensures exists token, key :: InOrderFor(crypto, aud, s, c, token, key)
  {
    var token := Strip(c.auth[7..]);
    var key := KeyOf(crypto.decode(token).value.iss.value, c.doc).value;
    StripExactly(c.auth[7..], token);
    VerifiedIsEntitled(crypto, aud, c, token, key);
    EntitledIsChecked(crypto, aud, s, c, token, key);
    hide CallTool, StripsTo;
    assert InOrderFor(crypto, aud, s, c, token, key);
  }

  /**
    Complete mediation at the server, for every call in every state: it is answered with
    status 200 exactly if its parameters are an object, its bearer token is entitled to the
    requested tool, and the token's jti is unused. The answer is then the execution of one
    of the three tools, or that the tool is unknown.
   */
  lemma AcceptedExactly(crypto: Crypto, aud: string, s: State, c: Call)
    ensures CallTool(crypto, aud, s, c).1 in {Executed, UnknownTool} <==>
            exists token, key :: InOrderFor(crypto, aud, s, c, token, key)
    ensures CallTool(crypto, aud, s, c).1 == Executed ==> c.tool in {"echo", "read_file", "run_cmd"}
    ensures CallTool(crypto, aud, s, c).1 == UnknownTool ==> c.tool !in {"echo", "read_file", "run_cmd"}
  {
    if CallTool(crypto, aud, s, c).1 in {Executed, UnknownTool} {
      AcceptedIsInOrder(crypto, aud, s, c);
    }
    if token, key :| InOrderFor(crypto, aud, s, c, token, key) {
      StripExactly(c.auth[7..], token);
      EntitledIsChecked(crypto, aud, s, c, token, key);
    }
  }

  /** One check of the handler, and the refusal that its failure means. */
  datatype Guard = Guard(failure: Refusal, holds: bool)

  /** The documented checks, in order; each presumes those before it. */
  ghost function Guards(crypto: Crypto, aud: string, s: State, c: Call, token: string): seq<Guard> {
    var claims := crypto.decode(token);
    var iss := if claims.Some? && claims.value.iss.Some? then claims.value.iss.value else "";
    var key := if c.doc.Some? && c.doc.value.methods != [] then c.doc.value.methods[0] else None;
    [ Guard(Unprocessable, c.params.Obj?),
      Guard(MissingBearer, StartsWith(c.auth, "Bearer ")),
      Guard(MalformedToken, claims.Some?),
      Guard(MissingIssuer, iss != ""),
      Guard(UnknownIssuer, key.Some? &&
            iss in {"did:web:dzt.local:agent1", "did:web:dzt.local:agent2", "did:web:dzt.local:mcpserver"}),
      Guard(VerificationFailed, key.Some? && Genuine(crypto, token, key.value, aud, c.tVerify)),
      Guard(ToolMismatch, claims.Some? && claims.value.tool == Some(c.tool)),
      Guard(MissingJti, claims.Some? && claims.value.jti.Some? && claims.value.jti.value != ""),
      Guard(Replay, claims.Some? && claims.value.jti.Some? && Unused(s.nonces, claims.value.jti.value, c.tCheck)) ]
  }

  /** Guard `k` fails and none before it does. */
  predicate FailsFirst(g: seq<Guard>, k: nat) {
    k < |g| && !g[k].holds && forall i | 0 <= i < k :: g[i].holds
  }

  /** A refusal names the first check that fails; only the replay check and a passed call touch the table. */
  lemma RefusalIsFirstFailure(crypto: Crypto, aud: string, s: State, c: Call, token: string, k: nat)
    requires StartsWith(c.auth, "Bearer ") ==> StripsTo(c.auth[7..], token)
    requires FailsFirst(Guards(crypto, aud, s, c, token), k)
    ensures CallTool(crypto, aud, s, c).1 == Refused(Guards(crypto, aud, s, c, token)[k].failure)
    ensures k < 8 ==> CallTool(crypto, aud, s, c).0 == s.(clock := c.tStore)
  {
    var g := Guards(crypto, aud, s, c, token);
    assert k > 0 ==> g[0].holds;
    assert k > 1 ==> g[1].holds;
    assert k > 2 ==> g[2].holds;
    assert k > 3 ==> g[3].holds;
    assert k > 4 ==> g[4].holds;
    assert k > 5 ==> g[5].holds;
    assert k > 6 ==> g[6].holds;
    assert k > 7 ==> g[7].holds;
    if k > 1 {
      StripExactly(c.auth[7..], token);
    }
    if k > 4 {
      VerifiesExactly(crypto, token, c.doc.value.methods[0].value, aud, c.tVerify);
    }
    hide Strip, Genuine, VerifyToken, StripsTo, FailsFirst;
  }

  /** Every use of the server's table, the first of a jti or a replay, was by a token entitled to its call. */
  lemma CheckedIsEntitled(crypto: Crypto, aud: string, s: State, n: nat)
    requires Inv(crypto, aud, s) && n < |s.log| && s.log[n].Checked?
    ensures var e := s.log[n]; Entitled(crypto, aud, e.token, e.tool, e.doc, e.key, e.tVerify)
  {
    assert EventOk(crypto, aud, s.log, n);
  }

  // ---- At most one execution per token ----

  lemma OpsAreOrdered(crypto: Crypto, aud: string, s: State)
    requires Inv(crypto, aud, s)
    ensures NonceHistory.ClockOrdered(NonceOps(s.log))
  {
    var ops := NonceOps(s.log);
    forall i | 0 <= i < |ops| && ops[i].Admit?
      ensures ops[i].now <= ops[i].storeNow
    {
      assert EventOk(crypto, aud, s.log, i);
    }
    forall i, k | 0 <= i < k < |ops| && !ops[i].Restart? && !ops[k].Restart?
      ensures NonceHistory.LastReading(ops[i]) <= ops[k].now
    {
      assert EventOk(crypto, aud, s.log, k);
    }
  }

  /** A jti is accepted again only past the first token's expiry. */
  lemma ServerReuse(crypto: Crypto, aud: string, s: State, i: nat, k: nat)
    requires Inv(crypto, aud, s) && i < k < |s.log|
    requires s.log[i].Checked? && s.log[i].unseen && s.log[k].Checked? && s.log[k].unseen
    requires s.log[i].jti == s.log[k].jti
    ensures s.log[i].exp < s.log[k].tCheck.Floor
  {
    var ops := NonceOps(s.log);
    OpsAreOrdered(crypto, aud, s);
    assert EventOk(crypto, aud, s.log, i) && EventOk(crypto, aud, s.log, k);
    OpsOfPrefix(s.log, i);
    OpsOfPrefix(s.log, k);
    assert NonceHistory.Accepted(ops, i) && NonceHistory.Accepted(ops, k);
    NonceHistory.ReadmissionIsPastExpiry(ops, i, k);
  }

  ghost predicate GapAtMost(log: seq<Event>, gap: real) {
    forall i | 0 <= i < |log| && log[i].Checked? :: log[i].tCheck - log[i].tVerify <= gap
  }

  ghost predicate ExecutedOnce(log: seq<Event>) {
    forall i, k | 0 <= i < k < |log| && log[i].Checked? && log[i].unseen && log[k].Checked? && log[k].unseen ::
      log[i].token != log[k].token
  }

  lemma ServerAtMostOnce(crypto: Crypto, aud: string, s: State)
    requires Inv(crypto, aud, s) && GapAtMost(s.log, 1.0)
    ensures ExecutedOnce(s.log)
  {
    forall i, k | 0 <= i < k < |s.log| && s.log[i].Checked? && s.log[i].unseen && s.log[k].Checked? && s.log[k].unseen
      ensures s.log[i].token != s.log[k].token
    {
      assert EventOk(crypto, aud, s.log, i) && EventOk(crypto, aud, s.log, k);
      if s.log[i].token == s.log[k].token {
        ServerReuse(crypto, aud, s, i, k);
      }
    }
  }

  /** A replay is reported only for a jti that the server accepted earlier. */
  lemma ReplayHasCause(crypto: Crypto, aud: string, s: State, k: nat) returns (i: nat)
    requires Inv(crypto, aud, s) && k < |s.log| && s.log[k].Checked? && !s.log[k].unseen
    ensures i < k && s.log[i].Checked? && s.log[i].unseen && s.log[i].jti == s.log[k].jti
  {
    assert EventOk(crypto, aud, s.log, k);
    var pre := s.log[..k];
    NonceHistory.SeenWasAdmitted(NonceOps(pre), s.log[k].jti, s.log[k].tCheck);
    var p :| NonceHistory.Accepted(NonceOps(pre), p) && NonceOps(pre)[p].jti == s.log[k].jti;
    i := p;
    assert EventOk(crypto, aud, s.log, i);
    assert pre[..i] == s.log[..i];
    OpsOfPrefix(pre, i);
  }
}
