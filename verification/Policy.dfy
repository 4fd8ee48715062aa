/**
  The per-agent allowlist of `dzt_proxy/policy.py`. Parameters are JSON values as
  the request body carries them, so a rule can also fail on a value of the wrong
  shape; the source then raises instead of answering.
 */
module Policy {
  import opened Common
  import opened Json

  datatype Decision = Allowed | Blocked | Raises

  const AGENT1 := "did:web:dzt.local:agent1"
  const AGENT2 := "did:web:dzt.local:agent2"

  const SAFE_PATHS: seq<string> := ["/etc/passwd", "/etc/hostname", "/tmp/demo.txt"]

  const SUSPICIOUS: seq<string> := [
    "ignore previous",
    "ignore all instructions",
    "system prompt",
    "EXECUTE:",
    "run_cmd",
    "<script>"
  ]

  function LowerPoint(c: CodePoint): CodePoint {
    if 0x41 <= c <= 0x5A then c + 0x20 else c
  }

  /** str.lower on ASCII text. */
  function Lower(s: Text): Text {
    seq(|s|, i requires 0 <= i < |s| => LowerPoint(s[i]))
  }

  predicate OccursAt(pattern: Text, s: Text, i: int) {
    0 <= i <= |s| - |pattern| && s[i..i + |pattern|] == pattern
  }

  /** Python's `pattern in s`. */
  predicate Occurs(pattern: Text, s: Text) {
    exists i | 0 <= i <= |s| :: OccursAt(pattern, s, i)
  }

  /** The listed pattern `k` occurs in the lowered message. */
  predicate Matches(k: int, message: Text) {
    0 <= k < |SUSPICIOUS| && Occurs(Lower(FromString(SUSPICIOUS[k])), Lower(message))
  }

  /** The verdict of `_echo_rule` on a message. */
  predicate EchoBlocked(message: Text) {
    exists k | 0 <= k < |SUSPICIOUS| :: Matches(k, message)
  }

  /** `_echo_rule`'s search through the patterns. */
  method ScanPatterns(message: Text) returns (blocked: bool)
    ensures blocked == EchoBlocked(message)
  {
    var lower := Lower(message);
    for k := 0 to |SUSPICIOUS|
      invariant forall j | 0 <= j < k :: !Matches(j, message)
    {
      if Occurs(Lower(FromString(SUSPICIOUS[k])), lower) {
        assert Matches(k, message);
        return true;
      }
    }
    return false;
  }

  /** (params or {}).get(key, ""), where only a dict has `get`. */
  function Param(params: Value, key: string): Option<Value> {
    if !Truthy(params) then Some(Str([]))
    else if params.Obj? then
      var found := Lookup(params.fields, FromString(key));
      if found.Some? then found else Some(Str([]))
    else None
  }

  function ReadFileRule(params: Value): Decision {
    match Param(params, "path")
    case None => Raises
    case Some(Arr(_)) => Raises
    case Some(Obj(_)) => Raises
    case Some(Str(path)) =>
      if exists k | 0 <= k < |SAFE_PATHS| :: path == FromString(SAFE_PATHS[k]) then Allowed else Blocked
    case _ => Blocked
  }

  function EchoRule(params: Value): Decision {
    match Param(params, "message")
    case Some(Str(message)) => if EchoBlocked(message) then Blocked else Allowed
    case _ => Raises
  }

  datatype AgentPolicy = AgentPolicy(allowedTools: set<string>, paramRules: map<string, Value -> Decision>)

  function PolicyOf(did: string): Option<AgentPolicy> {
    if did == AGENT1 then
      Some(AgentPolicy({"echo", "read_file", "get_me"}, map["read_file" := ReadFileRule, "echo" := EchoRule]))
    else if did == AGENT2 then
      Some(AgentPolicy({"echo"}, map["echo" := EchoRule]))
    else None
  }

  const GLOBAL_BLOCKLIST: set<string> := {"run_cmd"}

  /** `is_allowed`; `mode` is the lowercased UPSTREAM_MODE. */
  function IsAllowed(mode: string, did: string, tool: string, params: Value): Decision {
    if tool in GLOBAL_BLOCKLIST then Blocked
    else
      var dynamicTools := if mode == "github" then {"get_me"} else {};
      match PolicyOf(did)
      case None => Blocked
      case Some(policy) =>
        if tool !in policy.allowedTools + dynamicTools then Blocked
        else if tool in policy.paramRules then policy.paramRules[tool](params)
        else Allowed
  }

  // ---- The echo filter is a case-insensitive substring search ----

  /** Equal, or the two cases of one ASCII letter. */
  predicate SameLetter(a: CodePoint, b: CodePoint) {
    a == b || (0x41 <= a <= 0x5A && b == a + 0x20) || (0x41 <= b <= 0x5A && a == b + 0x20)
  }

  predicate SameUpToCase(s: Text, t: Text) {
    |s| == |t| && forall i | 0 <= i < |s| :: SameLetter(s[i], t[i])
  }

  lemma LowerForgetsCase(s: Text, t: Text)
    ensures Lower(s) == Lower(t) <==> SameUpToCase(s, t)
  {
    if Lower(s) == Lower(t) {
      forall i | 0 <= i < |s|
        ensures SameLetter(s[i], t[i])
      {
        assert Lower(s)[i] == Lower(t)[i];
      }
    }
  }

  /** The stretch of the message at `i` reads as the pattern, in some mix of cases. */
  predicate ReadsAt(message: Text, pattern: string, i: int) {
    && 0 <= i <= |message| - |pattern|
    && forall n | 0 <= n < |pattern| :: SameLetter(message[i + n], pattern[n] as int)
  }

  /** The message contains one of the six listed patterns, letter case aside. */
  ghost predicate LooksInjected(message: Text) {
    exists pattern, i ::
      pattern in {"ignore previous", "ignore all instructions", "system prompt", "EXECUTE:", "run_cmd", "<script>"}
      && ReadsAt(message, pattern, i)
  }

  /** A message is rejected exactly when some stretch of it is a listed pattern, letter case aside. */
  lemma RejectsExactly(message: Text)
    ensures EchoBlocked(message) <==> LooksInjected(message)
  {
    if EchoBlocked(message) {
      var k :| 0 <= k < |SUSPICIOUS| && Matches(k, message);
      var i :| 0 <= i <= |message| && OccursAt(Lower(FromString(SUSPICIOUS[k])), Lower(message), i);
      StretchLowered(SUSPICIOUS[k], message, i);
      assert ReadsAt(message, SUSPICIOUS[k], i);
    }
    if LooksInjected(message) {
      var pattern, i :| pattern in {"ignore previous", "ignore all instructions", "system prompt", "EXECUTE:",
                                    "run_cmd", "<script>"}
                        && ReadsAt(message, pattern, i);
      var k := PatternIsListed(pattern);
      StretchLowered(pattern, message, i);
      assert Matches(k, message);
    }
  }

  lemma PatternIsListed(pattern: string) returns (k: int)
    requires pattern in {"ignore previous", "ignore all instructions", "system prompt", "EXECUTE:", "run_cmd",
                         "<script>"}
    ensures 0 <= k < |SUSPICIOUS| && SUSPICIOUS[k] == pattern
  {
    assert SUSPICIOUS[0] == "ignore previous" && SUSPICIOUS[1] == "ignore all instructions";
    assert SUSPICIOUS[2] == "system prompt" && SUSPICIOUS[3] == "EXECUTE:";
    assert SUSPICIOUS[4] == "run_cmd" && SUSPICIOUS[5] == "<script>";
    k :| 0 <= k < |SUSPICIOUS| && SUSPICIOUS[k] == pattern;
  }

  lemma StretchLowered(pattern: string, message: Text, i: nat)
    requires i <= |message| - |pattern|
    ensures OccursAt(Lower(FromString(pattern)), Lower(message), i)
            <==> ReadsAt(message, pattern, i)
  {
    var stretch := message[i..i + |pattern|];
    assert Lower(message)[i..i + |pattern|] == Lower(stretch);
    LowerForgetsCase(stretch, FromString(pattern));
    assert forall n | 0 <= n < |pattern| :: stretch[n] == message[i + n];
    if ReadsAt(message, pattern, i) {
      assert forall n | 0 <= n < |pattern| :: SameLetter(message[i + n], pattern[n] as int);
      assert SameUpToCase(stretch, FromString(pattern));
    }
    if SameUpToCase(stretch, FromString(pattern)) {
      forall n | 0 <= n < |pattern|
        ensures SameLetter(message[i + n], pattern[n] as int)
      {
        assert SameLetter(stretch[n], FromString(pattern)[n]);
      }
    }
  }

  /** Changing the case of letters never changes the verdict. */
  lemma CaseDoesNotMatter(s: Text, t: Text)
    requires SameUpToCase(s, t)
    ensures EchoBlocked(s) == EchoBlocked(t)
  {
    LowerForgetsCase(s, t);
    assert forall k :: Matches(k, s) == Matches(k, t);
  }

  lemma LowerOfMiddle(before: Text, message: Text, after: Text)
    ensures var whole := Lower(before + message + after);
            |whole| == |before| + |message| + |after|
            && whole[|before|..|before| + |message|] == Lower(message)
  {
  }

  lemma OccursInMiddle(pattern: Text, s: Text, whole: Text, at: nat, i: int)
    requires at + |s| <= |whole| && whole[at..at + |s|] == s && OccursAt(pattern, s, i)
    ensures OccursAt(pattern, whole, at + i)
  {
    forall n | 0 <= n < |pattern|
      ensures whole[at + i + n] == pattern[n]
    {
      assert pattern[n] == s[i..i + |pattern|][n] == s[i + n] == whole[at..at + |s|][i + n];
    }
  }

  /** A rejected message stays rejected inside any longer one. */
  lemma ContextDoesNotHelp(before: Text, message: Text, after: Text)
    requires EchoBlocked(message)
    ensures EchoBlocked(before + message + after)
  {
    hide Lower;
    var k :| 0 <= k < |SUSPICIOUS| && Matches(k, message);
    var pattern, whole := Lower(FromString(SUSPICIOUS[k])), before + message + after;
    var i :| 0 <= i <= |Lower(message)| && OccursAt(pattern, Lower(message), i);
    LowerOfMiddle(before, message, after);
    OccursInMiddle(pattern, Lower(message), Lower(whole), |before|, i);
    assert Matches(k, whole);
  }

  // ---- What the parameter rules decide ----

  ghost predicate EchoAllows(params: Value) {
    || Falsy(params) || NoneNamed(params, "message")
    || exists message :: FirstNamed(params, "message", Str(message)) && !LooksInjected(message)
  }

  ghost predicate EchoRaises(params: Value) {
    && !Falsy(params)
    && (!params.Obj? || exists v :: FirstNamed(params, "message", v) && !v.Str?)
  }

  /**
    `_echo_rule` on every value: allowed are a first "message" without a listed pattern, no
    "message" at all and no parameters; truthy parameters that are no object, and a message
    that is no string, raise; anything else is blocked.
   */
  lemma EchoExactly(params: Value)
    ensures EchoRule(params) == Allowed <==> EchoAllows(params)
    ensures EchoRule(params) == Raises <==> EchoRaises(params)
  {
    TruthyExactly(params);
    if Truthy(params) && params.Obj? {
      LookupFindsFirst(params.fields, "message");
      var found := Lookup(params.fields, FromString("message"));
      if found.Some? {
        forall v | FirstNamed(params, "message", v)
          ensures v == found.value
        {
          FirstIsOnly(params, "message", found.value, v);
        }
        FirstIsOnly(params, "message", found.value, found.value);
        if found.value.Str? {
          RejectsExactly(found.value.s);
        }
      } else {
        RejectsExactly([]);
        NothingLooksInjected();
        assert forall v :: !FirstNamed(params, "message", v);
      }
    } else {
      RejectsExactly([]);
      NothingLooksInjected();
    }
  }

  lemma NothingLooksInjected()
    ensures !LooksInjected([])
  {
  }

  ghost predicate ReadFileAllows(params: Value) {
    exists path :: FirstNamed(params, "path", Str(path)) &&
                   (Spells(path, "/etc/passwd") || Spells(path, "/etc/hostname") || Spells(path, "/tmp/demo.txt"))
  }

  ghost predicate ReadFileRaises(params: Value) {
    && !Falsy(params)
    && (!params.Obj? || exists v :: FirstNamed(params, "path", v) && (v.Arr? || v.Obj?))
  }

  /**
    `_read_file_rule` on every value: allowed is exactly a first "path" that is one of the
    three safe ones; truthy parameters that are no object, and a path that is a list or an
    object, raise; anything else is blocked.
   */
  lemma ReadFileExactly(params: Value)
    ensures ReadFileRule(params) == Allowed <==> ReadFileAllows(params)
    ensures ReadFileRule(params) == Raises <==> ReadFileRaises(params)
  {
    TruthyExactly(params);
    EmptyIsUnsafe();
    if Truthy(params) && params.Obj? {
      LookupFindsFirst(params.fields, "path");
      var found := Lookup(params.fields, FromString("path"));
      if found.Some? {
        forall v | FirstNamed(params, "path", v)
          ensures v == found.value
        {
          FirstIsOnly(params, "path", found.value, v);
        }
        if found.value.Str? {
          SafePathsSpelled(found.value.s);
        }
      } else {
        assert forall v :: !FirstNamed(params, "path", v);
      }
    }
  }

  lemma SafePathsSpelled(path: Text)
    ensures (exists k | 0 <= k < |SAFE_PATHS| :: path == FromString(SAFE_PATHS[k])) <==>
            Spells(path, "/etc/passwd") || Spells(path, "/etc/hostname") || Spells(path, "/tmp/demo.txt")
  {
    assert forall s :: path == FromString(s) <==> Spells(path, s);
    assert SAFE_PATHS[0] == "/etc/passwd" && SAFE_PATHS[1] == "/etc/hostname" && SAFE_PATHS[2] == "/tmp/demo.txt";
  }

  lemma EmptyIsUnsafe()
    ensures !exists k | 0 <= k < |SAFE_PATHS| :: [] == FromString(SAFE_PATHS[k])
  {
    SafePathsSpelled([]);
  }

  // ---- What the policy grants ----

  /**
    The whole grant table, over all parameter values: what is allowed, what raises, and
    that everything else is blocked, `run_cmd` always.
   */
  lemma GrantsExactly(mode: string, did: string, tool: string, params: Value)
    ensures var first, second := did == "did:web:dzt.local:agent1", did == "did:web:dzt.local:agent2";
            && (IsAllowed(mode, did, tool, params) == Allowed <==>
                  || ((first || second) && tool == "echo" && EchoAllows(params))
                  || (first && tool == "read_file" && ReadFileAllows(params))
                  || (first && tool == "get_me")
                  || (second && tool == "get_me" && mode == "github"))
            && (IsAllowed(mode, did, tool, params) == Raises <==>
                  || ((first || second) && tool == "echo" && EchoRaises(params))
                  || (first && tool == "read_file" && ReadFileRaises(params)))
    ensures IsAllowed(mode, did, "run_cmd", params) == Blocked
  {
    EchoExactly(params);
    ReadFileExactly(params);
    hide EchoRule, ReadFileRule, EchoAllows, EchoRaises, ReadFileAllows, ReadFileRaises;
    assert AGENT1 != AGENT2 by {
      assert AGENT1[|AGENT1| - 1] != AGENT2[|AGENT2| - 1];
    }
    assert |"echo"| == 4 && |"get_me"| == 6 && |"run_cmd"| == 7 && |"read_file"| == 9;
  }
}
