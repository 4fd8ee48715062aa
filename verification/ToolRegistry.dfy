/**
  The tool-spec caches of `dzt_proxy/tool_registry.py`. A fetch that misses the
  cache is suspended while upstream answers, so fetches overlap freely; `Begun`
  is what runs before the suspension and `Ended` what runs after it.
 */
module ToolRegistry {
  import opened Common
  import opened Json
  import opened JsonCanonical

  const LOCAL_CACHE_TTL_SEC: real := 30.0

  type Specs = map<string, Value>

  datatype State = State(local: Option<Specs>, localAt: real, remote: Option<Specs>)

  const EMPTY: State := State(None, 0.0, None)

  /** The deployment: UPSTREAM_MODE as `upstream_mode()` reports it, and whether GITHUB_PAT is set. */
  datatype Mode = Local | Github(hasPat: bool)

  function Literal(s: string): Value {
    Str(FromString(s))
  }

  function Entry(key: string, value: Value): Field {
    Field(FromString(key), value)
  }

  /** A spec with one required string parameter. */
  function OneParameterSpec(name: string, description: string, param: string): Value {
    Obj([
      Entry("name", Literal(name)),
      Entry("description", Literal(description)),
      Entry("inputSchema", Obj([
        Entry("type", Literal("object")),
        Entry("properties", Obj([Entry(param, Obj([Entry("type", Literal("string"))]))])),
        Entry("required", Arr([Literal(param)]))]))])
  }

  const LOCAL_TOOL_SPECS: Specs := map[
    "echo" := OneParameterSpec("echo", "Echo back input text.", "message"),
    "read_file" := OneParameterSpec("read_file", "Read a file from disk (demo).", "path"),
    "run_cmd" := OneParameterSpec("run_cmd", "Run a shell command (demo only, dangerous).", "cmd"),
    "get_me" := Obj([
      Entry("name", Literal("get_me")),
      Entry("description", Literal("Fetch GitHub profile via Copilot MCP")),
      Entry("inputSchema", Obj([Entry("type", Literal("object"))]))])
  ]

  /** What `fetch_tool_specs` returns without suspending, if it does. */
  function Begun(s: State, mode: Mode, now: real): Option<Specs> {
    match mode
    case Local => if s.local.Some? && now - s.localAt < LOCAL_CACHE_TTL_SEC then s.local else None
    case Github(false) => Some(LOCAL_TOOL_SPECS)
    case Github(true) => if s.remote.Some? then Some(LOCAL_TOOL_SPECS + s.remote.value) else None
  }

  /**
    The rest of a fetch that began at `start`, once upstream's answer is in; an
    answer of None is a failed request. Contents and start time are written together.
   */
  function Ended(s: State, mode: Mode, start: real, answer: Option<Specs>): (State, Option<Specs>) {
    match mode
    case Local =>
      if answer.Some? then (s.(local := answer, localAt := start), answer) else (s, None)
    case Github(_) =>
      var remote := if answer.Some? then answer.value else map[];
      (s.(remote := Some(remote)), Some(LOCAL_TOOL_SPECS + remote))
  }

  /** `get_tool_hash` on the fetched map; None where it raises KeyError. */
  function ToolHash(digest: string -> string, specs: Specs, tool: string): Option<string> {
    if tool in specs && Truthy(specs[tool]) then Some(HashOf(digest, specs[tool])) else None
  }

  class Registry {
    var local: Option<Specs>
    var localAt: real
    var remote: Option<Specs>

    function View(): State
      reads this
    {
      State(local, localAt, remote)
    }

    constructor ()
      ensures View() == EMPTY
    {
      local, localAt, remote := None, 0.0, None;
    }

    method InvalidateCache()
      modifies this
      ensures View() == EMPTY
    {
      remote := None;
      local := None;
      localAt := 0.0;
    }

    method BeginFetch(mode: Mode, now: real) returns (specs: Option<Specs>)
      ensures specs == Begun(View(), mode, now)
    {
      if mode.Local? {
        if local.Some? && now - localAt < LOCAL_CACHE_TTL_SEC {
          return local;
        }
        return None;
      }
      var merged := LOCAL_TOOL_SPECS;
      if mode.hasPat {
        if remote.None? {
          return None;
        }
        merged := merged + remote.value;
      }
      return Some(merged);
    }

    method EndFetch(mode: Mode, start: real, answer: Option<Specs>) returns (specs: Option<Specs>)
      modifies this
      ensures (View(), specs) == Ended(old(View()), mode, start, answer)
    {
      if mode.Local? {
        if answer.None? {
          return None;
        }
        local := answer;
        localAt := start;
        return answer;
      }
      remote := if answer.Some? then answer else Some(map[]);
      return Some(LOCAL_TOOL_SPECS + remote.value);
    }
  }
}
