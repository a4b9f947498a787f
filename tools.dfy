/** The tool list sent with each model request: built from the tools store's
    flags and configuration and from the list of function definitions, in the
    fixed order web search, file search, code interpreter, functions, MCP. */
module Tools {

  import opened Wrappers
  import opened JsText
  import opened JsValue

  /** `webSearchConfig.user_location`; a field that is not set is None,
      which is `!== ""` like any other value but the empty string. */
  datatype Location = Location(country: Option<string>, region: Option<string>, city: Option<string>)

  /** One MCP server entry; `allowedTools` is None when the stored value is
      not a string. */
  datatype McpConfig = McpConfig(
    serverLabel: string, serverUrl: string, allowedTools: Option<string>, skipApproval: bool)

  /** The part of the tools store `getTools` reads. `vectorStore` is the id
      of the selected store (None for no store), `userLocation` is None when
      the web search configuration has no location, `mcpConfig` is None when
      it is null, `mcpServers` is None when it is not an array and holds None
      for a null entry. */
  datatype ToolsState = ToolsState(
    webSearchEnabled: bool,
    fileSearchEnabled: bool,
    functionsEnabled: bool,
    codeInterpreterEnabled: bool,
    vectorStore: Option<string>,
    userLocation: Option<Location>,
    mcpEnabled: bool,
    mcpConfig: Option<McpConfig>,
    mcpServers: Option<seq<Option<McpConfig>>>)

  /** An entry of the function list: the parameter schema is an object whose
      properties are kept in insertion order. */
  datatype FunctionDef = FunctionDef(name: string, description: string, parameters: seq<(string, Value)>)

  /** The tool descriptors. A function tool's parameters are an object
      schema with `properties`, `required` and `additionalProperties`. */
  datatype Tool =
    | WebSearch(userLocation: Option<Location>)
    | FileSearch(vectorStoreIds: seq<Option<string>>)
    | CodeInterpreter(container: string)
    | Function(name: string, description: string, properties: seq<(string, Value)>,
               required: seq<string>, additionalProperties: bool, strict: bool)
    | Mcp(serverLabel: string, serverUrl: string,
          requireApproval: Option<string>, allowed: Option<seq<string>>)

  /** The place of each kind of tool in the list. */
  function Rank(t: Tool): nat {
    match t
    case WebSearch(_) => 0
    case FileSearch(_) => 1
    case CodeInterpreter(_) => 2
    case Function(_, _, _, _, _, _) => 3
    case Mcp(_, _, _, _) => 4
  }

  /** The location is attached when it is set and some field is not "". */
  predicate HasLocation(l: Option<Location>) {
    l.Some? && (l.value.country != Some("") || l.value.region != Some("") || l.value.city != Some(""))
  }

  function WebSearchTool(l: Option<Location>): Tool {
    WebSearch(if HasLocation(l) then l else None)
  }

  /** `Object.keys` of a parameter object. */
  function Keys(ps: seq<(string, Value)>): (r: seq<string>)
    ensures |r| == |ps| && forall k :: 0 <= k < |ps| ==> r[k] == ps[k].0
  {
    seq(|ps|, k requires 0 <= k < |ps| => ps[k].0)
  }

  function FunctionTool(d: FunctionDef): Tool {
    Function(d.name, d.description, d.parameters, Keys(d.parameters), false, true)
  }

  /** `toolsList.map(...)`. */
  function FunctionTools(defs: seq<FunctionDef>): (r: seq<Tool>)
    ensures |r| == |defs| && forall k :: 0 <= k < |defs| ==> r[k] == FunctionTool(defs[k])
  {
    seq(|defs|, k requires 0 <= k < |defs| => FunctionTool(defs[k]))
  }

  /** A server is a candidate when its url and label are non-empty. */
  predicate Usable(c: McpConfig) {
    c.serverUrl != "" && c.serverLabel != ""
  }

  /** The usable entries of `mcpServers`, in order. */
  function Servers(s: seq<Option<McpConfig>>): seq<McpConfig> {
    if s == [] then []
    else if s[0].Some? && Usable(s[0].value) then [s[0].value] + Servers(s[1..])
    else Servers(s[1..])
  }

  /** The MCP candidates: the single configuration first, then the servers. */
  function Candidates(st: ToolsState): seq<McpConfig> {
    (if st.mcpConfig.Some? && Usable(st.mcpConfig.value) then [st.mcpConfig.value] else [])
    + (if st.mcpServers.Some? then Servers(st.mcpServers.value) else [])
  }

  /** The `allowed_tools` text is used when it is a string that is not blank. */
  predicate HasAllowed(c: McpConfig) {
    c.allowedTools.Some? && Trim(c.allowedTools.value) != ""
  }

  function McpTool(c: McpConfig): Tool {
    Mcp(c.serverLabel, c.serverUrl,
        if c.skipApproval then Some("never") else None,
        if HasAllowed(c) then Some(CommaList(c.allowedTools.value)) else None)
  }

  function McpTools(cs: seq<McpConfig>): (r: seq<Tool>)
    ensures |r| == |cs| && forall k :: 0 <= k < |cs| ==> r[k] == McpTool(cs[k])
  {
    seq(|cs|, k requires 0 <= k < |cs| => McpTool(cs[k]))
  }

  /** The five parts of the list, one per flag. */
  function WebPart(st: ToolsState): seq<Tool> {
    if st.webSearchEnabled then [WebSearchTool(st.userLocation)] else []
  }

  function FilePart(st: ToolsState): seq<Tool> {
    if st.fileSearchEnabled then [FileSearch([st.vectorStore])] else []
  }

  function CodePart(st: ToolsState): seq<Tool> {
    if st.codeInterpreterEnabled then [CodeInterpreter("auto")] else []
  }

  function FunctionPart(st: ToolsState, defs: seq<FunctionDef>): seq<Tool> {
    if st.functionsEnabled then FunctionTools(defs) else []
  }

  function McpPart(st: ToolsState): seq<Tool> {
    if st.mcpEnabled then McpTools(Candidates(st)) else []
  }

  /** The tool list `getTools` returns. */
  function ToolsOf(st: ToolsState, defs: seq<FunctionDef>): seq<Tool> {
    WebPart(st) + FilePart(st) + CodePart(st) + FunctionPart(st, defs) + McpPart(st)
  }

  /** `getTools`, pushing the descriptors one by one. */
  method GetTools(st: ToolsState, defs: seq<FunctionDef>) returns (tools: seq<Tool>)
    ensures tools == ToolsOf(st, defs)
  {
    tools := [];
    if st.webSearchEnabled {
      var location: Option<Location> := None;
      if st.userLocation.Some? {
        var l := st.userLocation.value;
        if l.country != Some("") || l.region != Some("") || l.city != Some("") {
          location := st.userLocation;
        }
      }
      tools := tools + [WebSearch(location)];
    }
    assert tools == WebPart(st);
    if st.fileSearchEnabled {
      tools := tools + [FileSearch([st.vectorStore])];
    }
    assert tools == WebPart(st) + FilePart(st);
    if st.codeInterpreterEnabled {
      tools := tools + [CodeInterpreter("auto")];
    }
    assert tools == WebPart(st) + FilePart(st) + CodePart(st);
    if st.functionsEnabled {
      tools := PushFunctionTools(tools, defs);
    }
    assert tools == WebPart(st) + FilePart(st) + CodePart(st) + FunctionPart(st, defs);
    if st.mcpEnabled {
      var candidates := CollectCandidates(st);
      tools := PushMcpTools(tools, candidates);
    }
  }

  /** `tools.push(...toolsList.map(...))`. */
  method PushFunctionTools(tools: seq<Tool>, defs: seq<FunctionDef>) returns (r: seq<Tool>)
    ensures r == tools + FunctionTools(defs)
  {
    r := tools;
    for i := 0 to |defs|
      invariant r == tools + FunctionTools(defs[..i])
    {
      assert FunctionTools(defs[..i + 1]) == FunctionTools(defs[..i]) + [FunctionTool(defs[i])];
      r := r + [FunctionTool(defs[i])];
    }
    assert defs[..|defs|] == defs;
  }

  /** The `candidates` array: the single configuration, then the loop over
      `mcpServers`. */
  method CollectCandidates(st: ToolsState) returns (candidates: seq<McpConfig>)
    ensures candidates == Candidates(st)
  {
    candidates := [];
    if st.mcpConfig.Some? && st.mcpConfig.value.serverUrl != "" && st.mcpConfig.value.serverLabel != "" {
      candidates := candidates + [st.mcpConfig.value];
    }
    if st.mcpServers.Some? {
      var servers := st.mcpServers.value;
      var first := candidates;
      for i := 0 to |servers|
        invariant candidates == first + Servers(servers[..i])
      {
        ServersSnoc(servers[..i], servers[i]);
        assert servers[..i + 1] == servers[..i] + [servers[i]];
        var cfg := servers[i];
        if cfg.Some? && cfg.value.serverUrl != "" && cfg.value.serverLabel != "" {
          candidates := candidates + [cfg.value];
        }
      }
      assert servers[..|servers|] == servers;
    }
  }

  /** The loop over the candidates, one MCP tool each. */
  method PushMcpTools(tools: seq<Tool>, candidates: seq<McpConfig>) returns (r: seq<Tool>)
    ensures r == tools + McpTools(candidates)
  {
    r := tools;
    for i := 0 to |candidates|
      invariant r == tools + McpTools(candidates[..i])
    {
      var cfg := candidates[i];
      var approval: Option<string> := None;
      if cfg.skipApproval {
        approval := Some("never");
      }
      var allowed: Option<seq<string>> := None;
      if cfg.allowedTools.Some? && Trim(cfg.allowedTools.value) != "" {
        allowed := Some(CommaList(cfg.allowedTools.value));
      }
      assert Mcp(cfg.serverLabel, cfg.serverUrl, approval, allowed) == McpTool(cfg);
      McpToolsSnoc(candidates, i);
      r := r + [Mcp(cfg.serverLabel, cfg.serverUrl, approval, allowed)];
    }
    assert candidates[..|candidates|] == candidates;
  }

  /** Mapping one more candidate adds its tool at the end. */
  lemma McpToolsSnoc(cs: seq<McpConfig>, i: nat)
    requires i < |cs|
    ensures McpTools(cs[..i + 1]) == McpTools(cs[..i]) + [McpTool(cs[i])]
  {
  }

  /** Filtering one more entry adds it at the end exactly when it is usable. */
  lemma {:induction false} ServersSnoc(s: seq<Option<McpConfig>>, o: Option<McpConfig>)
    ensures Servers(s + [o]) == Servers(s) + (if o.Some? && Usable(o.value) then [o.value] else [])
  {
    if s == [] {
      assert Servers([o][1..]) == [];
    } else {
      assert (s + [o])[1..] == s[1..] + [o];
      ServersSnoc(s[1..], o);
    }
  }

  /** A server is a candidate exactly when the list holds it and it is usable. */
  lemma {:induction false} ServersSpec(s: seq<Option<McpConfig>>, c: McpConfig)
    ensures c in Servers(s) <==> Some(c) in s && Usable(c)
  {
    if s != [] {
      ServersSpec(s[1..], c);
      assert s == [s[0]] + s[1..];
    }
  }

  /** No more candidates than entries. */
  lemma {:induction false} ServersCount(s: seq<Option<McpConfig>>)
    ensures |Servers(s)| <= |s|
  {
    if s != [] {
      ServersCount(s[1..]);
    }
  }

  /** The MCP candidates are the single configuration, when usable, followed
      by the usable servers. */
  lemma CandidatesSpec(st: ToolsState, c: McpConfig)
    ensures c in Candidates(st) <==>
              Usable(c) && (st.mcpConfig == Some(c) ||
                            (st.mcpServers.Some? && Some(c) in st.mcpServers.value))
  {
    if st.mcpServers.Some? {
      ServersSpec(st.mcpServers.value, c);
    }
  }

  /** Tools come in the fixed order of their kinds. */
  lemma ToolsInOrder(st: ToolsState, defs: seq<FunctionDef>)
    ensures forall i, j :: 0 <= i < j < |ToolsOf(st, defs)| ==>
              Rank(ToolsOf(st, defs)[i]) <= Rank(ToolsOf(st, defs)[j])
  {
    var a, b, c, d, e := WebPart(st), FilePart(st), CodePart(st), FunctionPart(st, defs), McpPart(st);
    assert forall t :: t in a ==> Rank(t) == 0;
    assert forall t :: t in b ==> Rank(t) == 1;
    assert forall t :: t in c ==> Rank(t) == 2;
    assert forall t :: t in d ==> Rank(t) == 3;
    assert forall t :: t in e ==> Rank(t) == 4;
    Ascending(a, b, 0, 1);
    Ascending(a + b, c, 1, 2);
    Ascending(a + b + c, d, 2, 3);
    Ascending(a + b + c + d, e, 3, 4);
  }

  predicate Sorted(s: seq<Tool>) {
    forall i, j :: 0 <= i < j < |s| ==> Rank(s[i]) <= Rank(s[j])
  }

  /** Appending tools of a rank no lower than every earlier one keeps the
      order. */
  lemma Ascending(p: seq<Tool>, q: seq<Tool>, lo: nat, hi: nat)
    requires lo <= hi
    requires Sorted(p) && forall t :: t in p ==> Rank(t) <= lo
    requires forall t :: t in q ==> Rank(t) == hi
    ensures Sorted(p + q) && forall t :: t in p + q ==> Rank(t) <= hi
  {
    forall i, j | 0 <= i < j < |p + q| ensures Rank((p + q)[i]) <= Rank((p + q)[j]) {
      if j >= |p| {
        assert (p + q)[j] in q;
        if i < |p| {
          assert (p + q)[i] in p;
        } else {
          assert (p + q)[i] in q;
        }
      }
    }
  }

  /** The list is empty exactly when no flag adds a tool: every flag is off,
      or the enabled functions and MCP parts have nothing to list. */
  lemma ToolsEmpty(st: ToolsState, defs: seq<FunctionDef>)
    ensures ToolsOf(st, defs) == [] <==>
              && !st.webSearchEnabled && !st.fileSearchEnabled && !st.codeInterpreterEnabled
              && (!st.functionsEnabled || defs == [])
              && (!st.mcpEnabled || Candidates(st) == [])
  {
    if !st.webSearchEnabled && !st.fileSearchEnabled && !st.codeInterpreterEnabled {
      assert ToolsOf(st, defs) == FunctionPart(st, defs) + McpPart(st);
    }
  }

  /** With web search on, the list starts with the web search tool, which
      carries the configured location exactly when one is set with a
      non-empty field. */
  lemma WebSearchFirst(st: ToolsState, defs: seq<FunctionDef>)
    requires st.webSearchEnabled
    ensures ToolsOf(st, defs)[0].WebSearch?
    ensures var l := ToolsOf(st, defs)[0].userLocation;
            (l.Some? <==> HasLocation(st.userLocation)) && (l.Some? ==> l == st.userLocation)
  {
  }

  /** With functions on, the k-th function definition gives the tool right
      after the fixed tools before it: same name, description and
      properties, every key required, no additional properties, strict. */
  lemma FunctionToolAt(st: ToolsState, defs: seq<FunctionDef>, k: nat) returns (n: nat)
    requires st.functionsEnabled && k < |defs|
    ensures n == (if st.webSearchEnabled then 1 else 0) + (if st.fileSearchEnabled then 1 else 0)
                 + (if st.codeInterpreterEnabled then 1 else 0)
    ensures n + k < |ToolsOf(st, defs)|
    ensures var t := ToolsOf(st, defs)[n + k];
            && t.Function? && t.name == defs[k].name && t.description == defs[k].description
            && t.properties == defs[k].parameters && !t.additionalProperties && t.strict
            && |t.required| == |t.properties|
            && forall j :: 0 <= j < |t.required| ==> t.required[j] == t.properties[j].0
  {
    n := (if st.webSearchEnabled then 1 else 0) + (if st.fileSearchEnabled then 1 else 0)
         + (if st.codeInterpreterEnabled then 1 else 0);
    var fixed := WebPart(st) + FilePart(st) + CodePart(st);
    assert |fixed| == n;
    assert ToolsOf(st, defs) == fixed + FunctionTools(defs) + McpPart(st);
    assert ToolsOf(st, defs)[n + k] == FunctionTools(defs)[k];
  }

  /** An MCP tool asks for no approval exactly when the server skips it, and
      carries the comma-separated allowed tools, trimmed and non-empty,
      exactly when the text is a string that is not blank. */
  lemma McpToolSpec(c: McpConfig)
    ensures McpTool(c).serverLabel == c.serverLabel && McpTool(c).serverUrl == c.serverUrl
    ensures McpTool(c).requireApproval == Some("never") <==> c.skipApproval
    ensures !c.skipApproval ==> McpTool(c).requireApproval == None
    ensures McpTool(c).allowed.Some? <==> HasAllowed(c)
    ensures HasAllowed(c) ==>
              && McpTool(c).allowed.value == CommaList(c.allowedTools.value)
              && [] !in McpTool(c).allowed.value
              && forall x :: x != [] ==>
                   (x in McpTool(c).allowed.value <==> TrimsTo(Split(c.allowedTools.value, ','), x))
  {
    if HasAllowed(c) {
      var s := c.allowedTools.value;
      forall x | x != [] ensures x in CommaList(s) <==> TrimsTo(Split(s, ','), x) {
        InCommaList(s, x);
      }
    }
  }
}
