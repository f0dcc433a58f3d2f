/** The MCP client manager: validating the server configuration, connecting
    to every configured server and collecting its tools, dispatching a tool
    call to the server that provides the tool, and closing. The SDK is
    abstracted: a server's `listTools` answer and a tool call's answer are
    parameters, and the manager runs its steps one after another. */
module McpService {
  import opened Text

  // ---------------------------------------------------------------------------
  // Configuration

  /** A server's `args`: absent (or another falsy value), present but not an
      array, or an array. */
  datatype ArgsValue = ArgsMissing | ArgsNotArray | ArgsArray(items: seq<string>)

  datatype ServerConfig = ServerConfig(command: Option<string>, args: ArgsValue, env: map<string, string>)

  /** One `[name, config]` entry of `mcpServers`, in the object's order. */
  datatype ServerEntry = ServerEntry(name: string, config: ServerConfig)

  /** The parsed configuration file; `mcpServers` may be absent. */
  datatype McpConfig = McpConfig(mcpServers: Option<seq<ServerEntry>>)

  /** Keys of a JSON object are distinct. */
  predicate DistinctNames(entries: seq<ServerEntry>) {
    forall i, j :: 0 <= i < j < |entries| ==> entries[i].name != entries[j].name
  }

  predicate WellFormed(config: Option<McpConfig>) {
    config.Some? && config.value.mcpServers.Some? ==> DistinctNames(config.value.mcpServers.value)
  }

  /** `config.command` is truthy: present and not empty. */
  predicate HasCommand(c: ServerConfig) {
    c.command.Some? && c.command.value != ""
  }

  predicate HasArgsArray(c: ServerConfig) {
    c.args.ArgsArray?
  }

  /** The configuration `validateConfig` accepts. */
  predicate ConfigValid(config: Option<McpConfig>) {
    config.Some? && config.value.mcpServers.Some? && |config.value.mcpServers.value| > 0 &&
    forall i :: 0 <= i < |config.value.mcpServers.value| ==>
      HasCommand(config.value.mcpServers.value[i].config) && HasArgsArray(config.value.mcpServers.value[i].config)
  }

  function MissingCommand(name: string): string {
    "MCP server " + name + " is missing command"
  }

  function InvalidArgs(name: string): string {
    "MCP server " + name + " has invalid args"
  }

  /** The errors logged for one server. */
  function EntryErrors(e: ServerEntry): seq<string> {
    (if HasCommand(e.config) then [] else [MissingCommand(e.name)]) +
    (if HasArgsArray(e.config) then [] else [InvalidArgs(e.name)])
  }

  /** The errors logged for the servers, in order. */
  function ServerErrors(entries: seq<ServerEntry>): seq<string> {
    if entries == [] then []
    else ServerErrors(entries[..|entries| - 1]) + EntryErrors(entries[|entries| - 1])
  }

  /** The errors `validateConfig` logs. */
  function ConfigErrors(config: Option<McpConfig>): seq<string> {
    if config.None? || config.value.mcpServers.None? then ["MCP configuration is missing or invalid"]
    else if |config.value.mcpServers.value| == 0 then ["No MCP servers configured"]
    else ServerErrors(config.value.mcpServers.value)
  }

  /** `validateConfig`: every server is inspected, and every problem of
      every server is logged, before the verdict is returned. */
  method ValidateConfig(config: Option<McpConfig>) returns (valid: bool, errors: seq<string>)
    ensures valid == ConfigValid(config)
    ensures errors == ConfigErrors(config)
  {
    if config.None? || config.value.mcpServers.None? {
      return false, ["MCP configuration is missing or invalid"];
    }
    var servers := config.value.mcpServers.value;
    if |servers| == 0 {
      return false, ["No MCP servers configured"];
    }
    valid := true;
    errors := [];
    for i := 0 to |servers|
      invariant valid == forall k :: 0 <= k < i ==> HasCommand(servers[k].config) && HasArgsArray(servers[k].config)
      invariant errors == ServerErrors(servers[..i])
    {
      assert servers[..i + 1][..i] == servers[..i];
      if !HasCommand(servers[i].config) {
        errors := errors + [MissingCommand(servers[i].name)];
        valid := false;
      }
      if !HasArgsArray(servers[i].config) {
        errors := errors + [InvalidArgs(servers[i].name)];
        valid := false;
      }
    }
    assert servers[..|servers|] == servers;
  }

  /** The servers' errors are empty exactly when every server is valid. */
  lemma {:induction false} ServerErrorsEmptyIff(entries: seq<ServerEntry>)
    ensures ServerErrors(entries) == [] <==>
            forall i :: 0 <= i < |entries| ==> HasCommand(entries[i].config) && HasArgsArray(entries[i].config)
  {
    if entries != [] {
      var init := entries[..|entries| - 1];
      ServerErrorsEmptyIff(init);
      assert forall i :: 0 <= i < |init| ==> init[i] == entries[i];
    }
  }

  /** The configuration is accepted exactly when nothing is logged. */
  lemma ValidIffNoErrors(config: Option<McpConfig>)
    ensures ConfigValid(config) <==> ConfigErrors(config) == []
  {
    if config.Some? && config.value.mcpServers.Some? {
      ServerErrorsEmptyIff(config.value.mcpServers.value);
    }
  }

  /** No early exit: each server's problems are logged whatever the
      servers before it look like. */
  lemma {:induction false} EveryProblemLogged(entries: seq<ServerEntry>, i: nat)
    requires i < |entries|
    ensures !HasCommand(entries[i].config) ==> MissingCommand(entries[i].name) in ServerErrors(entries)
    ensures !HasArgsArray(entries[i].config) ==> InvalidArgs(entries[i].name) in ServerErrors(entries)
  {
    var init := entries[..|entries| - 1];
    if i < |entries| - 1 {
      EveryProblemLogged(init, i);
      assert init[i] == entries[i];
    }
  }

  // ---------------------------------------------------------------------------
  // Tools

  /** A tool as a server lists it, and as the manager keeps it. */
  datatype ToolInfo = ToolInfo(name: string, description: string, inputSchema: string)

  /** The server names of the configuration, in order. */
  function ServerNames(config: Option<McpConfig>): (names: seq<string>)
    ensures config.Some? && config.value.mcpServers.Some? ==> |names| == |config.value.mcpServers.value|
  {
    if config.None? || config.value.mcpServers.None? then []
    else
      var servers := config.value.mcpServers.value;
      seq(|servers|, i requires 0 <= i < |servers| => servers[i].name)
  }

  /** The names as a set (the keys of `mcpClients`). */
  function NameSet(names: seq<string>): (r: set<string>)
    ensures forall n :: n in r <==> n in names
  {
    if names == [] then {}
    else
      var r := NameSet(names[..|names| - 1]) + {names[|names| - 1]};
      assert names == names[..|names| - 1] + [names[|names| - 1]];
      r
  }

  /** What a server's `listTools` gave: its tools, or `None` when connecting
      or listing failed. */
  function Listed(listTools: string -> Option<seq<ToolInfo>>, name: string): seq<ToolInfo> {
    match listTools(name)
    case Some(ts) => ts
    case None => []
  }

  /** The combined tools list after connecting to the servers in order. */
  function CollectTools(names: seq<string>, listTools: string -> Option<seq<ToolInfo>>): seq<ToolInfo> {
    if names == [] then []
    else CollectTools(names[..|names| - 1], listTools) + Listed(listTools, names[|names| - 1])
  }

  /** No tools are collected exactly when every server listed none or
      failed, so the manager counts as connected as soon as one server
      provides a tool. */
  lemma {:induction false} CollectToolsEmptyIff(names: seq<string>, listTools: string -> Option<seq<ToolInfo>>)
    ensures CollectTools(names, listTools) == [] <==>
            forall i :: 0 <= i < |names| ==> Listed(listTools, names[i]) == []
  {
    if names != [] {
      var init := names[..|names| - 1];
      CollectToolsEmptyIff(init, listTools);
      assert forall i :: 0 <= i < |init| ==> init[i] == names[i];
    }
  }

  /** `toolToClientMap[tool.name] = server` for each tool in turn. */
  function AssignAll(m: map<string, string>, ts: seq<ToolInfo>, server: string): map<string, string> {
    if ts == [] then m
    else AssignAll(m, ts[..|ts| - 1], server)[ts[|ts| - 1].name := server]
  }

  /** The tool map after connecting to the servers in order. */
  function MapTools(m: map<string, string>, names: seq<string>, listTools: string -> Option<seq<ToolInfo>>): map<string, string> {
    if names == [] then m
    else AssignAll(MapTools(m, names[..|names| - 1], listTools), Listed(listTools, names[|names| - 1]), names[|names| - 1])
  }

  /** Connecting to one more server extends the tools list and the map by
      that server's tools. */
  lemma ConnectStep(names: seq<string>, i: nat, listTools: string -> Option<seq<ToolInfo>>, m: map<string, string>)
    requires i < |names|
    ensures CollectTools(names[..i + 1], listTools) == CollectTools(names[..i], listTools) + Listed(listTools, names[i])
    ensures MapTools(m, names[..i + 1], listTools) ==
            AssignAll(MapTools(m, names[..i], listTools), Listed(listTools, names[i]), names[i])
  {
    assert names[..i + 1][..i] == names[..i];
  }

  predicate ListsTool(ts: seq<ToolInfo>, x: string) {
    exists j :: 0 <= j < |ts| && ts[j].name == x
  }

  /** Assigning a server's tools maps exactly those names to the server and
      keeps the other entries. */
  lemma {:induction false} AssignAllMaps(m: map<string, string>, ts: seq<ToolInfo>, server: string, x: string)
    ensures ListsTool(ts, x) ==> x in AssignAll(m, ts, server) && AssignAll(m, ts, server)[x] == server
    ensures !ListsTool(ts, x) ==> (x in AssignAll(m, ts, server) <==> x in m) &&
                                  (x in m ==> AssignAll(m, ts, server)[x] == m[x])
  {
    if ts != [] {
      var init := ts[..|ts| - 1];
      AssignAllMaps(m, init, server, x);
      if ListsTool(ts, x) && ts[|ts| - 1].name != x {
        var j :| 0 <= j < |ts| && ts[j].name == x;
        assert init[j] == ts[j];
      }
      if ListsTool(init, x) {
        var j :| 0 <= j < |init| && init[j].name == x;
        assert ts[j] == init[j];
      }
    }
  }

  /** The last server that lists a tool name owns it; a name no server
      lists keeps whatever entry it had. */
  lemma {:induction false} LastServerWins(m: map<string, string>, names: seq<string>,
                                          listTools: string -> Option<seq<ToolInfo>>, x: string, i: nat)
    requires i < |names| && ListsTool(Listed(listTools, names[i]), x)
    requires forall j :: i < j < |names| ==> !ListsTool(Listed(listTools, names[j]), x)
    ensures x in MapTools(m, names, listTools) && MapTools(m, names, listTools)[x] == names[i]
  {
    var last := |names| - 1;
    var init := names[..last];
    AssignAllMaps(MapTools(m, init, listTools), Listed(listTools, names[last]), names[last], x);
    if i < last {
      assert forall j :: i < j < |init| ==> init[j] == names[j];
      assert init[i] == names[i];
      LastServerWins(m, init, listTools, x, i);
    }
  }

  lemma {:induction false} UnlistedKept(m: map<string, string>, names: seq<string>,
                                        listTools: string -> Option<seq<ToolInfo>>, x: string)
    requires forall j :: 0 <= j < |names| ==> !ListsTool(Listed(listTools, names[j]), x)
    ensures (x in MapTools(m, names, listTools) <==> x in m)
    ensures x in m ==> MapTools(m, names, listTools)[x] == m[x]
  {
    if names != [] {
      var last := |names| - 1;
      var init := names[..last];
      assert forall j :: 0 <= j < |init| ==> init[j] == names[j];
      UnlistedKept(m, init, listTools, x);
      AssignAllMaps(MapTools(m, init, listTools), Listed(listTools, names[last]), names[last], x);
    }
  }

  // ---------------------------------------------------------------------------
  // The manager

  class McpClientManager {
    const config: Option<McpConfig>
    /** Names of the servers a client was created for (`mcpClients`). */
    var mcpClients: set<string>
    var tools: seq<ToolInfo>
    var toolToClientMap: map<string, string>
    var connected: bool

    constructor (config: Option<McpConfig>)
      requires WellFormed(config)
      ensures this.config == config
      ensures mcpClients == {} && tools == [] && toolToClientMap == map[] && !connected
    {
      this.config := config;
      mcpClients := {};
      tools := [];
      toolToClientMap := map[];
      connected := false;
    }

    /** `_connectClient`: ask the server for its tools; map each tool name to
        the server and append the tools to the combined list. A failure
        leaves both untouched. */
    method ConnectClient(name: string, listTools: string -> Option<seq<ToolInfo>>) returns (ok: bool)
      modifies this
      ensures ok == listTools(name).Some?
      ensures tools == old(tools) + Listed(listTools, name)
      ensures toolToClientMap == AssignAll(old(toolToClientMap), Listed(listTools, name), name)
      ensures mcpClients == old(mcpClients) && connected == old(connected)
    {
      var toolsResult := listTools(name);
      if toolsResult.None? {
        return false;
      }
      var listed := toolsResult.value;
      var clientTools: seq<ToolInfo> := [];
      for j := 0 to |listed|
        invariant clientTools == listed[..j]
        invariant toolToClientMap == AssignAll(old(toolToClientMap), listed[..j], name)
        invariant tools == old(tools) && mcpClients == old(mcpClients) && connected == old(connected)
      {
        assert listed[..j + 1][..j] == listed[..j];
        toolToClientMap := toolToClientMap[listed[j].name := name];
        clientTools := clientTools + [ToolInfo(listed[j].name, listed[j].description, listed[j].inputSchema)];
      }
      assert listed[..|listed|] == listed;
      tools := tools + clientTools;
      return true;
    }

    /** `_connect`: create a client per configured server, reset the tools
        list, connect to each server in order, and count as connected
        exactly when some tool was found. The tool map is not reset. */
    method Connect(listTools: string -> Option<seq<ToolInfo>>) returns (result: bool)
      modifies this
      ensures mcpClients == old(mcpClients) + NameSet(ServerNames(config))
      ensures tools == CollectTools(ServerNames(config), listTools)
      ensures toolToClientMap == MapTools(old(toolToClientMap), ServerNames(config), listTools)
      ensures connected == (|tools| > 0) && result == connected
    {
      var names := ServerNames(config);
      CreateClients(names);
      tools := [];
      for i := 0 to |names|
        invariant tools == CollectTools(names[..i], listTools)
        invariant toolToClientMap == MapTools(old(toolToClientMap), names[..i], listTools)
        invariant mcpClients == old(mcpClients) + NameSet(names)
      {
        ConnectStep(names, i, listTools, old(toolToClientMap));
        var _ := ConnectClient(names[i], listTools);
      }
      assert names[..|names|] == names;
      connected := |tools| > 0;
      return connected;
    }

    /** The first loop of `_connect`: one client per configured server. */
    method CreateClients(names: seq<string>)
      modifies this
      ensures mcpClients == old(mcpClients) + NameSet(names)
      ensures tools == old(tools) && toolToClientMap == old(toolToClientMap) && connected == old(connected)
    {
      for i := 0 to |names|
        invariant mcpClients == old(mcpClients) + NameSet(names[..i])
        invariant tools == old(tools) && toolToClientMap == old(toolToClientMap) && connected == old(connected)
      {
        assert names[..i + 1][..i] == names[..i];
        mcpClients := mcpClients + {names[i]};
      }
      assert names[..|names|] == names;
    }

    /** `init`: already connected means success at once; an invalid
        configuration means failure without any connection attempt;
        otherwise connect. */
    method Init(listTools: string -> Option<seq<ToolInfo>>) returns (result: bool)
      modifies this
      ensures old(connected) ==> result && mcpClients == old(mcpClients) && tools == old(tools) &&
                                 toolToClientMap == old(toolToClientMap) && connected
      ensures !old(connected) && !ConfigValid(config) ==>
                !result && mcpClients == old(mcpClients) && tools == old(tools) &&
                toolToClientMap == old(toolToClientMap) && !connected
      ensures !old(connected) && ConfigValid(config) ==>
                mcpClients == old(mcpClients) + NameSet(ServerNames(config)) &&
                tools == CollectTools(ServerNames(config), listTools) &&
                toolToClientMap == MapTools(old(toolToClientMap), ServerNames(config), listTools) &&
                connected == (|tools| > 0) && result == connected
    {
      if connected {
        return true;
      }
      var valid, _ := ValidateConfig(config);
      if !valid {
        return false;
      }
      result := Connect(listTools);
    }

    /** `callTool`: fails unless connected and unless the tool's name maps
        to a server with a client; otherwise forwards the name and the
        arguments to exactly that server and passes its answer on. */
    method CallTool(name: string, args: string, invoke: (string, string, string) -> Result<string>)
      returns (r: Result<string>)
      ensures !connected ==> r == Failure("MCP clients not connected")
      ensures connected && !(name in toolToClientMap && toolToClientMap[name] != "" &&
                             toolToClientMap[name] in mcpClients) ==>
                r == Failure("No MCP client found for tool " + name)
      ensures connected && name in toolToClientMap && toolToClientMap[name] != "" &&
              toolToClientMap[name] in mcpClients ==>
                r == invoke(toolToClientMap[name], name, args)
    {
      if !connected {
        return Failure("MCP clients not connected");
      }
      if name !in toolToClientMap || toolToClientMap[name] == "" || toolToClientMap[name] !in mcpClients {
        return Failure("No MCP client found for tool " + name);
      }
      var clientName := toolToClientMap[name];
      r := invoke(clientName, name, args);
    }

    /** `close`: every client's close error is swallowed, so the manager
        ends disconnected; its tools, tool map and clients stay. */
    method Close()
      modifies this
      ensures !connected
      ensures mcpClients == old(mcpClients) && tools == old(tools) && toolToClientMap == old(toolToClientMap)
    {
      connected := false;
    }
  }

  /** After connecting, every collected tool's name is in the tool map. */
  lemma {:induction false} CollectedToolsMapped(m: map<string, string>, names: seq<string>,
                                                listTools: string -> Option<seq<ToolInfo>>, k: nat)
    requires k < |CollectTools(names, listTools)|
    ensures CollectTools(names, listTools)[k].name in MapTools(m, names, listTools)
  {
    var last := |names| - 1;
    var init := names[..last];
    var before := CollectTools(init, listTools);
    var listed := Listed(listTools, names[last]);
    var x := CollectTools(names, listTools)[k].name;
    AssignAllMaps(MapTools(m, init, listTools), listed, names[last], x);
    if k < |before| {
      assert CollectTools(names, listTools)[k] == before[k];
      CollectedToolsMapped(m, init, listTools, k);
    } else {
      assert listed[k - |before|].name == x;
    }
  }
}
