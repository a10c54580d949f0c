/**
 * startCatalogServer (src/index.js:29-125) with the filesystem and the
 * protocol SDK taken out: which file is read, the order in which startup
 * fails, what tools/list returns and the text tools/call answers with.
 *
 * The filesystem is an input: a map from the paths that exist to the
 * outcome of reading, comment-stripping and JSON-parsing that file.
 */
module CatalogServer {
  import opened Wrappers
  import opened Json
  import opened Text
  import opened ConfigPath
  import opened CatalogBuilder

  const ServerName: string := "cli-catalog"
  const ServerVersion: string := "0.2.0"

  /** The outcome of readFileSync, stripJsonComments and JSON.parse on an existing file. */
  datatype Parsed = Parsed(doc: Value) | Unparsable(message: string)

  /** The four ways startup fails, each thrown with the path it concerns. */
  datatype StartupError =
    | ConfigNotFound(path: Path)
    | ConfigParseError(path: Path, message: string)
    | NoToolsDeclared(path: Path)
    | NoValidTools(path: Path)

  /** The server as it starts serving: its identity, the file it read and its catalog. */
  datatype Server = Server(name: string, version: string, configPath: Path, catalog: Catalog)

  /** One text block of a tools/call reply. */
  datatype TextContent = TextContent(kind: string, text: string)

  /** Everything startCatalogServer does before it registers handlers, as a function of its inputs. */
  function Startup(configPath: Option<string>, args: seq<string>, env: map<string, string>, home: string,
                   files: map<Path, Parsed>): Result<Server, StartupError>
  {
    var path := EffectiveConfigPath(configPath, args, env, home);
    if path !in files then Failure(ConfigNotFound(path))
    else match files[path]
      case Unparsable(message) => Failure(ConfigParseError(path, message))
      case Parsed(doc) =>
        var entries := DeclaredTools(doc);
        if entries == [] then Failure(NoToolsDeclared(path))
        else
          var catalog := Build(entries);
          if catalog.tools == [] then Failure(NoValidTools(path))
          else Success(Server(ServerName, ServerVersion, path, catalog))
  }

  /** startCatalogServer: each check in source order, the build loop in between. */
  method StartCatalogServer(configPath: Option<string>, args: seq<string>, env: map<string, string>, home: string,
                            files: map<Path, Parsed>) returns (r: Result<Server, StartupError>)
    ensures r == Startup(configPath, args, env, home, files)
  {
    var resolvedConfigPath;
    if configPath.Some? && configPath.value != "" {
      resolvedConfigPath := Resolved(configPath.value);
    } else {
      resolvedConfigPath := ResolveConfigPath(args, env, home);
    }
    if resolvedConfigPath !in files {
      return Failure(ConfigNotFound(resolvedConfigPath));
    }
    var doc;
    match files[resolvedConfigPath] {
      case Unparsable(message) =>
        return Failure(ConfigParseError(resolvedConfigPath, message));
      case Parsed(d) =>
        doc := d;
    }
    var tools := DeclaredTools(doc);
    if |tools| == 0 {
      return Failure(NoToolsDeclared(resolvedConfigPath));
    }
    var catalog := BuildCatalog(tools);
    if |catalog.tools| == 0 {
      return Failure(NoValidTools(resolvedConfigPath));
    }
    r := Success(Server(ServerName, ServerVersion, resolvedConfigPath, catalog));
  }

  /** The tools/list handler: the whole validated list, unpaginated. */
  function ListTools(server: Server): seq<Tool>
  {
    server.catalog.tools
  }

  /** `toolCommands.get(toolName) || toolName`. */
  function RunCommand(c: Catalog, toolName: string): string
  {
    var key := JString(toolName);
    if key in c.commands && c.commands[key] != "" then c.commands[key] else toolName
  }

  function RunLine(command: string): string
  {
    "Please run the executable `" + command + "` in the terminal shell."
  }

  /**
   * The tools/call handler: one text block, the run line naming the command,
   * then the stored usage on a line of its own when there is one. It never
   * fails, whatever the name.
   */
  function CallTool(c: Catalog, toolName: string): (reply: seq<TextContent>)
    ensures |reply| == 1 && reply[0].kind == "text"
    ensures RunLine(RunCommand(c, toolName)) <= reply[0].text
  {
    var key := JString(toolName);
    var runLine := RunLine(RunCommand(c, toolName));
    var instructions := if key in c.usage && c.usage[key] != "" then [runLine, c.usage[key]] else [runLine];
    [TextContent("text", Join(instructions, "\n"))]
  }

  /**
   * The checks run in a fixed order and the first that fails decides: a
   * missing file, then a parse failure, then an empty or absent `tools`
   * list, then a list with no valid entry. Each error names the path read.
   */
  lemma StartupErrorOrder(configPath: Option<string>, args: seq<string>, env: map<string, string>, home: string,
                          files: map<Path, Parsed>)
    ensures var p := EffectiveConfigPath(configPath, args, env, home);
      var r := Startup(configPath, args, env, home, files);
      && (r == Failure(ConfigNotFound(p)) <==> p !in files)
      && ((r.Failure? && r.error.ConfigParseError?) <==> p in files && files[p].Unparsable?)
      && (r.Failure? && r.error.ConfigParseError? ==> r.error == ConfigParseError(p, files[p].message))
      && ((r.Failure? && r.error.NoToolsDeclared?) <==>
            p in files && files[p].Parsed? && DeclaredTools(files[p].doc) == [])
      && ((r.Failure? && r.error.NoValidTools?) <==>
            p in files && files[p].Parsed? && DeclaredTools(files[p].doc) != []
            && forall i :: 0 <= i < |DeclaredTools(files[p].doc)| ==> !IsValidEntry(DeclaredTools(files[p].doc)[i]))
      && (r.Failure? ==> r.error.path == p)
  {
    var p := EffectiveConfigPath(configPath, args, env, home);
    if p in files && files[p].Parsed? {
      var entries := DeclaredTools(files[p].doc);
      BuildFiltersEntries(entries);
      SelectedEmpty(entries);
    }
  }

  /**
   * A successful start serves, under the fixed name and version, exactly the
   * valid declared entries in declaration order (never none), over a
   * well-formed catalog; one warning was issued per skipped entry.
   */
  lemma StartupSuccess(configPath: Option<string>, args: seq<string>, env: map<string, string>, home: string,
                       files: map<Path, Parsed>)
    requires Startup(configPath, args, env, home, files).Success?
    ensures var p := EffectiveConfigPath(configPath, args, env, home);
      var server := Startup(configPath, args, env, home, files).value;
      && p in files && files[p].Parsed?
      && server.name == ServerName && server.version == ServerVersion && server.configPath == p
      && ListTools(server) == Selected(DeclaredTools(files[p].doc)) != []
      && |ListTools(server)| + |server.catalog.skipped| == |DeclaredTools(files[p].doc)|
      && WellFormed(server.catalog)
  {
    var p := EffectiveConfigPath(configPath, args, env, home);
    var entries := DeclaredTools(files[p].doc);
    BuildFiltersEntries(entries);
    SelectedCount(entries);
    BuildWellFormed(entries);
  }

  /**
   * When no stored value is empty, as in every built catalog, the reply is the run line naming the declared
   * command or else the tool name itself, followed by "\n" and the usage
   * exactly when a usage is stored for that name.
   */
  lemma CallToolText(c: Catalog, toolName: string)
    requires JString(toolName) in c.usage ==> c.usage[JString(toolName)] != ""
    requires JString(toolName) in c.commands ==> c.commands[JString(toolName)] != ""
    ensures var key := JString(toolName);
      var command := if key in c.commands then c.commands[key] else toolName;
      && (key in c.usage ==> CallTool(c, toolName)[0].text == RunLine(command) + "\n" + c.usage[key])
      && (key !in c.usage ==> CallTool(c, toolName)[0].text == RunLine(command))
      && (CallTool(c, toolName)[0].text == RunLine(command) <==> key !in c.usage)
  {
    var key := JString(toolName);
    var line := RunLine(RunCommand(c, toolName));
    if key in c.usage {
      assert Join([line, c.usage[key]], "\n") == line + "\n" + Join([c.usage[key]], "\n");
      assert |line + "\n" + c.usage[key]| > |line|;
    }
  }

  /** Without a declared command, the reply names the tool itself. */
  lemma CallFallsBackToName(entries: seq<Value>, toolName: string)
    requires forall i :: 0 <= i < |entries| ==> !Declares(entries[i], Command, JString(toolName))
    ensures RunCommand(Build(entries), toolName) == toolName
    ensures RunLine(toolName) <= CallTool(Build(entries), toolName)[0].text
  {
    TableKeys(entries, Command, JString(toolName));
    assert JString(toolName) !in Build(entries).commands;
  }

  /** The reply names the command of the last valid entry of that name that declares one. */
  lemma CallNamesDeclaredCommand(entries: seq<Value>, toolName: string, i: nat)
    requires i < |entries| && Declares(entries[i], Command, JString(toolName))
    requires forall j :: i < j < |entries| ==> !Declares(entries[j], Command, JString(toolName))
    ensures RunCommand(Build(entries), toolName) == StringMember(entries[i], "command")
    ensures RunLine(StringMember(entries[i], "command")) <= CallTool(Build(entries), toolName)[0].text
  {
    TableLastWins(entries, Command, JString(toolName), i);
  }

  /** The usage line follows exactly when some valid entry of that name declares a usage. */
  lemma CallUsageLine(entries: seq<Value>, toolName: string)
    ensures var text := CallTool(Build(entries), toolName)[0].text;
      text == RunLine(RunCommand(Build(entries), toolName))
      <==> forall i :: 0 <= i < |entries| ==> !Declares(entries[i], Usage, JString(toolName))
  {
    TableKeys(entries, Usage, JString(toolName));
    BuildWellFormed(entries);
    CallToolText(Build(entries), toolName);
  }

  /** `{"tools":[{"name":"ls","description":"list files"}]}` serves one tool, `ls`, whose description ends with the hint. */
  lemma ScenarioSingleTool(args: seq<string>, env: map<string, string>, home: string)
    ensures var doc := JObject(map["tools" := JArray([JObject(map["name" := JString("ls"), "description" := JString("list files")])])]);
      var r := Startup(Some("catalog.json"), args, env, home, map[Resolved("catalog.json") := Parsed(doc)]);
      r.Success? && ListTools(r.value) == [Tool(JString("ls"), "list files" + Hint, NoArgumentsSchema)]
  {
    var entry := JObject(map["name" := JString("ls"), "description" := JString("list files")]);
    assert Trim("list files") == "list files";
    assert IsValidEntry(entry);
    assert Build([entry]) == Step(Build([]), entry);
  }

  /** The document is an object whose `tools` property is an array. */
  predicate IsObjectWithTools(doc: Value)
  {
    doc.JObject? && "tools" in doc.fields && doc.fields["tools"].JArray?
  }

  /**
   * A file that parses fails with NoToolsDeclared exactly when its document
   * is not an object with a non-empty `tools` array: `{"tools":[]}`, a
   * missing `tools`, a `tools` that is not an array, or a document that is
   * not an object at all.
   */
  lemma MissingToolsList(configPath: Option<string>, args: seq<string>, env: map<string, string>,
                          home: string, files: map<Path, Parsed>)
    requires var p := EffectiveConfigPath(configPath, args, env, home); p in files && files[p].Parsed?
    ensures var p := EffectiveConfigPath(configPath, args, env, home);
      var doc := files[p].doc;
      Startup(configPath, args, env, home, files) == Failure(NoToolsDeclared(p))
      <==> !(IsObjectWithTools(doc) && doc.fields["tools"].items != [])
  {
    var p := EffectiveConfigPath(configPath, args, env, home);
    var doc := files[p].doc;
    if IsObjectWithTools(doc) && doc.fields["tools"].items != [] {
      assert DeclaredTools(doc) == doc.fields["tools"].items;
    } else {
      assert DeclaredTools(doc) == [];
    }
  }

  /**
   * A non-empty explicit `configPath` decides the whole startup: arguments,
   * environment and home directory make no difference, and the file read is
   * `configPath` itself.
   */
  lemma ExplicitPathDecides(x: string, files: map<Path, Parsed>,
                            args: seq<string>, env: map<string, string>, home: string,
                            args': seq<string>, env': map<string, string>, home': string)
    requires x != ""
    ensures Startup(Some(x), args, env, home, files) == Startup(Some(x), args', env', home', files)
    ensures Startup(Some(x), args, env, home, files).Success? ==>
              Startup(Some(x), args, env, home, files).value.configPath == Resolved(x)
  {
  }

  /** `{"tools":[{"name":"x"}]}` drops its only entry and fails with NoValidTools. */
  lemma ScenarioMissingDescription(args: seq<string>, env: map<string, string>, home: string)
    ensures var doc := JObject(map["tools" := JArray([JObject(map["name" := JString("x")])])]);
      Startup(Some("catalog.json"), args, env, home, map[Resolved("catalog.json") := Parsed(doc)])
      == Failure(NoValidTools(Resolved("catalog.json")))
  {
    var entry := JObject(map["name" := JString("x")]);
    assert !IsValidEntry(entry);
    assert Build([entry]) == Step(Build([]), entry);
  }

  /** A path that does not exist fails with ConfigNotFound naming it. */
  lemma ScenarioMissingFile(configPath: Option<string>, args: seq<string>, env: map<string, string>, home: string)
    ensures Startup(configPath, args, env, home, map[])
            == Failure(ConfigNotFound(EffectiveConfigPath(configPath, args, env, home)))
  {
  }

  /**
   * In a catalog built from that single entry, a tool declared with a
   * command (such as `grep`) and a usage text (such as `grep PATTERN FILE`)
   * is answered with the run line for that command followed by the usage
   * line. With several entries of one name, CallNamesDeclaredCommand says
   * which command is named.
   */
  lemma CallReplyWithCommand(entry: Value, name: string)
    requires IsValidEntry(entry) && Member(entry, "name") == Some(JString(name))
    requires StringMember(entry, "usage") != "" && StringMember(entry, "command") != ""
    ensures CallTool(Build([entry]), name)[0].text
            == RunLine(StringMember(entry, "command")) + "\n" + StringMember(entry, "usage")
  {
    TableLastWins([entry], Usage, JString(name), 0);
    TableLastWins([entry], Command, JString(name), 0);
    CallToolText(Build([entry]), name);
  }

  /**
   * In a catalog built from that single entry, a tool declared without a
   * command is answered with the run line for its own name.
   */
  lemma CallReplyWithoutCommand(entry: Value, name: string)
    requires IsValidEntry(entry) && Member(entry, "name") == Some(JString(name))
    requires StringMember(entry, "command") == ""
    ensures StringMember(entry, "usage") != "" ==>
              CallTool(Build([entry]), name)[0].text == RunLine(name) + "\n" + StringMember(entry, "usage")
    ensures StringMember(entry, "usage") == "" ==> CallTool(Build([entry]), name)[0].text == RunLine(name)
  {
    TableKeys([entry], Command, JString(name));
    if StringMember(entry, "usage") != "" {
      TableLastWins([entry], Usage, JString(name), 0);
    } else {
      TableKeys([entry], Usage, JString(name));
    }
    CallToolText(Build([entry]), name);
  }
}
