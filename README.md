# mcp-cli-catalog in Dafny

mcp-cli-catalog is a Model Context Protocol server. It reads a JSON
catalog of command-line tools and advertises each tool as an MCP tool
that takes no arguments. A call to a tool never runs anything: the server
answers with text telling the client to run the executable in a terminal
shell, followed by the tool's usage text when the catalog declares one.

This project models the logic of `src/index.js` once it is separated from
the filesystem and the MCP SDK:

- **Which configuration file is read** (`config_path.dfy`). A non-empty
  value right after the first `--config` argument wins, then a non-empty
  `MCP_CLI_CATALOG_FILE` environment variable, then
  `.mcp-cli-catalog.json` in the home directory. A first `--config` that
  is the last argument or is followed by "" falls through, even when a
  later `--config` has a value. A non-empty explicit `configPath`
  overrides all three. Paths stay symbolic (`Resolved(s)` for
  `path.resolve(s)`, `Joined(dir, file)` for `path.join`), and the home
  directory is an input.
- **Building the catalog** (`catalog_builder.dfy`). Entries of the
  `tools` array are walked in order. An entry is kept when its `name` is
  truthy and its `description` is a string that is not empty once trimmed.
  Kept entries become tools whose description carries the fixed hint
  suffix. Their trimmed, non-empty `usage` and `command` strings go into
  two tables keyed by the raw name, where a later write replaces an
  earlier one. Every other entry is skipped with one warning.
  `BuildCatalog` is the loop, updating its four variables in place. It is
  proved equal to the functional specification `Build`, which runs `Step`
  one entry at a time. The lemmas describe `Build` in terms of the entries
  alone.
- **Startup and the two request handlers** (`catalog_server.dfy`). The
  startup checks run in a fixed order: the file exists, it parses, it
  declares a non-empty `tools` array, and at least one entry is valid.
  The module also gives the tools/list reply and the text of the
  tools/call reply.
- **Supporting modules.**
  - `json.dfy`: JSON values, JavaScript truthiness and `v?.key`.
  - `text.dfy`: `String.prototype.trim` with the white space set of
    section 12.2 and 12.3 of ECMA-262, and `Array.prototype.join`.
  - `tables.dfy`: a JavaScript `Map` filled by a sequence of optional
    `set` calls.
  - `wrappers.dfy`: `Option` and `Result`.

The filesystem is an input `files: map<Path, Parsed>`. A path is a key
exactly when it exists. The value is the outcome of reading the file,
stripping its comments and parsing it: a document or an error message.

The hint suffix at src/index.js:72 is modelled exactly as the file spells
it. Its dash is the three characters U+00E2 U+20AC U+201D, which is the
UTF-8 encoding of an em dash decoded as Windows-1252. Advertised
descriptions carry these three characters, not an em dash.

## Model

| member | source | states |
|---|---|---|
| ConfigPath.IndexOf | src/index.js:17 | `args.indexOf("--config")`: -1 exactly when absent, otherwise the position of the first occurrence |
| ConfigPath.HasValueAfter | src/index.js:18 | definition: `args[idx + 1]` is truthy, that is, it exists and is not "" |
| ConfigPath.HasEnvOverride | src/index.js:22 | definition: `env.MCP_CLI_CATALOG_FILE` is truthy, that is, it is set and not "" |
| ConfigPath.ResolveConfigPath | src/index.js:16-27 | a resolved path always carries a non-empty string taken from the arguments or from the environment variable; otherwise the path is the default file joined to the home directory |
| ConfigPath.EffectiveConfigPath | src/index.js:34-36 | definition: a non-empty explicit `configPath` is resolved, otherwise resolveConfigPath decides; what this means for startup is CatalogServer.ExplicitPathDecides |
| ConfigPath.ConfigFlagWins | src/index.js:17-19 | the first `--config` followed by a non-empty value decides, whatever the environment holds |
| ConfigPath.FirstConfigFlagOnly | src/index.js:17-26 | when the first `--config` is last or followed by "", the choice is the one made with no arguments at all, even if a later `--config` has a value |
| ConfigPath.EnvironmentThenDefault | src/index.js:22-26 | without a `--config` argument, a non-empty `MCP_CLI_CATALOG_FILE` is resolved, and otherwise the default file in the home directory is used |
| ConfigPath.Precedence | src/index.js:16-27 | `--config x` beats `MCP_CLI_CATALOG_FILE=y`; y alone gives y; neither gives the home-directory default |
| Text.IsWhiteSpace | src/index.js:62-64 | definition: the characters `trim` removes, the WhiteSpace and LineTerminator sets of ECMA-262 |
| Text.TrimStart | src/index.js:62-64 | definition: drops leading white space one character at a time; its meaning is Text.TrimStartSpec |
| Text.TrimEnd | src/index.js:62-64 | definition: drops trailing white space one character at a time; its meaning is Text.TrimEndSpec |
| Text.Trim | src/index.js:62-64 | definition: `trim` is trimEnd after trimStart; its meaning is Text.TrimSpec and Text.TrimIsInfix |
| Text.TrimStartSpec | src/index.js:62-64 | trimStart returns a suffix of its input; the dropped prefix is all white space and the result does not start with white space |
| Text.TrimEndSpec | src/index.js:62-64 | trimEnd returns a prefix of its input; the dropped suffix is all white space and the result does not end with white space |
| Text.TrimSpec | src/index.js:62-64 | trim returns a string with no white space at either end, and returns "" exactly when the input is all white space |
| Text.TrimIsInfix | src/index.js:62-64 | trim returns a contiguous infix of its input, with only white space on either side |
| Text.TrimIdempotent | src/index.js:62-64 | trimming twice is trimming once |
| Text.Join | src/index.js:114 | definition: `Array.prototype.join`, the parts with the separator between neighbours; what it yields for the reply is CatalogServer.CallToolText |
| Json.Member | src/index.js:61-64 | definition: `v?.key`, defined only for an object that has the key as its own property |
| Json.IsTruthy | src/index.js:65 | definition: JavaScript ToBoolean on a JSON value (null, false, 0 and "" are falsy) |
| Json.IsTruthyMember | src/index.js:61-65 | definition: `!name` is false, where an absent property is falsy |
| Json.StringMember | src/index.js:62-64 | definition: the trimmed property when it is a string, otherwise ""; its meaning is Json.StringMemberSpec |
| Json.StringMemberSpec | src/index.js:62-64 | the `typeof … === "string" ? ….trim() : ""` read is trimmed, and non-empty exactly when the field is a string with some character other than white space |
| Tables.Put | src/index.js:75-81 | definition: one optional `Map.set`, replacing any earlier value of the key |
| Tables.PutAll | src/index.js:58-81 | definition: an empty `Map` followed by the optional `set` calls in order; its meaning is the three lemmas below |
| Tables.PutAllKeys | src/index.js:75-81 | after a run of optional `Map.set` calls, a key is present exactly when some call set it |
| Tables.PutAllLastWins | src/index.js:75-81 | the stored value is the one of the last call that set the key |
| Tables.PutAllValues | src/index.js:75-81 | every stored value was written under its key by one of the calls |
| CatalogBuilder.DeclaredTools | src/index.js:51 | definition: the `tools` array of the document, otherwise none; what this means for startup is CatalogServer.MissingToolsList |
| CatalogBuilder.IsValidEntry | src/index.js:61-65 | definition: the entry is kept when `name` is truthy and the typed, trimmed `description` is not "" |
| CatalogBuilder.ToolOf | src/index.js:72-87 | definition: the raw name, the trimmed description followed by the hint, and the no-argument schema; its meaning is CatalogBuilder.ToolOfAdvertised |
| CatalogBuilder.Write | src/index.js:75-81 | definition: the `set` a valid entry makes into one table, present only for a non-empty trimmed string value |
| CatalogBuilder.Step | src/index.js:60-88 | definition: one loop iteration, which appends a valid entry's tool and sets its tables or records an invalid entry's warning |
| CatalogBuilder.Build | src/index.js:57-88 | definition: Step over every entry in order, starting from empty lists and Maps; the loop CatalogBuilder.BuildCatalog is proved equal to it |
| CatalogBuilder.Selected | src/index.js:60-88 | definition: independent reference for the tool list, the valid entries in input order as tools |
| CatalogBuilder.Rejected | src/index.js:60-70 | definition: independent reference for the warnings, the invalid entries in input order |
| CatalogBuilder.BuildCatalog | src/index.js:56-88 | the in-place loop produces exactly `Build(entries)`: the tools equal `Selected` (valid entries in order) and the warnings equal `Rejected` (invalid entries in order) |
| CatalogBuilder.BuildFiltersEntries | src/index.js:60-88 | the advertised tools are exactly the valid entries in input order, and the warnings are exactly the invalid entries in input order |
| CatalogBuilder.SelectedCount | src/index.js:60-88 | every entry is either advertised or warned about, never both, so there are no more tools than entries and one warning per skipped entry |
| CatalogBuilder.SelectedMembers | src/index.js:60-88 | a tool is advertised exactly when some valid entry produces it |
| CatalogBuilder.SelectedEmpty | src/index.js:60-92 | nothing is advertised exactly when no entry is valid |
| CatalogBuilder.BuildTables | src/index.js:58-81 | each table is the Map filled by the entries' `set` calls in input order |
| CatalogBuilder.TableKeys | src/index.js:75-81 | a name is in a table exactly when some valid entry of that name declares a non-empty trimmed string for that field |
| CatalogBuilder.TableLastWins | src/index.js:75-81 | with duplicate names, the last valid entry declaring a non-empty value wins, and later entries declaring none leave it in place |
| CatalogBuilder.ToolOfAdvertised | src/index.js:72-87 | a valid entry's tool has a truthy name, a description made of a non-empty trimmed text followed by the hint, and the no-argument schema |
| CatalogBuilder.BuildWellFormed | src/index.js:60-88 | every advertised tool has that shape, every table key names an advertised tool, and no stored value is empty or untrimmed |
| CatalogServer.Startup | src/index.js:34-92 | definition: path choice, existence check, parse outcome, `tools` check, build and valid-tools check, in source order; its meaning is CatalogServer.StartupErrorOrder and CatalogServer.StartupSuccess |
| CatalogServer.StartCatalogServer | src/index.js:34-92 | the imperative startup (path choice, existence check, parse, `tools` check, build loop, valid-tools check) equals `Startup` |
| CatalogServer.StartupErrorOrder | src/index.js:34-92 | each of the four failures happens exactly when its check is the first one to fail, in the order missing file, parse failure, empty `tools`, no valid entry; each names the path read |
| CatalogServer.StartupSuccess | src/index.js:51-101 | a successful start serves, as cli-catalog 0.2.0, exactly the valid entries in order (never none) over a well-formed catalog, with one warning per skipped entry |
| CatalogServer.MissingToolsList | src/index.js:51-54 | a file that parses fails with the no-tools error exactly when its document is not an object with a non-empty `tools` array |
| CatalogServer.ExplicitPathDecides | src/index.js:34-36 | with a non-empty explicit `configPath`, startup has the same outcome whatever the arguments, environment and home directory are, and a successful start has read that path |
| CatalogServer.ListTools | src/index.js:100-102 | definition: the tools/list reply is the whole validated list; what it holds is CatalogServer.StartupSuccess |
| CatalogServer.RunCommand | src/index.js:108 | definition: the stored command when it is truthy, else the tool name; its meaning is CatalogServer.CallFallsBackToName and CatalogServer.CallNamesDeclaredCommand |
| CatalogServer.RunLine | src/index.js:109 | definition: the "Please run the executable" line naming the command |
| CatalogServer.CallTool | src/index.js:105-116 | the reply is one text block, and it starts with the run line for the looked-up command |
| CatalogServer.CallToolText | src/index.js:106-114 | when stored values are non-empty, the text is the run line for the command (or the name itself), followed by "\n" and the usage exactly when a usage is stored |
| CatalogServer.CallFallsBackToName | src/index.js:108 | with no valid entry declaring a command for the name, including an unknown name, the reply names the tool itself |
| CatalogServer.CallNamesDeclaredCommand | src/index.js:107-109 | the reply names the command of the last valid entry of that name that declares one |
| CatalogServer.CallUsageLine | src/index.js:107-112 | the usage line is present exactly when some valid entry of that name declares a usage |
| CatalogServer.ScenarioSingleTool | src/index.js:34-101 | `{"tools":[{"name":"ls","description":"list files"}]}` starts and lists one tool, `ls`, described as "list files" plus the hint |
| CatalogServer.ScenarioMissingDescription | src/index.js:60-92 | `{"tools":[{"name":"x"}]}` skips its only entry and fails with the no-valid-tools error |
| CatalogServer.ScenarioMissingFile | src/index.js:38-40 | a path that does not exist fails with the not-found error naming that path |
| CatalogServer.CallReplyWithCommand | src/index.js:105-116 | in a catalog built from that single entry, a tool declared with a command and a usage is answered with the run line for the command, then "\n", then the usage (with several entries, CatalogServer.CallNamesDeclaredCommand decides) |
| CatalogServer.CallReplyWithoutCommand | src/index.js:105-116 | in a catalog built from that single entry, a tool declared without a command is answered with the run line for its own name, followed by the usage only when one is declared |

## Left out

- `fs.existsSync` and `fs.readFileSync` (src/index.js:38, 44): filesystem I/O. They are an input map from existing paths to parse outcomes.
- `stripJsonComments` and `JSON.parse` (src/index.js:45-46): parsers whose source is not part of this model. Only their outcome is modelled, as a document or an error message.
- `path.resolve`, `path.join` and `os.homedir` (src/index.js:19, 23, 26, 35): platform path semantics. Paths are symbolic and the home directory is a parameter. Two symbolic paths that name the same file are therefore different keys of the filesystem map.
- The MCP `Server` object, handler registration, async dispatch and `StdioServerTransport` (src/index.js:94-102, 122-124): foreign SDK code. Only the server's name and version, the tools/list contents and the tools/call text are modelled. The request name is taken to be a string, as the SDK's request schema demands.
- Warnings on a failed start: when no entry is valid, the source prints one warning per entry (src/index.js:66-68) before it throws at src/index.js:91; `Startup` returns `NoValidTools` with the path only and does not carry those warnings. On a successful start they are `catalog.skipped`.
- `console.warn` and `console.error` texts (src/index.js:66-68, 118-120) and the error message texts (src/index.js:39, 48, 53, 91): the warnings are the list of skipped entries, and the errors are `StartupError` values that carry the path and, for a parse failure, the parser's message.
- Argument types: `configPath`, the arguments and the environment values are taken to be strings. `startCatalogServer` is exported and accepts any value, and a truthy `configPath` that is not a string makes `path.resolve` throw a TypeError (src/index.js:35). That error path is not modelled.
- `runCli`, `process.exitCode` and the entry-module detection (src/index.js:127-143): process plumbing.
- scripts/build.js: file copying and permission changes, with no logic to verify.
- Map keys: a JavaScript `Map` compares object and array keys by identity, while the model compares `Value` keys structurally. The only reader looks a tool up by a string name, and strings compare by value in both, so the difference is never observable.
- Strings are sequences of Unicode scalar values, not UTF-16 code units. Numbers are reals, which is enough for truthiness (JSON has no NaN).
