/**
 * Which configuration file the server reads: resolveConfigPath
 * (src/index.js:16-27) and the explicit `configPath` override of
 * startCatalogServer (src/index.js:34-36).
 *
 * path.resolve, path.join and os.homedir are platform services: a path is
 * kept symbolic, recording which of the two was applied to which string, and
 * the home directory is an input.
 */
module ConfigPath {
  import opened Wrappers

  /** `path.resolve(input)` against the working directory, or `path.join(dir, file)`. */
  datatype Path = Resolved(input: string) | Joined(dir: string, file: string)

  const ConfigFlag: string := "--config"
  const EnvVar: string := "MCP_CLI_CATALOG_FILE"
  const DefaultFile: string := ".mcp-cli-catalog.json"

  /** Array.prototype.indexOf: the first position of x in args, or -1. */
  function IndexOf(args: seq<string>, x: string): (i: int)
    ensures -1 <= i < |args|
    ensures i == -1 <==> x !in args
    ensures i != -1 ==> args[i] == x && x !in args[..i]
  {
    if args == [] then -1
    else if args[0] == x then 0
    else
      var j := IndexOf(args[1..], x);
      assert args[1..][..if j == -1 then 0 else j] == args[1..if j == -1 then 1 else j + 1];
      if j == -1 then -1 else j + 1
  }

  /** `args[idx + 1]` is truthy: it exists and is not the empty string. */
  predicate HasValueAfter(args: seq<string>, idx: int)
  {
    0 <= idx && idx + 1 < |args| && args[idx + 1] != ""
  }

  /** `env.MCP_CLI_CATALOG_FILE` is truthy. */
  predicate HasEnvOverride(env: map<string, string>)
  {
    EnvVar in env && env[EnvVar] != ""
  }

  /**
   * resolveConfigPath: the value after the first `--config`, else the
   * environment override, else the default file in the home directory.
   * A resolved path always carries a non-empty string taken from args or env.
   */
  function ResolveConfigPath(args: seq<string>, env: map<string, string>, home: string): (p: Path)
    ensures p.Resolved? ==> p.input != "" && (p.input in args || (EnvVar in env && p.input == env[EnvVar]))
    ensures p.Joined? ==> p == Joined(home, DefaultFile)
  {
    var idx := IndexOf(args, ConfigFlag);
    if idx != -1 && HasValueAfter(args, idx) then
      Resolved(args[idx + 1])
    else if HasEnvOverride(env) then
      Resolved(env[EnvVar])
    else
      Joined(home, DefaultFile)
  }

  /**
   * The path startCatalogServer reads: a truthy explicit `configPath` is
   * resolved and wins over arguments and environment.
   */
  function EffectiveConfigPath(configPath: Option<string>, args: seq<string>, env: map<string, string>, home: string): Path
  {
    if configPath.Some? && configPath.value != "" then Resolved(configPath.value)
    else ResolveConfigPath(args, env, home)
  }

  /** The first `--config` followed by a non-empty value decides, whatever the environment holds. */
  lemma ConfigFlagWins(args: seq<string>, env: map<string, string>, home: string, i: nat)
    requires i + 1 < |args| && args[i] == ConfigFlag && ConfigFlag !in args[..i]
    requires args[i + 1] != ""
    ensures ResolveConfigPath(args, env, home) == Resolved(args[i + 1])
  {
    assert IndexOf(args, ConfigFlag) == i;
  }

  /**
   * Only the first `--config` counts: when it is the last argument or is
   * followed by "", the choice is the one made with no arguments at all,
   * even if a later `--config` carries a value.
   */
  lemma FirstConfigFlagOnly(args: seq<string>, env: map<string, string>, home: string, i: nat)
    requires i < |args| && args[i] == ConfigFlag && ConfigFlag !in args[..i]
    requires i + 1 == |args| || args[i + 1] == ""
    ensures ResolveConfigPath(args, env, home) == ResolveConfigPath([], env, home)
  {
    assert IndexOf(args, ConfigFlag) == i;
  }

  /**
   * Without a `--config` argument: a non-empty MCP_CLI_CATALOG_FILE is
   * resolved, otherwise the default file in the home directory is used.
   */
  lemma EnvironmentThenDefault(args: seq<string>, env: map<string, string>, home: string)
    requires ConfigFlag !in args
    ensures HasEnvOverride(env) ==> ResolveConfigPath(args, env, home) == Resolved(env[EnvVar])
    ensures !HasEnvOverride(env) ==> ResolveConfigPath(args, env, home) == Joined(home, DefaultFile)
  {
  }

  /**
   * Given both `--config x` and an environment override y, the path is x;
   * given only y, it is y; given neither, it is the default.
   */
  lemma Precedence(x: string, y: string, home: string)
    requires x != "" && y != ""
    ensures ResolveConfigPath([ConfigFlag, x], map[EnvVar := y], home) == Resolved(x)
    ensures ResolveConfigPath([], map[EnvVar := y], home) == Resolved(y)
    ensures ResolveConfigPath([], map[], home) == Joined(home, DefaultFile)
  {
    ConfigFlagWins([ConfigFlag, x], map[EnvVar := y], home, 0);
  }
}
