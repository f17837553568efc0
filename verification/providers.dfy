/** The table of AI command-line providers a worker can drive, and the command
    line assembled for one of them. Locating executables on disk and the
    token-usage report read the environment and are not part of this model. */
module Providers {
  import opened Results

  datatype ProviderConfig = ProviderConfig(
    envVar: string,
    binaryNames: seq<string>,
    cmd: seq<string>,
    stdinCmd: seq<string>,
    templateEnv: string,
    templateRequired: bool)

  /** The provider table, in declaration order. */
  const Table: seq<(string, ProviderConfig)> := [
    ("codex", ProviderConfig("CODEX_BIN", ["codex"], ["exec", "--skip-git-repo-check"],
                             ["exec", "--skip-git-repo-check"], "CODEX_CMD_TEMPLATE", false)),
    ("claude", ProviderConfig("CLAUDE_BIN", ["claude"], ["-p"], [], "CLAUDE_CMD_TEMPLATE", false)),
    ("gemini", ProviderConfig("GEMINI_BIN", ["gemini"], [], [], "GEMINI_CMD_TEMPLATE", false)),
    ("antigravity", ProviderConfig("ANTIGRAVITY_BIN", ["antigravity"], ["chat", "-"], ["chat", "-"],
                                   "ANTIGRAVITY_CMD_TEMPLATE", true))
  ]

  /** `provider_names()`: the table's keys in order. */
  function ProviderNames(): (r: seq<string>)
    ensures |r| == |Table| && forall i :: 0 <= i < |Table| ==> r[i] == Table[i].0
  {
    seq(|Table|, i requires 0 <= i < |Table| => Table[i].0)
  }

  function LookupIn(t: seq<(string, ProviderConfig)>, name: string): (r: Option<ProviderConfig>)
    ensures r.None? <==> forall i :: 0 <= i < |t| ==> t[i].0 != name
    ensures r.Some? ==> exists i :: 0 <= i < |t| && t[i] == (name, r.value)
  {
    if |t| == 0 then None
    else if t[0].0 == name then Some(t[0].1)
    else
      var r := LookupIn(t[1..], name);
      assert forall i :: 1 <= i < |t| ==> t[i] == t[1..][i - 1];
      r
  }

  /** A name in the provider table. */
  predicate Known(name: string) {
    name in ProviderNames()
  }

  /** `provider_config(name)`: present exactly for the four known names. */
  function Config(name: string): (r: Option<ProviderConfig>)
    ensures r.None? <==> name !in ProviderNames()
  {
    LookupIn(Table, name)
  }

  /** `template_env_var(name)`: the template variable, or nothing for an unknown name. */
  function TemplateEnvVar(name: string): (r: Option<string>)
    ensures r.None? <==> name !in ProviderNames()
  {
    match Config(name)
    case None => None
    case Some(c) => Some(c.templateEnv)
  }

  /** `is_template_required(name)`; false for an unknown name. */
  predicate IsTemplateRequired(name: string) {
    match Config(name)
    case None => false
    case Some(c) => c.templateRequired
  }

  /** `provider_command`: the executable followed by the provider's stdin or
      argument-mode arguments; an unknown provider raises. */
  function ProviderCommand(name: string, executable: string, useStdin: bool): (r: Result<seq<string>>)
    ensures r.Err? <==> name !in ProviderNames()
    ensures r.Ok? ==> |r.value| >= 1 && r.value[0] == executable
    ensures r.Ok? ==> r.value[1..] == if useStdin then Config(name).value.stdinCmd else Config(name).value.cmd
  {
    match Config(name)
    case None => Err("Unknown provider: " + name)
    case Some(c) => Ok([executable] + if useStdin then c.stdinCmd else c.cmd)
  }

  /** The provider list is exactly codex, claude, gemini, antigravity. */
  lemma ProviderNamesExact()
    ensures ProviderNames() == ["codex", "claude", "gemini", "antigravity"]
  {
  }

  /** Only antigravity needs a command template. */
  lemma TemplateRequiredOnlyAntigravity(name: string)
    ensures IsTemplateRequired(name) <==> name == "antigravity"
  {
    ProviderNamesExact();
    if name in ProviderNames() {
      var c := Config(name).value;
      var i :| 0 <= i < |Table| && Table[i] == (name, c);
    }
  }

  /** In stdin mode claude and gemini need no extra arguments; codex and
      antigravity pass the same arguments in both modes. */
  lemma StdinArguments()
    ensures ProviderCommand("claude", "x", true) == Ok(["x"])
    ensures ProviderCommand("claude", "x", false) == Ok(["x", "-p"])
    ensures ProviderCommand("gemini", "x", true) == Ok(["x"])
    ensures ProviderCommand("codex", "x", true) == ProviderCommand("codex", "x", false)
    ensures ProviderCommand("antigravity", "x", true) == ProviderCommand("antigravity", "x", false)
  {
    assert Config("claude") == Some(Table[1].1);
    assert Config("gemini") == Some(Table[2].1);
    assert ["x"] + [] == ["x"];
    assert ["x"] + ["-p"] == ["x", "-p"];
  }
}
