/** Worked scenarios: the shell-tools rules generated for two installed tools, and for
    the program's table when no detection results are given. */
module Scenarios {
  import opened Seqs
  import opened Wrappers
  import opened PolicyMerge
  import opened StackDetection
  import opened PermissionSynthesis

  /** Detection results in which rg and jq are the installed shell tools. */
  const RgJqDetected: DetectedResults :=
    Some(map[ShellTools := StackReport(true, ["rg", "jq"], 6, Some(["fd", "ast-grep", "fzf", "yq"]))])

  /** Requesting shell-tools with rg and jq installed allows exactly those two tools and
      asks for or denies nothing, whatever the static table holds. */
  lemma RgJqRules(table: PermissionTable)
    ensures Generate(table, [ShellTools], RgJqDetected) == map[Allow := ["Bash(rg *)", "Bash(jq *)"]]
  {
    assert InstalledTools(RgJqDetected.value) == ["rg", "jq"];
    GenerateShellToolsDetected(table, RgJqDetected);
    RgJqToolRules();
  }

  lemma RgJqToolRules()
    ensures ToolRules(["rg", "jq"]) == ["Bash(rg *)", "Bash(jq *)"]
  {
    assert ToolRule("rg") == "Bash(rg *)";
    assert ToolRule("jq") == "Bash(jq *)";
  }

  /** With the program's table and no detection results (or empty ones), shell-tools
      allows all six known tools. */
  lemma ProgramShellToolsFallback(detected: DetectedResults)
    requires !Truthy(detected)
    ensures Generate(StackPermissions, [ShellTools], detected) == map[Allow := ToolRules(ShellToolNames)]
  {
    StaticShellToolRules();
    GenerateShellToolsFallback(StackPermissions, detected);
  }
}
