/** Permission synthesis (generate_permissions in
    permission-guardian/scripts/generate_permissions.py): the static rule table, the
    dynamic shell-tool rules, the fold over the requested stacks, and the automatic mode
    that feeds it the detector's output. */
module PermissionSynthesis {
  import opened Seqs
  import opened Wrappers
  import opened PolicyMerge
  import opened StackDetection

  /** Each known stack's rules by category; the program's table is StackPermissions. */
  type PermissionTable = map<string, Policy>

  /** STACK_PERMISSIONS (lines 15-107). */
  const StackPermissions: PermissionTable := map[
    "node" := map[Allow := ["Bash(npm *)", "Bash(npx *)", "Bash(node *)", "Bash(yarn *)", "Bash(pnpm *)", "Bash(bun *)"]],
    "python" := map[Allow := ["Bash(python *)", "Bash(python3 *)", "Bash(pip *)", "Bash(pip3 *)", "Bash(pytest *)",
                              "Bash(poetry *)", "Bash(pipenv *)", "Bash(uv *)"]],
    "rust" := map[Allow := ["Bash(cargo *)", "Bash(rustc *)", "Bash(rustup *)"]],
    "go" := map[Allow := ["Bash(go *)"]],
    "docker" := map[Allow := ["Bash(docker *)", "Bash(docker-compose *)"],
                    Ask := ["Bash(docker push *)", "Bash(docker system prune *)"]],
    "git" := map[Allow := ["Bash(git status)", "Bash(git diff *)", "Bash(git log *)", "Bash(git branch *)",
                           "Bash(git checkout *)", "Bash(git add *)", "Bash(git commit *)", "Bash(git pull *)",
                           "Bash(git fetch *)"],
                 Ask := ["Bash(git push *)", "Bash(git reset --hard *)", "Bash(git rebase *)"]],
    "make" := map[Allow := ["Bash(make *)"]],
    "ruby" := map[Allow := ["Bash(bundle *)", "Bash(gem *)", "Bash(ruby *)"]],
    "java" := map[Allow := ["Bash(mvn *)", "Bash(gradle *)", "Bash(./gradlew *)"]],
    ShellTools := map[Allow := ["Bash(fd *)", "Bash(rg *)", "Bash(ast-grep *)", "Bash(fzf *)", "Bash(jq *)", "Bash(yq *)"]]
  ]

  /** The optional `detected_results` argument: None, or the detector's output as a dict. */
  type DetectedResults = Option<map<string, StackReport>>

  /** Python truthiness of `detected_results`: given and non-empty. */
  predicate Truthy(detected: DetectedResults) {
    detected.Some? && |detected.value| > 0
  }

  /** Lines 152-153: the installed tools recorded under shell-tools, or none. */
  function InstalledTools(detected: map<string, StackReport>): seq<string> {
    if ShellTools in detected then detected[ShellTools].indicators else []
  }

  /** The rule allowing any invocation of one tool (line 158). */
  function ToolRule(tool: string): Rule {
    "Bash(" + tool + " *)"
  }

  function ToolRules(tools: seq<string>): (rules: seq<Rule>)
    ensures |rules| == |tools|
    ensures forall i :: 0 <= i < |tools| ==> rules[i] == ToolRule(tools[i])
  {
    seq(|tools|, i requires 0 <= i < |tools| => ToolRule(tools[i]))
  }

  /** Where a requested stack's rules come from. */
  datatype Source =
    | Static(table: Policy)          // its STACK_PERMISSIONS entry
    | Dynamic(tools: seq<string>)    // one allow rule per installed shell tool
    | Ignored                        // an unknown name: no rules, no error

  /** The branch taken for one stack at lines 150-161. */
  function SourceOf(table: PermissionTable, stack: string, detected: DetectedResults): Source {
    if stack == ShellTools && Truthy(detected) then Dynamic(InstalledTools(detected.value))
    else if stack in table then Static(table[stack])
    else Ignored
  }

  /** The rules a source contributes to category `k`, in order. */
  function Fragment(src: Source, k: string): seq<Rule> {
    match src
    case Static(table) => Get(table, k)
    case Dynamic(tools) => if k == Allow then ToolRules(tools) else []
    case Ignored => []
  }

  /** One iteration of the loop at lines 149-163. */
  function Apply(acc: Policy, src: Source): Policy {
    match src
    case Static(table) => Merge(acc, table)
    case Dynamic(tools) =>
      if |tools| == 0 then acc
      else acc[Allow := MergeRules(Get(acc, Allow), ToolRules(tools))]
    case Ignored => acc
  }

  /** The rules one requested stack contributes to category `k`. */
  function Offer(table: PermissionTable, detected: DetectedResults, k: string): string -> seq<Rule> {
    stack => Fragment(SourceOf(table, stack, detected), k)
  }

  /** Every rule of the requested stacks, category `k`, concatenated in request order. */
  function Contributions(table: PermissionTable, stacks: seq<string>, detected: DetectedResults, k: string): seq<Rule> {
    FlatMap(stacks, Offer(table, detected, k))
  }

  /** The dict initialised at lines 143-147. */
  const EmptyPolicy: Policy := map[Allow := [], Ask := [], Deny := []]

  /** For a policy holding exactly the three categories, one loop step merges the source's
      fragment into each category. */
  lemma ApplyMerges(acc: Policy, src: Source)
    requires acc.Keys == Categories
    ensures Apply(acc, src).Keys == Categories
    ensures forall k :: k in Categories ==> Apply(acc, src)[k] == MergeRules(acc[k], Fragment(src, k))
  {
  }

  /** The accumulator after the loop at lines 149-163: each category holds the first
      occurrences of all the requested stacks' rules for it, in request order. */
  function Accumulate(table: PermissionTable, stacks: seq<string>, detected: DetectedResults): (acc: Policy)
    ensures acc.Keys == Categories
    ensures forall k :: k in Categories ==> acc[k] == NewRules([], Contributions(table, stacks, detected, k))
    decreases |stacks|
  {
    if |stacks| == 0 then EmptyPolicy
    else
      var prev := Accumulate(table, stacks[..|stacks| - 1], detected);
      var src := SourceOf(table, stacks[|stacks| - 1], detected);
      AccumulateStep(table, prev, stacks, detected);
      Apply(prev, src)
  }

  lemma AccumulateStep(table: PermissionTable, prev: Policy, stacks: seq<string>, detected: DetectedResults)
    requires |stacks| > 0
    requires prev.Keys == Categories
    requires forall k :: k in Categories ==> prev[k] == NewRules([], Contributions(table, stacks[..|stacks| - 1], detected, k))
    ensures var next := Apply(prev, SourceOf(table, stacks[|stacks| - 1], detected));
      && next.Keys == Categories
      && forall k :: k in Categories ==> next[k] == NewRules([], Contributions(table, stacks, detected, k))
  {
    var src := SourceOf(table, stacks[|stacks| - 1], detected);
    ApplyMerges(prev, src);
    forall k | k in Categories
      ensures Apply(prev, src)[k] == NewRules([], Contributions(table, stacks, detected, k))
    {
      var before := Contributions(table, stacks[..|stacks| - 1], detected, k);
      assert prev[k] == MergeRules([], before);
      MergeRulesAppend([], before, Fragment(src, k));
    }
  }

  /** Line 166: drop the categories that stayed empty. */
  function Prune(p: Policy): (pruned: Policy)
    ensures forall k :: k in pruned <==> k in p && |p[k]| > 0
    ensures forall k :: k in pruned ==> pruned[k] == p[k]
  {
    map k | k in p && |p[k]| > 0 :: p[k]
  }

  /** generate_permissions (lines 138-168): only the three categories, none empty, none with
      a duplicate rule; each holds the first occurrences of the requested stacks' rules. */
  function Generate(table: PermissionTable, stacks: seq<string>, detected: DetectedResults): (perms: Policy)
    ensures perms.Keys <= Categories
    ensures forall k :: k in perms ==> |perms[k]| > 0 && NoDup(perms[k])
    ensures forall k :: k in Categories ==> Get(perms, k) == NewRules([], Contributions(table, stacks, detected, k))
  {
    var acc := Accumulate(table, stacks, detected);
    forall k | k in Categories
      ensures NoDup(acc[k])
    {
      NewRulesNoDup([], Contributions(table, stacks, detected, k));
    }
    Prune(acc)
  }

  lemma ContributionsAppend(table: PermissionTable, xs: seq<string>, ys: seq<string>, detected: DetectedResults, k: string)
    ensures Contributions(table, xs + ys, detected, k) == Contributions(table, xs, detected, k) + Contributions(table, ys, detected, k)
  {
    FlatMapAppend(xs, ys, Offer(table, detected, k));
  }

  /** A rule is contributed exactly when some requested stack's source holds it. */
  lemma ContributionsMembership(table: PermissionTable, stacks: seq<string>, detected: DetectedResults, k: string, x: Rule)
    ensures x in Contributions(table, stacks, detected, k) <==>
      exists i :: 0 <= i < |stacks| && x in Fragment(SourceOf(table, stacks[i], detected), k)
  {
    FlatMapMembership(stacks, Offer(table, detected, k), x);
  }

  /** Generated policies agree when the requested stacks contribute the same rules. */
  lemma GenerateDeterminedByContributions(table: PermissionTable, xs: seq<string>, dx: DetectedResults, ys: seq<string>, dy: DetectedResults)
    requires forall k :: k in Categories ==> Contributions(table, xs, dx, k) == Contributions(table, ys, dy, k)
    ensures Generate(table, xs, dx) == Generate(table, ys, dy)
  {
    SameCategories(Generate(table, xs, dx), Generate(table, ys, dy));
  }

  /** Lines 150-161, stated rule by rule: `stack` provides `x` for category `k` when
      shell-tools, given detection results, allows an installed tool by `x`, or otherwise
      when the stack's table entry lists `x` under `k`. */
  predicate Provides(table: PermissionTable, stack: string, detected: DetectedResults, k: string, x: Rule) {
    if stack == ShellTools && Truthy(detected) then
      k == Allow && exists t :: t in InstalledTools(detected.value) && x == ToolRule(t)
    else
      stack in table && x in Get(table[stack], k)
  }

  lemma FragmentProvides(table: PermissionTable, stack: string, detected: DetectedResults, k: string, x: Rule)
    ensures x in Fragment(SourceOf(table, stack, detected), k) <==> Provides(table, stack, detected, k, x)
  {
    var src := SourceOf(table, stack, detected);
    if src.Dynamic? && k == Allow {
      var tools := src.tools;
      if x in ToolRules(tools) {
        var j :| 0 <= j < |tools| && ToolRules(tools)[j] == x;
        assert tools[j] in tools;
      }
      if exists t :: t in tools && x == ToolRule(t) {
        var t :| t in tools && x == ToolRule(t);
        var j :| 0 <= j < |tools| && tools[j] == t;
        assert ToolRules(tools)[j] == x;
      }
    }
  }

  /** Lines 149-163: a rule ends up in a category exactly when one of the requested stacks
      provides it there. */
  lemma GenerateProvenance(table: PermissionTable, stacks: seq<string>, detected: DetectedResults, k: string, x: Rule)
    requires k in Categories
    ensures x in Get(Generate(table, stacks, detected), k) <==>
      exists i :: 0 <= i < |stacks| && Provides(table, stacks[i], detected, k, x)
  {
    NewRulesMembership([], Contributions(table, stacks, detected, k));
    ContributionsMembership(table, stacks, detected, k, x);
    forall i | 0 <= i < |stacks|
      ensures x in Fragment(SourceOf(table, stacks[i], detected), k) <==> Provides(table, stacks[i], detected, k, x)
    {
      FragmentProvides(table, stacks[i], detected, k, x);
    }
  }

  /** Line 161: a name that is neither shell-tools nor in STACK_PERMISSIONS changes nothing,
      wherever it appears, and raises no error. */
  lemma GenerateIgnoresUnknown(table: PermissionTable, xs: seq<string>, unknown: string, ys: seq<string>, detected: DetectedResults)
    requires unknown != ShellTools && unknown !in table
    ensures Generate(table, xs + [unknown] + ys, detected) == Generate(table, xs + ys, detected)
  {
    forall k | k in Categories
      ensures Contributions(table, xs + [unknown] + ys, detected, k) == Contributions(table, xs + ys, detected, k)
    {
      UnknownCategory(table, xs, unknown, ys, detected, k);
    }
    GenerateDeterminedByContributions(table, xs + [unknown] + ys, detected, xs + ys, detected);
  }

  lemma UnknownCategory(table: PermissionTable, xs: seq<string>, unknown: string, ys: seq<string>, detected: DetectedResults, k: string)
    requires unknown != ShellTools && unknown !in table
    ensures Contributions(table, xs + [unknown] + ys, detected, k) == Contributions(table, xs + ys, detected, k)
  {
    ContributionsAppend(table, xs + [unknown], ys, detected, k);
    ContributionsAppend(table, xs, [unknown], detected, k);
    ContributionsAppend(table, xs, ys, detected, k);
    ContributionsSingleton(table, unknown, detected, k);
  }

  /** Requesting a stack a second time changes nothing. */
  lemma GenerateRepeat(table: PermissionTable, xs: seq<string>, stack: string, ys: seq<string>, detected: DetectedResults)
    requires stack in xs
    ensures Generate(table, xs + [stack] + ys, detected) == Generate(table, xs + ys, detected)
  {
    var p, q := Generate(table, xs + [stack] + ys, detected), Generate(table, xs + ys, detected);
    forall k | k in Categories
      ensures Get(p, k) == Get(q, k)
    {
      RepeatCategory(table, xs, stack, ys, detected, k);
    }
    SameCategories(p, q);
  }

  lemma RepeatCategory(table: PermissionTable, xs: seq<string>, stack: string, ys: seq<string>, detected: DetectedResults, k: string)
    requires stack in xs
    ensures NewRules([], Contributions(table, xs + [stack] + ys, detected, k)) == NewRules([], Contributions(table, xs + ys, detected, k))
  {
    var before := Contributions(table, xs, detected, k);
    var again := Contributions(table, [stack], detected, k);
    var after := Contributions(table, ys, detected, k);
    ContributionsAppend(table, xs + [stack], ys, detected, k);
    ContributionsAppend(table, xs, [stack], detected, k);
    ContributionsAppend(table, xs, ys, detected, k);
    ContributionsSingleton(table, stack, detected, k);
    var i :| 0 <= i < |xs| && xs[i] == stack;
    forall x | x in again
      ensures x in before
    {
      ContributionsMembership(table, xs, detected, k, x);
    }
    NewRulesSkipCovered(before, again, after);
  }

  /** Distinct tools give distinct rules. */
  lemma ToolRuleInjective(a: string, b: string)
    requires ToolRule(a) == ToolRule(b)
    ensures a == b
  {
    assert ToolRule(a)[5..5 + |a|] == a;
    assert ToolRule(b)[5..5 + |b|] == b;
  }

  lemma ToolRulesNoDup(tools: seq<string>)
    requires NoDup(tools)
    ensures NoDup(ToolRules(tools))
  {
    forall i, j | 0 <= i < j < |tools|
      ensures ToolRules(tools)[i] != ToolRules(tools)[j]
    {
      if ToolRule(tools[i]) == ToolRule(tools[j]) {
        ToolRuleInjective(tools[i], tools[j]);
      }
    }
  }

  /** The contributions of one stack requested alone. */
  lemma ContributionsSingleton(table: PermissionTable, stack: string, detected: DetectedResults, k: string)
    ensures Contributions(table, [stack], detected, k) == Fragment(SourceOf(table, stack, detected), k)
  {
    FlatMapSingleton(stack, Offer(table, detected, k));
  }

  /** A request whose contributions are already duplicate-free generates exactly them. */
  lemma GenerateDistinctContributions(table: PermissionTable, stacks: seq<string>, detected: DetectedResults, expected: Policy)
    requires expected.Keys <= Categories
    requires forall k :: k in expected ==> |expected[k]| > 0
    requires forall k :: k in Categories ==> Contributions(table, stacks, detected, k) == Get(expected, k)
    requires forall k :: k in Categories ==> NoDup(Get(expected, k))
    ensures Generate(table, stacks, detected) == expected
  {
    forall k | k in Categories
      ensures Get(Generate(table, stacks, detected), k) == Get(expected, k)
    {
      NewRulesDistinct(Get(expected, k));
    }
    SameCategories(Generate(table, stacks, detected), expected);
  }

  /** Lines 150-160: with detection results, shell-tools yields exactly one allow rule per
      installed tool, in detection order, and nothing else; nothing at all when no tool is
      recorded as installed. */
  lemma GenerateShellToolsDetected(table: PermissionTable, detected: DetectedResults)
    requires Truthy(detected) && NoDup(InstalledTools(detected.value))
    ensures var tools := InstalledTools(detected.value);
      Generate(table, [ShellTools], detected) ==
        if |tools| > 0 then map[Allow := ToolRules(tools)] else map[]
  {
    var tools := InstalledTools(detected.value);
    var expected: Policy := if |tools| > 0 then map[Allow := ToolRules(tools)] else map[];
    ToolRulesNoDup(tools);
    forall k | k in Categories
      ensures Contributions(table, [ShellTools], detected, k) == Get(expected, k)
    {
      ContributionsSingleton(table, ShellTools, detected, k);
    }
    GenerateDistinctContributions(table, [ShellTools], detected, expected);
  }

  /** Lines 152-155: detection results without a shell-tools entry make shell-tools
      contribute nothing. */
  lemma GenerateShellToolsAbsent(table: PermissionTable, detected: DetectedResults)
    requires Truthy(detected) && ShellTools !in detected.value
    ensures Generate(table, [ShellTools], detected) == map[]
  {
    assert NoDup(InstalledTools(detected.value));
    GenerateShellToolsDetected(table, detected);
  }

  /** The static shell-tools entry (lines 97-106) is the tool rule of every known tool. */
  lemma StaticShellToolRules()
    ensures ShellTools in StackPermissions
    ensures StackPermissions[ShellTools] == map[Allow := ToolRules(ShellToolNames)]
  {
    var rules := ToolRules(ShellToolNames);
    assert rules[0] == ToolRule("fd") == "Bash(fd *)";
    assert rules[1] == ToolRule("rg") == "Bash(rg *)";
    assert rules[2] == ToolRule("ast-grep") == "Bash(ast-grep *)";
    assert rules[3] == ToolRule("fzf") == "Bash(fzf *)";
    assert rules[4] == ToolRule("jq") == "Bash(jq *)";
    assert rules[5] == ToolRule("yq") == "Bash(yq *)";
    assert rules == ["Bash(fd *)", "Bash(rg *)", "Bash(ast-grep *)", "Bash(fzf *)", "Bash(jq *)", "Bash(yq *)"];
  }

  /** Line 161: with no detection results, or empty ones, shell-tools falls through to its
      static entry, which in the program's table (StaticShellToolRules) allows every known
      tool, installed or not. */
  lemma GenerateShellToolsFallback(table: PermissionTable, detected: DetectedResults)
    requires !Truthy(detected)
    requires ShellTools in table && table[ShellTools] == map[Allow := ToolRules(ShellToolNames)]
    ensures Generate(table, [ShellTools], detected) == map[Allow := ToolRules(ShellToolNames)]
  {
    var expected: Policy := map[Allow := ToolRules(ShellToolNames)];
    assert SourceOf(table, ShellTools, detected) == Static(expected);
    ShellToolNamesDistinct();
    ToolRulesNoDup(ShellToolNames);
    forall k | k in Categories
      ensures Contributions(table, [ShellTools], detected, k) == Get(expected, k)
    {
      ContributionsSingleton(table, ShellTools, detected, k);
    }
    GenerateDistinctContributions(table, [ShellTools], detected, expected);
  }

  /** `main --auto` up to line 207: detect (with StackIndicators as `defs` in the program),
      take the detected keys in order as the stack list (line 193) and generate with the
      detection results. */
  function AutoGenerate(table: PermissionTable, defs: seq<StackDefinition>, present: FileName -> bool, onPath: string -> bool): Policy {
    var scan := DetectStacks(defs, present, onPath);
    Generate(table, Names(scan.results), Some(AsDict(scan.results)))
  }

  /** In automatic mode shell-tools is requested exactly when some tool is installed, and
      then always takes the dynamic branch with the installed tools, never the static
      fallback. */
  lemma AutoShellToolsSource(table: PermissionTable, defs: seq<StackDefinition>, present: FileName -> bool, onPath: string -> bool)
    requires WellFormed(defs)
    ensures var scan := DetectStacks(defs, present, onPath);
      && (ShellTools in Names(scan.results) <==> |scan.shellTools.installed| > 0)
      && (ShellTools in Names(scan.results) ==>
            SourceOf(table, ShellTools, Some(AsDict(scan.results))) == Dynamic(scan.shellTools.installed))
  {
    var scan := DetectStacks(defs, present, onPath);
    DetectShellTools(defs, present, onPath);
    FindAbsent(scan.results, ShellTools);
    if ShellTools in Names(scan.results) {
      assert ShellTools in AsDict(scan.results);
      assert Truthy(Some(AsDict(scan.results)));
    }
  }

  /** Every rule a requested stack contributes is generated. */
  lemma GenerateIncludes(table: PermissionTable, stacks: seq<string>, detected: DetectedResults, k: string, i: nat, x: Rule)
    requires k in Categories && i < |stacks|
    requires x in Fragment(SourceOf(table, stacks[i], detected), k)
    ensures x in Get(Generate(table, stacks, detected), k)
  {
    ContributionsMembership(table, stacks, detected, k, x);
    NewRulesMembership([], Contributions(table, stacks, detected, k));
  }

  /** A stack that takes the dynamic branch allows each of the tools it was given. */
  lemma DynamicToolAllowed(table: PermissionTable, stacks: seq<string>, detected: DetectedResults, i: nat, tools: seq<string>, tool: string)
    requires i < |stacks| && SourceOf(table, stacks[i], detected) == Dynamic(tools) && tool in tools
    ensures ToolRule(tool) in Get(Generate(table, stacks, detected), Allow)
  {
    var j :| 0 <= j < |tools| && tools[j] == tool;
    assert ToolRules(tools)[j] == ToolRule(tool);
    GenerateIncludes(table, stacks, detected, Allow, i, ToolRule(tool));
  }

  /** In automatic mode every installed known tool gets its allow rule. */
  lemma AutoInstalledToolsAllowed(table: PermissionTable, defs: seq<StackDefinition>, present: FileName -> bool, onPath: string -> bool, tool: string)
    requires WellFormed(defs) && tool in ShellToolNames && onPath(tool)
    ensures ToolRule(tool) in Get(AutoGenerate(table, defs, present, onPath), Allow)
  {
    var scan := DetectStacks(defs, present, onPath);
    var stacks := Names(scan.results);
    AutoShellToolsSource(table, defs, present, onPath);
    assert tool in scan.shellTools.installed;
    var i :| 0 <= i < |stacks| && stacks[i] == ShellTools;
    DynamicToolAllowed(table, stacks, Some(AsDict(scan.results)), i, scan.shellTools.installed, tool);
  }
}
