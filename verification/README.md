# permission-guardian: stack detection and permission synthesis in Dafny

This project models the pure core of the permission-guardian scripts.

- **Stack detection** (`detect_stack.py`). A directory is scanned for the indicator files of nine known stacks. Each stack that has at least one indicator present gets an entry, holding the indicators found in definition order and a confidence score (found / total). The six optional shell tools are split into installed and missing. The `shell-tools` pseudo-stack is reported last, and only when at least one tool is installed.
- **Permission synthesis** (`generate_permissions.py`).
  - `generate_permissions` folds the requested stack names over the static `STACK_PERMISSIONS` table into `allow` / `ask` / `deny` lists. Duplicates are dropped and empty categories are pruned. With detection results, `shell-tools` allows exactly the installed tools.
  - `merge_permissions` merges a policy into another one category by category. It keeps the existing list and appends the incoming rules that are new.
  - The tail of `main` chooses between merging into the persisted `permissions` object and replacing it.

Files:

- `seqs.dfy` (`Seqs`): duplicate-freedom, order-preserving `Filter`, and `FlatMap`, with their lemmas.
- `wrappers.dfy` (`Wrappers`): `Option`.
- `merge.dfy` (`PolicyMerge`): policies as `map<string, seq<string>>`, and the category merge.
  - `NewRules` is a reference definition of what a merge appends: the first occurrences of incoming rules the existing list lacks.
  - The loop-shaped `MergeRules` is proved equal to it.
- `detect.dfy` (`StackDetection`): the detector.
  - The detection output is an ordered sequence of `(stack, report)` pairs, because its key order becomes the stack order in automatic mode. `AsDict` / `Find` read it as the Python dict.
  - File existence and tool availability are predicates passed in.
  - `DetectStacks` takes the definition table as a parameter; `StackIndicatorsWellFormed` shows that the program's table meets its precondition.
- `generate.dfy` (`PermissionSynthesis`): the synthesis fold and the automatic mode.
  - Each requested stack resolves to a `Source`: a static table entry, the dynamic rules of the installed tools, or nothing.
  - `Contributions` concatenates the sources' rules in request order. `Generate` is proved to hold exactly the first occurrences of those rules.
  - `Provides` states, rule by rule, where a generated rule may come from.
  - The permission table is a parameter; the program's table is `StackPermissions`.
- `scenarios.dfy` (`Scenarios`): two worked instances for `shell-tools`.

Two behaviours of the code are easy to miss:

- Without detection results, or with an empty result dict, the `and detected_results` test at line 150 fails and the `elif` at line 161 gives `shell-tools` its static entry: all six tools, installed or not (`GenerateShellToolsFallback`, `ProgramShellToolsFallback`).
- Line 166 drops empty categories, so `Generate` never holds an empty category.

## Model

| member | source | states |
|---|---|---|
| PolicyMerge.MergeRules | permission-guardian/scripts/generate_permissions.py:131-134 | the append-if-absent loop over one category leaves the existing list followed by the first occurrence of every incoming rule the existing list lacks, in incoming order |
| PolicyMerge.NewRulesMembership | permission-guardian/scripts/generate_permissions.py:132-134 | a rule is appended exactly when it is incoming and not already in the existing list |
| PolicyMerge.NewRulesNoDup | permission-guardian/scripts/generate_permissions.py:132-134 | the appended rules contain no duplicate, even when the incoming list has some |
| PolicyMerge.MergeRulesSpec | permission-guardian/scripts/generate_permissions.py:125-134 | the existing list is an unchanged prefix of the merged one; every incoming rule ends up in the merged list; nothing else is added; the suffix holds no existing rule and no rule twice; a duplicate-free existing list stays duplicate-free |
| PolicyMerge.MergeRulesAppend | permission-guardian/scripts/generate_permissions.py:131-134 | merging a list in two pieces, one after the other, equals merging the whole list at once |
| PolicyMerge.MergeRulesCovered | permission-guardian/scripts/generate_permissions.py:132-134 | incoming rules that are all present already leave the list unchanged |
| PolicyMerge.MergeRulesAbsorb | permission-guardian/scripts/generate_permissions.py:131-134 | rules already covered by the target can be dropped from the incoming list before merging without changing the result |
| PolicyMerge.MergeRulesAssociative | permission-guardian/scripts/generate_permissions.py:120-136 | per category, merge(merge(A, B), C) equals merge(A, merge(B, C)) |
| PolicyMerge.Merge | permission-guardian/scripts/generate_permissions.py:120-136 | the result has exactly the existing keys plus the three categories; keys of the existing object other than the categories are carried over untouched; each category is the existing list (empty when absent) followed by the new incoming rules |
| PolicyMerge.MergeIgnoresForeignKeys | permission-guardian/scripts/generate_permissions.py:127-134 | incoming keys other than allow/ask/deny have no effect on the result |
| PolicyMerge.MergeIdempotent | permission-guardian/scripts/generate_permissions.py:127-134 | merging a policy into itself returns it, with absent categories filled in as empty lists |
| PolicyMerge.MergeEmpty | permission-guardian/scripts/generate_permissions.py:127-134 | merging the empty object returns the existing policy, with absent categories filled in as empty lists |
| PolicyMerge.MergeAssociative | permission-guardian/scripts/generate_permissions.py:120-136 | the whole policy merge is associative |
| PolicyMerge.MergeNoDup | permission-guardian/scripts/generate_permissions.py:127-134 | a category without duplicates has none after the merge |
| PolicyMerge.Finalize | permission-guardian/scripts/generate_permissions.py:216-221 | with no persisted permissions object the generated policy is used as is; otherwise the result is exactly the merge: the persisted keys plus the three categories, foreign persisted keys unchanged, each category the persisted list followed by the generated rules it lacks (first occurrences, in order), so the persisted list is a prefix and every generated rule is present |
| StackDetection.Partition | permission-guardian/scripts/detect_stack.py:34-41 | the one-pass split sends each tool to installed or to missing, and the two lists are the order-preserving filters of the tool list by the availability predicate and by its complement |
| StackDetection.CheckShellTools | permission-guardian/scripts/detect_stack.py:29-46 | a tool is installed exactly when it is known and available, and missing exactly when it is known and unavailable; the two lengths sum to 6; neither list repeats a tool |
| StackDetection.ShellToolNamesDistinct | permission-guardian/scripts/detect_stack.py:27 | the six known tool names are distinct |
| StackDetection.StackIndicatorsWellFormed | permission-guardian/scripts/detect_stack.py:14-24 | the nine stack names are distinct and none is `shell-tools` |
| StackDetection.ScanStack | permission-guardian/scripts/detect_stack.py:56-67 | a stack gets an entry exactly when one of its indicators exists; the entry is marked detected, holds the existing indicators in definition order and the indicator count, carries no missing list, and has confidence in (0, 1] |
| StackDetection.ScanTableFind | permission-guardian/scripts/detect_stack.py:55-67 | with distinct stack names, the scan over all stacks holds for each stack exactly what scanning it alone yields |
| StackDetection.ScanTableOrder | permission-guardian/scripts/detect_stack.py:55-67 | the stack keys appear in definition order |
| StackDetection.DetectShellTools | permission-guardian/scripts/detect_stack.py:69-79 | the returned tool check is the check_shell_tools result; the shell-tools entry exists exactly when some tool is installed, and then holds the installed tools as indicators, a total of 6 and the missing tools |
| StackDetection.DetectKnownStack | permission-guardian/scripts/detect_stack.py:55-67 | each known stack is reported in the full output exactly as scanning it alone reports it, so it is present iff one of its indicators exists |
| StackDetection.DetectKeys | permission-guardian/scripts/detect_stack.py:53-77 | every output key is a known stack name or `shell-tools`, no key appears twice, and the keys follow definition order with `shell-tools` last |
| StackDetection.DetectReports | permission-guardian/scripts/detect_stack.py:62-77 | every entry is marked detected and has a confidence in (0, 1] |
| StackDetection.DetectMonotone | permission-guardian/scripts/detect_stack.py:56-66 | when more files exist, a detected stack stays detected with the same total and a confidence at least as high |
| StackDetection.DetectLocal | permission-guardian/scripts/detect_stack.py:55-67 | a stack's entry depends only on whether its own indicator files exist |
| PermissionSynthesis.Accumulate | permission-guardian/scripts/generate_permissions.py:143-163 | after the loop, the accumulator holds exactly the three categories, each equal to the first occurrences of the requested stacks' rules for that category in request order |
| PermissionSynthesis.Generate | permission-guardian/scripts/generate_permissions.py:138-168 | the result has only allow/ask/deny keys, no empty category and no duplicate rule; each category is the first occurrences of the requested stacks' rules for it, in request order |
| PermissionSynthesis.ContributionsMembership | permission-guardian/scripts/generate_permissions.py:149-163 | a rule is contributed exactly when the source of some requested stack holds it |
| PermissionSynthesis.FragmentProvides | permission-guardian/scripts/generate_permissions.py:150-163 | the rules a stack's branch adds are exactly those `Provides` allows: the installed-tool rules for shell-tools with detection results, the stack's table entry otherwise, nothing for an unknown name |
| PermissionSynthesis.GenerateProvenance | permission-guardian/scripts/generate_permissions.py:149-163 | a rule is in a generated category iff some requested stack provides it: from the stack's table entry, or as the rule of an installed tool when shell-tools takes the dynamic branch |
| PermissionSynthesis.GenerateDeterminedByContributions | permission-guardian/scripts/generate_permissions.py:138-168 | requests whose stacks contribute the same rules per category generate the same policy |
| PermissionSynthesis.GenerateIgnoresUnknown | permission-guardian/scripts/generate_permissions.py:149-163 | a name that is neither shell-tools nor in the table changes nothing, wherever it stands in the request |
| PermissionSynthesis.GenerateRepeat | permission-guardian/scripts/generate_permissions.py:149-163 | requesting a stack a second time changes nothing |
| PermissionSynthesis.ToolRuleInjective | permission-guardian/scripts/generate_permissions.py:158 | distinct tools give distinct `Bash(<tool> *)` rules |
| PermissionSynthesis.ToolRulesNoDup | permission-guardian/scripts/generate_permissions.py:157-158 | distinct tools give a duplicate-free rule list |
| PermissionSynthesis.GenerateShellToolsDetected | permission-guardian/scripts/generate_permissions.py:150-160 | with truthy detection results, shell-tools alone yields exactly one allow rule per installed tool, in order, and no ask/deny rule; nothing when no tool is installed |
| PermissionSynthesis.GenerateShellToolsAbsent | permission-guardian/scripts/generate_permissions.py:152-155 | truthy detection results without a shell-tools entry make shell-tools contribute nothing |
| PermissionSynthesis.StaticShellToolRules | permission-guardian/scripts/generate_permissions.py:97-106 | the static shell-tools entry is the allow rule of each of the six known tools, in order |
| PermissionSynthesis.GenerateShellToolsFallback | permission-guardian/scripts/generate_permissions.py:150-163 | with no detection results or empty ones, shell-tools falls through to its static entry |
| PermissionSynthesis.GenerateIncludes | permission-guardian/scripts/generate_permissions.py:149-163 | every rule a requested stack's branch adds is in the generated category |
| PermissionSynthesis.DynamicToolAllowed | permission-guardian/scripts/generate_permissions.py:155-160 | a stack on the dynamic branch gets an allow rule for each of its tools |
| PermissionSynthesis.AutoShellToolsSource | permission-guardian/scripts/generate_permissions.py:192-193 | in automatic mode shell-tools is requested exactly when some tool is installed, and then always takes the dynamic branch with the installed tools |
| PermissionSynthesis.AutoInstalledToolsAllowed | permission-guardian/scripts/generate_permissions.py:192-207 | in automatic mode every installed known tool gets its allow rule |
| Scenarios.RgJqRules | permission-guardian/scripts/generate_permissions.py:150-160 | shell-tools with rg and jq installed yields exactly `allow: [Bash(rg *), Bash(jq *)]` |
| Scenarios.ProgramShellToolsFallback | permission-guardian/scripts/generate_permissions.py:161-163 | with the program's table and no detection results, shell-tools allows all six known tools |

## Left out

- `main` of both scripts is left out because it is I/O and presentation: argument parsing, running the detector as a subprocess, JSON parsing and dumping, stderr summaries, install hints, `mkdir` and the settings write. Two of its steps are modelled:
  - the stack list taken from the detection keys (line 193) and the generate call (line 207), as `AutoGenerate`;
  - the merge-or-replace decision (lines 216-221), as `Finalize`.
- `load_existing_settings` is file and JSON I/O. Its result reaches `Finalize` as an optional `permissions` object: `None` when the settings have no such key, including after its fallback to `{}` on malformed JSON.
- `Path.exists` and `shutil.which` are the predicates `present` and `onPath`. The filesystem and the search path are not modelled.
- The directory-existence check at detect_stack.py:84-86 belongs to `main` and is not modelled.
- Confidence is the exact ratio found / total. The `round(..., 2)` to a binary float at detect_stack.py:66 and 75 is not modelled.
- `merge_permissions` makes a shallow copy (line 125), so Python appends to the caller's lists in place. The model is functional and says nothing about the caller's object afterwards.
- The read-modify-write of `settings.json` can race with another writer. That is outside the sequential core.
- JSON value types are fixed by the model:
  - a category value is always a list of strings;
  - the shell-tools detection entry always has an `indicators` list, so the `.get` defaults at lines 152-153 only matter for a missing `shell-tools` key, which the model handles.
- Policies are Dafny maps, so the key order of the written JSON objects is not modelled. The order that matters, the order of the detection keys, is modelled as a sequence.
- Other keys of the settings file, which `main` writes back unchanged next to `permissions`, are not modelled.
- StackDetection.DetectStacks and PermissionSynthesis.Generate take the definition table and the permission table as parameters. Lemmas that need distinct stack names require `WellFormed(defs)`. The program's tables are discharged by `StackIndicatorsWellFormed` and `StaticShellToolRules`.
- PermissionSynthesis.GenerateShellToolsFallback requires the table's shell-tools entry to be the six-tool allow list rather than naming the program's table. `Scenarios.ProgramShellToolsFallback` states it for the program's table.
