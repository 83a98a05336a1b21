/** Stack detection (permission-guardian/scripts/detect_stack.py): which known stacks a
    directory uses, judged by the presence of indicator files, and which optional shell
    tools are installed. The file-existence test and the search-path lookup are consumed
    as predicates. */
module StackDetection {
  import opened Seqs
  import opened Wrappers

  /** A file name relative to the scanned directory. */
  type FileName = string

  /** One known stack and the files whose presence is evidence of it. */
  datatype StackDefinition = StackDefinition(name: string, indicators: seq<FileName>)

  /** STACK_INDICATORS (lines 14-24), in definition order. */
  const StackIndicators: seq<StackDefinition> := [
    StackDefinition("node", ["package.json", "yarn.lock", "pnpm-lock.yaml", "package-lock.json", "bun.lockb"]),
    StackDefinition("python", ["requirements.txt", "setup.py", "pyproject.toml", "Pipfile", "poetry.lock", "uv.lock"]),
    StackDefinition("rust", ["Cargo.toml", "Cargo.lock"]),
    StackDefinition("go", ["go.mod", "go.sum"]),
    StackDefinition("docker", ["Dockerfile", "docker-compose.yml", "docker-compose.yaml", ".dockerignore"]),
    StackDefinition("git", [".git/config"]),
    StackDefinition("make", ["Makefile"]),
    StackDefinition("ruby", ["Gemfile", "Gemfile.lock"]),
    StackDefinition("java", ["pom.xml", "build.gradle", "build.gradle.kts"])
  ]

  /** The pseudo-stack that reports shell-tool availability. */
  const ShellTools: string := "shell-tools"

  /** SHELL_TOOLS (line 27). */
  const ShellToolNames: seq<string> := ["fd", "rg", "ast-grep", "fzf", "jq", "yq"]

  /** What check_shell_tools returns. */
  datatype ToolCheck = ToolCheck(installed: seq<string>, missing: seq<string>)

  /** One entry of the detection output. `missing` is present only on the shell-tools
      entry. Confidence is kept exact as |indicators| / total. */
  datatype StackReport = StackReport(detected: bool, indicators: seq<string>, total: nat, missing: Option<seq<string>>)
  {
    /** The coverage ratio, without the rounding to two decimals. */
    function Confidence(): real
      requires total > 0
    {
      |indicators| as real / total as real
    }
  }

  /** One key/value pair of the detection output, which is an insertion-ordered dict. */
  datatype Detection = Detection(stack: string, report: StackReport)

  /** What detect_stacks returns: the ordered detection output and the tool check. */
  datatype Scan = Scan(results: seq<Detection>, shellTools: ToolCheck)

  function StackNames(defs: seq<StackDefinition>): (names: seq<string>)
    ensures |names| == |defs|
    ensures forall i :: 0 <= i < |defs| ==> names[i] == defs[i].name
  {
    seq(|defs|, i requires 0 <= i < |defs| => defs[i].name)
  }

  /** The keys of the detection output, in insertion order. */
  function Names(results: seq<Detection>): (names: seq<string>)
    ensures |names| == |results|
    ensures forall i :: 0 <= i < |results| ==> names[i] == results[i].stack
  {
    seq(|results|, i requires 0 <= i < |results| => results[i].stack)
  }

  /** The detection output read as a dict; a later entry under the same key wins. */
  function AsDict(results: seq<Detection>): (d: map<string, StackReport>)
    ensures d.Keys == set i | 0 <= i < |results| :: results[i].stack
    decreases |results|
  {
    if |results| == 0 then map[]
    else
      var last := results[|results| - 1];
      AsDict(results[..|results| - 1])[last.stack := last.report]
  }

  /** `results.get(name)`. */
  function Find(results: seq<Detection>, name: string): Option<StackReport> {
    var d := AsDict(results);
    if name in d then Some(d[name]) else None
  }

  /** check_shell_tools over an arbitrary tool list: one pass that sends each tool to
      `installed` or to `missing`, keeping the list order in both. */
  function Partition(tools: seq<string>, onPath: string -> bool): (check: ToolCheck)
    ensures check.installed == Filter(tools, onPath)
    ensures check.missing == Filter(tools, Complement(onPath))
    decreases |tools|
  {
    if |tools| == 0 then ToolCheck([], [])
    else
      var prev := Partition(tools[..|tools| - 1], onPath);
      var tool := tools[|tools| - 1];
      if onPath(tool) then prev.(installed := prev.installed + [tool])
      else prev.(missing := prev.missing + [tool])
  }

  lemma ShellToolNamesDistinct()
    ensures NoDup(ShellToolNames)
  {
  }

  /** check_shell_tools (lines 29-46): the known tools split by availability into two
      disjoint, duplicate-free lists that together hold every known tool. */
  function CheckShellTools(onPath: string -> bool): (check: ToolCheck)
    ensures forall t :: t in check.installed <==> t in ShellToolNames && onPath(t)
    ensures forall t :: t in check.missing <==> t in ShellToolNames && !onPath(t)
    ensures |check.installed| + |check.missing| == |ShellToolNames|
    ensures NoDup(check.installed) && NoDup(check.missing)
  {
    var check := Partition(ShellToolNames, onPath);
    FilterSplit(ShellToolNames, onPath);
    ShellToolNamesDistinct();
    FilterNoDup(ShellToolNames, onPath);
    FilterNoDup(ShellToolNames, Complement(onPath));
    check
  }

  /** found/total lies in (0, 1] when 0 < found <= total. */
  lemma RatioBounds(found: nat, total: nat)
    requires 0 < found <= total
    ensures 0.0 < found as real / total as real <= 1.0
  {
    var r := found as real / total as real;
    assert r * total as real == found as real;
  }

  /** found/total grows with found. */
  lemma RatioMonotone(found: nat, more: nat, total: nat)
    requires found <= more && 0 < total
    ensures found as real / total as real <= more as real / total as real
  {
    var t := total as real;
    assert more as real / t - found as real / t == (more - found) as real / t;
  }

  /** The body of the loop at lines 55-67 for one stack: its indicators that exist, and an
      entry only when at least one does. */
  function ScanStack(indicators: seq<FileName>, present: FileName -> bool): (report: Option<StackReport>)
    ensures report.Some? <==> exists f :: f in indicators && present(f)
    ensures report.Some? ==>
      && report.value.detected
      && report.value.indicators == Filter(indicators, present)
      && report.value.total == |indicators|
      && report.value.missing.None?
      && 0.0 < report.value.Confidence() <= 1.0
  {
    var found := Filter(indicators, present);
    if |found| > 0 then
      assert found[0] in found;
      RatioBounds(|found|, |indicators|);
      Some(StackReport(true, found, |indicators|, None))
    else
      assert forall f :: f in indicators && present(f) ==> f in found;
      None
  }

  /** The loop at lines 55-67 over a list of definitions, in order. */
  function ScanTable(defs: seq<StackDefinition>, present: FileName -> bool): seq<Detection>
    decreases |defs|
  {
    if |defs| == 0 then []
    else
      var prev := ScanTable(defs[..|defs| - 1], present);
      var def := defs[|defs| - 1];
      match ScanStack(def.indicators, present)
      case Some(report) => prev + [Detection(def.name, report)]
      case None => prev
  }

  /** The shell-tools entry of lines 71-77, present only when some tool is installed. */
  function ShellToolsEntry(check: ToolCheck): seq<Detection> {
    if |check.installed| > 0 then
      [Detection(ShellTools, StackReport(true, check.installed, |ShellToolNames|, Some(check.missing)))]
    else []
  }

  /** detect_stacks (lines 48-79), given the definition table (StackIndicators in the
      program), which files exist and which tools are on the path. */
  function DetectStacks(defs: seq<StackDefinition>, present: FileName -> bool, onPath: string -> bool): Scan {
    var tools := CheckShellTools(onPath);
    Scan(ScanTable(defs, present) + ShellToolsEntry(tools), tools)
  }

  /** A definition table whose stack names are distinct and never the pseudo-stack's. */
  predicate WellFormed(defs: seq<StackDefinition>) {
    NoDup(StackNames(defs)) && ShellTools !in StackNames(defs)
  }

  /** The program's table is well formed. */
  lemma StackIndicatorsWellFormed()
    ensures WellFormed(StackIndicators)
  {
    assert StackNames(StackIndicators) == ["node", "python", "rust", "go", "docker", "git", "make", "ruby", "java"];
  }

  /** Looking a key up after appending one entry. */
  lemma FindSnoc(results: seq<Detection>, entry: Detection, name: string)
    ensures Find(results + [entry], name) == if name == entry.stack then Some(entry.report) else Find(results, name)
  {
    assert (results + [entry])[..|results + [entry]| - 1] == results;
  }

  /** A key is found exactly when some entry carries it. */
  lemma FindAbsent(results: seq<Detection>, name: string)
    ensures Find(results, name).None? <==> name !in Names(results)
  {
    if name in Names(results) {
      var i :| 0 <= i < |results| && Names(results)[i] == name;
      assert results[i].stack == name;
    }
  }

  /** Every key of the table scan names one of the scanned definitions. */
  lemma {:induction false} ScanTableNames(defs: seq<StackDefinition>, present: FileName -> bool)
    ensures forall n :: n in Names(ScanTable(defs, present)) ==> n in StackNames(defs)
    decreases |defs|
  {
    if |defs| > 0 {
      var init := defs[..|defs| - 1];
      var prev := ScanTable(init, present);
      ScanTableNames(init, present);
      assert StackNames(defs) == StackNames(init) + [defs[|defs| - 1].name];
      match ScanStack(defs[|defs| - 1].indicators, present)
      case Some(report) =>
        assert Names(prev + [Detection(defs[|defs| - 1].name, report)]) == Names(prev) + [defs[|defs| - 1].name];
      case None =>
    }
  }

  /** With distinct stack names, the table scan holds for each stack exactly what scanning
      that stack alone yields. */
  lemma {:induction false} ScanTableFind(defs: seq<StackDefinition>, present: FileName -> bool, i: nat)
    requires NoDup(StackNames(defs)) && i < |defs|
    ensures Find(ScanTable(defs, present), defs[i].name) == ScanStack(defs[i].indicators, present)
    decreases |defs|
  {
    var init := defs[..|defs| - 1];
    var last := defs[|defs| - 1];
    var prev := ScanTable(init, present);
    assert StackNames(init) == StackNames(defs)[..|defs| - 1];
    if i < |defs| - 1 {
      ScanTableFind(init, present, i);
      assert defs[i].name != last.name by {
        assert StackNames(defs)[i] != StackNames(defs)[|defs| - 1];
      }
      match ScanStack(last.indicators, present)
      case Some(report) => FindSnoc(prev, Detection(last.name, report), defs[i].name);
      case None =>
    } else {
      match ScanStack(last.indicators, present)
      case Some(report) => FindSnoc(prev, Detection(last.name, report), last.name);
      case None =>
        ScanTableNames(init, present);
        assert last.name !in StackNames(init);
        FindAbsent(prev, last.name);
    }
  }

  /** With distinct stack names, the keys of the table scan are the stack names in
      definition order, restricted to those that were detected. */
  lemma {:induction false} ScanTableOrder(defs: seq<StackDefinition>, present: FileName -> bool)
    requires NoDup(StackNames(defs))
    ensures var names := Names(ScanTable(defs, present));
      names == Filter(StackNames(defs), Among(names))
    decreases |defs|
  {
    if |defs| > 0 {
      var init := defs[..|defs| - 1];
      var last := defs[|defs| - 1];
      var prev := ScanTable(init, present);
      var names := Names(ScanTable(defs, present));
      assert StackNames(defs) == StackNames(init) + [last.name];
      ScanTableOrder(init, present);
      ScanTableNames(init, present);
      assert last.name !in StackNames(init);
      match ScanStack(last.indicators, present)
      case Some(report) =>
        assert names == Names(prev) + [last.name];
        FilterCongruence(StackNames(init), Among(names), Among(Names(prev)));
      case None =>
        assert names == Names(prev);
    }
  }

  /** The shell-tools entry carries the tool check verbatim; the table scan never uses
      its key. */
  lemma DetectShellTools(defs: seq<StackDefinition>, present: FileName -> bool, onPath: string -> bool)
    requires WellFormed(defs)
    ensures var scan := DetectStacks(defs, present, onPath);
      && scan.shellTools == CheckShellTools(onPath)
      && Find(scan.results, ShellTools) ==
        if |scan.shellTools.installed| > 0
        then Some(StackReport(true, scan.shellTools.installed, |ShellToolNames|, Some(scan.shellTools.missing)))
        else None
  {
    var scan := DetectStacks(defs, present, onPath);
    var table := ScanTable(defs, present);
    ScanTableNames(defs, present);
    if |scan.shellTools.installed| > 0 {
      FindSnoc(table, ShellToolsEntry(scan.shellTools)[0], ShellTools);
    } else {
      assert scan.results == table;
      FindAbsent(table, ShellTools);
    }
  }

  /** Every known stack is reported exactly as scanning it alone would report it: present iff
      one of its indicators exists, with the existing indicators in definition order. */
  lemma DetectKnownStack(defs: seq<StackDefinition>, present: FileName -> bool, onPath: string -> bool, i: nat)
    requires WellFormed(defs) && i < |defs|
    ensures Find(DetectStacks(defs, present, onPath).results, defs[i].name)
      == ScanStack(defs[i].indicators, present)
  {
    var table := ScanTable(defs, present);
    var tools := CheckShellTools(onPath);
    ScanTableFind(defs, present, i);
    assert defs[i].name != ShellTools by {
      assert StackNames(defs)[i] == defs[i].name;
    }
    if |tools.installed| > 0 {
      FindSnoc(table, ShellToolsEntry(tools)[0], defs[i].name);
    } else {
      assert DetectStacks(defs, present, onPath).results == table;
    }
  }

  /** Appending an optional extra key after keys taken in order from `known` gives keys
      taken in order from `known + [key]`. */
  lemma AppendKey(known: seq<string>, prefix: seq<string>, last: seq<string>, key: string)
    requires NoDup(known) && key !in known
    requires prefix == Filter(known, Among(prefix))
    requires last == [] || last == [key]
    ensures NoDup(prefix + last)
    ensures prefix + last == Filter(known + [key], Among(prefix + last))
  {
    var names := prefix + last;
    FilterNoDup(known, Among(prefix));
    if last == [key] {
      NoDupSnoc(prefix, key);
    } else {
      assert names == prefix;
    }
    FilterAppend(known, [key], Among(names));
    forall n | n in known
      ensures Among(names)(n) == Among(prefix)(n)
    {
    }
    FilterCongruence(known, Among(names), Among(prefix));
    FilterSingleton(key, Among(names));
    if last == [key] {
      assert names[|prefix|] == key;
    }
  }

  /** The keys of the output: known names only, each once, in definition order, with
      shell-tools last. */
  lemma DetectKeys(defs: seq<StackDefinition>, present: FileName -> bool, onPath: string -> bool)
    requires WellFormed(defs)
    ensures var names := Names(DetectStacks(defs, present, onPath).results);
      && (forall n :: n in names ==> n in StackNames(defs) || n == ShellTools)
      && NoDup(names)
      && names == Filter(StackNames(defs) + [ShellTools], Among(names))
  {
    var scan := DetectStacks(defs, present, onPath);
    var table := ScanTable(defs, present);
    var entry := ShellToolsEntry(scan.shellTools);
    ScanTableNames(defs, present);
    ScanTableOrder(defs, present);
    assert Names(scan.results) == Names(table) + Names(entry);
    assert Names(entry) == [] || Names(entry) == [ShellTools];
    AppendKey(StackNames(defs), Names(table), Names(entry), ShellTools);
  }

  /** Every entry is marked detected and has a confidence in (0, 1]. */
  lemma DetectReports(defs: seq<StackDefinition>, present: FileName -> bool, onPath: string -> bool)
    ensures forall e :: e in DetectStacks(defs, present, onPath).results ==>
      e.report.detected && e.report.total > 0 && 0.0 < e.report.Confidence() <= 1.0
  {
    var scan := DetectStacks(defs, present, onPath);
    var entry := ShellToolsEntry(scan.shellTools);
    ScanTableReports(defs, present);
    if |entry| > 0 {
      RatioBounds(|scan.shellTools.installed|, |ShellToolNames|);
    }
  }

  /** Every entry of a table scan is a detected report with a meaningful confidence. */
  lemma {:induction false} ScanTableReports(defs: seq<StackDefinition>, present: FileName -> bool)
    ensures forall e :: e in ScanTable(defs, present) ==>
      e.report.detected && e.report.total > 0 && 0.0 < e.report.Confidence() <= 1.0
    decreases |defs|
  {
    if |defs| > 0 {
      ScanTableReports(defs[..|defs| - 1], present);
    }
  }

  /** More existing files never lose a stack and never lower its confidence. */
  lemma DetectMonotone(defs: seq<StackDefinition>, present: FileName -> bool, more: FileName -> bool, onPath: string -> bool, i: nat)
    requires forall f :: present(f) ==> more(f)
    requires WellFormed(defs) && i < |defs|
    ensures var before := Find(DetectStacks(defs, present, onPath).results, defs[i].name);
      var after := Find(DetectStacks(defs, more, onPath).results, defs[i].name);
      before.Some? ==>
        && after.Some?
        && 0 < before.value.total == after.value.total
        && before.value.Confidence() <= after.value.Confidence()
  {
    var inds := defs[i].indicators;
    DetectKnownStack(defs, present, onPath, i);
    DetectKnownStack(defs, more, onPath, i);
    var before := ScanStack(inds, present);
    var after := ScanStack(inds, more);
    if before.Some? {
      var f :| f in inds && present(f);
      assert more(f);
      assert after.Some?;
      FilterMonotone(inds, present, more);
      RatioMonotone(|before.value.indicators|, |after.value.indicators|, |inds|);
    }
  }

  /** A stack's entry depends only on whether its own indicator files exist. */
  lemma DetectLocal(defs: seq<StackDefinition>, present: FileName -> bool, other: FileName -> bool, onPath: string -> bool, i: nat)
    requires WellFormed(defs) && i < |defs|
    requires forall f :: f in defs[i].indicators ==> present(f) == other(f)
    ensures Find(DetectStacks(defs, present, onPath).results, defs[i].name)
      == Find(DetectStacks(defs, other, onPath).results, defs[i].name)
  {
    DetectKnownStack(defs, present, onPath, i);
    DetectKnownStack(defs, other, onPath, i);
    FilterCongruence(defs[i].indicators, present, other);
  }
}
