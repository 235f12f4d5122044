/**
 * The workspace build-test orchestrator: it plans `cargo` invocations for
 * every registered crate, scans their output for warning lines, keeps
 * pass/fail/warning counters and prints a final verdict.
 *
 * Running a process is not modelled: the environment is a function `run`
 * from the position of an invocation in the session and the invocation
 * itself to what the process did.
 */
module BuildTest {
  import opened Wrappers

  // ---------------------------------------------------------------------
  // Text helpers with Python's meaning
  // ---------------------------------------------------------------------

  /** `str.isspace` restricted to ASCII (space, \t \n \v \f \r, and \x1c-\x1f). */
  predicate IsSpace(c: char) {
    c == ' ' || (9 <= c as int <= 13) || (28 <= c as int <= 31)
  }

  /** `str.lower` on ASCII letters. */
  function LowerChar(c: char): (r: char)
    ensures 'A' <= c <= 'Z' ==> 'a' <= r <= 'z'
    ensures !('A' <= c <= 'Z') ==> r == c
  {
    if 'A' <= c <= 'Z' then (c as int + 32) as char else c
  }

  function Lower(s: string): string {
    if s == [] then [] else [LowerChar(s[0])] + Lower(s[1..])
  }

  function StripLeft(s: string): string {
    if s != [] && IsSpace(s[0]) then StripLeft(s[1..]) else s
  }

  function StripRight(s: string): string {
    if s != [] && IsSpace(s[|s| - 1]) then StripRight(s[..|s| - 1]) else s
  }

  /** `str.strip()`: the input without its leading and trailing white space. */
  function Strip(s: string): string {
    StripRight(StripLeft(s))
  }

  lemma {:induction false} StripLeftDrops(s: string)
    ensures var r := StripLeft(s);
      |r| <= |s| && r == s[|s| - |r|..]
      && (forall i :: 0 <= i < |s| - |r| ==> IsSpace(s[i]))
      && (r != [] ==> !IsSpace(r[0]))
  {
    if s != [] && IsSpace(s[0]) {
      var t := s[1..];
      StripLeftDrops(t);
      var r := StripLeft(t);
      assert StripLeft(s) == r;
      assert t[|t| - |r|..] == s[|s| - |r|..];
      forall i | 0 <= i < |s| - |r| ensures IsSpace(s[i]) {
        if i > 0 {
          assert s[i] == t[i - 1];
        }
      }
    }
  }

  lemma {:induction false} StripRightDrops(s: string)
    ensures var r := StripRight(s);
      |r| <= |s| && r == s[..|r|]
      && (forall i :: |r| <= i < |s| ==> IsSpace(s[i]))
      && (r != [] ==> !IsSpace(r[|r| - 1]))
  {
    if s != [] && IsSpace(s[|s| - 1]) {
      StripRightDrops(s[..|s| - 1]);
    }
  }

  /**
   * Strip(s) is the infix s[i..j] that remains once the white space before i
   * and after j is removed, and it neither starts nor ends with white space.
   */
  lemma StripIsTrimmedInfix(s: string)
    ensures exists i, j :: (0 <= i <= j <= |s| && Strip(s) == s[i..j]
      && (forall k :: 0 <= k < i ==> IsSpace(s[k]))
      && (forall k :: j <= k < |s| ==> IsSpace(s[k])))
    ensures Strip(s) != [] ==> !IsSpace(Strip(s)[0]) && !IsSpace(Strip(s)[|Strip(s)| - 1])
  {
    var l := StripLeft(s);
    StripLeftDrops(s);
    StripRightDrops(l);
    var i := |s| - |l|;
    var j := i + |Strip(s)|;
    assert Strip(s) == s[i..j];
    forall k | j <= k < |s| ensures IsSpace(s[k]) {
      assert s[k] == l[k - i];
    }
  }

  function StartsWith(s: string, p: string): bool {
    |p| <= |s| && s[..|p|] == p
  }

  /** `p in s` for strings. */
  predicate Contains(s: string, p: string) {
    exists i | 0 <= i <= |s| :: StartsWith(s[i..], p)
  }

  /** `s.split('\n')`: always at least one piece, none containing '\n'. */
  function SplitLines(s: string): (r: seq<string>)
    ensures |r| >= 1
  {
    if s == [] then [""]
    else
      var rest := SplitLines(s[1..]);
      if s[0] == '\n' then [""] + rest else [[s[0]] + rest[0]] + rest[1..]
  }

  /** `'\n'.join(lines)`, the inverse of SplitLines. */
  function JoinLines(lines: seq<string>): string
    requires |lines| >= 1
  {
    if |lines| == 1 then lines[0] else lines[0] + "\n" + JoinLines(lines[1..])
  }

  lemma {:induction false} SplitJoin(s: string)
    ensures JoinLines(SplitLines(s)) == s
  {
    if s != [] {
      SplitJoin(s[1..]);
      var rest := SplitLines(s[1..]);
      if s[0] != '\n' {
        var r := SplitLines(s);
        assert r[1..] == rest[1..];
        if |rest| == 1 {
          assert JoinLines(r) == [s[0]] + rest[0];
        } else {
          assert JoinLines(r) == [s[0]] + rest[0] + "\n" + JoinLines(rest[1..]);
        }
      }
    }
  }

  // ---------------------------------------------------------------------
  // Warning detection (detect_warnings)
  // ---------------------------------------------------------------------

  const Markers: seq<string> :=
    ["warning:", "unused", "dead_code", "deprecated", "unreachable_code", "non_snake_case"]

  predicate IsWarningLine(line: string) {
    exists m :: 0 <= m < |Markers| && Contains(Lower(line), Markers[m])
  }

  /** The stripped warning lines of `lines`, in order. */
  function WarningLines(lines: seq<string>): seq<string> {
    if lines == [] then []
    else
      var last := lines[|lines| - 1];
      WarningLines(lines[..|lines| - 1]) + (if IsWarningLine(last) then [Strip(last)] else [])
  }

  /** The positions of the warning lines of `lines`, in increasing order. */
  function WarningPositions(lines: seq<string>): seq<nat> {
    if lines == [] then []
    else
      var n := |lines| - 1;
      WarningPositions(lines[..n]) + (if IsWarningLine(lines[n]) then [n] else [])
  }

  lemma {:induction false} WarningPositionsBounded(lines: seq<string>)
    ensures var p := WarningPositions(lines);
      |p| <= |lines|
      && (forall k :: 0 <= k < |p| ==> p[k] < |lines|)
      && (forall k, l :: 0 <= k < l < |p| ==> p[k] < p[l])
  {
    if lines != [] {
      WarningPositionsBounded(lines[..|lines| - 1]);
    }
  }

  lemma {:induction false} WarningPositionsExact(lines: seq<string>, i: nat)
    requires i < |lines|
    ensures i in WarningPositions(lines) <==> IsWarningLine(lines[i])
  {
    var n := |lines| - 1;
    WarningPositionsBounded(lines[..n]);
    if i < n {
      WarningPositionsExact(lines[..n], i);
      assert lines[..n][i] == lines[i];
    }
  }

  lemma {:induction false} WarningLinesAtPositions(lines: seq<string>)
    ensures var w, p := WarningLines(lines), WarningPositions(lines);
      |w| == |p| && forall k :: 0 <= k < |p| ==> p[k] < |lines| && w[k] == Strip(lines[p[k]])
  {
    if lines != [] {
      var n := |lines| - 1;
      WarningLinesAtPositions(lines[..n]);
      WarningPositionsBounded(lines[..n]);
      var p0 := WarningPositions(lines[..n]);
      forall k | 0 <= k < |p0| ensures lines[..n][p0[k]] == lines[p0[k]] {
      }
    }
  }

  /**
   * The warnings are exactly the warning lines, one entry per line and in
   * line order: entry k is the stripped line at position P[k], P increases
   * strictly, and a position occurs in P iff its line contains a marker.
   */
  lemma WarningLinesExact(lines: seq<string>)
    ensures var w, p := WarningLines(lines), WarningPositions(lines);
      |w| == |p| <= |lines|
      && (forall k :: 0 <= k < |p| ==> p[k] < |lines| && w[k] == Strip(lines[p[k]]))
      && (forall k, l :: 0 <= k < l < |p| ==> p[k] < p[l])
      && (forall i :: 0 <= i < |lines| ==> (i in p <==> IsWarningLine(lines[i])))
  {
    WarningPositionsBounded(lines);
    WarningLinesAtPositions(lines);
    forall i | 0 <= i < |lines| ensures i in WarningPositions(lines) <==> IsWarningLine(lines[i]) {
      WarningPositionsExact(lines, i);
    }
  }

  method DetectWarnings(stdout: string, stderr: string) returns (warnings: seq<string>)
    ensures warnings == WarningLines(SplitLines(stdout + "\n" + stderr))
  {
    var lines := SplitLines(stdout + "\n" + stderr);
    warnings := [];
    var i := 0;
    while i < |lines|
      invariant 0 <= i <= |lines|
      invariant warnings == WarningLines(lines[..i])
    {
      var low := Lower(lines[i]);
      var j := 0;
      while j < |Markers|
        invariant 0 <= j <= |Markers|
        invariant warnings == WarningLines(lines[..i])
        invariant forall m :: 0 <= m < j ==> !Contains(low, Markers[m])
      {
        if Contains(low, Markers[j]) {
          warnings := warnings + [Strip(lines[i])];
          break;
        }
        j := j + 1;
      }
      assert lines[..i + 1][..i] == lines[..i];
      i := i + 1;
    }
    assert lines[..i] == lines;
  }

  /** The warnings of one build never outnumber the lines of its output. */
  lemma DetectedWarningsBound(stdout: string, stderr: string)
    ensures var lines := SplitLines(stdout + "\n" + stderr);
      var w := WarningLines(lines);
      |w| <= |lines| && forall k :: 0 <= k < |w| ==> exists i :: 0 <= i < |lines| && w[k] == Strip(lines[i])
  {
    var lines := SplitLines(stdout + "\n" + stderr);
    WarningLinesExact(lines);
    var w, p := WarningLines(lines), WarningPositions(lines);
    forall k | 0 <= k < |w| ensures exists i :: 0 <= i < |lines| && w[k] == Strip(lines[i]) {
      assert w[k] == Strip(lines[p[k]]);
    }
  }

  // ---------------------------------------------------------------------
  // Commands and process outcomes
  // ---------------------------------------------------------------------

  datatype Cwd = WorkspaceRoot | ModuleDir(pkg: string)

  /** A command the tester issues: the workspace clean, or a recorded build. */
  datatype Step =
    | Clean
    | Build(cmd: seq<string>, cwd: Cwd, description: string)

  /** What the operating system reports for one process. */
  datatype ProcessOutcome =
    | Exited(code: int, stdout: string, stderr: string)
    | TimedOut
    | Raised(message: string)

  datatype CommandResult = CommandResult(success: bool, stdout: string, stderr: string)

  /** run_command: success iff exit code 0, output stripped; failures give fixed messages. */
  /** The process ran to completion with exit status 0. */
  predicate ExitedZero(o: ProcessOutcome) {
    o.Exited? && o.code == 0
  }

  function RunCommand(o: ProcessOutcome): (r: CommandResult)
    ensures r.success <==> ExitedZero(o)
    ensures o.Exited? ==> r.stdout == Strip(o.stdout) && r.stderr == Strip(o.stderr)
    ensures o.TimedOut? ==> r == CommandResult(false, "", "Command timed out after 5 minutes")
    ensures o.Raised? ==> r == CommandResult(false, "", "Command failed: " + o.message)
  {
    match o
    case Exited(code, out, err) => CommandResult(code == 0, Strip(out), Strip(err))
    case TimedOut => CommandResult(false, "", "Command timed out after 5 minutes")
    case Raised(m) => CommandResult(false, "", "Command failed: " + m)
  }

  /** Python truthiness of an optional string argument. */
  predicate Given(o: Option<string>) {
    o.Some? && o.value != ""
  }

  /** test_workspace_build's argument vector. */
  function WorkspaceCmd(pkg: string, example: Option<string>, features: Option<string>): seq<string> {
    ["cargo", "build"]
    + (if Given(example) then ["--example", example.value] else ["-p", pkg])
    + (if Given(features) then ["--features", features.value] else [])
    + ["--release"]
  }

  /** test_module_build's argument vector: like the workspace one without `-p`. */
  function ModuleCmd(example: Option<string>, features: Option<string>): seq<string> {
    ["cargo", "build"]
    + (if Given(example) then ["--example", example.value] else [])
    + (if Given(features) then ["--features", features.value] else [])
    + ["--release"]
  }

  function Describe(prefix: string, pkg: string, example: Option<string>): string {
    prefix + pkg + (if Given(example) then " (example: " + example.value + ")" else "")
  }

  function WorkspaceBuild(pkg: string, example: Option<string>, features: Option<string>): Step {
    Build(WorkspaceCmd(pkg, example, features), WorkspaceRoot, Describe("Workspace build: ", pkg, example))
  }

  function ModuleBuild(pkg: string, example: Option<string>, features: Option<string>): Step {
    Build(ModuleCmd(example, features), ModuleDir(pkg), Describe("Module build: ", pkg, example))
  }

  function BinaryBuild(pkg: string, binary: string): Step {
    Build(["cargo", "build", "--release", "--bin", binary], WorkspaceRoot,
          "Workspace build: " + pkg + " (binary: " + binary + ")")
  }

  /** What a workspace argument vector asks for: the target flag and name, and the features. */
  datatype BuildRequest = BuildRequest(targetFlag: string, target: string, features: Option<string>)

  function ParseWorkspaceCmd(cmd: seq<string>): Option<BuildRequest> {
    if |cmd| == 5 && cmd[..2] == ["cargo", "build"] && cmd[4] == "--release" then
      Some(BuildRequest(cmd[2], cmd[3], None))
    else if |cmd| == 7 && cmd[..2] == ["cargo", "build"] && cmd[4] == "--features" && cmd[6] == "--release" then
      Some(BuildRequest(cmd[2], cmd[3], Some(cmd[5])))
    else None
  }

  /**
   * The workspace argument vector is `cargo build`, then `--example E` or
   * `-p M`, then `--features F` when features are given, and `--release`
   * last: parsing it back recovers exactly that request.
   */
  lemma WorkspaceCmdLayout(pkg: string, example: Option<string>, features: Option<string>)
    ensures ParseWorkspaceCmd(WorkspaceCmd(pkg, example, features)) ==
      Some(BuildRequest(
        if Given(example) then "--example" else "-p",
        if Given(example) then example.value else pkg,
        if Given(features) then Some(features.value) else None))
  {
    var cmd := WorkspaceCmd(pkg, example, features);
    assert cmd[..2] == ["cargo", "build"];
  }

  // ---------------------------------------------------------------------
  // Results and counters (record_result)
  // ---------------------------------------------------------------------

  /** One entry of `results`; its warnings are the warning lines of its output. */
  datatype Record = Record(description: string, success: bool, stdout: string, stderr: string)
  {
    function Warnings(): seq<string> {
      WarningLines(SplitLines(stdout + "\n" + stderr))
    }
  }

  function MakeRecord(description: string, r: CommandResult): Record {
    Record(description, r.success, r.stdout, r.stderr)
  }

  function CountPassed(rs: seq<Record>): nat {
    if rs == [] then 0 else CountPassed(rs[..|rs| - 1]) + (if rs[|rs| - 1].success then 1 else 0)
  }

  function CountFailed(rs: seq<Record>): nat {
    if rs == [] then 0 else CountFailed(rs[..|rs| - 1]) + (if rs[|rs| - 1].success then 0 else 1)
  }

  function SumWarnings(rs: seq<Record>): nat {
    if rs == [] then 0 else SumWarnings(rs[..|rs| - 1]) + |rs[|rs| - 1].Warnings()|
  }

  /** Every record is either a pass or a failure. */
  lemma {:induction false} PassedPlusFailed(rs: seq<Record>)
    ensures CountPassed(rs) + CountFailed(rs) == |rs|
  {
    if rs != [] {
      PassedPlusFailed(rs[..|rs| - 1]);
    }
  }

  /** No failures is the same as every record succeeding. */
  lemma {:induction false} NoFailedIffAllSucceeded(rs: seq<Record>)
    ensures CountFailed(rs) == 0 <==> forall k :: 0 <= k < |rs| ==> rs[k].success
  {
    if rs != [] {
      var init := rs[..|rs| - 1];
      NoFailedIffAllSucceeded(init);
      assert forall k :: 0 <= k < |init| ==> init[k] == rs[k];
    }
  }

  /** No warnings counted is the same as every record having no warnings. */
  lemma {:induction false} NoWarningsIffAllClean(rs: seq<Record>)
    ensures SumWarnings(rs) == 0 <==> forall k :: 0 <= k < |rs| ==> rs[k].Warnings() == []
  {
    if rs != [] {
      var init := rs[..|rs| - 1];
      NoWarningsIffAllClean(init);
      assert forall k :: 0 <= k < |init| ==> init[k] == rs[k];
    }
  }

  // ---------------------------------------------------------------------
  // The module registry and the test plan (test_all_modules)
  // ---------------------------------------------------------------------

  datatype ModuleConfig = ModuleConfig(
    name: string,
    examples: seq<string>,
    features: Option<string>,
    featuresExamples: seq<string>,
    binaries: seq<string>,
    testOnly: bool)

  function Registry(): seq<ModuleConfig> {
    [ ModuleConfig("blinky", [], None, [], [], false),
      ModuleConfig("bme280-embassy", ["basic_reading", "full_system", "hal_integration"], None, [], [], false),
      ModuleConfig("wifi-embassy", ["simple_connect", "wifi_test", "wifi_test_new", "wifi_mqtt_test"], None, [], [], false),
      ModuleConfig("wifi-synchronous", ["simple_wifi_sync", "wifi_manager_sync"], None, [], [], false),
      ModuleConfig("serial-console-embassy",
        ["basic_console", "simple_working_console", "direct_usb_console", "usb_bridge_console", "system_console"],
        None, ["system_console"], [], false),
      ModuleConfig("mqtt-embassy", ["basic_mqtt", "mqtt_test", "mqtt_test_working"], Some("examples"), [], [], false),
      ModuleConfig("main-app", [], None, [], ["main", "main_container"], false),
      ModuleConfig("iot-common", ["error_conversion", "error_handling"], None, [], [], false),
      ModuleConfig("iot-container", [], None, [], [], true),
      ModuleConfig("iot-hal", [], None, [], [], true),
      ModuleConfig("iot-performance", [], None, [], [], true),
      ModuleConfig("bme280-tests", [], None, [], [], true) ]
  }

  /** The features an example is built with: "full" for the listed ones. */
  function ExampleFeatures(m: ModuleConfig, example: string): Option<string> {
    if example in m.featuresExamples then Some("full") else m.features
  }

  /** test_module_build issues nothing when the module folder is missing. */
  function ModuleBuildSteps(pkg: string, example: Option<string>, features: Option<string>, present: bool): seq<Step> {
    if present then [ModuleBuild(pkg, example, features)] else []
  }

  function LibrarySteps(m: ModuleConfig, present: bool): seq<Step> {
    if m.examples == [] && m.binaries == [] then
      [WorkspaceBuild(m.name, None, m.features), Clean] + ModuleBuildSteps(m.name, None, m.features, present)
    else []
  }

  function BinarySteps(pkg: string, binaries: seq<string>): seq<Step> {
    if binaries == [] then []
    else
      var b := binaries[|binaries| - 1];
      BinarySteps(pkg, binaries[..|binaries| - 1]) + BinaryTail(pkg, b)
  }

  /** A clean and a build for one binary, nothing for main_container. */
  function BinaryTail(pkg: string, b: string): seq<Step> {
    if b == "main_container" then [] else [Clean, BinaryBuild(pkg, b)]
  }

  function ExampleWorkspaceSteps(m: ModuleConfig, examples: seq<string>): seq<Step> {
    if examples == [] then []
    else
      var e := examples[|examples| - 1];
      ExampleWorkspaceSteps(m, examples[..|examples| - 1])
      + [Clean, WorkspaceBuild(m.name, Some(e), ExampleFeatures(m, e))]
  }

  function ExampleModuleSteps(m: ModuleConfig, examples: seq<string>, present: bool): seq<Step> {
    if examples == [] then []
    else
      var e := examples[|examples| - 1];
      ExampleModuleSteps(m, examples[..|examples| - 1], present)
      + ([Clean] + ModuleBuildSteps(m.name, Some(e), ExampleFeatures(m, e), present))
  }

  /** The steps of one more binary, `binaries[i]`, follow those of the ones before it. */
  lemma BinaryStepsPrefix(pkg: string, binaries: seq<string>, i: nat)
    requires i < |binaries|
    ensures BinarySteps(pkg, binaries[..i + 1]) == BinarySteps(pkg, binaries[..i]) + BinaryTail(pkg, binaries[i])
  {
    assert binaries[..i + 1][..i] == binaries[..i];
  }

  lemma ExampleWorkspaceStepsPrefix(m: ModuleConfig, examples: seq<string>, i: nat)
    requires i < |examples|
    ensures ExampleWorkspaceSteps(m, examples[..i + 1]) ==
      ExampleWorkspaceSteps(m, examples[..i]) + [Clean, WorkspaceBuild(m.name, Some(examples[i]), ExampleFeatures(m, examples[i]))]
  {
    assert examples[..i + 1][..i] == examples[..i];
  }

  lemma ExampleModuleStepsPrefix(m: ModuleConfig, examples: seq<string>, i: nat, present: bool)
    requires i < |examples|
    ensures ExampleModuleSteps(m, examples[..i + 1], present) ==
      ExampleModuleSteps(m, examples[..i], present)
      + ([Clean] + ModuleBuildSteps(m.name, Some(examples[i]), ExampleFeatures(m, examples[i]), present))
  {
    assert examples[..i + 1][..i] == examples[..i];
  }

  /** What one module issues after its opening clean succeeded. */
  function ModuleSteps(m: ModuleConfig, present: bool): seq<Step> {
    if m.testOnly then []
    else
      LibrarySteps(m, present) + BinarySteps(m.name, m.binaries)
      + ExampleWorkspaceSteps(m, m.examples) + ExampleModuleSteps(m, m.examples, present)
  }

  /** Everything one module issues, starting at session position `start`. */
  function ModuleSession(m: ModuleConfig, dirs: set<string>, run: (nat, Step) -> ProcessOutcome, start: nat): seq<Step> {
    [Clean] + (if ExitedZero(run(start, Clean)) then ModuleSteps(m, m.name in dirs) else [])
  }

  /** Everything test_all_modules issues for `mods`, starting at position `start`. */
  function Session(mods: seq<ModuleConfig>, dirs: set<string>, run: (nat, Step) -> ProcessOutcome, start: nat): seq<Step> {
    if mods == [] then []
    else
      var p := Session(mods[..|mods| - 1], dirs, run, start);
      p + ModuleSession(mods[|mods| - 1], dirs, run, start + |p|)
  }

  lemma AppendAssoc4(a: seq<Step>, b: seq<Step>, c: seq<Step>, d: seq<Step>, e: seq<Step>)
    ensures a + b + c + d + e == a + (b + c + d + e)
  {
  }

  /** The record one step issued at session position `pos` produces: none for a clean. */
  function StepRecords(s: Step, run: (nat, Step) -> ProcessOutcome, pos: nat): seq<Record> {
    if s.Build? then [MakeRecord(s.description, RunCommand(run(pos, s)))] else []
  }

  /** One more module extends the session by that module's own steps, issued where the session ended. */
  lemma SessionStep(mods: seq<ModuleConfig>, i: nat, dirs: set<string>, run: (nat, Step) -> ProcessOutcome,
                    start: nat, pos: nat)
    requires i < |mods| && pos == start + |Session(mods[..i], dirs, run, start)|
    ensures Session(mods[..i + 1], dirs, run, start)
      == Session(mods[..i], dirs, run, start) + ModuleSession(mods[i], dirs, run, pos)
  {
    assert mods[..i + 1][..i] == mods[..i];
  }

  lemma AppendAssoc3(a: seq<Step>, b: seq<Step>, c: seq<Step>)
    ensures a + b + c == a + (b + c)
  {
  }

  /** `f` applied to each element of `xs` at its position counted from `start`, concatenated. */
  function ConcatAt<S, T>(xs: seq<S>, f: (S, nat) -> seq<T>, start: nat): seq<T>
    decreases |xs|
  {
    if xs == [] then [] else f(xs[0], start) + ConcatAt(xs[1..], f, start + 1)
  }

  lemma {:induction false} ConcatAtAppend<S, T>(a: seq<S>, b: seq<S>, f: (S, nat) -> seq<T>, start: nat)
    ensures ConcatAt(a + b, f, start) == ConcatAt(a, f, start) + ConcatAt(b, f, start + |a|)
    decreases |a|
  {
    if a == [] {
      assert a + b == b;
    } else {
      assert (a + b)[1..] == a[1..] + b;
      ConcatAtAppend(a[1..], b, f, start + 1);
    }
  }

  lemma ConcatAtSnoc<S, T>(xs: seq<S>, x: S, f: (S, nat) -> seq<T>, start: nat)
    ensures ConcatAt(xs + [x], f, start) == ConcatAt(xs, f, start) + f(x, start + |xs|)
  {
    ConcatAtAppend(xs, [x], f, start);
    assert ConcatAt([x], f, start + |xs|) == f(x, start + |xs|) + ConcatAt([], f, start + |xs| + 1);
  }

  /** The records that the build steps of `steps`, issued from position `start`, produce. */
  function RecordsOf(steps: seq<Step>, run: (nat, Step) -> ProcessOutcome, start: nat): seq<Record> {
    ConcatAt(steps, Recorder(run), start)
  }

  /** StepRecords as a function of the step and its position. */
  function Recorder(run: (nat, Step) -> ProcessOutcome): (Step, nat) -> seq<Record> {
    (st: Step, pos: nat) => StepRecords(st, run, pos)
  }

  lemma RecordsOfSnoc(steps: seq<Step>, s: Step, run: (nat, Step) -> ProcessOutcome, start: nat)
    ensures RecordsOf(steps + [s], run, start) == RecordsOf(steps, run, start) + StepRecords(s, run, start + |steps|)
  {
    ConcatAtSnoc(steps, s, Recorder(run), start);
  }

  lemma RecordsOfAppend(a: seq<Step>, b: seq<Step>, run: (nat, Step) -> ProcessOutcome, start: nat)
    ensures RecordsOf(a + b, run, start) == RecordsOf(a, run, start) + RecordsOf(b, run, start + |a|)
  {
    ConcatAtAppend(a, b, Recorder(run), start);
  }

  /** Steps that are all cleans produce no record. */
  lemma {:induction false} CleansRecordNothing(steps: seq<Step>, run: (nat, Step) -> ProcessOutcome, start: nat)
    requires forall k :: 0 <= k < |steps| ==> steps[k] == Clean
    ensures RecordsOf(steps, run, start) == []
  {
    if steps != [] {
      var n := |steps| - 1;
      CleansRecordNothing(steps[..n], run, start);
      assert steps[..n] + [steps[n]] == steps;
      RecordsOfSnoc(steps[..n], steps[n], run, start);
    }
  }

  /**
   * A test-only module, and a module whose opening clean fails, add exactly
   * one clean to the session and no record.
   */
  lemma SkippedModuleRecordsNothing(m: ModuleConfig, dirs: set<string>, run: (nat, Step) -> ProcessOutcome, start: nat)
    requires m.testOnly || !RunCommand(run(start, Clean)).success
    ensures ModuleSession(m, dirs, run, start) == [Clean]
    ensures RecordsOf(ModuleSession(m, dirs, run, start), run, start) == []
  {
    CleansRecordNothing([Clean], run, start);
  }

  /** main_container is never built, whatever the binaries list holds. */
  lemma {:induction false} MainContainerSkipped(pkg: string, binaries: seq<string>)
    ensures BinaryBuild(pkg, "main_container") !in BinarySteps(pkg, binaries)
  {
    if binaries != [] {
      var init := binaries[..|binaries| - 1];
      var b := binaries[|binaries| - 1];
      MainContainerSkipped(pkg, init);
      if b != "main_container" {
        assert BinaryBuild(pkg, b).cmd[4] == b;
      }
    }
  }

  /** Each example gives one workspace build, and it uses the example's features. */
  lemma {:induction false} ExampleWorkspaceStepsAt(m: ModuleConfig, examples: seq<string>, k: nat)
    requires k < |examples|
    ensures |ExampleWorkspaceSteps(m, examples)| == 2 * |examples|
    ensures ExampleWorkspaceSteps(m, examples)[2 * k] == Clean
    ensures ExampleWorkspaceSteps(m, examples)[2 * k + 1] ==
      WorkspaceBuild(m.name, Some(examples[k]), ExampleFeatures(m, examples[k]))
  {
    var n := |examples| - 1;
    if k < n {
      ExampleWorkspaceStepsAt(m, examples[..n], k);
    } else if n > 0 {
      ExampleWorkspaceStepsAt(m, examples[..n], 0);
    }
  }

  /** In the registry, system_console is built from the workspace with features "full". */
  lemma SystemConsoleUsesFullFeatures()
    ensures var m := Registry()[4];
      |ExampleWorkspaceSteps(m, m.examples)| == 10 &&
      ExampleWorkspaceSteps(m, m.examples)[9].Build? &&
      ExampleWorkspaceSteps(m, m.examples)[9].cmd ==
        ["cargo", "build", "--example", "system_console", "--features", "full", "--release"]
  {
    var m := Registry()[4];
    assert m.examples[4] == "system_console";
    assert ExampleFeatures(m, "system_console") == Some("full");
    ExampleWorkspaceStepsAt(m, m.examples, 4);
    assert WorkspaceCmd(m.name, Some("system_console"), Some("full"))
        == ["cargo", "build", "--example", "system_console", "--features", "full", "--release"];
  }

  // ---------------------------------------------------------------------
  // The report verdict (generate_report)
  // ---------------------------------------------------------------------

  datatype Verdict = AllPassedClean | AllPassedWithWarnings | BuildIssues

  /** generate_report: a ZeroDivisionError with no tests, else the verdict and its return value. */
  datatype Report = ZeroDivisionError | Finished(verdict: Verdict, succeeded: bool)

  function ReportFor(total: nat, failed: nat, warnings: nat): (r: Report)
    ensures r == ZeroDivisionError <==> total == 0
    ensures r.Finished? ==> (r.succeeded <==> failed == 0)
    ensures r.Finished? ==> (r.verdict == AllPassedClean <==> failed == 0 && warnings == 0)
  {
    if total == 0 then ZeroDivisionError
    else if failed == 0 then Finished(if warnings == 0 then AllPassedClean else AllPassedWithWarnings, true)
    else Finished(BuildIssues, false)
  }

  // ---------------------------------------------------------------------
  // The tester object
  // ---------------------------------------------------------------------

  class BuildTester {
    /** Registered modules, the module folders that exist, and the environment. */
    const modules: seq<ModuleConfig>
    const dirs: set<string>
    const run: (nat, Step) -> ProcessOutcome

    /** Every command issued so far, in order. */
    var issued: seq<Step>
    var results: seq<Record>
    var totalTests: nat
    var passedTests: nat
    var failedTests: nat
    var warningsCount: nat
    var showWarnings: bool

    /** Each counter equals the quantity it names over the records. */
    ghost predicate Counted()
      reads this
    {
      totalTests == |results|
      && passedTests == CountPassed(results)
      && failedTests == CountFailed(results)
      && warningsCount == SumWarnings(results)
    }

    /** The counters are right and the records are those of the builds issued so far. */
    ghost predicate Valid()
      reads this
    {
      Counted() && results == RecordsOf(issued, run, 0)
    }

    constructor (dirs: set<string>, run: (nat, Step) -> ProcessOutcome)
      ensures Valid()
      ensures this.modules == Registry() && this.dirs == dirs && this.run == run
      ensures issued == [] && results == [] && showWarnings
    {
      this.modules := Registry();
      this.dirs := dirs;
      this.run := run;
      issued := [];
      results := [];
      totalTests, passedTests, failedTests, warningsCount := 0, 0, 0, 0;
      showWarnings := true;
    }

    /** record_result: one more record, each counter kept equal to its definition. */
    method RecordResult(description: string, success: bool, stdout: string, stderr: string)
      requires Counted()
      modifies this`results, this`totalTests, this`passedTests, this`failedTests, this`warningsCount
      ensures Counted()
      ensures results == old(results) + [MakeRecord(description, CommandResult(success, stdout, stderr))]
      ensures totalTests == old(totalTests) + 1
      ensures totalTests == passedTests + failedTests
    {
      totalTests := totalTests + 1;
      var warnings := DetectWarnings(stdout, stderr);
      if warnings != [] {
        warningsCount := warningsCount + |warnings|;
      }
      if success {
        passedTests := passedTests + 1;
      } else {
        failedTests := failedTests + 1;
      }
      var rec := Record(description, success, stdout, stderr);
      assert rec.Warnings() == warnings;
      assert (results + [rec])[..|results|] == results;
      results := results + [rec];
      PassedPlusFailed(results);
    }

    /** run_command for one step, then record_result when the step is a build. */
    method Issue(s: Step) returns (success: bool)
      requires Valid()
      modifies this`issued, this`results, this`totalTests, this`passedTests, this`failedTests, this`warningsCount
      ensures Valid() && issued == old(issued) + [s]
      ensures results == old(results) + StepRecords(s, run, |old(issued)|)
      ensures success == RunCommand(run(|old(issued)|, s)).success
    {
      var r := RunCommand(run(|issued|, s));
      ghost var is0, rs0 := issued, results;
      RecordsOfSnoc(is0, s, run, 0);
      if s.Build? {
        RecordResult(s.description, r.success, r.stdout, r.stderr);
        assert CommandResult(r.success, r.stdout, r.stderr) == r;
      }
      issued := issued + [s];
      assert results == rs0 + StepRecords(s, run, |is0|);
      success := r.success;
    }

    /** clean_workspace: a `cargo clean` at the workspace root, never recorded. */
    method CleanWorkspace() returns (success: bool)
      requires Valid()
      modifies this`issued, this`results, this`totalTests, this`passedTests, this`failedTests, this`warningsCount
      ensures Valid() && issued == old(issued) + [Clean] && results == old(results)
      ensures success == RunCommand(run(|old(issued)|, Clean)).success
    {
      success := Issue(Clean);
    }

    /** test_workspace_build: one workspace build, recorded under its description, returning the build's success. */
    method TestWorkspaceBuild(pkg: string, example: Option<string>, features: Option<string>) returns (success: bool)
      requires Valid()
      modifies this`issued, this`results, this`totalTests, this`passedTests, this`failedTests, this`warningsCount
      ensures Valid() && issued == old(issued) + [WorkspaceBuild(pkg, example, features)]
      ensures results == old(results) +
        [MakeRecord(Describe("Workspace build: ", pkg, example),
                    RunCommand(run(|old(issued)|, WorkspaceBuild(pkg, example, features))))]
      ensures success == RunCommand(run(|old(issued)|, WorkspaceBuild(pkg, example, features))).success
    {
      success := Issue(WorkspaceBuild(pkg, example, features));
    }

    /** test_module_build: a missing module folder returns false and issues and records nothing. */
    method TestModuleBuild(pkg: string, example: Option<string>, features: Option<string>) returns (success: bool)
      requires Valid()
      modifies this`issued, this`results, this`totalTests, this`passedTests, this`failedTests, this`warningsCount
      ensures Valid() && issued == old(issued) + ModuleBuildSteps(pkg, example, features, pkg in dirs)
      ensures pkg !in dirs ==> !success && issued == old(issued) && results == old(results)
    {
      if pkg !in dirs {
        assert issued + [] == issued;
        return false;
      }
      success := Issue(ModuleBuild(pkg, example, features));
    }

    /** One binary target: main_container is skipped, any other is cleaned for and built. */
    method TestBinary(pkg: string, binary: string)
      requires Valid()
      modifies this`issued, this`results, this`totalTests, this`passedTests, this`failedTests, this`warningsCount
      ensures Valid()
      ensures issued == old(issued) + BinaryTail(pkg, binary)
    {
      if binary == "main_container" {
        assert issued + [] == issued;
        return;
      }
      var _ := CleanWorkspace();
      var cmd := ["cargo", "build", "--release", "--bin", binary];
      var description := "Workspace build: " + pkg + " (binary: " + binary + ")";
      var _ := Issue(Build(cmd, WorkspaceRoot, description));
    }

    method TestBinaries(pkg: string, binaries: seq<string>)
      requires Valid()
      modifies this`issued, this`results, this`totalTests, this`passedTests, this`failedTests, this`warningsCount
      ensures Valid() && issued == old(issued) + BinarySteps(pkg, binaries)
    {
      var i := 0;
      assert old(issued) + BinarySteps(pkg, binaries[..0]) == issued;
      while i < |binaries|
        invariant 0 <= i <= |binaries|
        invariant Valid() && issued == old(issued) + BinarySteps(pkg, binaries[..i])
      {
        BinaryStepsPrefix(pkg, binaries, i);
        AppendAssoc3(old(issued), BinarySteps(pkg, binaries[..i]), BinaryTail(pkg, binaries[i]));
        TestBinary(pkg, binaries[i]);
        i := i + 1;
      }
      assert binaries[..i] == binaries;
    }

    /** One example from the workspace root, after a clean; the listed examples get features "full". */
    method TestExampleFromWorkspace(m: ModuleConfig, example: string)
      requires Valid()
      modifies this`issued, this`results, this`totalTests, this`passedTests, this`failedTests, this`warningsCount
      ensures Valid()
      ensures issued == old(issued) + [Clean, WorkspaceBuild(m.name, Some(example), ExampleFeatures(m, example))]
    {
      var _ := CleanWorkspace();
      var features := m.features;
      if example in m.featuresExamples {
        features := Some("full");
      }
      var _ := TestWorkspaceBuild(m.name, Some(example), features);
    }

    method TestExamplesFromWorkspace(m: ModuleConfig)
      requires Valid()
      modifies this`issued, this`results, this`totalTests, this`passedTests, this`failedTests, this`warningsCount
      ensures Valid() && issued == old(issued) + ExampleWorkspaceSteps(m, m.examples)
    {
      var i := 0;
      assert old(issued) + ExampleWorkspaceSteps(m, m.examples[..0]) == issued;
      while i < |m.examples|
        invariant 0 <= i <= |m.examples|
        invariant Valid() && issued == old(issued) + ExampleWorkspaceSteps(m, m.examples[..i])
      {
        ExampleWorkspaceStepsPrefix(m, m.examples, i);
        AppendAssoc3(old(issued), ExampleWorkspaceSteps(m, m.examples[..i]),
                     [Clean, WorkspaceBuild(m.name, Some(m.examples[i]), ExampleFeatures(m, m.examples[i]))]);
        TestExampleFromWorkspace(m, m.examples[i]);
        i := i + 1;
      }
      assert m.examples[..i] == m.examples;
    }

    /** One example from the module folder, after a clean. */
    method TestExampleFromModule(m: ModuleConfig, example: string)
      requires Valid()
      modifies this`issued, this`results, this`totalTests, this`passedTests, this`failedTests, this`warningsCount
      ensures Valid()
      ensures issued == old(issued) + ([Clean] + ModuleBuildSteps(m.name, Some(example), ExampleFeatures(m, example), m.name in dirs))
    {
      var _ := CleanWorkspace();
      var features := m.features;
      if example in m.featuresExamples {
        features := Some("full");
      }
      var _ := TestModuleBuild(m.name, Some(example), features);
    }

    method TestExamplesFromModule(m: ModuleConfig)
      requires Valid()
      modifies this`issued, this`results, this`totalTests, this`passedTests, this`failedTests, this`warningsCount
      ensures Valid() && issued == old(issued) + ExampleModuleSteps(m, m.examples, m.name in dirs)
    {
      var i := 0;
      assert old(issued) + ExampleModuleSteps(m, m.examples[..0], m.name in dirs) == issued;
      while i < |m.examples|
        invariant 0 <= i <= |m.examples|
        invariant Valid() && issued == old(issued) + ExampleModuleSteps(m, m.examples[..i], m.name in dirs)
      {
        ExampleModuleStepsPrefix(m, m.examples, i, m.name in dirs);
        AppendAssoc3(old(issued), ExampleModuleSteps(m, m.examples[..i], m.name in dirs),
                     [Clean] + ModuleBuildSteps(m.name, Some(m.examples[i]), ExampleFeatures(m, m.examples[i]), m.name in dirs));
        TestExampleFromModule(m, m.examples[i]);
        i := i + 1;
      }
      assert m.examples[..i] == m.examples;
    }

    /** A module without examples or binaries: a workspace build, a clean, then a module build. */
    method TestLibrary(m: ModuleConfig)
      requires Valid()
      modifies this`issued, this`results, this`totalTests, this`passedTests, this`failedTests, this`warningsCount
      ensures Valid() && issued == old(issued) + LibrarySteps(m, m.name in dirs)
    {
      if m.examples == [] && m.binaries == [] {
        var _ := TestWorkspaceBuild(m.name, None, m.features);
        var _ := CleanWorkspace();
        var _ := TestModuleBuild(m.name, None, m.features);
      } else {
        assert issued + [] == issued;
      }
    }

    /** The part of test_all_modules for one module, after its opening clean succeeded. */
    method TestModuleTargets(m: ModuleConfig)
      requires Valid()
      modifies this`issued, this`results, this`totalTests, this`passedTests, this`failedTests, this`warningsCount
      ensures Valid() && issued == old(issued) + ModuleSteps(m, m.name in dirs)
    {
      if m.testOnly {
        assert issued + [] == issued;
        return;
      }
      ghost var present := m.name in dirs;
      ghost var lib := LibrarySteps(m, present);
      ghost var bins := BinarySteps(m.name, m.binaries);
      ghost var wss := ExampleWorkspaceSteps(m, m.examples);
      ghost var mods := ExampleModuleSteps(m, m.examples, present);
      TestLibrary(m);
      TestBinaries(m.name, m.binaries);
      TestExamplesFromWorkspace(m);
      TestExamplesFromModule(m);
      assert issued == old(issued) + lib + bins + wss + mods;
      assert ModuleSteps(m, present) == lib + bins + wss + mods;
      AppendAssoc4(old(issued), lib, bins, wss, mods);
    }

    /** One turn of test_all_modules: a clean, then the module's targets if it succeeded. */
    method TestModule(m: ModuleConfig)
      requires Valid()
      modifies this`issued, this`results, this`totalTests, this`passedTests, this`failedTests, this`warningsCount
      ensures Valid() && issued == old(issued) + ModuleSession(m, dirs, run, |old(issued)|)
    {
      ghost var is0 := issued;
      var cleaned := CleanWorkspace();
      ghost var rest := if cleaned then ModuleSteps(m, m.name in dirs) else [];
      assert ModuleSession(m, dirs, run, |is0|) == [Clean] + rest;
      if cleaned {
        TestModuleTargets(m);
        AppendAssoc3(is0, [Clean], rest);
      } else {
        assert issued == is0 + [Clean] + rest;
      }
    }

    /** The loop of test_all_modules over `mods`, in order. */
    method TestModules(mods: seq<ModuleConfig>)
      requires Valid()
      modifies this`issued, this`results, this`totalTests, this`passedTests, this`failedTests, this`warningsCount
      ensures Valid() && issued == old(issued) + Session(mods, dirs, run, |old(issued)|)
    {
      var i := 0;
      assert old(issued) + Session(mods[..0], dirs, run, |old(issued)|) == issued;
      while i < |mods|
        invariant 0 <= i <= |mods|
        invariant Valid() && issued == old(issued) + Session(mods[..i], dirs, run, |old(issued)|)
      {
        ghost var prev := issued;
        SessionStep(mods, i, dirs, run, |old(issued)|, |prev|);
        TestModule(mods[i]);
        AppendAssoc3(old(issued), Session(mods[..i], dirs, run, |old(issued)|), ModuleSession(mods[i], dirs, run, |prev|));
        i := i + 1;
      }
      assert mods[..i] == mods;
    }

    /** test_all_modules: the whole session over the registry, in registry order. */
    method TestAllModules()
      requires Valid()
      modifies this`issued, this`results, this`totalTests, this`passedTests, this`failedTests, this`warningsCount
      ensures Valid()
      ensures issued == old(issued) + Session(modules, dirs, run, |old(issued)|)
      ensures results == old(results) + RecordsOf(Session(modules, dirs, run, |old(issued)|), run, |old(issued)|)
    {
      ghost var is0 := issued;
      RecordsOfAppend(is0, Session(modules, dirs, run, |is0|), run, 0);
      TestModules(modules);
    }

    /** generate_report's outcome from the counters. */
    function GenerateReport(): (r: Report)
      reads this
      requires Valid()
      ensures r == ZeroDivisionError <==> results == []
      ensures r.Finished? ==> (r.succeeded <==> forall k :: 0 <= k < |results| ==> results[k].success)
      ensures r.Finished? && r.succeeded ==>
        (r.verdict == AllPassedClean <==> forall k :: 0 <= k < |results| ==> results[k].Warnings() == [])
    {
      NoFailedIffAllSucceeded(results);
      NoWarningsIffAllClean(results);
      ReportFor(totalTests, failedTests, warningsCount)
    }
  }
}
