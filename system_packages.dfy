/**
 * System package installation: `SystemPackageTool` and the adapters `AptTool`, `YumTool`,
 * `BrewTool` and `NullTool`. Every adapter operation is one shell command whose exit code
 * decides the outcome. The runner that executes a command is a function from the command
 * string to its exit code, fixed when the tool is built.
 */
module SystemPackages {
  import opened Wrappers
  import Strings
  import OSInfo

  /** The adapter a `SystemPackageTool` drives. */
  datatype Tool = Apt | Yum | Brew | Null

  /** The `ConanException`s the tools raise. */
  datatype Error =
    | CommandFailed(command: string)
    | NoPackageAvailable(packages: seq<string>)

  /** Executes a shell command and answers its exit code. */
  type Runner = string -> int

  /** The `packages` argument of `install`: a bare string, or a list of candidate names. */
  datatype Packages = Name(name: string) | Names(names: seq<string>)

  /** A bare string is one candidate; a list is tried in its own order. */
  function Candidates(p: Packages): seq<string> {
    match p
    case Name(n) => [n]
    case Names(ns) => ns
  }

  // ---------------------------------------------------------------------------------------
  // Construction

  /** Adapter selection: apt, then yum, then brew on macOS, else the null adapter. */
  function CreateTool(info: OSInfo.Info): (t: Tool)
    ensures t == Apt <==> OSInfo.WithApt(info)
    ensures t == Yum <==> OSInfo.WithYum(info)
    ensures t == Brew <==> !OSInfo.WithApt(info) && !OSInfo.WithYum(info) && info.isMacos
    ensures t == Null <==> !OSInfo.WithApt(info) && !OSInfo.WithYum(info) && !info.isMacos
  {
    OSInfo.AptYumExclusive(info);
    if OSInfo.WithApt(info) then Apt
    else if OSInfo.WithYum(info) then Yum
    else if info.isMacos then Brew
    else Null
  }

  /**
   * The prefix put before apt and yum commands, from `CONAN_SYSREQUIRES_SUDO`: only the
   * exact values "False" and "0" turn it off; an absent variable keeps it.
   */
  function SudoPrefix(envSudo: Option<string>): (s: string)
    ensures ValidSudo(s)
    ensures s == "" <==> envSudo == Some("False") || envSudo == Some("0")
  {
    if envSudo != Some("False") && envSudo != Some("0") then "sudo " else ""
  }

  predicate ValidSudo(sudo: string) {
    sudo == "" || sudo == "sudo "
  }

  // ---------------------------------------------------------------------------------------
  // Adapter commands (None: the null adapter runs nothing)

  function UpdateCommand(t: Tool, sudo: string): (c: Option<string>)
    ensures c.None? <==> t == Null
  {
    match t
    case Apt => Some(sudo + "apt-get update")
    case Yum => Some(sudo + "yum check-update")
    case Brew => Some("brew update")
    case Null => None
  }

  /** The install command: the package name is its last argument. */
  function InstallCommand(t: Tool, sudo: string, pkg: string): (c: Option<string>)
    ensures c.None? <==> t == Null
    ensures c.Some? ==> Strings.EndsWith(c.value, pkg)
  {
    match t
    case Apt => Strings.ConcatParts(sudo + "apt-get install -y ", pkg); Some(sudo + "apt-get install -y " + pkg)
    case Yum => Strings.ConcatParts(sudo + "yum install -y ", pkg); Some(sudo + "yum install -y " + pkg)
    case Brew => Strings.ConcatParts("brew install ", pkg); Some("brew install " + pkg)
    case Null => None
  }

  /** The installed-check: never prefixed, whatever the sudo setting; apt and yum query the package last. */
  function InstalledCommand(t: Tool, pkg: string): (c: Option<string>)
    ensures c.None? <==> t == Null
    ensures t == Apt || t == Yum ==> Strings.EndsWith(c.value, pkg)
  {
    match t
    case Apt => Strings.ConcatParts("dpkg -s ", pkg); Some("dpkg -s " + pkg)
    case Yum => Strings.ConcatParts("rpm -q ", pkg); Some("rpm -q " + pkg)
    case Brew => Some("test -n \"$(brew ls --versions " + pkg + ")\"")
    case Null => None
  }

  /** The commands a step hands to the runner: none, or the one. */
  function Issued(c: Option<string>): seq<string> {
    if c.Some? then [c.value] else []
  }

  // ---------------------------------------------------------------------------------------
  // Adapter operations

  /** `_run`: fails, naming the command, exactly when the exit code is not zero. */
  function RunCommand(runner: Runner, command: string): (o: Outcome<Error>)
    ensures o.Fail? <==> runner(command) != 0
    ensures o.Fail? ==> o.error == CommandFailed(command)
  {
    if runner(command) != 0 then Fail(CommandFailed(command)) else Pass
  }

  function ToolUpdate(t: Tool, sudo: string, runner: Runner): (o: Outcome<Error>)
    ensures t == Null ==> o == Pass
    ensures t != Null ==> o == RunCommand(runner, UpdateCommand(t, sudo).value)
  {
    match UpdateCommand(t, sudo)
    case None => Pass
    case Some(c) => RunCommand(runner, c)
  }

  /** An install fails only through its command; the null adapter only warns and never fails. */
  function ToolInstall(t: Tool, sudo: string, runner: Runner, pkg: string): (o: Outcome<Error>)
    ensures t == Null ==> o == Pass
    ensures o.Fail? ==> o.error == CommandFailed(InstallCommand(t, sudo, pkg).value)
    ensures t != Null ==> (o.Pass? <==> runner(InstallCommand(t, sudo, pkg).value) == 0)
  {
    match InstallCommand(t, sudo, pkg)
    case None => Pass
    case Some(c) => RunCommand(runner, c)
  }

  /** Installed exactly when the check's exit code is zero; the null adapter never reports installed. */
  function ToolInstalled(t: Tool, runner: Runner, pkg: string): (b: bool)
    ensures t == Null ==> !b
    ensures t != Null ==> (b <==> runner(InstalledCommand(t, pkg).value) == 0)
  {
    match InstalledCommand(t, pkg)
    case None => false
    case Some(c) => runner(c) == 0
  }

  // ---------------------------------------------------------------------------------------
  // What `install` does, as functions of the runner

  /** Index of the first candidate reported installed, or `|pkgs|` when there is none. */
  function FirstInstalled(t: Tool, runner: Runner, pkgs: seq<string>): (k: nat)
    ensures k <= |pkgs|
    ensures forall j :: 0 <= j < k ==> !ToolInstalled(t, runner, pkgs[j])
    ensures k < |pkgs| ==> ToolInstalled(t, runner, pkgs[k])
  {
    if pkgs == [] then 0
    else if ToolInstalled(t, runner, pkgs[0]) then 0
    else 1 + FirstInstalled(t, runner, pkgs[1..])
  }

  /** Index of the first candidate whose install passes, or `|pkgs|` when every one fails. */
  function FirstInstallable(t: Tool, sudo: string, runner: Runner, pkgs: seq<string>): (k: nat)
    ensures k <= |pkgs|
    ensures forall j :: 0 <= j < k ==> ToolInstall(t, sudo, runner, pkgs[j]).Fail?
    ensures k < |pkgs| ==> ToolInstall(t, sudo, runner, pkgs[k]).Pass?
  {
    if pkgs == [] then 0
    else if ToolInstall(t, sudo, runner, pkgs[0]).Pass? then 0
    else 1 + FirstInstallable(t, sudo, runner, pkgs[1..])
  }

  /** How many candidates a scan that stops after hit `k` looks at. */
  function Scanned(k: nat, n: nat): nat {
    if k < n then k + 1 else n
  }

  /** The installed-checks issued for the first `n` candidates, in order. */
  function ProbeCommands(t: Tool, pkgs: seq<string>, n: nat): seq<string>
    requires n <= |pkgs|
  {
    if n == 0 then []
    else ProbeCommands(t, pkgs, n - 1) + Issued(InstalledCommand(t, pkgs[n - 1]))
  }

  /** The install commands issued for the first `n` candidates, in order. */
  function InstallCommands(t: Tool, sudo: string, pkgs: seq<string>, n: nat): seq<string>
    requires n <= |pkgs|
  {
    if n == 0 then []
    else InstallCommands(t, sudo, pkgs, n - 1) + Issued(InstallCommand(t, sudo, pkgs[n - 1]))
  }

  /** `_installed`: the probes stop at the first installed candidate. */
  function ProbeTrace(t: Tool, runner: Runner, pkgs: seq<string>): seq<string> {
    ProbeCommands(t, pkgs, Scanned(FirstInstalled(t, runner, pkgs), |pkgs|))
  }

  /** `_install_any`: one candidate propagates its own error; several fall back in order. */
  function InstallAnyOutcome(t: Tool, sudo: string, runner: Runner, pkgs: seq<string>): Outcome<Error> {
    if |pkgs| == 1 then ToolInstall(t, sudo, runner, pkgs[0])
    else if FirstInstallable(t, sudo, runner, pkgs) < |pkgs| then Pass
    else Fail(NoPackageAvailable(pkgs))
  }

  /** The install attempts stop at the first one that passes. */
  function InstallAnyTrace(t: Tool, sudo: string, runner: Runner, pkgs: seq<string>): seq<string> {
    InstallCommands(t, sudo, pkgs, Scanned(FirstInstallable(t, sudo, runner, pkgs), |pkgs|))
  }

  /** The result of one `install` call: its outcome, the new up-to-date flag and the commands issued. */
  datatype InstallRun = InstallRun(outcome: Outcome<Error>, upToDate: bool, issued: seq<string>)

  function InstallSpec(t: Tool, sudo: string, runner: Runner, upToDate: bool,
                       pkgs: seq<string>, update: bool, force: bool): InstallRun
  {
    if !force && FirstInstalled(t, runner, pkgs) < |pkgs| then
      InstallRun(Pass, upToDate, ProbeTrace(t, runner, pkgs))
    else
      var rest := UpdateThenInstall(t, sudo, runner, upToDate, pkgs, update);
      rest.(issued := (if force then [] else ProbeTrace(t, runner, pkgs)) + rest.issued)
  }

  /** What `install` does once no candidate was found installed (or `force` skipped the probes). */
  function UpdateThenInstall(t: Tool, sudo: string, runner: Runner, upToDate: bool,
                             pkgs: seq<string>, update: bool): InstallRun
  {
    if update && !upToDate then
      var u := ToolUpdate(t, sudo, runner);
      if u.Fail? then InstallRun(u, true, Issued(UpdateCommand(t, sudo)))
      else InstallRun(InstallAnyOutcome(t, sudo, runner, pkgs), true,
                      Issued(UpdateCommand(t, sudo)) + InstallAnyTrace(t, sudo, runner, pkgs))
    else
      InstallRun(InstallAnyOutcome(t, sudo, runner, pkgs), upToDate, InstallAnyTrace(t, sudo, runner, pkgs))
  }

  lemma AppendAssoc(a: seq<string>, b: seq<string>, c: seq<string>)
    ensures a + b + c == a + (b + c)
  {
  }

  // ---------------------------------------------------------------------------------------
  // The tool object

  class SystemPackageTool {
    const tool: Tool
    const sudo: string
    const runner: Runner
    var isUpToDate: bool
    /** Every command handed to the runner so far, in order. */
    ghost var issued: seq<string>

    /**
     * The adapter is the one given, or the one `CreateTool` picks from the host facts;
     * the environment variable `CONAN_SYSREQUIRES_SUDO` is passed in as `envSudo`.
     */
    constructor (runner: Runner, osInfo: OSInfo.Info, tool: Option<Tool>, envSudo: Option<string>)
      ensures this.tool == (if tool.Some? then tool.value else CreateTool(osInfo))
      ensures this.sudo == SudoPrefix(envSudo) && this.runner == runner
      ensures !isUpToDate && issued == []
    {
      this.sudo := SudoPrefix(envSudo);
      this.isUpToDate := false;
      this.tool := if tool.Some? then tool.value else CreateTool(osInfo);
      this.runner := runner;
      this.issued := [];
    }

    method Run(command: string) returns (o: Outcome<Error>)
      modifies this`issued
      ensures o == RunCommand(runner, command)
      ensures issued == old(issued) + [command]
    {
      var code := runner(command);
      issued := issued + [command];
      o := if code != 0 then Fail(CommandFailed(command)) else Pass;
    }

    method ToolUpdateStep() returns (o: Outcome<Error>)
      modifies this`issued
      ensures o == ToolUpdate(tool, sudo, runner)
      ensures issued == old(issued) + Issued(UpdateCommand(tool, sudo))
    {
      match UpdateCommand(tool, sudo)
      case None => o := Pass;
      case Some(c) => o := Run(c);
    }

    method ToolInstallStep(pkg: string) returns (o: Outcome<Error>)
      modifies this`issued
      ensures o == ToolInstall(tool, sudo, runner, pkg)
      ensures issued == old(issued) + Issued(InstallCommand(tool, sudo, pkg))
    {
      match InstallCommand(tool, sudo, pkg)
      case None => o := Pass;
      case Some(c) => o := Run(c);
    }

    method ToolInstalledStep(pkg: string) returns (b: bool)
      modifies this`issued
      ensures b == ToolInstalled(tool, runner, pkg)
      ensures issued == old(issued) + Issued(InstalledCommand(tool, pkg))
    {
      match InstalledCommand(tool, pkg)
      case None => b := false;
      case Some(c) =>
        var code := runner(c);
        issued := issued + [c];
        b := code == 0;
    }

    /** `update`: the flag is set before the command runs, so a failed update stays recorded as done. */
    method Update() returns (o: Outcome<Error>)
      modifies this
      ensures isUpToDate
      ensures o == ToolUpdate(tool, sudo, runner)
      ensures issued == old(issued) + Issued(UpdateCommand(tool, sudo))
    {
      isUpToDate := true;
      o := ToolUpdateStep();
    }

    /** `_installed` */
    method Installed(pkgs: seq<string>) returns (found: bool)
      modifies this`issued
      ensures found <==> FirstInstalled(tool, runner, pkgs) < |pkgs|
      ensures issued == old(issued) + ProbeTrace(tool, runner, pkgs)
    {
      var i := 0;
      while i < |pkgs|
        invariant i <= |pkgs|
        invariant forall j :: 0 <= j < i ==> !ToolInstalled(tool, runner, pkgs[j])
        invariant issued == old(issued) + ProbeCommands(tool, pkgs, i)
      {
        var b := ToolInstalledStep(pkgs[i]);
        AppendAssoc(old(issued), ProbeCommands(tool, pkgs, i), Issued(InstalledCommand(tool, pkgs[i])));
        if b {
          assert FirstInstalled(tool, runner, pkgs) == i;
          return true;
        }
        i := i + 1;
      }
      assert FirstInstalled(tool, runner, pkgs) == |pkgs|;
      return false;
    }

    /** `_install_any` */
    method InstallAny(pkgs: seq<string>) returns (o: Outcome<Error>)
      modifies this`issued
      ensures o == InstallAnyOutcome(tool, sudo, runner, pkgs)
      ensures issued == old(issued) + InstallAnyTrace(tool, sudo, runner, pkgs)
    {
      if |pkgs| == 1 {
        o := ToolInstallStep(pkgs[0]);
        assert InstallCommands(tool, sudo, pkgs, 1) == Issued(InstallCommand(tool, sudo, pkgs[0]));
        return;
      }
      var i := 0;
      while i < |pkgs|
        invariant i <= |pkgs|
        invariant forall j :: 0 <= j < i ==> ToolInstall(tool, sudo, runner, pkgs[j]).Fail?
        invariant issued == old(issued) + InstallCommands(tool, sudo, pkgs, i)
      {
        var r := ToolInstallStep(pkgs[i]);
        AppendAssoc(old(issued), InstallCommands(tool, sudo, pkgs, i), Issued(InstallCommand(tool, sudo, pkgs[i])));
        if r.Pass? {
          assert FirstInstallable(tool, sudo, runner, pkgs) == i;
          return Pass;
        }
        i := i + 1;
      }
      assert FirstInstallable(tool, sudo, runner, pkgs) == |pkgs|;
      o := Fail(NoPackageAvailable(pkgs));
    }

    /** The part of `install` after the probes: update once per instance if asked, then install. */
    method UpdateThenInstallAny(pkgs: seq<string>, update: bool) returns (o: Outcome<Error>)
      modifies this
      ensures var r := UpdateThenInstall(tool, sudo, runner, old(isUpToDate), pkgs, update);
              o == r.outcome && isUpToDate == r.upToDate && issued == old(issued) + r.issued
    {
      if update && !isUpToDate {
        o := Update();
        if o.Fail? {
          return;
        }
        o := InstallAny(pkgs);
        AppendAssoc(old(issued), Issued(UpdateCommand(tool, sudo)), InstallAnyTrace(tool, sudo, runner, pkgs));
      } else {
        o := InstallAny(pkgs);
      }
    }

    /** `install(packages, update, force)` */
    method Install(packages: Packages, update: bool, force: bool) returns (o: Outcome<Error>)
      modifies this
      ensures var r := InstallSpec(tool, sudo, runner, old(isUpToDate), Candidates(packages), update, force);
              o == r.outcome && isUpToDate == r.upToDate && issued == old(issued) + r.issued
    {
      var pkgs := Candidates(packages);
      if !force {
        var found := Installed(pkgs);
        if found {
          return Pass;
        }
      }
      ghost var probes := if force then [] else ProbeTrace(tool, runner, pkgs);
      ghost var rest := UpdateThenInstall(tool, sudo, runner, isUpToDate, pkgs, update);
      o := UpdateThenInstallAny(pkgs, update);
      AppendAssoc(old(issued), probes, rest.issued);
    }
  }

  // ---------------------------------------------------------------------------------------
  // Properties of the commands

  /** Whether `c` changes the system: the adapter's update command or one of its install commands. */
  ghost predicate IsChange(t: Tool, sudo: string, c: string) {
    Some(c) == UpdateCommand(t, sudo) || exists q :: Some(c) == InstallCommand(t, sudo, q)
  }

  /** The three kinds of command of one adapter never coincide, whatever the package names. */
  lemma CommandKindsDiffer(t: Tool, sudo: string, p: string, q: string)
    requires t != Null && ValidSudo(sudo)
    ensures InstalledCommand(t, p) != InstallCommand(t, sudo, q)
    ensures InstalledCommand(t, p) != UpdateCommand(t, sudo)
    ensures UpdateCommand(t, sudo) != InstallCommand(t, sudo, q)
  {
    var probe, upd, ins := InstalledCommand(t, p).value, UpdateCommand(t, sudo).value, InstallCommand(t, sudo, q).value;
    match t
    case Apt =>
      assert probe[0] == 'd' && upd[0] == ins[0] != 'd';
      assert upd[|sudo| + 8] == 'u' && ins[|sudo| + 8] == 'i';
    case Yum =>
      assert probe[0] == 'r' && upd[0] == ins[0] != 'r';
      assert upd[|sudo| + 4] == 'c' && ins[|sudo| + 4] == 'i';
    case Brew =>
      assert probe[0] == 't' && upd[0] == ins[0] == 'b';
      assert upd[5] == 'u' && ins[5] == 'i';
  }

  /** An installed-check is never a change. */
  lemma ProbeIsNoChange(t: Tool, sudo: string, p: string)
    requires t != Null && ValidSudo(sudo)
    ensures !IsChange(t, sudo, InstalledCommand(t, p).value)
  {
    forall q
      ensures Some(InstalledCommand(t, p).value) != InstallCommand(t, sudo, q)
    {
      CommandKindsDiffer(t, sudo, p, q);
    }
    CommandKindsDiffer(t, sudo, p, p);
  }

  /** `CONAN_SYSREQUIRES_SUDO` decides the prefix of apt and yum updates and installs. */
  lemma SudoRule(t: Tool, envSudo: Option<string>, pkg: string)
    requires t == Apt || t == Yum
    ensures var sudo := SudoPrefix(envSudo);
            var on := envSudo != Some("False") && envSudo != Some("0");
            (Strings.StartsWith(UpdateCommand(t, sudo).value, "sudo ") <==> on) &&
            (Strings.StartsWith(InstallCommand(t, sudo, pkg).value, "sudo ") <==> on)
  {
    var sudo := SudoPrefix(envSudo);
    var upd, ins := UpdateCommand(t, sudo).value, InstallCommand(t, sudo, pkg).value;
    var updTail, insTail := if t == Apt then "apt-get update" else "yum check-update",
                            (if t == Apt then "apt-get install -y " else "yum install -y ") + pkg;
    assert upd == sudo + updTail && ins == sudo + insTail;
    if sudo == "" {
      assert upd[0] != 's' && ins[0] != 's';
    } else {
      Strings.ConcatParts(sudo, updTail);
      Strings.ConcatParts(sudo, insTail);
    }
  }

  /** Brew commands and every installed-check run without the prefix, whatever the sudo setting. */
  lemma NeverSudo(t: Tool, sudo: string, pkg: string)
    requires t != Null && ValidSudo(sudo)
    ensures !Strings.StartsWith(InstalledCommand(t, pkg).value, "sudo ")
    ensures t == Brew ==> !Strings.StartsWith(UpdateCommand(t, sudo).value, "sudo ")
    ensures t == Brew ==> !Strings.StartsWith(InstallCommand(t, sudo, pkg).value, "sudo ")
  {
    var probe := InstalledCommand(t, pkg).value;
    match t
    case Apt => assert probe == "dpkg -s " + pkg && probe[0] == 'd';
    case Yum => assert probe == "rpm -q " + pkg && probe[0] == 'r';
    case Brew => assert probe[0] == 't';
    if t == Brew {
      assert UpdateCommand(t, sudo).value[0] == 'b' && InstallCommand(t, sudo, pkg).value[0] == 'b';
    }
  }

  /** The null adapter issues no command at all. */
  lemma {:induction false} NullIssuesNothing(sudo: string, pkgs: seq<string>, n: nat)
    requires n <= |pkgs|
    ensures ProbeCommands(Null, pkgs, n) == [] && InstallCommands(Null, sudo, pkgs, n) == []
  {
    if n > 0 {
      NullIssuesNothing(sudo, pkgs, n - 1);
    }
  }

  /** A real adapter issues one installed-check per probed candidate, in list order. */
  lemma {:induction false} ProbeCommandsAt(t: Tool, pkgs: seq<string>, n: nat)
    requires t != Null && n <= |pkgs|
    ensures |ProbeCommands(t, pkgs, n)| == n
    ensures forall j :: 0 <= j < n ==> ProbeCommands(t, pkgs, n)[j] == InstalledCommand(t, pkgs[j]).value
  {
    if n > 0 {
      ProbeCommandsAt(t, pkgs, n - 1);
    }
  }

  /** A real adapter issues one install command per attempted candidate, in list order. */
  lemma {:induction false} InstallCommandsAt(t: Tool, sudo: string, pkgs: seq<string>, n: nat)
    requires t != Null && n <= |pkgs|
    ensures |InstallCommands(t, sudo, pkgs, n)| == n
    ensures forall j :: 0 <= j < n ==>
              InstallCommands(t, sudo, pkgs, n)[j] == InstallCommand(t, sudo, pkgs[j]).value
  {
    if n > 0 {
      InstallCommandsAt(t, sudo, pkgs, n - 1);
    }
  }

  /** The update command is never among the installed-checks of the first `n` candidates. */
  lemma UpdateNotAmongProbes(t: Tool, sudo: string, pkgs: seq<string>, n: nat)
    requires t != Null && ValidSudo(sudo) && n <= |pkgs|
    ensures UpdateCommand(t, sudo).value !in ProbeCommands(t, pkgs, n)
  {
    var probes := ProbeCommands(t, pkgs, n);
    ProbeCommandsAt(t, pkgs, n);
    forall k | 0 <= k < |probes|
      ensures probes[k] != UpdateCommand(t, sudo).value
    {
      CommandKindsDiffer(t, sudo, pkgs[k], pkgs[k]);
    }
  }

  /** The update command is never among the install commands of the first `n` candidates. */
  lemma UpdateNotAmongInstalls(t: Tool, sudo: string, pkgs: seq<string>, n: nat)
    requires t != Null && ValidSudo(sudo) && n <= |pkgs|
    ensures UpdateCommand(t, sudo).value !in InstallCommands(t, sudo, pkgs, n)
  {
    var installs := InstallCommands(t, sudo, pkgs, n);
    InstallCommandsAt(t, sudo, pkgs, n);
    forall k | 0 <= k < |installs|
      ensures installs[k] != UpdateCommand(t, sudo).value
    {
      CommandKindsDiffer(t, sudo, pkgs[k], pkgs[k]);
    }
  }

  // ---------------------------------------------------------------------------------------
  // Properties of `install`

  /**
   * Already installed: without `force`, a candidate reported installed ends the call. The
   * candidates are probed in order up to and including that one, the flag is left alone, and
   * no update or install command is issued.
   */
  lemma AlreadyInstalledDoesNothing(t: Tool, sudo: string, runner: Runner, upToDate: bool,
                                    pkgs: seq<string>, update: bool)
    requires ValidSudo(sudo)
    requires FirstInstalled(t, runner, pkgs) < |pkgs|
    ensures var r := InstallSpec(t, sudo, runner, upToDate, pkgs, update, false);
            r.outcome == Pass && r.upToDate == upToDate &&
            |r.issued| == FirstInstalled(t, runner, pkgs) + 1 &&
            (forall j :: 0 <= j < |r.issued| ==> r.issued[j] == InstalledCommand(t, pkgs[j]).value) &&
            (forall c :: c in r.issued ==> !IsChange(t, sudo, c))
  {
    var k := FirstInstalled(t, runner, pkgs);
    var trace := ProbeTrace(t, runner, pkgs);
    assert InstallSpec(t, sudo, runner, upToDate, pkgs, update, false) == InstallRun(Pass, upToDate, trace);
    assert t != Null;
    assert trace == ProbeCommands(t, pkgs, k + 1);
    ProbeCommandsAt(t, pkgs, k + 1);
    forall j | 0 <= j < |trace|
      ensures !IsChange(t, sudo, trace[j])
    {
      ProbeIsNoChange(t, sudo, pkgs[j]);
    }
  }

  /**
   * The update rule: an `install` issues the update command exactly when it is asked to update,
   * the instance is not yet up to date and no candidate was found installed (or `force` skipped
   * the probes).
   */
  lemma UpdateRule(t: Tool, sudo: string, runner: Runner, upToDate: bool,
                   pkgs: seq<string>, update: bool, force: bool)
    requires t != Null && ValidSudo(sudo)
    ensures var r := InstallSpec(t, sudo, runner, upToDate, pkgs, update, force);
            var reached := force || FirstInstalled(t, runner, pkgs) == |pkgs|;
            UpdateCommand(t, sudo).value in r.issued <==> update && !upToDate && reached
  {
    var upd := UpdateCommand(t, sudo).value;
    UpdateNotAmongProbes(t, sudo, pkgs, Scanned(FirstInstalled(t, runner, pkgs), |pkgs|));
    UpdateAfterProbes(t, sudo, runner, upToDate, pkgs, update);
    if force || FirstInstalled(t, runner, pkgs) == |pkgs| {
      var skipped: seq<string> := if force then [] else ProbeTrace(t, runner, pkgs);
      assert upd !in skipped;
    }
  }

  /** After the probes, the update command is issued exactly when an update is due. */
  lemma UpdateAfterProbes(t: Tool, sudo: string, runner: Runner, upToDate: bool,
                          pkgs: seq<string>, update: bool)
    requires t != Null && ValidSudo(sudo)
    ensures UpdateCommand(t, sudo).value in UpdateThenInstall(t, sudo, runner, upToDate, pkgs, update).issued <==>
            update && !upToDate
  {
    UpdateNotAmongInstalls(t, sudo, pkgs, Scanned(FirstInstallable(t, sudo, runner, pkgs), |pkgs|));
  }

  /**
   * The flag after an `install`: up to date once an update was due, whether the update passed
   * or failed, and otherwise unchanged.
   */
  lemma UpToDateRule(t: Tool, sudo: string, runner: Runner, upToDate: bool,
                     pkgs: seq<string>, update: bool, force: bool)
    ensures var r := InstallSpec(t, sudo, runner, upToDate, pkgs, update, force);
            var reached := force || FirstInstalled(t, runner, pkgs) == |pkgs|;
            r.upToDate == (upToDate || (update && reached))
  {
  }

  /**
   * A failed update ends the call with the update's own error and no install attempt,
   * and a later `install` on the same instance does not update again.
   */
  lemma FailedUpdateNotRetried(t: Tool, sudo: string, runner: Runner, pkgs: seq<string>, force: bool,
                               later: seq<string>, laterForce: bool)
    requires t != Null && ValidSudo(sudo)
    requires force || FirstInstalled(t, runner, pkgs) == |pkgs|
    requires ToolUpdate(t, sudo, runner).Fail?
    ensures var r := InstallSpec(t, sudo, runner, false, pkgs, true, force);
            r.outcome == Fail(CommandFailed(UpdateCommand(t, sudo).value)) && r.upToDate &&
            (forall c :: c in r.issued ==> !IsChange(t, sudo, c) || Some(c) == UpdateCommand(t, sudo)) &&
            UpdateCommand(t, sudo).value !in InstallSpec(t, sudo, runner, r.upToDate, later, true, laterForce).issued
  {
    var r := InstallSpec(t, sudo, runner, false, pkgs, true, force);
    var probes := if force then [] else ProbeTrace(t, runner, pkgs);
    assert r.issued == probes + [UpdateCommand(t, sudo).value];
    var n := Scanned(FirstInstalled(t, runner, pkgs), |pkgs|);
    ProbeCommandsAt(t, pkgs, n);
    forall c | c in probes
      ensures !IsChange(t, sudo, c)
    {
      var j :| 0 <= j < n && ProbeTrace(t, runner, pkgs)[j] == c;
      ProbeIsNoChange(t, sudo, pkgs[j]);
    }
    UpdateRule(t, sudo, runner, true, later, true, laterForce);
    UpToDateRule(t, sudo, runner, false, pkgs, true, force);
  }

  /**
   * A bare string is one candidate, and so is a one-element list: its install error reaches
   * the caller unchanged, and it passes exactly when its command exits with zero.
   */
  lemma SingleCandidatePropagates(t: Tool, sudo: string, runner: Runner, packages: Packages)
    requires packages.Name? || |packages.names| == 1
    ensures var pkgs := Candidates(packages);
            var o := InstallAnyOutcome(t, sudo, runner, pkgs);
            |pkgs| == 1 &&
            (o.Pass? <==> t == Null || runner(InstallCommand(t, sudo, pkgs[0]).value) == 0) &&
            (o.Fail? ==> o.error == CommandFailed(InstallCommand(t, sudo, pkgs[0]).value)) &&
            InstallAnyTrace(t, sudo, runner, pkgs) == Issued(InstallCommand(t, sudo, pkgs[0]))
  {
    var pkgs := Candidates(packages);
    assert InstallCommands(t, sudo, pkgs, 1) == Issued(InstallCommand(t, sudo, pkgs[0]));
  }

  /**
   * Fallback over several (or no) candidates: the call passes exactly when some candidate's
   * install passes, fails otherwise with `NoPackageAvailable` naming them all, and attempts the
   * candidates in order, stopping after the first that passes.
   */
  lemma FallbackRule(t: Tool, sudo: string, runner: Runner, pkgs: seq<string>)
    requires |pkgs| != 1
    ensures var o := InstallAnyOutcome(t, sudo, runner, pkgs);
            (o.Pass? <==> exists j :: 0 <= j < |pkgs| && ToolInstall(t, sudo, runner, pkgs[j]).Pass?) &&
            (o.Fail? ==> o.error == NoPackageAvailable(pkgs))
    ensures t != Null ==>
              var tr := InstallAnyTrace(t, sudo, runner, pkgs);
              |tr| == Scanned(FirstInstallable(t, sudo, runner, pkgs), |pkgs|) &&
              (forall j :: 0 <= j < |tr| ==> tr[j] == InstallCommand(t, sudo, pkgs[j]).value) &&
              (forall j :: 0 <= j < |tr| - 1 ==> ToolInstall(t, sudo, runner, pkgs[j]).Fail?)
  {
    var k := FirstInstallable(t, sudo, runner, pkgs);
    if t != Null {
      InstallCommandsAt(t, sudo, pkgs, Scanned(k, |pkgs|));
    }
  }
}
