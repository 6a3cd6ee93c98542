/**
 * The Visual Studio command builders: `build_sln_command`, which assembles an msbuild command
 * line from the settings, and `vcvars_command`, which finds the `vcvarsall.bat` call for the
 * configured compiler version from the process environment.
 */
module VisualStudio {
  import opened Wrappers
  import Strings

  /** The settings the builders read: `build_type`, `arch` and `compiler.version`, as text. */
  datatype Settings = Settings(buildType: string, arch: string, compilerVersion: string)

  /**
   * The process environment as `os.environ` presents it. On Windows its keys are stored
   * upper-cased and every lookup upper-cases the name it is given.
   */
  datatype Environ = Environ(vars: map<string, string>, windows: bool)

  /** `os.environ.get(name)` */
  function EnvGet(env: Environ, name: string): (v: Option<string>)
    ensures !env.windows ==> (v.Some? <==> name in env.vars)
    ensures env.windows ==> (v.Some? <==> Strings.Upper(name) in env.vars)
    ensures v.Some? ==> v.value == env.vars[if env.windows then Strings.Upper(name) else name]
  {
    var key := if env.windows then Strings.Upper(name) else name;
    if key in env.vars then Some(env.vars[key]) else None
  }

  /** The `ConanException`s `vcvars_command` raises. */
  datatype Error =
    | VisualAlreadySet(existing: string, requested: string)
    | VsVariableUndefined(variable: string)

  // ---------------------------------------------------------------------------------------
  // build_sln_command

  /** The platform flag: x64 or x86 by exact name, else ARM for any name whose upper case contains "ARM". */
  function PlatformFlag(arch: string): (f: string)
    ensures arch == "x86_64" ==> f == " /p:Platform=\"x64\""
    ensures arch == "x86" ==> f == " /p:Platform=\"x86\""
    ensures arch != "x86_64" && arch != "x86" ==>
              f == (if Strings.Contains(Strings.Upper(arch), "ARM") then " /p:Platform=\"ARM\"" else "")
  {
    if arch == "x86_64" || arch == "x86" then
      " /p:Platform=" + (if arch == "x86_64" then "\"x64\"" else "\"x86\"")
    else if Strings.Contains(Strings.Upper(arch), "ARM") then " /p:Platform=\"ARM\""
    else ""
  }

  /** The target flag: absent without targets, else the targets joined with `;`. */
  function TargetFlag(targets: seq<string>): (f: string)
    ensures targets == [] <==> f == ""
    ensures targets != [] ==> Strings.StartsWith(f, " /target:")
  {
    if targets == [] then "" else " /target:" + Strings.Join(";", targets)
  }

  /** The msbuild invocation: build type, then the platform flag, then the target flag. */
  function MsbuildCommand(settings: Settings, slnPath: string, targets: seq<string>): (c: string)
    ensures Strings.StartsWith(c, "msbuild " + slnPath + " /p:Configuration=" + settings.buildType)
    ensures Strings.EndsWith(c, PlatformFlag(settings.arch) + TargetFlag(targets))
    ensures |c| == |"msbuild " + slnPath + " /p:Configuration=" + settings.buildType| +
                   |PlatformFlag(settings.arch) + TargetFlag(targets)|
  {
    var head := "msbuild " + slnPath + " /p:Configuration=" + settings.buildType;
    var flags := PlatformFlag(settings.arch) + TargetFlag(targets);
    Strings.ConcatParts(head, flags);
    head + flags
  }

  /**
   * `build_sln_command(settings, sln_path, targets, upgrade_project)`: an optional project
   * upgrade, then the msbuild invocation.
   */
  function BuildSlnCommand(settings: Settings, slnPath: string, targets: seq<string>, upgradeProject: bool): (c: string)
    ensures upgradeProject ==> Strings.StartsWith(c, "devenv " + slnPath + " /upgrade && ")
    ensures !upgradeProject ==> Strings.StartsWith(c, "msbuild " + slnPath + " /p:Configuration=" + settings.buildType)
    ensures Strings.EndsWith(c, MsbuildCommand(settings, slnPath, targets))
    ensures !upgradeProject ==> c == MsbuildCommand(settings, slnPath, targets)
    ensures upgradeProject ==> |c| == |"devenv " + slnPath + " /upgrade && "| + |MsbuildCommand(settings, slnPath, targets)|
  {
    var upgrade := if upgradeProject then "devenv " + slnPath + " /upgrade && " else "";
    Strings.ConcatParts(upgrade, MsbuildCommand(settings, slnPath, targets));
    upgrade + MsbuildCommand(settings, slnPath, targets)
  }

  /** Every arch name that begins with "arm", in any case, builds for the ARM platform. */
  lemma ArmArchitectures(arch: string)
    requires |arch| >= 3 && Strings.UpperChar(arch[0]) == 'A' &&
             Strings.UpperChar(arch[1]) == 'R' && Strings.UpperChar(arch[2]) == 'M'
    ensures PlatformFlag(arch) == " /p:Platform=\"ARM\""
  {
    var up := Strings.Upper(arch);
    assert up[0..3] == "ARM";
    assert Strings.OccursAt(up, "ARM", 0);
    assert arch[0] != 'x';
  }

  /** The targets can be read back from the target flag when no target name holds a `;`. */
  lemma TargetsRoundTrip(targets: seq<string>)
    requires targets != []
    requires forall i :: 0 <= i < |targets| ==> ';' !in targets[i]
    ensures var f := TargetFlag(targets);
            Strings.Split(f[|" /target:"|..], ';') == targets
  {
    var f := TargetFlag(targets);
    assert f[|" /target:"|..] == Strings.Join(";", targets);
    Strings.SplitJoin(targets, ';');
  }

  /** The upgrade step only prepends `devenv <sln> /upgrade && ` to the build command. */
  lemma UpgradeIsPrefix(settings: Settings, slnPath: string, targets: seq<string>)
    ensures BuildSlnCommand(settings, slnPath, targets, true) ==
            "devenv " + slnPath + " /upgrade && " + BuildSlnCommand(settings, slnPath, targets, false)
  {
  }

  // ---------------------------------------------------------------------------------------
  // vcvars_command

  /** The `vcvarsall.bat` argument: x86 for a 32-bit build, amd64 for every other arch. */
  function VcvarsParam(arch: string): (p: string)
    ensures p == "x86" <==> arch == "x86"
    ensures p == "x86" || p == "amd64"
  {
    if arch == "x86" then "x86" else "amd64"
  }

  /** The environment variable Visual Studio `<version>` defines: `vs<version>0comntools`. */
  function ToolsVariable(version: string): string {
    "vs" + version + "0comntools"
  }

  /** The batch file under the tools directory: Visual Studio 2017 (version 15) moved it. */
  function VcvarsBat(version: string): (b: string)
    ensures Strings.EndsWith(b, "vcvarsall.bat") && Strings.StartsWith(b, "../../VC/")
    ensures version == "15" <==> Strings.StartsWith(b, "../../VC/Auxiliary/")
  {
    var dir := if version != "15" then "../../VC/" else "../../VC/Auxiliary/Build/";
    Strings.ConcatParts(dir, "vcvarsall.bat");
    assert Strings.StartsWith(dir, "../../VC/");
    var b := dir + "vcvarsall.bat";
    assert b[..|dir|] == dir;
    if version == "15" then
      assert b[..19] == dir[..19] == "../../VC/Auxiliary/";
      b
    else
      assert b[9] != "../../VC/Auxiliary/"[9];
      b
  }

  /**
   * `vcvars_command(settings)`: an environment already set up for Visual Studio needs no
   * command, provided its major version is the configured one; otherwise the tools directory
   * named by `vs<version>0comntools` locates the batch file.
   */
  function VcvarsCommand(settings: Settings, env: Environ): (r: Result<string, Error>)
    ensures var existing := EnvGet(env, "VisualStudioVersion");
            existing.Some? && existing.value != "" ==>
              var major := Strings.BeforeFirst(existing.value, '.');
              r == (if major == settings.compilerVersion then Ok("")
                    else Err(VisualAlreadySet(major, settings.compilerVersion)))
    ensures var existing := EnvGet(env, "VisualStudioVersion");
            var tools := EnvGet(env, ToolsVariable(settings.compilerVersion));
            !(existing.Some? && existing.value != "") ==>
              (r.Err? <==> tools.None?) &&
              (r.Err? ==> r.error == VsVariableUndefined(ToolsVariable(settings.compilerVersion))) &&
              (r.Ok? ==> r.value == "call \"" + tools.value + VcvarsBat(settings.compilerVersion) +
                                    "\" " + VcvarsParam(settings.arch))
  {
    var param := VcvarsParam(settings.arch);
    var existing := EnvGet(env, "VisualStudioVersion");
    if existing.Some? && existing.value != "" then
      var major := Strings.BeforeFirst(existing.value, '.');
      if major != settings.compilerVersion then Err(VisualAlreadySet(major, settings.compilerVersion))
      else Ok("")
    else
      var variable := ToolsVariable(settings.compilerVersion);
      match EnvGet(env, variable)
      case None => Err(VsVariableUndefined(variable))
      case Some(vsPath) => Ok("call \"" + vsPath + VcvarsBat(settings.compilerVersion) + "\" " + param)
  }

  /** An environment already set up decides alone: the tools variables are not consulted. */
  lemma ExistingEnvironmentDecides(settings: Settings, env: Environ, other: Environ)
    requires env.windows == other.windows
    requires EnvGet(env, "VisualStudioVersion") == EnvGet(other, "VisualStudioVersion")
    requires EnvGet(env, "VisualStudioVersion").Some? && EnvGet(env, "VisualStudioVersion").value != ""
    ensures VcvarsCommand(settings, env) == VcvarsCommand(settings, other)
    ensures VcvarsCommand(settings, env).Ok? ==> VcvarsCommand(settings, env).value == ""
  {
  }

  /** Only the part before the first dot is compared: "14.0" matches compiler version "14". */
  lemma ExistingMajorVersion(env: Environ, arch: string)
    requires EnvGet(env, "VisualStudioVersion") == Some("14.0")
    ensures VcvarsCommand(Settings("Release", arch, "14"), env) == Ok("")
    ensures VcvarsCommand(Settings("Release", arch, "15"), env) == Err(VisualAlreadySet("14", "15"))
  {
    assert Strings.BeforeFirst("14.0", '.') == "14" by {
      assert "14.0"[2] == '.';
    }
  }
}
