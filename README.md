# conan `tools.py`, modelled in Dafny

This project models the decision logic of `conans/tools.py` from the conan package manager:

- **System packages.** `SystemPackageTool` picks an adapter (`AptTool`, `YumTool`, `BrewTool`, `NullTool`) from the host's OS facts. Its `install` probes the candidate packages, runs the package index update at most once per instance, and installs the first candidate that installs. Every adapter operation is one shell command, and the runner's exit code decides its outcome. The runner is a function from command text to exit code. The tool object keeps a ghost trace of every command it hands to the runner.
- **OS facts.** The family flags, the Linux distribution, the apt/yum membership predicates, the codename normalisation, the FreeBSD release cut and the release-name if-chains of `OSInfo`. Each chain is also stated as an ordered table whose first matching row wins.
- **`unzip`.** The tar/zip dispatch on the file name, the Windows 260-character rule, the catch-and-continue loop over the archive's entries, the running `extracted_size`, and the permission bits taken from the external attributes. Extracting an entry and changing a mode are operations passed in, which may fail.
- **Small helpers.** `check_with_algorithm_sum` with the digest as an uninterpreted function. `build_sln_command`. `vcvars_command` with the environment as a map. The variable merge, update and restore of `environment_append`.

Modules, one file each: `Wrappers`, `Strings` (the Python string operations used), `OSInfo`, `SystemPackages`, `Unzip`, `Checksum`, `VisualStudio`, `Environment`.

Two behaviours of the code, stated plainly:

- The checksum comparison is exact and case-sensitive.
- `BrewTool` never puts `sudo` in front of its commands.

## Model

| member | source | states |
|---|---|---|
| SystemPackages.CreateTool | conans/tools.py:469-477 | apt iff `with_apt`, yum iff `with_yum`, brew iff neither and macOS, null otherwise (both directions of each) |
| SystemPackages.SudoPrefix | conans/tools.py:461-462 | the prefix is empty exactly when `CONAN_SYSREQUIRES_SUDO` is "False" or "0"; an absent variable keeps `sudo ` |
| SystemPackages.RunCommand | conans/tools.py:563-566 | `_run` fails iff the exit code is non-zero, and the error names the command |
| SystemPackages.ToolInstall | conans/tools.py:515-520 | the null adapter's install never fails; a real install passes iff its command exits with 0 and fails with that command's error |
| SystemPackages.ToolInstalled | conans/tools.py:522-523 | the null adapter never reports installed; a real check is true iff its command exits with 0 |
| SystemPackages.ToolUpdate | conans/tools.py:516-517 | the null adapter's update passes; a real one is its update command run through `_run` |
| SystemPackages.FirstInstalled | conans/tools.py:497-502 | the index of the first candidate reported installed: every earlier one is not, and it is |
| SystemPackages.FirstInstallable | conans/tools.py:504-511 | the index of the first candidate whose install passes: every earlier one failed, and it passes |
| SystemPackages.SystemPackageTool.constructor | conans/tools.py:460-467 | the adapter is the given one or `CreateTool`'s choice; the prefix comes from the variable; not up to date; nothing issued |
| SystemPackages.SystemPackageTool.Run | conans/tools.py:563-566 | outcome as `RunCommand`; the command is appended to the trace |
| SystemPackages.SystemPackageTool.Update | conans/tools.py:479-484 | the flag is set whatever the outcome; the update command is always issued |
| SystemPackages.SystemPackageTool.Installed | conans/tools.py:497-502 | true iff some candidate is installed; the probes issued stop at the first installed candidate |
| SystemPackages.SystemPackageTool.InstallAny | conans/tools.py:504-512 | the outcome is `InstallAnyOutcome`: one candidate propagates its own error, several fall back to `NoPackageAvailable`; the install commands issued stop at the first that passes |
| SystemPackages.SystemPackageTool.UpdateThenInstallAny | conans/tools.py:493-495 | update only when asked and not yet up to date; a failed update ends the call; otherwise the install step |
| SystemPackages.SystemPackageTool.Install | conans/tools.py:486-495 | outcome, new flag and trace are exactly those of `InstallSpec` for the old flag |
| SystemPackages.UpdateCommand | conans/tools.py:526-552 | the null adapter has no update command, apt, yum and brew each have one (prefixing is `SudoRule`/`NeverSudo`) |
| SystemPackages.InstallCommand | conans/tools.py:530-555 | the null adapter has no install command; every other one ends with the package name |
| SystemPackages.InstalledCommand | conans/tools.py:533-558 | the null adapter has no installed-check; apt and yum query the package name as the last argument |
| SystemPackages.CommandKindsDiffer | conans/tools.py:526-559 | an adapter's installed-check, update and install commands never coincide, whatever the package names |
| SystemPackages.SudoRule | conans/tools.py:461-543 | apt and yum updates and installs start with `sudo ` iff the variable is neither "False" nor "0" |
| SystemPackages.NeverSudo | conans/tools.py:533-559 | installed-checks never start with `sudo `, and neither do brew's update and install |
| SystemPackages.NullIssuesNothing | conans/tools.py:515-523 | the null adapter issues no probe and no install command |
| SystemPackages.ProbeCommandsAt | conans/tools.py:497-502 | a real adapter's probes are the candidates' installed-checks, one each, in list order |
| SystemPackages.InstallCommandsAt | conans/tools.py:507-511 | a real adapter's install attempts are the candidates' install commands, one each, in list order |
| SystemPackages.AlreadyInstalledDoesNothing | conans/tools.py:486-502 | without `force`, an installed candidate means: Pass, flag unchanged, probes up to and including that candidate, no update or install command |
| SystemPackages.UpdateRule | conans/tools.py:491-494 | the update command is issued iff `update`, not up to date, and the probes found nothing (or `force`) |
| SystemPackages.UpdateAfterProbes | conans/tools.py:493-495 | after the probes, the update command is issued iff an update is due |
| SystemPackages.UpToDateRule | conans/tools.py:483-494 | after `install` the flag is the old flag, or true when an update was due, whether or not it passed |
| SystemPackages.FailedUpdateNotRetried | conans/tools.py:479-495 | a failed update ends `install` with the update's error and no install attempt; a later `install` issues no update |
| SystemPackages.SingleCandidatePropagates | conans/tools.py:490-506 | a bare string or a one-element list: passes iff its install exits with 0, and a failure is that install's own error |
| SystemPackages.FallbackRule | conans/tools.py:507-512 | with several or no candidates: Pass iff some install passes; otherwise `NoPackageAvailable` of all of them; attempts in order up to the first success |
| OSInfo.Detect | conans/tools.py:306-335 | each family flag matches the `platform.system()` name; a distro exactly on Linux; no name without a version; each family takes its version and release name from its own source: Linux from the distro and `LinuxVersionName`, Windows from `RtlGetVersion` and the Windows chain, macOS from the product version and the macOS chain, FreeBSD as the cut release and "FreeBSD " before it, Solaris from the release and the Solaris chain; any other system has neither a version nor a name |
| OSInfo.LinuxVersionName | conans/tools.py:320-323 | codename "n/a" reads as empty; an empty name is looked up only on "debian"; the result is never "n/a" |
| OSInfo.FreeBSDVersion | conans/tools.py:440-441 | the release up to its first `-`: a prefix without `-` that is followed by `-` or is the whole release, and the whole release iff it has none |
| OSInfo.DetectOneFamily | conans/tools.py:309-314 | at most one family flag holds |
| OSInfo.WithApt | conans/tools.py:337-340 | true exactly on Linux with distro debian, ubuntu, knoppix, linuxmint or raspbian; never with a yum distro |
| OSInfo.WithYum | conans/tools.py:342-346 | true exactly on Linux with distro centos, redhat, fedora, pidora, scientific, xenserver, amazon or oracle; never with an apt distro |
| OSInfo.AptYumExclusive | conans/tools.py:337-346 | `with_apt` and `with_yum` never both hold |
| OSInfo.FirstMatchSpec | conans/tools.py:376-449 | a table lookup is None iff no row matches, else the name of the first matching row |
| OSInfo.FirstMatchIsAt | conans/tools.py:376-449 | the row that matches first gives the answer |
| OSInfo.DebianVersionName | conans/tools.py:376-392 | the Debian chain answers the first matching row of its table (`FirstMatchSpec` characterises that row); no name for a missing or empty version |
| OSInfo.WinVersionName | conans/tools.py:394-408 | the Windows chain answers the first matching row of its table; no name for a missing or empty version |
| OSInfo.OsxVersionName | conans/tools.py:410-438 | the macOS chain, "Cheetha" included, answers the first matching row of its table |
| OSInfo.SolarisVersionName | conans/tools.py:443-448 | the Solaris chain answers the first matching row of its table |
| OSInfo.DebianEightIsJessie | conans/tools.py:316-380 | Debian 8 is "jessie", also as the detected name of a Debian host with codename "n/a" |
| OSInfo.DebianNineHasNoName | conans/tools.py:376-392 | Debian 9 matches no row and gets no name |
| OSInfo.SolarisFilledPatternsNeverMatch | conans/tools.py:446-448 | a version whose `minor()` ends in ".Z" never gets a Solaris name |
| Unzip.IsTarName | conans/tools.py:147-150 | a name goes to `untargz` iff it ends with `.tar.gz`, `.tgz`, `.tbz2`, `.tar.bz2` or `.tar` |
| Unzip.ZipNameIsZip | conans/tools.py:147-150 | a name ending in `.zip` is opened as a zip archive |
| Unzip.OtherTarballsAreZip | conans/tools.py:147-150 | `.tar.xz` and `.tar.zst` names are not handed to `untargz` |
| Unzip.Permission | conans/tools.py:186 | the mode is always in 0..4095 |
| Unzip.PermissionOfPacked | conans/tools.py:186 | a field packing file type, permission bits and MS-DOS attributes gives back exactly the permission bits |
| Unzip.PermissionIgnoresLowBits | conans/tools.py:186 | the low 16 bits never affect the mode |
| Unzip.PathJoin | conans/tools.py:187 | the joined path ends with the name, and starts with the directory unless the name is absolute |
| Unzip.EntryRule | conans/tools.py:166-189 | an entry is logged extracted iff it is (short enough on Windows and extraction passed); a long name on Windows logs only "Filename too long"; a mode is set iff not Windows, permissions kept, extraction and chmod passed |
| Unzip.EntryChmod | conans/tools.py:178-187 | a mode change of an entry happens only off Windows with permissions kept after its extraction, on its joined path with its permission bits |
| Unzip.LogAppend | conans/tools.py:167-189 | a failure never stops the loop: the log of a run of entries is the logs of its parts, in order |
| Unzip.LogMembers | conans/tools.py:167-189 | a name is logged extracted iff some entry with that name is extracted |
| Unzip.ChmodRule | conans/tools.py:177-189 | no mode is set on Windows or without `keep_permissions`; every mode set is in 0..4095 and belongs to an extracted entry |
| Unzip.ExtractAllWindows | conans/tools.py:166-176 | the Windows loop's log is `Log` of the entries, and `extracted_size` ends at the total size |
| Unzip.ExtractAll | conans/tools.py:177-189 | the other loop's log is `Log` of the entries, and `extracted_size` ends at the total size |
| Unzip.Unzip | conans/tools.py:137-189 | untargz iff a tar suffix; a zip of only empty entries on a terminal stops at the first progress line (division by zero); otherwise the log is `Log` and `extracted_size` equals the up-front `uncompress_size` |
| Checksum.CheckWithAlgorithmSum | conans/tools.py:227-234 | passes iff the computed digest equals the signature exactly; the error carries the algorithm, the computed digest and exactly the path's base name |
| Checksum.CheckSha1 | conans/tools.py:237-238 | passes iff the sha1 digest equals the signature |
| Checksum.CheckMd5 | conans/tools.py:241-242 | passes iff the md5 digest equals the signature |
| Checksum.CheckSha256 | conans/tools.py:245-246 | passes iff the sha256 digest equals the signature |
| Checksum.UpperCaseSignatureRejected | conans/tools.py:230 | the comparison is case-sensitive: the upper-case spelling of a digest with a hex letter fails |
| Checksum.ErrorNamesBaseName | conans/tools.py:231-234 | the error names the file by its base name |
| VisualStudio.PlatformFlag | conans/tools.py:69-73 | x64 for "x86_64", x86 for "x86", ARM when the upper-cased arch contains "ARM", else no flag |
| VisualStudio.TargetFlag | conans/tools.py:75-76 | no flag iff there are no targets, else ` /target:` first |
| VisualStudio.MsbuildCommand | conans/tools.py:68-76 | exactly `msbuild <sln> /p:Configuration=<type>` followed by the platform and target flags, nothing in between |
| VisualStudio.BuildSlnCommand | conans/tools.py:58-77 | without upgrade, exactly the msbuild invocation; with it, the upgrade step followed by exactly the msbuild invocation |
| VisualStudio.ArmArchitectures | conans/tools.py:72-73 | any arch beginning with "arm" in any case builds for ARM |
| VisualStudio.TargetsRoundTrip | conans/tools.py:75-76 | splitting the target flag on `;` gives the targets back |
| VisualStudio.UpgradeIsPrefix | conans/tools.py:67-68 | the upgrade step only prepends `devenv <sln> /upgrade && ` |
| VisualStudio.EnvGet | conans/tools.py:82-93 | a lookup finds the value stored under the name itself, or under its upper case on Windows, and nothing when that key is absent |
| VisualStudio.VcvarsParam | conans/tools.py:81 | x86 iff the arch is "x86", else amd64 |
| VisualStudio.VcvarsBat | conans/tools.py:97-100 | the batch path is under `../../VC/` and ends with `vcvarsall.bat`; it is under `../../VC/Auxiliary/` iff the version is "15" |
| VisualStudio.VcvarsCommand | conans/tools.py:80-101 | a set-up environment gives "" iff its major version is the compiler's, else `VisualAlreadySet`; otherwise fails iff the tools variable is missing, else calls the batch file with the arch argument |
| VisualStudio.ExistingEnvironmentDecides | conans/tools.py:82-89 | with `VisualStudioVersion` set, the tools variables do not matter |
| VisualStudio.ExistingMajorVersion | conans/tools.py:85-86 | "14.0" matches compiler version "14" and is refused for "15" |
| Environment.ListValue | conans/tools.py:47-49 | a list variable starts with its joined parts, and ends with the separator and the old value when there was one |
| Environment.MergedEntries | conans/tools.py:45-49 | the merge sets exactly the plain and list variables; list values win |
| Environment.ListValueRoundTrip | conans/tools.py:47-49 | splitting a list variable on the separator gives its parts, then the pieces of the old value, whatever separators the old value holds |
| Environment.MergeListVars | conans/tools.py:45-49 | the loop over `list_env_vars` produces `Merged`, whatever the order of the items |
| Environment.ProcessEnvironment.Update | conans/tools.py:50 | the given entries win and every other variable is kept |
| Environment.ProcessEnvironment.Restore | conans/tools.py:54-55 | the environment is exactly the saved one |
| Environment.ProcessEnvironment.EnvironmentAppend | conans/tools.py:37-55 | the caller's `env_vars` ends up holding the merge; the block sees the old environment updated with it; afterwards the old environment is back, whatever the block did |
| Environment.SeenEnvironment | conans/tools.py:44-50 | in the block, unnamed variables keep their values, plain ones take theirs, and list ones are parts then old value |
| Strings.BeforeFirst | conans/tools.py:85 | `split(c)[0]`: a prefix without `c`, followed by `c` or the end |
| Strings.Basename | conans/tools.py:233 | the text after the last `/`: a suffix without `/` |
| Strings.SplitJoin | conans/tools.py:76 | splitting a join on a separator no part holds gives the parts back |

## Left out

- Network and file I/O: `download`/`get`, `replace_in_file`, `patch` and its logging, the digest computation, `zipfile`/`tarfile` internals, `untargz`, `os.chmod`. The digest, extraction and chmod are parameters, and `untargz` is a result value.
- The OS probes (`platform`, the `distro` module, `RtlGetVersion` through `ctypes`). Their answers are the `Probes` record. `Version` is not part of this model: a version is its text plus the patterns its `major()`/`minor()` produce.
- `human_size` and the text of the progress line: floating point and console output. Whether standard output is a terminal is the input `tty` of `Unzip.Unzip`, and the division by zero the progress line raises is modelled.
- `cpu_count`, `pythonpath` and the module-level `os_info` try/except: they call into code outside the file.
- Console output, including the "Running:", "Package already installed", "Warn: Only available..." and "Error extract" messages. Errors are datatypes carrying the parts of their message, not its text.
- The runner's second argument (the output flag) is dropped. The runner is fixed for the tool's life, so it answers the same exit code to the same command every time.
- `Strings.Upper`: ASCII case mapping only. `Strings.Basename` and `Unzip.PathJoin` follow POSIX `os.path`; Windows drive letters and backslashes are not modelled.
- `VisualStudio.EnvGet` upper-cases names on Windows the way `os.environ` does.
- `Environment.ProcessEnvironment.Update`: on Windows `os.environ` stores every name upper-cased, so the snapshot `old_env` has upper-case keys and `os.environ.update` upper-cases the names it writes. The model writes names as given and keeps the snapshot's keys as they are. So it does not capture that a list variable named "Path" misses the old "PATH" in the case-sensitive `name in old_env` test and then overwrites PATH; the model keeps both names instead.
- `Unzip.Unzip`: the full path `normpath(join(getcwd(), destination))` is an input.
- `Unzip.Unzip`: the archive is given as its entries, so the exception `zipfile.ZipFile` raises for a file that is not a zip archive (such as a `.tar.xz` name, which the dispatch sends down the zip path) is not modelled.
- `SystemPackages.SystemPackageTool.constructor`: the source assigns the prefix and the runner onto the adapter object, even one the caller passed in, so two tools built on one adapter object share the last prefix and runner. Here the adapter is a value and each tool keeps its own prefix and runner.
- `Environment.ProcessEnvironment.EnvironmentAppend`: the caller's `env_vars` dict is returned as its new value rather than updated in place, so aliasing of that dict (for instance with `os.environ` itself) is not modelled.
- `SystemPackages.SystemPackageTool.Install`: the ghost trace records commands, not their console output.
- The release-name tables are stated for the pattern strings as given. Whether `Version.minor()` can ever produce "5.10" or "5.11" depends on `conans/model/version.py`, which is not part of this model.
