/**
 * Operating-system facts (class `OSInfo`): which family the host belongs to, which Linux
 * distribution it runs, its version and the release name looked up in ordered pattern tables.
 * The probes themselves (`platform`, the `distro` module, `RtlGetVersion`) are inputs.
 */
module OSInfo {
  import opened Wrappers
  import Strings

  /**
   * A version as the release-name tables see it: its text, and the pattern strings its
   * `major()` and `minor()` accessors produce (for 8.2.1, "8.Y.Z" and "8.2.Z").
   */
  datatype Version = Version(text: string, major: string, minor: string)

  /** Python truthiness of an optional version (a string subclass): present and non-empty. */
  predicate Truthy(v: Option<Version>) {
    v.Some? && v.value.text != ""
  }

  // ---------------------------------------------------------------------------------------
  // The if-chains, as written

  /** `get_debian_version_name`: the first branch that matches names the release, as the first matching row of `DebianTable`. */
  function DebianVersionName(version: Option<Version>): (r: Option<string>)
    ensures r == Lookup(DebianTable, version)
  {
    if !Truthy(version) then None
    else
      var v := version.value;
      // FirstMatch unfolded once per row of the table, from the last row up to the first
      assert FirstMatch(DebianTable.rest.rest.rest.rest.rest.rest, v) == if v.minor == "3.0.Z" then Some("woody") else None;
      assert FirstMatch(DebianTable.rest.rest.rest.rest.rest, v) == if v.minor == "3.1.Z" then Some("sarge") else FirstMatch(DebianTable.rest.rest.rest.rest.rest.rest, v);
      assert FirstMatch(DebianTable.rest.rest.rest.rest, v) == if v.major == "4.Y.Z" then Some("etch") else FirstMatch(DebianTable.rest.rest.rest.rest.rest, v);
      assert FirstMatch(DebianTable.rest.rest.rest, v) == if v.major == "5.Y.Z" then Some("lenny") else FirstMatch(DebianTable.rest.rest.rest.rest, v);
      assert FirstMatch(DebianTable.rest.rest, v) == if v.major == "6.Y.Z" then Some("squeeze") else FirstMatch(DebianTable.rest.rest.rest, v);
      assert FirstMatch(DebianTable.rest, v) == if v.major == "7.Y.Z" then Some("wheezy") else FirstMatch(DebianTable.rest.rest, v);
      assert FirstMatch(DebianTable, v) == if v.major == "8.Y.Z" then Some("jessie") else FirstMatch(DebianTable.rest, v);
      if v.major == "8.Y.Z" then Some("jessie")
      else if v.major == "7.Y.Z" then Some("wheezy")
      else if v.major == "6.Y.Z" then Some("squeeze")
      else if v.major == "5.Y.Z" then Some("lenny")
      else if v.major == "4.Y.Z" then Some("etch")
      else if v.minor == "3.1.Z" then Some("sarge")
      else if v.minor == "3.0.Z" then Some("woody")
      else None
  }

  /** `get_win_version_name`: the first branch that matches names the release, as the first matching row of `WinTable`. */
  function WinVersionName(version: Option<Version>): (r: Option<string>)
    ensures r == Lookup(WinTable, version)
  {
    if !Truthy(version) then None
    else
      var v := version.value;
      // FirstMatch unfolded once per row of the table, from the last row up to the first
      assert FirstMatch(WinTable.rest.rest.rest.rest.rest, v) == if v.minor == "10.0.Z" then Some("Windows 10") else None;
      assert FirstMatch(WinTable.rest.rest.rest.rest, v) == if v.minor == "6.3.Z" then Some("Windows 8.1") else FirstMatch(WinTable.rest.rest.rest.rest.rest, v);
      assert FirstMatch(WinTable.rest.rest.rest, v) == if v.minor == "6.2.Z" then Some("Windows 8") else FirstMatch(WinTable.rest.rest.rest.rest, v);
      assert FirstMatch(WinTable.rest.rest, v) == if v.minor == "6.1.Z" then Some("Windows 7") else FirstMatch(WinTable.rest.rest.rest, v);
      assert FirstMatch(WinTable.rest, v) == if v.minor == "6.0.Z" then Some("Windows Vista") else FirstMatch(WinTable.rest.rest, v);
      assert FirstMatch(WinTable, v) == if v.major == "5.Y.Z" then Some("Windows XP") else FirstMatch(WinTable.rest, v);
      if v.major == "5.Y.Z" then Some("Windows XP")
      else if v.minor == "6.0.Z" then Some("Windows Vista")
      else if v.minor == "6.1.Z" then Some("Windows 7")
      else if v.minor == "6.2.Z" then Some("Windows 8")
      else if v.minor == "6.3.Z" then Some("Windows 8.1")
      else if v.minor == "10.0.Z" then Some("Windows 10")
      else None
  }

  /** `get_osx_version_name`: the first branch that matches names the release, as the first matching row of `OsxTable`. */
  function OsxVersionName(version: Option<Version>): (r: Option<string>)
    ensures r == Lookup(OsxTable, version)
  {
    if !Truthy(version) then None
    else
      var v := version.value;
      // FirstMatch unfolded once per row of the table, from the last row up to the first
      assert FirstMatch(OsxTable.rest.rest.rest.rest.rest.rest.rest.rest.rest.rest.rest.rest, v) == if v.minor == "10.0.Z" then Some("Cheetha") else None;
      assert FirstMatch(OsxTable.rest.rest.rest.rest.rest.rest.rest.rest.rest.rest.rest, v) == if v.minor == "10.1.Z" then Some("Puma") else FirstMatch(OsxTable.rest.rest.rest.rest.rest.rest.rest.rest.rest.rest.rest.rest, v);
      assert FirstMatch(OsxTable.rest.rest.rest.rest.rest.rest.rest.rest.rest.rest, v) == if v.minor == "10.2.Z" then Some("Jaguar") else FirstMatch(OsxTable.rest.rest.rest.rest.rest.rest.rest.rest.rest.rest.rest, v);
      assert FirstMatch(OsxTable.rest.rest.rest.rest.rest.rest.rest.rest.rest, v) == if v.minor == "10.3.Z" then Some("Panther") else FirstMatch(OsxTable.rest.rest.rest.rest.rest.rest.rest.rest.rest.rest, v);
      assert FirstMatch(OsxTable.rest.rest.rest.rest.rest.rest.rest.rest, v) == if v.minor == "10.4.Z" then Some("Tiger") else FirstMatch(OsxTable.rest.rest.rest.rest.rest.rest.rest.rest.rest, v);
      assert FirstMatch(OsxTable.rest.rest.rest.rest.rest.rest.rest, v) == if v.minor == "10.5.Z" then Some("Leopard") else FirstMatch(OsxTable.rest.rest.rest.rest.rest.rest.rest.rest, v);
      assert FirstMatch(OsxTable.rest.rest.rest.rest.rest.rest, v) == if v.minor == "10.6.Z" then Some("Snow Leopard") else FirstMatch(OsxTable.rest.rest.rest.rest.rest.rest.rest, v);
      assert FirstMatch(OsxTable.rest.rest.rest.rest.rest, v) == if v.minor == "10.7.Z" then Some("Lion") else FirstMatch(OsxTable.rest.rest.rest.rest.rest.rest, v);
      assert FirstMatch(OsxTable.rest.rest.rest.rest, v) == if v.minor == "10.8.Z" then Some("Mountain Lion") else FirstMatch(OsxTable.rest.rest.rest.rest.rest, v);
      assert FirstMatch(OsxTable.rest.rest.rest, v) == if v.minor == "10.9.Z" then Some("Mavericks") else FirstMatch(OsxTable.rest.rest.rest.rest, v);
      assert FirstMatch(OsxTable.rest.rest, v) == if v.minor == "10.10.Z" then Some("Yosemite") else FirstMatch(OsxTable.rest.rest.rest, v);
      assert FirstMatch(OsxTable.rest, v) == if v.minor == "10.11.Z" then Some("El Capitan") else FirstMatch(OsxTable.rest.rest, v);
      assert FirstMatch(OsxTable, v) == if v.minor == "10.12.Z" then Some("Sierra") else FirstMatch(OsxTable.rest, v);
      if v.minor == "10.12.Z" then Some("Sierra")
      else if v.minor == "10.11.Z" then Some("El Capitan")
      else if v.minor == "10.10.Z" then Some("Yosemite")
      else if v.minor == "10.9.Z" then Some("Mavericks")
      else if v.minor == "10.8.Z" then Some("Mountain Lion")
      else if v.minor == "10.7.Z" then Some("Lion")
      else if v.minor == "10.6.Z" then Some("Snow Leopard")
      else if v.minor == "10.5.Z" then Some("Leopard")
      else if v.minor == "10.4.Z" then Some("Tiger")
      else if v.minor == "10.3.Z" then Some("Panther")
      else if v.minor == "10.2.Z" then Some("Jaguar")
      else if v.minor == "10.1.Z" then Some("Puma")
      else if v.minor == "10.0.Z" then Some("Cheetha")
      else None
  }

  /** `get_solaris_version_name`: the first branch that matches names the release, as the first matching row of `SolarisTable`. */
  function SolarisVersionName(version: Option<Version>): (r: Option<string>)
    ensures r == Lookup(SolarisTable, version)
  {
    if !Truthy(version) then None
    else
      var v := version.value;
      // FirstMatch unfolded once per row of the table, from the last row up to the first
      assert FirstMatch(SolarisTable.rest, v) == if v.minor == "5.11" then Some("Solaris 11") else None;
      assert FirstMatch(SolarisTable, v) == if v.minor == "5.10" then Some("Solaris 10") else FirstMatch(SolarisTable.rest, v);
      if v.minor == "5.10" then Some("Solaris 10")
      else if v.minor == "5.11" then Some("Solaris 11")
      else None
  }

  /** `platform.release().split("-")[0]` */
  function FreeBSDVersion(release: string): (r: string)
    ensures Strings.StartsWith(release, r) && '-' !in r
    ensures r == release <==> '-' !in release
    ensures r == release || release[|r|] == '-'
  {
    Strings.BeforeFirst(release, '-')
  }

  // ---------------------------------------------------------------------------------------
  // The same chains as ordered tables: the first matching row wins

  datatype Accessor = Major | Minor

  /** A branch of a chain: compare the `major()` or `minor()` pattern with `pattern`, answer `name`. */
  datatype Row = Row(accessor: Accessor, pattern: string, name: string)

  datatype Table = End | Entry(row: Row, rest: Table)

  predicate Matches(v: Version, row: Row) {
    (if row.accessor == Major then v.major else v.minor) == row.pattern
  }

  function Rows(t: Table): seq<Row> {
    match t
    case End => []
    case Entry(row, rest) => [row] + Rows(rest)
  }

  function FirstMatch(t: Table, v: Version): Option<string> {
    match t
    case End => None
    case Entry(row, rest) => if Matches(v, row) then Some(row.name) else FirstMatch(rest, v)
  }

  /** Row `i` matches and no earlier row does. */
  predicate FirstMatchAt(rows: seq<Row>, v: Version, i: int) {
    0 <= i < |rows| && Matches(v, rows[i]) && forall j :: 0 <= j < i ==> !Matches(v, rows[j])
  }

  /** A missing or empty version has no name; otherwise the first matching row decides. */
  function Lookup(t: Table, version: Option<Version>): Option<string> {
    if Truthy(version) then FirstMatch(t, version.value) else None
  }

  const DebianTable: Table :=
    Entry(Row(Major, "8.Y.Z", "jessie"), Entry(Row(Major, "7.Y.Z", "wheezy"),
    Entry(Row(Major, "6.Y.Z", "squeeze"), Entry(Row(Major, "5.Y.Z", "lenny"),
    Entry(Row(Major, "4.Y.Z", "etch"), Entry(Row(Minor, "3.1.Z", "sarge"),
    Entry(Row(Minor, "3.0.Z", "woody"), End)))))))

  const WinTable: Table :=
    Entry(Row(Major, "5.Y.Z", "Windows XP"), Entry(Row(Minor, "6.0.Z", "Windows Vista"),
    Entry(Row(Minor, "6.1.Z", "Windows 7"), Entry(Row(Minor, "6.2.Z", "Windows 8"),
    Entry(Row(Minor, "6.3.Z", "Windows 8.1"), Entry(Row(Minor, "10.0.Z", "Windows 10"), End))))))

  const OsxTable: Table :=
    Entry(Row(Minor, "10.12.Z", "Sierra"), Entry(Row(Minor, "10.11.Z", "El Capitan"),
    Entry(Row(Minor, "10.10.Z", "Yosemite"), Entry(Row(Minor, "10.9.Z", "Mavericks"),
    Entry(Row(Minor, "10.8.Z", "Mountain Lion"), Entry(Row(Minor, "10.7.Z", "Lion"),
    Entry(Row(Minor, "10.6.Z", "Snow Leopard"), Entry(Row(Minor, "10.5.Z", "Leopard"),
    Entry(Row(Minor, "10.4.Z", "Tiger"), Entry(Row(Minor, "10.3.Z", "Panther"),
    Entry(Row(Minor, "10.2.Z", "Jaguar"), Entry(Row(Minor, "10.1.Z", "Puma"),
    Entry(Row(Minor, "10.0.Z", "Cheetha"), End)))))))))))))

  const SolarisTable: Table :=
    Entry(Row(Minor, "5.10", "Solaris 10"), Entry(Row(Minor, "5.11", "Solaris 11"), End))

  // ---------------------------------------------------------------------------------------
  // Host facts

  datatype Info = Info(
    isLinux: bool, isWindows: bool, isMacos: bool, isFreebsd: bool, isSolaris: bool,
    linuxDistro: Option<string>, osVersion: Option<string>, osVersionName: Option<string>)

  /**
   * What the probes report: `platform.system()`, the `distro` module's id, version and
   * codename, the version read through `RtlGetVersion` (None when it failed), the macOS
   * product version and `platform.release()`.
   */
  datatype Probes = Probes(
    system: string, distroId: string, distroVersion: Version, distroCodename: string,
    winVersion: Option<Version>, macVersion: Version, release: Version)

  /** The Linux release name: codename "n/a" reads as empty, and an empty name on Debian is looked up. */
  function LinuxVersionName(distro: string, codename: string, version: Version): (r: Option<string>)
    ensures codename != "n/a" && codename != "" ==> r == Some(codename)
    ensures (codename == "n/a" || codename == "") && distro != "debian" ==> r == Some("")
    ensures (codename == "n/a" || codename == "") && distro == "debian" ==> r == DebianVersionName(Some(version))
    ensures r != Some("n/a")
  {
    var name := if codename != "n/a" then codename else "";
    if name == "" && distro == "debian" then DebianVersionName(Some(version)) else Some(name)
  }

  function VersionText(v: Option<Version>): Option<string> {
    if v.Some? then Some(v.value.text) else None
  }

  function Detect(p: Probes): (info: Info)
    ensures info.isLinux == (p.system == "Linux") && info.isWindows == (p.system == "Windows")
    ensures info.isMacos == (p.system == "Darwin") && info.isFreebsd == (p.system == "FreeBSD")
    ensures info.isSolaris == (p.system == "SunOS")
    ensures info.linuxDistro.Some? <==> info.isLinux
    ensures info.osVersion.None? ==> info.osVersionName.None?
    ensures info.isLinux ==> (info.osVersion == Some(p.distroVersion.text) &&
              info.osVersionName == LinuxVersionName(p.distroId, p.distroCodename, p.distroVersion))
    ensures info.isWindows ==> (info.osVersion == VersionText(p.winVersion) &&
              info.osVersionName == WinVersionName(p.winVersion))
    ensures info.isMacos ==> (info.osVersion == Some(p.macVersion.text) &&
              info.osVersionName == OsxVersionName(Some(p.macVersion)))
    ensures info.isFreebsd ==> (info.osVersion == Some(FreeBSDVersion(p.release.text)) &&
              info.osVersionName == Some("FreeBSD " + FreeBSDVersion(p.release.text)))
    ensures info.isSolaris ==> (info.osVersion == Some(p.release.text) &&
              info.osVersionName == SolarisVersionName(Some(p.release)))
    ensures !(info.isLinux || info.isWindows || info.isMacos || info.isFreebsd || info.isSolaris) ==>
              info.osVersion.None? && info.osVersionName.None?
  {
    var linux, windows, macos := p.system == "Linux", p.system == "Windows", p.system == "Darwin";
    var freebsd, solaris := p.system == "FreeBSD", p.system == "SunOS";
    if linux then
      Info(linux, windows, macos, freebsd, solaris, Some(p.distroId), Some(p.distroVersion.text),
           LinuxVersionName(p.distroId, p.distroCodename, p.distroVersion))
    else if windows then
      Info(linux, windows, macos, freebsd, solaris, None, VersionText(p.winVersion),
           WinVersionName(p.winVersion))
    else if macos then
      Info(linux, windows, macos, freebsd, solaris, None, Some(p.macVersion.text),
           OsxVersionName(Some(p.macVersion)))
    else if freebsd then
      var v := FreeBSDVersion(p.release.text);
      Info(linux, windows, macos, freebsd, solaris, None, Some(v), Some("FreeBSD " + v))
    else if solaris then
      Info(linux, windows, macos, freebsd, solaris, None, Some(p.release.text),
           SolarisVersionName(Some(p.release)))
    else
      Info(linux, windows, macos, freebsd, solaris, None, None, None)
  }

  predicate OneFamilyAtMost(info: Info) {
    (if info.isLinux then 1 else 0) + (if info.isWindows then 1 else 0) + (if info.isMacos then 1 else 0)
      + (if info.isFreebsd then 1 else 0) + (if info.isSolaris then 1 else 0) <= 1
  }

  const AptDistros: set<string> := {"debian", "ubuntu", "knoppix", "linuxmint", "raspbian"}

  const YumDistros: set<string> :=
    {"centos", "redhat", "fedora", "pidora", "scientific", "xenserver", "amazon", "oracle"}

  /** `with_apt`: a Linux host whose distribution is one of the Debian family; never a yum distribution. */
  function WithApt(info: Info): (b: bool)
    ensures b ==> info.isLinux && info.linuxDistro.Some? && info.linuxDistro.value !in YumDistros
    ensures b <==> info.isLinux && info.linuxDistro.Some? &&
                   info.linuxDistro.value in {"debian", "ubuntu", "knoppix", "linuxmint", "raspbian"}
  {
    info.isLinux && info.linuxDistro.Some? && info.linuxDistro.value in AptDistros
  }

  /** `with_yum`: a Linux host whose distribution is one of the Red Hat family; never an apt distribution. */
  function WithYum(info: Info): (b: bool)
    ensures b ==> info.isLinux && info.linuxDistro.Some? && info.linuxDistro.value !in AptDistros
    ensures b <==> info.isLinux && info.linuxDistro.Some? &&
                   info.linuxDistro.value in {"centos", "redhat", "fedora", "pidora", "scientific",
                                              "xenserver", "amazon", "oracle"}
  {
    info.isLinux && info.linuxDistro.Some? && info.linuxDistro.value in YumDistros
  }

  // ---------------------------------------------------------------------------------------
  // Properties

  lemma DetectOneFamily(p: Probes)
    ensures OneFamilyAtMost(Detect(p))
  {
  }

  lemma AptYumExclusive(info: Info)
    ensures !(WithApt(info) && WithYum(info))
  {
  }

  /** The lookup yields nothing exactly when no row matches, and otherwise the name of the first matching row. */
  lemma {:induction false} FirstMatchSpec(t: Table, v: Version)
    ensures FirstMatch(t, v).None? <==> forall i :: 0 <= i < |Rows(t)| ==> !Matches(v, Rows(t)[i])
    ensures FirstMatch(t, v).Some? ==>
      exists i :: FirstMatchAt(Rows(t), v, i) && Rows(t)[i].name == FirstMatch(t, v).value
  {
    match t
    case End =>
    case Entry(row, rest) =>
      assert Rows(t)[0] == row;
      if Matches(v, row) {
        assert FirstMatchAt(Rows(t), v, 0);
      } else {
        FirstMatchSpec(rest, v);
        assert forall i :: 0 < i < |Rows(t)| ==> Rows(t)[i] == Rows(rest)[i - 1];
        if FirstMatch(t, v).Some? {
          var i :| FirstMatchAt(Rows(rest), v, i) && Rows(rest)[i].name == FirstMatch(t, v).value;
          assert FirstMatchAt(Rows(t), v, i + 1);
        }
      }
  }

  /** A row that matches with no matching row before it is the one the lookup answers. */
  lemma {:induction false} FirstMatchIsAt(t: Table, v: Version, i: int)
    requires FirstMatchAt(Rows(t), v, i)
    ensures FirstMatch(t, v) == Some(Rows(t)[i].name)
  {
    assert Rows(t)[0] == t.row;
    if i > 0 {
      assert forall j :: 0 <= j < i - 1 ==> Rows(t.rest)[j] == Rows(t)[j + 1];
      FirstMatchIsAt(t.rest, v, i - 1);
    }
  }

  /** Debian 8 is "jessie", whatever its minor and patch numbers. */
  lemma DebianEightIsJessie(v: Version)
    requires v.text != "" && v.major == "8.Y.Z"
    ensures DebianVersionName(Some(v)) == Some("jessie")
    ensures Detect(Probes("Linux", "debian", v, "n/a", None, v, v)).osVersionName == Some("jessie")
  {
  }

  /** Debian 9 has no row in the table, so it gets no name. */
  lemma DebianNineHasNoName(v: Version)
    requires v.text != "" && v.major == "9.Y.Z" && Strings.StartsWith(v.minor, "9.")
    ensures DebianVersionName(Some(v)) == None
  {
    assert v.minor[0] == '9';
  }

  /**
   * The Solaris rows compare `minor()` with "5.10" and "5.11", which lack the ".Z" every
   * other row carries: a version whose `minor()` pattern ends in ".Z" is never named.
   */
  lemma SolarisFilledPatternsNeverMatch(v: Version)
    requires Strings.EndsWith(v.minor, ".Z")
    ensures SolarisVersionName(Some(v)) == None
  {
    var n := |v.minor|;
    assert v.minor[n - 1] == 'Z';
  }
}
