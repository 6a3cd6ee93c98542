/**
 * `unzip`: the choice between tar and zip by file name, and the loop over the entries of a
 * zip archive. The archive is its list of entry records; extracting one entry and changing
 * the mode of one file are operations passed in, each answering `None` on success or the
 * message of the exception it raised.
 */
module Unzip {
  import opened Wrappers
  import Strings

  /** The fields of a `ZipInfo` the loop reads. */
  datatype ZipEntry = ZipEntry(filename: string, fileSize: nat, externalAttr: Attr)

  /** The 32-bit external file attributes field of a zip central directory record. */
  type Attr = x: nat | x < 0x1_0000_0000

  /** What happened to the archive's entries, in the order it happened. */
  datatype Event =
    | Extracted(name: string)
    | PermissionsSet(path: string, mode: int)
    | Failed(name: string, message: string)

  /** Extracts one entry under the destination; `Some(message)` when it raised. */
  type Extractor = ZipEntry -> Option<string>

  /** `os.chmod(path, mode)`; `Some(message)` when it raised. */
  type Chmod = (string, int) -> Option<string>

  /**
   * The result of `unzip`: handed over to `untargz`; stopped by the progress line's
   * `ZeroDivisionError` before the first entry; or the zip loop's log and sizes.
   */
  datatype UnzipResult =
    | Untargz
    | ProgressDivisionByZero
    | Unzipped(events: seq<Event>, uncompressSize: nat, extractedSize: nat)

  // ---------------------------------------------------------------------------------------
  // Dispatch on the file name

  const TarSuffixes: seq<string> := [".tar.gz", ".tgz", ".tbz2", ".tar.bz2", ".tar"]

  /** The names `unzip` hands to `untargz`; every other name is opened as a zip archive. */
  function IsTarName(filename: string): (b: bool)
    ensures b <==> Strings.EndsWith(filename, ".tar.gz") || Strings.EndsWith(filename, ".tgz") ||
                   Strings.EndsWith(filename, ".tbz2") || Strings.EndsWith(filename, ".tar.bz2") ||
                   Strings.EndsWith(filename, ".tar")
  {
    assert TarSuffixes[0] == ".tar.gz" && TarSuffixes[1] == ".tgz" && TarSuffixes[2] == ".tbz2";
    assert TarSuffixes[3] == ".tar.bz2" && TarSuffixes[4] == ".tar";
    exists i :: 0 <= i < |TarSuffixes| && Strings.EndsWith(filename, TarSuffixes[i])
  }

  /** A name ending in `.zip` is opened as a zip archive. */
  lemma ZipNameIsZip(filename: string)
    requires Strings.EndsWith(filename, ".zip")
    ensures !IsTarName(filename)
  {
    assert filename[|filename| - 1] == 'p';
    forall i | 0 <= i < |TarSuffixes|
      ensures !Strings.EndsWith(filename, TarSuffixes[i])
    {
      Strings.EndsWithCharDiffers(filename, TarSuffixes[i], 1);
    }
  }

  /** Only the listed suffixes count: a `.tar.xz` or `.tar.zst` name is opened as a zip archive. */
  lemma OtherTarballsAreZip(stem: string)
    ensures !IsTarName(stem + ".tar.xz") && !IsTarName(stem + ".tar.zst")
  {
    var xz, zst := stem + ".tar.xz", stem + ".tar.zst";
    assert xz[|xz| - 2] == 'x' && xz[|xz| - 1] == 'z';
    assert zst[|zst| - 1] == 't';
    forall i | 0 <= i < |TarSuffixes|
      ensures !Strings.EndsWith(xz, TarSuffixes[i]) && !Strings.EndsWith(zst, TarSuffixes[i])
    {
      var suffix := TarSuffixes[i];
      if suffix[|suffix| - 1] == 'z' {
        Strings.EndsWithCharDiffers(xz, suffix, 2);
      } else {
        Strings.EndsWithCharDiffers(xz, suffix, 1);
      }
      Strings.EndsWithCharDiffers(zst, suffix, 1);
    }
  }

  // ---------------------------------------------------------------------------------------
  // One entry

  /**
   * The Unix mode stored in the high half of the external attributes, without the file-type
   * bits: `external_attr >> 16 & 0xFFF`, which on a non-negative 32-bit field is a division
   * by 2^16 followed by the remainder modulo 2^12.
   */
  function Permission(attr: Attr): (mode: int)
    ensures 0 <= mode < 0x1000
  {
    (attr / 0x1_0000) % 0x1000
  }

  /**
   * Unpacking a packed field: the Unix `st_mode` (file type over the 12 permission bits) in the
   * high half and the MS-DOS attributes in the low half give back exactly the permission bits.
   */
  lemma PermissionOfPacked(fileType: nat, mode: nat, dos: nat)
    requires fileType < 0x10 && mode < 0x1000 && dos < 0x1_0000
    ensures (fileType * 0x1000 + mode) * 0x1_0000 + dos < 0x1_0000_0000
    ensures Permission((fileType * 0x1000 + mode) * 0x1_0000 + dos) == mode
  {
    var high := fileType * 0x1000 + mode;
    assert high < 0x1_0000;
    var attr := high * 0x1_0000 + dos;
    assert attr / 0x1_0000 == high;
    assert high % 0x1000 == mode;
  }

  /** The low 16 bits (the MS-DOS attributes) never reach the mode. */
  lemma PermissionIgnoresLowBits(a: Attr, b: Attr)
    requires a / 0x1_0000 == b / 0x1_0000
    ensures Permission(a) == Permission(b)
  {
  }

  /** `os.path.join(dir, name)` on POSIX: an absolute name replaces the directory. */
  function PathJoin(dir: string, name: string): (p: string)
    ensures Strings.EndsWith(p, name)
    ensures !Strings.StartsWith(name, "/") ==> Strings.StartsWith(p, dir)
  {
    if Strings.StartsWith(name, "/") then name
    else if dir == [] || dir[|dir| - 1] == '/' then dir + name
    else dir + "/" + name
  }

  /** The Windows path limit: the entry's name and the destination together reach 260 characters. */
  predicate TooLong(fullPath: string, e: ZipEntry) {
    |e.filename| + |fullPath| >= 260
  }

  /** Whether the loop extracts the entry: short enough on Windows, and extraction did not raise. */
  predicate IsExtracted(windows: bool, fullPath: string, extract: Extractor, e: ZipEntry) {
    (!windows || !TooLong(fullPath, e)) && extract(e).None?
  }

  /** What the loop body does for one entry. */
  function EntryEvents(windows: bool, keepPermissions: bool, fullPath: string,
                       extract: Extractor, chmod: Chmod, e: ZipEntry): seq<Event>
  {
    if windows then
      if TooLong(fullPath, e) then [Failed(e.filename, "Filename too long")]
      else if extract(e).Some? then [Failed(e.filename, extract(e).value)]
      else [Extracted(e.filename)]
    else if extract(e).Some? then [Failed(e.filename, extract(e).value)]
    else if !keepPermissions then [Extracted(e.filename)]
    else
      var path := PathJoin(fullPath, e.filename);
      var mode := Permission(e.externalAttr);
      match chmod(path, mode)
      case None => [Extracted(e.filename), PermissionsSet(path, mode)]
      case Some(m) => [Extracted(e.filename), Failed(e.filename, m)]
  }

  /**
   * One entry on its own: it is extracted or it fails; on Windows only the length rule and the
   * extraction decide, and elsewhere a chmod follows a successful extraction iff permissions are kept.
   */
  lemma EntryRule(windows: bool, keepPermissions: bool, fullPath: string,
                  extract: Extractor, chmod: Chmod, e: ZipEntry)
    ensures var ev := EntryEvents(windows, keepPermissions, fullPath, extract, chmod, e);
            (Extracted(e.filename) in ev <==> IsExtracted(windows, fullPath, extract, e)) &&
            (windows && TooLong(fullPath, e) ==> ev == [Failed(e.filename, "Filename too long")]) &&
            (IsExtracted(windows, fullPath, extract, e) ==> ev[0] == Extracted(e.filename)) &&
            (!IsExtracted(windows, fullPath, extract, e) ==> |ev| == 1 && ev[0].Failed?) &&
            ((exists p, m :: PermissionsSet(p, m) in ev) <==>
               !windows && keepPermissions && extract(e).None? &&
               chmod(PathJoin(fullPath, e.filename), Permission(e.externalAttr)).None?)
  {
    var ev := EntryEvents(windows, keepPermissions, fullPath, extract, chmod, e);
    if !windows && keepPermissions && extract(e).None? {
      var path := PathJoin(fullPath, e.filename);
      if chmod(path, Permission(e.externalAttr)).None? {
        assert PermissionsSet(path, Permission(e.externalAttr)) in ev;
      }
    }
  }

  // ---------------------------------------------------------------------------------------
  // The loop

  /** The log of the loop over `entries`: each entry's events, in order. */
  function Log(windows: bool, keepPermissions: bool, fullPath: string,
               extract: Extractor, chmod: Chmod, entries: seq<ZipEntry>): seq<Event>
  {
    if entries == [] then []
    else Log(windows, keepPermissions, fullPath, extract, chmod, entries[..|entries| - 1]) +
         EntryEvents(windows, keepPermissions, fullPath, extract, chmod, entries[|entries| - 1])
  }

  /** `sum(file_.file_size for file_ in z.infolist())` */
  function TotalSize(entries: seq<ZipEntry>): nat {
    if entries == [] then 0 else TotalSize(entries[..|entries| - 1]) + entries[|entries| - 1].fileSize
  }

  /** A failing entry does not stop the loop: the log of two runs of entries is the two logs in turn. */
  lemma {:induction false} LogAppend(windows: bool, keepPermissions: bool, fullPath: string,
                                     extract: Extractor, chmod: Chmod, a: seq<ZipEntry>, b: seq<ZipEntry>)
    ensures Log(windows, keepPermissions, fullPath, extract, chmod, a + b) ==
            Log(windows, keepPermissions, fullPath, extract, chmod, a) +
            Log(windows, keepPermissions, fullPath, extract, chmod, b)
    decreases |b|
  {
    if b != [] {
      var b' := b[..|b| - 1];
      assert (a + b)[..|a + b| - 1] == a + b';
      LogAppend(windows, keepPermissions, fullPath, extract, chmod, a, b');
    } else {
      assert a + b == a;
    }
  }

  /** Every entry is attempted: an event names an entry, and each entry extracted is logged as such. */
  lemma {:induction false} LogMembers(windows: bool, keepPermissions: bool, fullPath: string,
                                      extract: Extractor, chmod: Chmod, entries: seq<ZipEntry>, name: string)
    ensures Extracted(name) in Log(windows, keepPermissions, fullPath, extract, chmod, entries) <==>
            exists i :: 0 <= i < |entries| && entries[i].filename == name &&
                        IsExtracted(windows, fullPath, extract, entries[i])
  {
    if entries != [] {
      var init := entries[..|entries| - 1];
      var e := entries[|entries| - 1];
      LogMembers(windows, keepPermissions, fullPath, extract, chmod, init, name);
      EntryRule(windows, keepPermissions, fullPath, extract, chmod, e);
      var ev := EntryEvents(windows, keepPermissions, fullPath, extract, chmod, e);
      if Extracted(name) in ev {
        assert e.filename == name by {
          if !windows && keepPermissions && extract(e).None? {
            assert ev[0] == Extracted(e.filename);
          }
        }
        assert entries[|entries| - 1] == e;
      }
      if i :| 0 <= i < |init| && init[i].filename == name && IsExtracted(windows, fullPath, extract, init[i]) {
        assert entries[i] == init[i];
      }
    }
  }

  /** The mode change of one entry: only off Windows, with permissions kept, after its extraction. */
  lemma EntryChmod(windows: bool, keepPermissions: bool, fullPath: string,
                   extract: Extractor, chmod: Chmod, e: ZipEntry, ev: Event)
    requires ev in EntryEvents(windows, keepPermissions, fullPath, extract, chmod, e) && ev.PermissionsSet?
    ensures !windows && keepPermissions && extract(e).None?
    ensures ev.path == PathJoin(fullPath, e.filename) && ev.mode == Permission(e.externalAttr)
  {
  }

  /** `ev` sets the mode of entry `i`: the entry was extracted and the mode is its permission bits. */
  predicate SetsModeOf(ev: Event, fullPath: string, extract: Extractor, entries: seq<ZipEntry>, i: int)
    requires ev.PermissionsSet?
  {
    0 <= i < |entries| && ev.path == PathJoin(fullPath, entries[i].filename) &&
    ev.mode == Permission(entries[i].externalAttr) && extract(entries[i]).None?
  }

  /** No mode is changed on Windows or without `keepPermissions`, and every mode set is one of 0..4095. */
  lemma {:induction false} ChmodRule(windows: bool, keepPermissions: bool, fullPath: string,
                                     extract: Extractor, chmod: Chmod, entries: seq<ZipEntry>)
    ensures forall ev :: ev in Log(windows, keepPermissions, fullPath, extract, chmod, entries) && ev.PermissionsSet? ==>
              !windows && keepPermissions && 0 <= ev.mode < 0x1000 &&
              exists i :: SetsModeOf(ev, fullPath, extract, entries, i)
  {
    if entries != [] {
      var init := entries[..|entries| - 1];
      var e := entries[|entries| - 1];
      var log := Log(windows, keepPermissions, fullPath, extract, chmod, entries);
      var initLog := Log(windows, keepPermissions, fullPath, extract, chmod, init);
      var last := EntryEvents(windows, keepPermissions, fullPath, extract, chmod, e);
      assert log == initLog + last;
      ChmodRule(windows, keepPermissions, fullPath, extract, chmod, init);
      forall ev | ev in log && ev.PermissionsSet?
        ensures !windows && keepPermissions && 0 <= ev.mode < 0x1000 &&
                exists i :: SetsModeOf(ev, fullPath, extract, entries, i)
      {
        if ev in initLog {
          var i :| SetsModeOf(ev, fullPath, extract, init, i);
          assert entries[i] == init[i];
          assert SetsModeOf(ev, fullPath, extract, entries, i);
        } else {
          EntryChmod(windows, keepPermissions, fullPath, extract, chmod, e, ev);
          assert SetsModeOf(ev, fullPath, extract, entries, |entries| - 1);
        }
      }
    }
  }

  /** One more entry: its events follow the log so far, and its size adds to the total. */
  lemma PrefixStep(windows: bool, keepPermissions: bool, fullPath: string,
                   extract: Extractor, chmod: Chmod, entries: seq<ZipEntry>, i: nat)
    requires i < |entries|
    ensures Log(windows, keepPermissions, fullPath, extract, chmod, entries[..i + 1]) ==
            Log(windows, keepPermissions, fullPath, extract, chmod, entries[..i]) +
            EntryEvents(windows, keepPermissions, fullPath, extract, chmod, entries[i])
    ensures TotalSize(entries[..i + 1]) == TotalSize(entries[..i]) + entries[i].fileSize
  {
    assert entries[..i + 1][..i] == entries[..i];
  }

  /** The Windows loop: the length rule, then the extraction; a failure is logged and the loop goes on. */
  method ExtractAllWindows(entries: seq<ZipEntry>, keepPermissions: bool, fullPath: string,
                           extract: Extractor, chmod: Chmod) returns (events: seq<Event>, extractedSize: nat)
    ensures events == Log(true, keepPermissions, fullPath, extract, chmod, entries)
    ensures extractedSize == TotalSize(entries)
  {
    extractedSize := 0;
    events := [];
    var i := 0;
    while i < |entries|
      invariant i <= |entries|
      invariant extractedSize == TotalSize(entries[..i])
      invariant events == Log(true, keepPermissions, fullPath, extract, chmod, entries[..i])
    {
      var e := entries[i];
      PrefixStep(true, keepPermissions, fullPath, extract, chmod, entries, i);
      extractedSize := extractedSize + e.fileSize;
      if TooLong(fullPath, e) {
        events := events + [Failed(e.filename, "Filename too long")];
      } else {
        match extract(e) {
          case Some(m) => events := events + [Failed(e.filename, m)];
          case None => events := events + [Extracted(e.filename)];
        }
      }
      i := i + 1;
    }
    assert entries[..|entries|] == entries;
  }

  /**
   * The loop everywhere else: the extraction, then the mode when permissions are kept; a failure
   * of either is logged and the loop goes on.
   */
  method ExtractAll(entries: seq<ZipEntry>, keepPermissions: bool, fullPath: string,
                    extract: Extractor, chmod: Chmod) returns (events: seq<Event>, extractedSize: nat)
    ensures events == Log(false, keepPermissions, fullPath, extract, chmod, entries)
    ensures extractedSize == TotalSize(entries)
  {
    extractedSize := 0;
    events := [];
    var i := 0;
    while i < |entries|
      invariant i <= |entries|
      invariant extractedSize == TotalSize(entries[..i])
      invariant events == Log(false, keepPermissions, fullPath, extract, chmod, entries[..i])
    {
      var e := entries[i];
      PrefixStep(false, keepPermissions, fullPath, extract, chmod, entries, i);
      extractedSize := extractedSize + e.fileSize;
      ghost var before := events;
      ghost var step := EntryEvents(false, keepPermissions, fullPath, extract, chmod, e);
      match extract(e) {
        case Some(m) =>
          assert step == [Failed(e.filename, m)];
          events := events + [Failed(e.filename, m)];
        case None =>
          events := events + [Extracted(e.filename)];
          if keepPermissions {
            var path := PathJoin(fullPath, e.filename);
            var mode := Permission(e.externalAttr);
            match chmod(path, mode) {
              case None =>
                assert step == [Extracted(e.filename), PermissionsSet(path, mode)];
                events := events + [PermissionsSet(path, mode)];
              case Some(m) =>
                assert step == [Extracted(e.filename), Failed(e.filename, m)];
                events := events + [Failed(e.filename, m)];
            }
          } else {
            assert step == [Extracted(e.filename)];
          }
      }
      assert events == before + step;
      i := i + 1;
    }
    assert entries[..|entries|] == entries;
  }

  /**
   * `unzip(filename, destination, keep_permissions)`: tar names are handed to `untargz`; a zip
   * archive's entries are visited in order, each one's size added to the running total
   * whatever becomes of it. With `tty` (standard output is a terminal) each entry first prints
   * the running size as a percentage of the total, which raises for an archive of empty entries.
   */
  method Unzip(filename: string, entries: seq<ZipEntry>, windows: bool, keepPermissions: bool,
               fullPath: string, tty: bool, extract: Extractor, chmod: Chmod) returns (r: UnzipResult)
    ensures r.Untargz? <==> IsTarName(filename)
    ensures r.ProgressDivisionByZero? <==> !IsTarName(filename) && tty && entries != [] && TotalSize(entries) == 0
    ensures r.Unzipped? ==>
              r.events == Log(windows, keepPermissions, fullPath, extract, chmod, entries) &&
              r.uncompressSize == TotalSize(entries) && r.extractedSize == r.uncompressSize
  {
    if IsTarName(filename) {
      return Untargz;
    }
    var uncompressSize := TotalSize(entries);
    if tty && entries != [] && uncompressSize == 0 {
      // the first progress line divides the running size by a total of zero
      return ProgressDivisionByZero;
    }
    var events, extractedSize;
    if windows {
      events, extractedSize := ExtractAllWindows(entries, keepPermissions, fullPath, extract, chmod);
    } else {
      events, extractedSize := ExtractAll(entries, keepPermissions, fullPath, extract, chmod);
    }
    return Unzipped(events, uncompressSize, extractedSize);
  }
}
