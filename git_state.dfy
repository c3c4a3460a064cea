/**
 * The bookkeeping the git feature keeps about the working tree: the `files`,
 * `directories` and `statusMap` tables, filled by `walk` (insert only when the key is
 * absent) and `updateStatus`, emptied selectively by `clearState`, and queried by
 * `exists`.
 */
module GitState {
  import opened Wrappers
  import opened GitCommands

  /** An entry of `files`: the absolute path and the repository-relative id. (The parsed
      path fields, stats and mime type are not modelled.) */
  datatype FileEntry = FileEntry(path: string, relative: string)

  /** An entry of `directories`. */
  datatype DirEntry = DirEntry(path: string, relative: string)

  /** What the filesystem says about a listed path that exists: its absolute path and that of
      its directory, both made relative to the project root (before separators are
      normalised), whether it is a directory, and whether the second `stat` (of the directory
      for a file, of the path itself for a directory) succeeds. */
  datatype PathInfo = PathInfo(path: string, dir: string, relativeFile: string, relativeDir: string,
                               isDirectory: bool, secondStatOk: bool)

  /** The events emitted on the runtime. */
  datatype Event = ReceivedDirectory(id: string) | ReceivedFile(id: string)

  /** `path.replace(/\\\\?/g, '/')`: each backslash, together with one backslash right after
      it, becomes a `/`. */
  function Normalize(p: string): (r: string)
    ensures '\\' !in r
    ensures |r| <= |p|
    ensures '\\' !in p ==> r == p
  {
    if p == [] then []
    else if p[0] == '\\' then "/" + Normalize(if |p| >= 2 && p[1] == '\\' then p[2..] else p[1..])
    else [p[0]] + Normalize(p[1..])
  }

  /** Normalising twice is normalising once. */
  lemma NormalizeIdempotent(p: string)
    ensures Normalize(Normalize(p)) == Normalize(p)
  {
  }

  /** The two tables `walk` fills. */
  datatype Tables = Tables(files: map<string, FileEntry>, directories: map<string, DirEntry>)

  /** Every entry of `t` is still in `u`, unchanged. */
  predicate Extends(t: Tables, u: Tables) {
    && (forall k :: k in t.files ==> k in u.files && u.files[k] == t.files[k])
    && (forall k :: k in t.directories ==> k in u.directories && u.directories[k] == t.directories[k])
  }

  /** The directory id `statFile` records for a path, if any. */
  function DirectoryId(info: PathInfo): (id: string)
    ensures '\\' !in id
    ensures info.isDirectory ==> id == Normalize(info.relativeFile)
    ensures !info.isDirectory ==> id == Normalize(info.relativeDir)
  {
    if info.isDirectory then Normalize(info.relativeFile) else Normalize(info.relativeDir)
  }

  /** `statFile(path)` on the tables; `None` is a path that does not exist. */
  function StatTables(t: Tables, info: Option<PathInfo>): (u: Tables)
    ensures Extends(t, u)
    ensures info.None? ==> u == t
    ensures info.Some? ==>
      var i := info.value; var file := Normalize(i.relativeFile);
      && u.files.Keys == t.files.Keys + (if i.isDirectory then {} else {file})
      && u.directories.Keys == t.directories.Keys + (if i.secondStatOk then {DirectoryId(i)} else {})
      && (!i.isDirectory && file !in t.files ==> u.files[file] == FileEntry(i.path, file))
      && (i.secondStatOk && DirectoryId(i) !in t.directories ==>
            u.directories[DirectoryId(i)] == DirEntry(if i.isDirectory then i.path else i.dir, DirectoryId(i)))
  {
    match info
    case None => t
    case Some(i) =>
      var file := Normalize(i.relativeFile);
      var dirId := DirectoryId(i);
      var dirs :=
        if i.secondStatOk && dirId !in t.directories
        then t.directories[dirId := DirEntry(if i.isDirectory then i.path else i.dir, dirId)]
        else t.directories;
      var files := if !i.isDirectory && file !in t.files then t.files[file := FileEntry(i.path, file)] else t.files;
      Tables(files, dirs)
  }

  /** The events `statFile(path)` emits: a new directory, then a new file. */
  function StatEvents(t: Tables, info: Option<PathInfo>): (events: seq<Event>)
    ensures forall e :: e in events && e.ReceivedFile? ==> e.id !in t.files && e.id in StatTables(t, info).files
    ensures forall e :: e in events && e.ReceivedDirectory? ==>
      e.id !in t.directories && e.id in StatTables(t, info).directories
    // Conversely every new entry has its event, the directory's before the file's.
    ensures forall id :: id in StatTables(t, info).files && id !in t.files ==> ReceivedFile(id) in events
    ensures forall id :: id in StatTables(t, info).directories && id !in t.directories ==>
      ReceivedDirectory(id) in events
    ensures forall i, j :: 0 <= i < j < |events| ==> events[i].ReceivedDirectory? && events[j].ReceivedFile?
  {
    match info
    case None => []
    case Some(i) =>
      var file := Normalize(i.relativeFile);
      var dirId := DirectoryId(i);
      (if i.secondStatOk && dirId !in t.directories then [ReceivedDirectory(dirId)] else [])
      + (if !i.isDirectory && file !in t.files then [ReceivedFile(file)] else [])
  }

  /** Where `x` first occurs in `s`. */
  function FirstIndex(s: seq<string>, x: string): (i: nat)
    requires x in s
    ensures i < |s| && s[i] == x && x !in s[..i]
  {
    if s[0] == x then 0
    else
      assert s == [s[0]] + s[1..];
      var i := 1 + FirstIndex(s[1..], x);
      assert s[..i] == [s[0]] + s[1..][..i - 1];
      i
  }

  /** The first occurrence of `x` in a prefix holding it is its first occurrence overall. */
  lemma FirstIndexInPrefix(s: seq<string>, n: nat, x: string)
    requires n <= |s| && x in s[..n]
    ensures FirstIndex(s, x) == FirstIndex(s[..n], x)
  {
    var i := FirstIndex(s[..n], x);
    var j := FirstIndex(s, x);
    assert s[..n][..i] == s[..i];
  }

  /** `uniq(list)`: the first occurrence of each element, in the order of those
      occurrences. */
  function Uniq(s: seq<string>): (r: seq<string>)
    ensures forall x :: x in r <==> x in s
    ensures forall i, j :: 0 <= i < j < |r| ==> r[i] != r[j]
    ensures forall i, j :: 0 <= i < j < |r| ==> FirstIndex(s, r[i]) < FirstIndex(s, r[j])
    ensures |r| <= |s|
  {
    if s == [] then []
    else
      var n := |s| - 1;
      var init := Uniq(s[..n]);
      assert forall x :: x in s <==> x in s[..n] || x == s[n];
      forall x | x in init ensures FirstIndex(s, x) == FirstIndex(s[..n], x) && FirstIndex(s, x) < n {
        FirstIndexInPrefix(s, n, x);
      }
      if s[n] in s[..n] then init
      else
        assert FirstIndex(s, s[n]) == n;
        init + [s[n]]
  }

  /** A list without repeats is its own `uniq`. */
  lemma {:induction false} UniqDistinct(s: seq<string>)
    requires forall i, j :: 0 <= i < j < |s| ==> s[i] != s[j]
    ensures Uniq(s) == s
  {
    if s != [] {
      var n := |s| - 1;
      UniqDistinct(s[..n]);
      assert s[n] !in s[..n] by {
        forall k | 0 <= k < n ensures s[..n][k] != s[n] {
          assert s[k] != s[n];
        }
      }
      assert Uniq(s) == Uniq(s[..n]) + [s[n]];
    }
  }

  /** `.filter(p => p.length)`. */
  function NonEmptyPaths(s: seq<string>): (r: seq<string>)
    ensures forall x :: x in r <==> x in s && x != []
  {
    if s == [] then []
    else
      assert forall x :: x in s <==> x == s[0] || x in s[1..];
      if s[0] != [] then [s[0]] + NonEmptyPaths(s[1..]) else NonEmptyPaths(s[1..])
  }

  /** The listed paths `walk` visits: each non-empty path once. */
  function WalkCandidates(listed: seq<string>): (r: seq<string>)
    ensures forall x :: x in r <==> x in listed && x != []
  {
    NonEmptyPaths(Uniq(listed))
  }

  /** What the filesystem says about a listed path. */
  function InfoOf(fs: map<string, PathInfo>, p: string): Option<PathInfo> {
    if p in fs then Some(fs[p]) else None
  }

  /** The tables after `statFile` has run on each path in turn. */
  function WalkTables(t: Tables, paths: seq<string>, fs: map<string, PathInfo>): (u: Tables)
    ensures t.files.Keys <= u.files.Keys && t.directories.Keys <= u.directories.Keys
    ensures |u.files| <= |t.files| + |paths|
  {
    if paths == [] then t
    else StatTables(WalkTables(t, paths[..|paths| - 1], fs), InfoOf(fs, paths[|paths| - 1]))
  }

  /** The events of those calls, in order. */
  function WalkEvents(t: Tables, paths: seq<string>, fs: map<string, PathInfo>): (events: seq<Event>)
    ensures |events| <= 2 * |paths|
  {
    if paths == [] then []
    else
      var n := |paths| - 1;
      WalkEvents(t, paths[..n], fs) + StatEvents(WalkTables(t, paths[..n], fs), InfoOf(fs, paths[n]))
  }

  /** One more path: one more `statFile`. */
  lemma WalkStep(t: Tables, paths: seq<string>, fs: map<string, PathInfo>, i: nat)
    requires i < |paths|
    ensures WalkTables(t, paths[..i + 1], fs) == StatTables(WalkTables(t, paths[..i], fs), InfoOf(fs, paths[i]))
    ensures WalkEvents(t, paths[..i + 1], fs) ==
      WalkEvents(t, paths[..i], fs) + StatEvents(WalkTables(t, paths[..i], fs), InfoOf(fs, paths[i]))
  {
    assert paths[..i + 1][..i] == paths[..i];
  }

  /** A walk never replaces an entry that was already there. */
  lemma {:induction false} WalkExtends(t: Tables, paths: seq<string>, fs: map<string, PathInfo>)
    ensures Extends(t, WalkTables(t, paths, fs))
  {
    if paths != [] {
      WalkExtends(t, paths[..|paths| - 1], fs);
    }
  }

  /** After a walk every existing listed file is in `files`, and every listed directory whose
      `stat` succeeded is in `directories`. */
  lemma {:induction false} WalkRecords(t: Tables, paths: seq<string>, fs: map<string, PathInfo>)
    ensures forall p :: p in paths && p in fs && !fs[p].isDirectory ==>
      Normalize(fs[p].relativeFile) in WalkTables(t, paths, fs).files
    ensures forall p :: p in paths && p in fs && fs[p].secondStatOk ==>
      DirectoryId(fs[p]) in WalkTables(t, paths, fs).directories
  {
    if paths != [] {
      var n := |paths| - 1;
      WalkRecords(t, paths[..n], fs);
      WalkExtends(WalkTables(t, paths[..n], fs), [paths[n]], fs);
      assert forall p :: p in paths ==> p in paths[..n] || p == paths[n];
    }
  }

  /** Which tables `clearState` empties: each one unless its key is exactly `false`. */
  datatype ClearOptions = ClearOptions(files: Option<bool>, directories: Option<bool>, statusMap: Option<bool>)

  /** The options of `run`: whether to clear first, what to clear, and how to list files. */
  datatype RunOptions = RunOptions(clear: bool, clearing: ClearOptions, listing: LsFilesOptions)

  /** The git feature's view of the working tree. */
  class GitWorkspace {
    var files: map<string, FileEntry>
    var directories: map<string, DirEntry>
    var statusMap: map<string, Option<string>>

    /** Both walk tables. */
    function Current(): Tables
      reads this
    {
      Tables(files, directories)
    }

    constructor()
      ensures files == map[] && directories == map[] && statusMap == map[]
    {
      files := map[];
      directories := map[];
      statusMap := map[];
    }

    /** `exists(path)`, given the path made relative to the project root. */
    function Exists(fileId: string): (b: bool)
      reads this
      ensures b <==> fileId in Current().files || fileId in Current().directories
    {
      fileId in files || fileId in directories
    }

    /** `clearState(options)`. */
    method ClearState(options: ClearOptions)
      modifies this
      ensures files == if options.files == Some(false) then old(files) else map[]
      ensures directories == if options.directories == Some(false) then old(directories) else map[]
      ensures statusMap == if options.statusMap == Some(false) then old(statusMap) else map[]
      ensures options.files != Some(false) && options.directories != Some(false) ==>
        forall fileId :: !Exists(fileId)
    {
      if options.files != Some(false) {
        files := map[];
      }
      if options.directories != Some(false) {
        directories := map[];
      }
      if options.statusMap != Some(false) {
        statusMap := map[];
      }
    }

    /** `statFile(path)` inside `walk`. */
    method StatFile(info: Option<PathInfo>) returns (events: seq<Event>)
      modifies this
      ensures Current() == StatTables(old(Current()), info)
      ensures events == StatEvents(old(Current()), info)
      ensures statusMap == old(statusMap)
      ensures info.Some? && !info.value.isDirectory ==> Exists(Normalize(info.value.relativeFile))
    {
      events := [];
      if info.None? {
        return;
      }
      var i := info.value;
      var file := Normalize(i.relativeFile);
      var dirId := Normalize(i.relativeDir);
      if !i.isDirectory && dirId !in directories {
        if i.secondStatOk {
          directories := directories[dirId := DirEntry(i.dir, dirId)];
          events := events + [ReceivedDirectory(dirId)];
        }
      } else if i.isDirectory && file !in directories {
        if i.secondStatOk {
          directories := directories[file := DirEntry(i.path, file)];
          events := events + [ReceivedDirectory(file)];
        }
      }
      if !i.isDirectory && file !in files {
        files := files[file := FileEntry(i.path, file)];
        events := events + [ReceivedFile(file)];
      }
    }

    /** `walk(options)`: the listing command it runs, then `statFile` on each non-empty listed
        path, once each. */
    method Walk(options: LsFilesOptions, listed: seq<string>, fs: map<string, PathInfo>)
      returns (command: string, events: seq<Event>)
      modifies this
      ensures command == LsFilesCommand(OptionsArg(WalkListingOptions(options)))
      ensures Current() == WalkTables(old(Current()), WalkCandidates(listed), fs)
      ensures events == WalkEvents(old(Current()), WalkCandidates(listed), fs)
      ensures statusMap == old(statusMap)
      ensures forall p :: p in listed && p != [] && p in fs && !fs[p].isDirectory ==>
        Exists(Normalize(fs[p].relativeFile))
    {
      ghost var start := Current();
      command := LsFilesCommand(OptionsArg(WalkListingOptions(options)));
      events := StatAll(WalkCandidates(listed), fs);
      WalkRecords(start, WalkCandidates(listed), fs);
    }

    /** `statFile` on each path in turn. */
    method StatAll(paths: seq<string>, fs: map<string, PathInfo>) returns (events: seq<Event>)
      modifies this
      ensures Current() == WalkTables(old(Current()), paths, fs)
      ensures events == WalkEvents(old(Current()), paths, fs)
      ensures statusMap == old(statusMap)
    {
      ghost var start := Current();
      events := [];
      var i := 0;
      while i < |paths|
        invariant 0 <= i <= |paths|
        invariant Current() == WalkTables(start, paths[..i], fs)
        invariant events == WalkEvents(start, paths[..i], fs)
        invariant statusMap == old(statusMap)
      {
        WalkStep(start, paths, fs, i);
        var more := StatFile(InfoOf(fs, paths[i]));
        events := events + more;
        i := i + 1;
      }
      assert paths[..i] == paths;
    }

    /** `updateStatus()`: every path in the porcelain output gets its status. */
    method UpdateStatus(output: CommandOutput)
      modifies this
      ensures statusMap == old(statusMap) + FromPairs(StatusPairsOf(output))
      ensures Current() == old(Current())
    {
      var result := FilesStatus(output, true);
      SetStatuses(result.table);
    }

    /** The `mapValues` walk over the status table, setting each entry. */
    method SetStatuses(table: map<string, Option<string>>)
      modifies this
      ensures statusMap == old(statusMap) + table
      ensures Current() == old(Current())
    {
      var keys := table.Keys;
      ghost var done: map<string, Option<string>> := map[];
      while keys != {}
        invariant keys <= table.Keys
        invariant done.Keys == table.Keys - keys
        invariant forall k :: k in done ==> done[k] == table[k]
        invariant statusMap == old(statusMap) + done
        invariant Current() == old(Current())
        decreases keys
      {
        var k :| k in keys;
        statusMap := statusMap[k := table[k]];
        done := done[k := table[k]];
        keys := keys - {k};
      }
      assert done == table;
    }

    /** `run(options)`: optionally clear, then walk, then update the statuses. */
    method Run(options: RunOptions, listed: seq<string>, fs: map<string, PathInfo>, output: CommandOutput)
      returns (command: string, events: seq<Event>)
      modifies this
      ensures var c := options.clearing;
        var keepFiles := !options.clear || c.files == Some(false);
        var keepDirs := !options.clear || c.directories == Some(false);
        var keepStatus := !options.clear || c.statusMap == Some(false);
        var start := Tables(if keepFiles then old(files) else map[], if keepDirs then old(directories) else map[]);
        && Current() == WalkTables(start, WalkCandidates(listed), fs)
        && events == WalkEvents(start, WalkCandidates(listed), fs)
        && statusMap == (if keepStatus then old(statusMap) else map[]) + FromPairs(StatusPairsOf(output))
      ensures command == LsFilesCommand(OptionsArg(WalkListingOptions(options.listing)))
    {
      if options.clear {
        ClearState(options.clearing);
      }
      command, events := Walk(options.listing, listed, fs);
      UpdateStatus(output);
    }
  }
}
