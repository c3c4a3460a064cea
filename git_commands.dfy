/**
 * The git commands the feature builds and the output it parses: the `git ls-files`
 * command line (`lsFiles`, and the options `walk` passes to it), the `git status
 * --porcelain` lines folded into a path-to-status table (`filesStatus`), and the
 * argument vector of `git clone`.
 */
module GitCommands {
  import opened Wrappers
  import opened JsStrings

  // ---------------------------------------------------------------------------
  // git ls-files
  // ---------------------------------------------------------------------------

  /** `exclude`: one pattern or a list of them. */
  datatype Exclude = ExcludeOne(pattern: string) | ExcludeList(patterns: seq<string>)

  /** The options of `lsFiles` that shape the command; `None` is a missing key. */
  datatype LsFilesOptions = LsFilesOptions(
    pattern: Option<string>,
    fullName: Option<bool>,
    debug: Option<bool>,
    status: Option<bool>,
    gitignore: Option<bool>,
    skypagerignore: Option<bool>,
    others: Option<bool>,
    cached: Option<bool>,
    flags: Option<string>,
    exclude: Option<Exclude>)

  /** `lsFiles` takes an options object or a bare pattern. */
  datatype LsFilesArg = PatternArg(pattern: string) | OptionsArg(options: LsFilesOptions)

  /** An options object with no keys. */
  const NoLsFilesOptions := LsFilesOptions(None, None, None, None, None, None, None, None, None, None)

  /** A string argument stands for `{ pattern }`. */
  function LsFilesOptionsOf(arg: LsFilesArg): (o: LsFilesOptions)
    ensures arg.PatternArg? ==> o == NoLsFilesOptions.(pattern := Some(arg.pattern))
    ensures arg.OptionsArg? ==> o == arg.options
  {
    match arg
    case PatternArg(p) => NoLsFilesOptions.(pattern := Some(p))
    case OptionsArg(o) => o
  }

  /** `castArray(exclude)`, with the default `[]` for a missing key. */
  function ExcludePatterns(e: Option<Exclude>): (ps: seq<string>)
    ensures e.None? ==> ps == []
    ensures e.Some? && e.value.ExcludeOne? ==> ps == [e.value.pattern]
    ensures e.Some? && e.value.ExcludeList? ==> ps == e.value.patterns
  {
    match e
    case None => []
    case Some(ExcludeOne(p)) => [p]
    case Some(ExcludeList(ps)) => ps
  }

  /** One `--exclude <pattern>` argument per pattern. */
  function ExcludeArgs(ps: seq<string>): (r: seq<Option<string>>)
    ensures |r| == |ps| && forall i :: 0 <= i < |ps| ==> r[i] == Some("--exclude " + ps[i])
  {
    if ps == [] then [] else [Some("--exclude " + ps[0])] + ExcludeArgs(ps[1..])
  }

  /** A switch present only when its condition holds. */
  function When(b: bool, arg: string): Option<string> {
    if b then Some(arg) else None
  }

  /** The ten fixed positions of the command, `null` as `None`: the program, the pattern, the
      switches and the extra flags. */
  function SwitchParts(o: LsFilesOptions): (parts: seq<Option<string>>)
    ensures |parts| == 10 && parts[0] == Some("git ls-files")
    ensures parts[1] == (if o.pattern.Some? && o.pattern.value != [] then o.pattern else None)
    ensures parts[9] == Some(o.flags.GetOr(""))
  {
    var debug := o.debug.GetOr(false);
    var others := o.others.GetOr(true);
    [ Some("git ls-files"),
      if o.pattern.Some? && o.pattern.value != [] then o.pattern else None,
      When(o.fullName.GetOr(false), "--full-name"),
      When(debug, "--debug"),
      When(o.status.GetOr(false), "-t"),
      When(o.gitignore.GetOr(true), "--exclude-from .gitignore"),
      When(o.skypagerignore.GetOr(false), "--exclude-from .skypagerignore"),
      When(others && !debug, "--others"),
      When(others && o.cached.GetOr(true), "--cached"),
      Some(o.flags.GetOr(""))
    ]
  }

  /** The candidate parts of the command before empty ones are dropped: the fixed positions,
      then one `--exclude` argument per pattern. */
  function LsFilesParts(o: LsFilesOptions): (parts: seq<Option<string>>)
    ensures |parts| == 10 + |ExcludePatterns(o.exclude)| && parts[0] == Some("git ls-files")
    ensures parts[10..] == ExcludeArgs(ExcludePatterns(o.exclude))
  {
    SwitchParts(o) + ExcludeArgs(ExcludePatterns(o.exclude))
  }

  /** `.filter(v => v && v.length > 0)`: the present, non-empty parts, in order. */
  function NonEmpty(parts: seq<Option<string>>): (r: seq<string>)
    ensures forall k :: 0 <= k < |r| ==> r[k] != []
    ensures |r| <= |parts|
  {
    if parts == [] then []
    else if parts[0].Some? && parts[0].value != [] then [parts[0].value] + NonEmpty(parts[1..])
    else NonEmpty(parts[1..])
  }

  /** A string survives the filter exactly when it is non-empty and one of the parts. */
  lemma {:induction false} NonEmptyMember(parts: seq<Option<string>>, s: string)
    ensures s in NonEmpty(parts) <==> s != [] && Some(s) in parts
    decreases |parts|
  {
    if parts != [] {
      NonEmptyMember(parts[1..], s);
      assert Some(s) in parts <==> Some(s) == parts[0] || Some(s) in parts[1..];
    }
  }

  /** Filtering distributes over concatenation. */
  lemma {:induction false} NonEmptyAppend(a: seq<Option<string>>, b: seq<Option<string>>)
    ensures NonEmpty(a + b) == NonEmpty(a) + NonEmpty(b)
    decreases |a|
  {
    if a == [] {
      assert a + b == b;
    } else {
      assert (a + b)[0] == a[0] && (a + b)[1..] == a[1..] + b;
      NonEmptyAppend(a[1..], b);
    }
  }

  /** The arguments of the `lsFiles` command line, in order. */
  function LsFilesArgv(arg: LsFilesArg): (argv: seq<string>)
    ensures |argv| >= 1 && argv[0] == "git ls-files"
    ensures forall k :: 0 <= k < |argv| ==> argv[k] != []
  {
    var parts := LsFilesParts(LsFilesOptionsOf(arg));
    assert parts == [parts[0]] + parts[1..];
    NonEmpty(parts)
  }

  /** `lsFiles(options)`: the command line it runs. */
  function LsFilesCommand(arg: LsFilesArg): (command: string)
    ensures command == Join(LsFilesArgv(arg), " ")
    ensures command == "git ls-files" || StartsWith(command, "git ls-files ")
  {
    var argv := LsFilesArgv(arg);
    assert argv == [argv[0]] + argv[1..];
    Join(argv, " ")
  }

  /** A non-empty pattern, such as a string argument, comes right after `git ls-files`. */
  lemma LsFilesPatternFirst(arg: LsFilesArg, p: string)
    requires LsFilesOptionsOf(arg).pattern == Some(p) && p != []
    ensures |LsFilesArgv(arg)| >= 2 && LsFilesArgv(arg)[1] == p
  {
    var parts := LsFilesParts(LsFilesOptionsOf(arg));
    assert parts[1] == Some(p);
    assert NonEmpty(parts) == [parts[0].value] + NonEmpty(parts[1..]);
    assert NonEmpty(parts[1..]) == [p] + NonEmpty(parts[1..][1..]);
  }

  /** Non-empty extra flags reach the command. */
  lemma LsFilesFlags(arg: LsFilesArg, f: string)
    requires LsFilesOptionsOf(arg).flags == Some(f) && f != []
    ensures f in LsFilesArgv(arg)
  {
    var parts := LsFilesParts(LsFilesOptionsOf(arg));
    assert parts[9] == Some(f);
    NonEmptyMember(parts, f);
  }

  /** The switches `lsFiles` may add, which free text is assumed not to imitate. */
  predicate IsSwitch(s: string) {
    || s == "--full-name" || s == "--debug" || s == "-t" || s == "--exclude-from .gitignore"
    || s == "--exclude-from .skypagerignore" || s == "--others" || s == "--cached"
  }

  /** An `--exclude` argument is never one of the switches. */
  lemma ExcludeArgIsNoSwitch(p: string)
    ensures !IsSwitch("--exclude " + p)
  {
    var e := "--exclude " + p;
    assert e[9] == ' ';
    assert "--exclude-from .gitignore"[9] == '-' && "--exclude-from .skypagerignore"[9] == '-';
  }

  /** A switch survives the filter exactly when it is among the fixed positions: the
      `--exclude` arguments never look like one. */
  lemma SwitchInArgv(o: LsFilesOptions, sw: string)
    requires IsSwitch(sw)
    ensures sw in NonEmpty(LsFilesParts(o)) <==> Some(sw) in SwitchParts(o)
  {
    var ps := ExcludePatterns(o.exclude);
    var tail := ExcludeArgs(ps);
    forall i | 0 <= i < |tail| ensures tail[i] != Some(sw) {
      ExcludeArgIsNoSwitch(ps[i]);
    }
    NonEmptyMember(LsFilesParts(o), sw);
  }

  /** The free text of the options (pattern and extra flags) is not one of the switches. */
  predicate NoSwitchText(o: LsFilesOptions) {
    (o.pattern.Some? ==> !IsSwitch(o.pattern.value)) && (o.flags.Some? ==> !IsSwitch(o.flags.value))
  }

  /** Which of the fixed positions hold the listing switches. */
  lemma UntrackedInHead(o: LsFilesOptions)
    requires NoSwitchText(o)
    ensures Some("--others") in SwitchParts(o) <==> o.others.GetOr(true) && !o.debug.GetOr(false)
    ensures Some("--cached") in SwitchParts(o) <==> o.others.GetOr(true) && o.cached.GetOr(true)
  {
  }

  /** Which of the fixed positions hold the ignore-file switches. */
  lemma IgnoreFilesInHead(o: LsFilesOptions)
    requires NoSwitchText(o)
    ensures Some("--exclude-from .gitignore") in SwitchParts(o) <==> o.gitignore.GetOr(true)
    ensures Some("--exclude-from .skypagerignore") in SwitchParts(o) <==> o.skypagerignore.GetOr(false)
  {
  }

  /** Which of the fixed positions hold the reporting switches. */
  lemma ReportSwitchesInHead(o: LsFilesOptions)
    requires NoSwitchText(o)
    ensures Some("--full-name") in SwitchParts(o) <==> o.fullName.GetOr(false)
    ensures Some("--debug") in SwitchParts(o) <==> o.debug.GetOr(false)
    ensures Some("-t") in SwitchParts(o) <==> o.status.GetOr(false)
  {
  }

  /** Untracked files are listed (`--others`) exactly when `others` holds (by default it
      does) and `debug` does not; the index (`--cached`) is added exactly when `others` and
      `cached` both hold (both by default). */
  lemma LsFilesListsUntracked(arg: LsFilesArg)
    requires NoSwitchText(LsFilesOptionsOf(arg))
    ensures var o := LsFilesOptionsOf(arg); var argv := LsFilesArgv(arg);
      && ("--others" in argv <==> o.others.GetOr(true) && !o.debug.GetOr(false))
      && ("--cached" in argv <==> o.others.GetOr(true) && o.cached.GetOr(true))
  {
    var o := LsFilesOptionsOf(arg);
    SwitchInArgv(o, "--others");
    SwitchInArgv(o, "--cached");
    UntrackedInHead(o);
  }

  /** `.gitignore` is honoured unless `gitignore` is false; `.skypagerignore` only when
      `skypagerignore` is true. */
  lemma LsFilesIgnoreFiles(arg: LsFilesArg)
    requires NoSwitchText(LsFilesOptionsOf(arg))
    ensures var o := LsFilesOptionsOf(arg); var argv := LsFilesArgv(arg);
      && ("--exclude-from .gitignore" in argv <==> o.gitignore.GetOr(true))
      && ("--exclude-from .skypagerignore" in argv <==> o.skypagerignore.GetOr(false))
  {
    var o := LsFilesOptionsOf(arg);
    SwitchInArgv(o, "--exclude-from .gitignore");
    SwitchInArgv(o, "--exclude-from .skypagerignore");
    IgnoreFilesInHead(o);
  }

  /** `--full-name`, `--debug` and `-t` appear exactly when `fullName`, `debug` and `status`
      are true (all are off by default). */
  lemma LsFilesReportSwitches(arg: LsFilesArg)
    requires NoSwitchText(LsFilesOptionsOf(arg))
    ensures var o := LsFilesOptionsOf(arg); var argv := LsFilesArgv(arg);
      && ("--full-name" in argv <==> o.fullName.GetOr(false))
      && ("--debug" in argv <==> o.debug.GetOr(false))
      && ("-t" in argv <==> o.status.GetOr(false))
  {
    var o := LsFilesOptionsOf(arg);
    SwitchInArgv(o, "--full-name");
    SwitchInArgv(o, "--debug");
    SwitchInArgv(o, "-t");
    ReportSwitchesInHead(o);
  }

  /** The arguments are the non-empty fixed positions, in order, followed by one
      `--exclude <pattern>` per exclude pattern, in the order given. */
  lemma LsFilesExcludesLast(arg: LsFilesArg)
    ensures var o := LsFilesOptionsOf(arg); var ps := ExcludePatterns(o.exclude);
      LsFilesArgv(arg) == NonEmpty(SwitchParts(o)) + seq(|ps|, i requires 0 <= i < |ps| => "--exclude " + ps[i])
  {
    var o := LsFilesOptionsOf(arg);
    NonEmptyAppend(SwitchParts(o), ExcludeArgs(ExcludePatterns(o.exclude)));
    NonEmptyOfExcludes(ExcludePatterns(o.exclude));
  }

  /** No `--exclude` argument is dropped. */
  lemma {:induction false} NonEmptyOfExcludes(ps: seq<string>)
    ensures NonEmpty(ExcludeArgs(ps)) == seq(|ps|, i requires 0 <= i < |ps| => "--exclude " + ps[i])
    decreases |ps|
  {
    if ps != [] {
      var first := "--exclude " + ps[0];
      assert ExcludeArgs(ps) == [Some(first)] + ExcludeArgs(ps[1..]);
      assert first != [];
      NonEmptyOfExcludes(ps[1..]);
      assert NonEmpty(ExcludeArgs(ps)) == [first] + NonEmpty(ExcludeArgs(ps[1..]));
    }
  }

  /** The options `walk` hands to `lsFiles`: `others: false` and `gitignore: true` unless the
      walk's own options say otherwise, plus the keys it picks; `debug` and `status` are never
      passed on. */
  function WalkListingOptions(o: LsFilesOptions): (r: LsFilesOptions)
    ensures r.debug.None? && r.status.None?
    ensures r.others.GetOr(true) == o.others.GetOr(false)
    ensures r.gitignore.GetOr(true) == o.gitignore.GetOr(true)
    ensures r.(others := o.others, debug := o.debug, status := o.status, gitignore := o.gitignore) == o
  {
    LsFilesOptions(o.pattern, o.fullName, None, None, Some(o.gitignore.GetOr(true)), o.skypagerignore,
                   Some(o.others.GetOr(false)), o.cached, o.flags, o.exclude)
  }

  /** Unless the walk's options ask for them, the listing has neither `--others` nor
      `--cached`: only tracked files are walked. */
  lemma WalkListsTrackedFiles(o: LsFilesOptions)
    requires o.others.None? && NoSwitchText(o)
    ensures var argv := LsFilesArgv(OptionsArg(WalkListingOptions(o)));
      "--others" !in argv && "--cached" !in argv
  {
    LsFilesListsUntracked(OptionsArg(WalkListingOptions(o)));
  }

  // ---------------------------------------------------------------------------
  // git status --porcelain
  // ---------------------------------------------------------------------------

  /** What the `git status --porcelain` process gave: its output lines, or a failure. */
  datatype CommandOutput = OutputLines(lines: seq<string>) | CommandFailed

  /** One porcelain line trimmed, split on single spaces and reversed: path first. */
  function StatusPair(line: string): (pair: seq<string>)
    ensures |pair| >= 1
    ensures Join(Reverse(pair), " ") == Trim(line)
    ensures forall k :: 0 <= k < |pair| ==> ' ' !in pair[k]
  {
    var pieces := Split(Trim(line), " ");
    JoinSplit(Trim(line), " ");
    SplitPiecesFree(Trim(line), " ");
    forall k | 0 <= k < |pieces| ensures ' ' !in pieces[k] {
      NotContainsChar(pieces[k], ' ');
    }
    ReverseReverse(pieces);
    Reverse(pieces)
  }

  /** Text without white space has no blank. */
  lemma NoBlank(s: string)
    requires forall j :: 0 <= j < |s| ==> !IsWhitespace(s[j])
    ensures ' ' !in s
  {
    assert IsWhitespace(' ');
  }

  lemma ReverseTwo(a: string, b: string)
    ensures Reverse([a, b]) == [b, a]
  {
  }

  /** A status line `XY path` (with the two-letter code possibly starting with a blank, which
      the trim removes) yields `[path, code]`. */
  lemma PorcelainLine(lead: string, code: string, path: string)
    requires forall j :: 0 <= j < |lead| ==> IsWhitespace(lead[j])
    requires code != [] && path != []
    requires forall j :: 0 <= j < |code| ==> !IsWhitespace(code[j])
    requires forall j :: 0 <= j < |path| ==> !IsWhitespace(path[j])
    ensures StatusPair(lead + code + " " + path) == [path, code]
  {
    var t := code + " " + path;
    assert lead + code + " " + path == lead + t;
    TrimLeading(lead, t);
    SplitCodePath(code, path);
    ReverseTwo(code, path);
  }

  /** `code path` splits into the code and the path. */
  lemma SplitCodePath(code: string, path: string)
    requires forall j :: 0 <= j < |code| ==> !IsWhitespace(code[j])
    requires forall j :: 0 <= j < |path| ==> !IsWhitespace(path[j])
    ensures Split(code + " " + path, " ") == [code, path]
  {
    NoBlank(code);
    NoBlank(path);
    assert Join([code, path], " ") == code + " " + path;
    SplitJoin([code, path], ' ');
  }

  /** A change staged in the index only (`M  path`: the blank column is the worktree's) keeps
      an empty middle piece, so the path maps to the empty status. */
  lemma StagedOnlyLine(path: string)
    requires path != []
    requires forall j :: 0 <= j < |path| ==> !IsWhitespace(path[j])
    ensures StatusPair("M  " + path) == [path, "", "M"]
    ensures FromPairs([StatusPair("M  " + path)]) == map[path := Some("")]
  {
    var t := "M  " + path;
    NoBlank(path);
    TrimNoop(t);
    assert Join(["M", "", path], " ") == t;
    SplitJoin(["M", "", path], ' ');
  }

  /** The status a pair carries: its second element, `undefined` when there is none. */
  function PairValue(pair: seq<string>): Option<string> {
    if |pair| >= 2 then Some(pair[1]) else None
  }

  /** Every pair has a first element, its key. */
  predicate Keyed(pairs: seq<seq<string>>) {
    forall j :: 0 <= j < |pairs| ==> |pairs[j]| >= 1
  }

  /** Pair `i` is the last one keyed by `k`. */
  predicate LastPairFor(pairs: seq<seq<string>>, k: string, i: nat)
    requires Keyed(pairs)
  {
    i < |pairs| && pairs[i][0] == k && forall j :: i < j < |pairs| ==> pairs[j][0] != k
  }

  /** `fromPairs(pairs)`: each pair's first element maps to its second (see
      `FromPairsLastWins`). */
  function FromPairs(pairs: seq<seq<string>>): (table: map<string, Option<string>>)
    requires Keyed(pairs)
    ensures pairs == [] ==> table == map[]
    ensures pairs != [] ==>
      var last := pairs[|pairs| - 1]; last[0] in table && table[last[0]] == PairValue(last)
  {
    if pairs == [] then map[]
    else
      var n := |pairs| - 1;
      FromPairs(pairs[..n])[pairs[n][0] := PairValue(pairs[n])]
  }

  /** A key is in `fromPairs` exactly when some pair starts with it. */
  lemma {:induction false} FromPairsKeys(pairs: seq<seq<string>>, k: string)
    requires Keyed(pairs)
    ensures k in FromPairs(pairs) <==> exists j :: 0 <= j < |pairs| && pairs[j][0] == k
  {
    if pairs != [] {
      var n := |pairs| - 1;
      var init := pairs[..n];
      FromPairsKeys(init, k);
      if pairs[n][0] != k {
        forall j | 0 <= j < |pairs| && pairs[j][0] == k
          ensures exists j' :: 0 <= j' < |init| && init[j'][0] == k
        {
          assert init[j][0] == k;
        }
      }
    }
  }

  /** The value of a key is that of the last pair starting with it. */
  lemma {:induction false} FromPairsLastWins(pairs: seq<seq<string>>, k: string, i: nat)
    requires Keyed(pairs)
    requires LastPairFor(pairs, k, i)
    ensures k in FromPairs(pairs) && FromPairs(pairs)[k] == PairValue(pairs[i])
  {
    var n := |pairs| - 1;
    var init := pairs[..n];
    if i < n {
      assert LastPairFor(init, k, i);
      FromPairsLastWins(init, k, i);
    }
  }

  /** What `filesStatus` resolves to: the list of pairs, or with `object: true` the table. */
  datatype FilesStatusResult = StatusPairs(pairs: seq<seq<string>>) | StatusTable(table: map<string, Option<string>>)

  /** The pairs of every output line; a failed command gives none. */
  function StatusPairsOf(output: CommandOutput): (pairs: seq<seq<string>>)
    ensures output.CommandFailed? ==> pairs == []
    ensures Keyed(pairs)
    ensures output.OutputLines? ==>
      |pairs| == |output.lines| && forall i :: 0 <= i < |pairs| ==> pairs[i] == StatusPair(output.lines[i])
  {
    match output
    case CommandFailed => []
    case OutputLines(lines) => seq(|lines|, i requires 0 <= i < |lines| => StatusPair(lines[i]))
  }

  /** `filesStatus(options)`. */
  function FilesStatus(output: CommandOutput, asObject: bool): (r: FilesStatusResult)
    ensures asObject <==> r.StatusTable?
    ensures !asObject ==> r.pairs == StatusPairsOf(output)
    ensures output.CommandFailed? ==> r == StatusPairs([]) || r == StatusTable(map[])
  {
    var pairs := StatusPairsOf(output);
    if asObject then StatusTable(FromPairs(pairs)) else StatusPairs(pairs)
  }

  /** With `object: true`, a path is in the table exactly when the pair of some output line
      starts with it, and its status is the one from the last such line. */
  lemma FilesStatusTable(output: CommandOutput, path: string)
    ensures var pairs := StatusPairsOf(output);
      && FilesStatus(output, true) == StatusTable(FromPairs(pairs))
      && (path in FromPairs(pairs) <==> exists j :: 0 <= j < |pairs| && pairs[j][0] == path)
      && forall i: nat :: LastPairFor(pairs, path, i) ==> path in FromPairs(pairs) && FromPairs(pairs)[path] == PairValue(pairs[i])
  {
    var pairs := StatusPairsOf(output);
    FromPairsKeys(pairs, path);
    forall i: nat | LastPairFor(pairs, path, i)
      ensures path in FromPairs(pairs) && FromPairs(pairs)[path] == PairValue(pairs[i])
    {
      FromPairsLastWins(pairs, path, i);
    }
  }

  // ---------------------------------------------------------------------------
  // git clone
  // ---------------------------------------------------------------------------

  /** The keys of a clone options object that the command reads. */
  datatype CloneOptions = CloneOptions(repo: Option<string>, folder: Option<string>)

  /** `clone` takes an options object or a repository URL. */
  datatype CloneArg = CloneRepo(url: string) | CloneWith(options: CloneOptions)

  /** The options after normalisation: a URL becomes `{ repo }` and a string destination
      becomes `folder`. */
  function CloneOptionsOf(arg: CloneArg, dest: Option<string>): (o: CloneOptions)
    ensures o.repo == (match arg case CloneRepo(url) => Some(url) case CloneWith(opts) => opts.repo)
    ensures dest.Some? ==> o.folder == dest
    ensures dest.None? ==> o.folder == (match arg case CloneRepo(_) => None case CloneWith(opts) => opts.folder)
  {
    var o := match arg
      case CloneRepo(url) => CloneOptions(Some(url), None)
      case CloneWith(o) => o;
    if dest.Some? then o.(folder := dest) else o
  }

  /** The arguments `clone` spawns git with; `undefined` entries are `None`. */
  function CloneArgs(arg: CloneArg, dest: Option<string>): (argv: seq<Option<string>>)
    ensures |argv| == 3 && argv[0] == Some("clone")
    ensures argv[1] == (match arg case CloneRepo(url) => Some(url) case CloneWith(o) => o.repo)
    ensures argv[2] == (if dest.Some? then dest else match arg case CloneRepo(_) => None case CloneWith(o) => o.folder)
  {
    var o := CloneOptionsOf(arg, dest);
    [Some("clone"), o.repo, o.folder]
  }
}
