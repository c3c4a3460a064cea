/**
 * The repository metadata the git feature reads from the `.git` directory
 * (`meta`): branch and sha from HEAD, the abbreviated sha, and the tag that
 * points at the sha, looked up first in `packed-refs` and then under
 * `refs/tags` (following annotated tag objects).
 */
module GitMeta {
  import opened Wrappers
  import opened JsStrings

  /** The parts of a `.git` directory that `meta` reads: file contents keyed by their path
      relative to `.git` (object files already inflated), the entries of `refs/tags` when
      that directory exists, and whether zlib offers `inflateSync`. */
  datatype GitDir = GitDir(files: map<string, string>, tagEntries: Option<seq<string>>, inflateSync: bool)

  /** What reading the metadata can throw. */
  datatype GitError =
    | ReadFailed(path: string)        // a file read failed (missing file)
    | NoSecondSection(path: string)   // an annotated tag object with no `\0` or `\n`

  /** The object `meta` returns; `null` is `None`. */
  datatype RepoMeta = RepoMeta(sha: Option<string>, abbreviatedSha: Option<string>, branch: Option<string>,
                               tag: Option<string>, root: string)

  /** A file read followed by `trim()`. */
  function ReadTrimmed(dir: GitDir, path: string): (r: Result<string, GitError>)
    ensures path in dir.files <==> r.Success?
    ensures r.Failure? ==> r.error == ReadFailed(path)
  {
    if path in dir.files then Success(Trim(dir.files[path])) else Failure(ReadFailed(path))
  }

  // ---------------------------------------------------------------------------
  // HEAD
  // ---------------------------------------------------------------------------

  /** The branch name from the text after the second `/` and the last `/`-separated piece. */
  function BranchFrom(afterSecond: string, last: string): (name: string)
    ensures name == [] || (!IsWhitespace(name[0]) && !IsWhitespace(name[|name| - 1]))
  {
    var joined := Trim(afterSecond);
    if joined != [] then joined else Trim(last)
  }

  /** The branch name read from HEAD: everything after the second `/`, trimmed; when that is
      empty, the last `/`-separated piece, trimmed. */
  function BranchName(head: string): (name: string)
    ensures name == [] || (!IsWhitespace(name[0]) && !IsWhitespace(name[|name| - 1]))
  {
    var pieces := Split(head, "/");
    BranchFrom(Join(Drop(pieces, 2), "/"), pieces[|pieces| - 1])
  }

  /** The branch name is the text after the second `/` (trimmed), or when that is empty or
      missing, the text after the last `/` (trimmed). */
  lemma BranchNameAfterSlashes(head: string)
    ensures BranchName(head) == BranchFrom(AfterNth(head, "/", 2).GetOr([]), AfterLast(head, "/"))
  {
    SplitDropJoin(head, "/", 2);
    SplitLast(head, "/");
  }

  /** `headFile.split(' ')[1]` when it is a non-empty string: the ref HEAD points to. */
  function HeadRefPath(head: string): (r: Option<string>)
    ensures r.Some? <==> Piece(head, " ", 1).Some? && Piece(head, " ", 1).value != []
    ensures r.Some? ==> r == Piece(head, " ", 1)
  {
    var pieces := Split(head, " ");
    SplitPiece(head, " ", 1);
    if |pieces| >= 2 && pieces[1] != [] then Some(pieces[1]) else None
  }

  /** A symbolic HEAD `ref: refs/heads/<branch>`, followed by the line break git writes (or
      any other blank-free white space), points to the ref of its branch. */
  lemma SymbolicHeadRef(branch: string, post: string)
    requires ' ' !in branch && ' ' !in post
    ensures HeadRefPath("ref: refs/heads/" + branch + post) == Some("refs/heads/" + branch + post)
  {
    var head := "ref: refs/heads/" + branch + post;
    var ref := "refs/heads/" + branch + post;
    assert ' ' !in ref by {
      forall j | 0 <= j < |ref| ensures ref[j] != ' ' {
        if 11 <= j < 11 + |branch| {
          assert ref[j] == branch[j - 11];
        } else if j >= 11 + |branch| {
          assert ref[j] == post[j - 11 - |branch|];
        }
      }
    }
    assert Join(["ref:", ref], " ") == head;
    SplitJoin(["ref:", ref], ' ');
    SplitPiece(head, " ", 1);
  }

  /** The trim before the read drops that line break: the ref file read is the branch's. */
  lemma SymbolicRefTrimmed(branch: string, post: string)
    requires branch == [] || !IsWhitespace(branch[|branch| - 1])
    requires forall j :: 0 <= j < |post| ==> IsWhitespace(post[j])
    ensures Trim("refs/heads/" + branch + post) == "refs/heads/" + branch
  {
    var name := "refs/heads/" + branch;
    assert name[0] == 'r' && name[|name| - 1] == (if branch == [] then '/' else branch[|branch| - 1]);
    TrimAround([], name, post);
    assert [] + name + post == "refs/heads/" + branch + post;
  }

  /** ... and names that branch, whatever white space follows it and whatever `/` it
      holds. */
  lemma SymbolicHeadBranch(branch: string, post: string)
    requires branch != []
    requires !IsWhitespace(branch[0]) && !IsWhitespace(branch[|branch| - 1])
    requires forall j :: 0 <= j < |post| ==> IsWhitespace(post[j])
    ensures BranchName("ref: refs/heads/" + branch + post) == branch
  {
    var last := branch + post;
    var head := "ref: refs/heads/" + branch + post;
    assert head == "ref: refs/heads/" + last;
    AfterHeadsPrefix(last);
    BranchNameAfterSlashes(head);
    TrimAround([], branch, post);
    assert [] + branch + post == last;
  }

  /** The text after the second `/` of `ref: refs/heads/<last>` is `<last>`. */
  lemma AfterHeadsPrefix(last: string)
    ensures AfterNth("ref: refs/heads/" + last, "/", 2) == Some(last)
  {
    assert "ref: refs/heads/" + last == "ref: refs" + ['/'] + ("heads" + ['/'] + last);
    assert '/' !in "ref: refs" && '/' !in "heads";
    AfterFirstSep("ref: refs", '/', "heads" + ['/'] + last, 1);
    AfterFirstSep("heads", '/', last, 0);
  }

  // ---------------------------------------------------------------------------
  // Tags
  // ---------------------------------------------------------------------------

  /** A `packed-refs` line that names a tag and mentions the sha. */
  predicate IsTagLineFor(line: string, sha: string) {
    Contains(line, "refs/tags") && Contains(line, sha)
  }

  /** The first line that names a tag and mentions the sha. */
  function FirstTagLine(lines: seq<string>, sha: string): (r: Option<nat>)
    ensures r.Some? ==> r.value < |lines| && IsTagLineFor(lines[r.value], sha)
    ensures r.Some? ==> forall j :: 0 <= j < r.value ==> !IsTagLineFor(lines[j], sha)
    ensures r.None? ==> forall j :: 0 <= j < |lines| ==> !IsTagLineFor(lines[j], sha)
  {
    if lines == [] then None
    else if IsTagLineFor(lines[0], sha) then Some(0)
    else
      var rest := FirstTagLine(lines[1..], sha);
      if rest.Some? then Some(rest.value + 1) else None
  }

  /** `findPackedTag(sha)`: on the first `packed-refs` line naming a tag and mentioning the
      sha, the text after its first `tags/` (up to any further `tags/`). */
  function FindPackedTag(dir: GitDir, sha: string): (r: Option<string>)
    ensures "packed-refs" !in dir.files ==> r.None?
    ensures "packed-refs" in dir.files ==>
      var lines := Split(dir.files["packed-refs"], "\n");
      match FirstTagLine(lines, sha)
      case None => r.None?
      case Some(i) => r == Piece(lines[i], "tags/", 1)
  {
    if "packed-refs" !in dir.files then None
    else
      var lines := Split(dir.files["packed-refs"], "\n");
      match FirstTagLine(lines, sha)
      case None => None
      case Some(i) =>
        var pieces := Split(lines[i], "tags/");
        SplitPiece(lines[i], "tags/", 1);
        if |pieces| >= 2 then Some(pieces[1]) else None
  }

  /** Hexadecimal digits, as in an object name. */
  predicate IsHex(s: string) {
    forall j :: 0 <= j < |s| ==> ('0' <= s[j] <= '9' || 'a' <= s[j] <= 'f')
  }

  /** The tag named on a `<sha> refs/tags/<name>` line is `<name>`. */
  lemma PackedRefLineNamesTag(sha: string, name: string)
    requires IsHex(sha) && !Contains(name, "tags/")
    ensures Piece(sha + " refs/tags/" + name, "tags/", 1) == Some(name)
  {
    var line := sha + " refs/tags/" + name;
    var at := |sha| + 6;
    assert line[at..] == "tags/" + name;
    assert OccursAt(line, "tags/", at);
    forall j | 0 <= j < at ensures !OccursAt(line, "tags/", j) {
      if j < |sha| {
        assert line[j] == sha[j];
      } else {
        assert line[j] in " refs/";
      }
    }
    assert IndexOf(line, "tags/") == Some(at);
    assert line[at + 5..] == name;
  }

  /** `objects/<first two characters>/<the rest>`: where a loose object is stored. */
  function ObjectPath(sha: string): (p: string)
    ensures |sha| >= 2 && '/' !in sha ==> Split(p, "/") == ["objects", sha[..2], sha[2..]]
  {
    var p := "objects/" + Take(sha, 2) + "/" + Drop(sha, 2);
    if |sha| >= 2 && '/' !in sha then
      assert p == Join(["objects", sha[..2], sha[2..]], "/");
      SplitJoin(["objects", sha[..2], sha[2..]], '/');
      p
    else p
  }

  /** The object an annotated tag points to: the second `\0`/`\n` section without its first
      seven characters (`object `). */
  function AnnotatedTarget(contents: string, path: string): (r: Result<string, GitError>)
    ensures |SplitAny(contents, {'\0', '\n'})| < 2 <==> r == Failure(NoSecondSection(path))
    ensures |SplitAny(contents, {'\0', '\n'})| >= 2 ==> r == Success(Drop(SplitAny(contents, {'\0', '\n'})[1], 7))
  {
    var sections := SplitAny(contents, {'\0', '\n'});
    if |sections| < 2 then Failure(NoSecondSection(path)) else Success(Drop(sections[1], 7))
  }

  /** An annotated tag object `tag <size>\0object <sha>\n...` points to `<sha>`. */
  lemma {:induction false} AnnotatedTagObject(size: string, sha: string, rest: string, path: string)
    requires forall j :: 0 <= j < |size| ==> size[j] != '\0' && size[j] != '\n'
    requires forall j :: 0 <= j < |sha| ==> sha[j] != '\0' && sha[j] != '\n'
    ensures AnnotatedTarget("tag " + size + "\0object " + sha + "\n" + rest, path) == Success(sha)
  {
    var seps := {'\0', '\n'};
    var header := "tag " + size;
    var target := "object " + sha;
    assert "tag " + size + "\0object " + sha + "\n" + rest == header + ['\0'] + (target + ['\n'] + rest);
    SplitAnyFirst(header, '\0', target + ['\n'] + rest, seps);
    SplitAnyFirst(target, '\n', rest, seps);
    assert Drop(target, 7) == sha;
  }

  /** `commitForTag(tag)`: the sha a tag points to. */
  function CommitForTag(dir: GitDir, tag: string): (r: Result<string, GitError>)
    ensures ("refs/tags/" + tag) !in dir.files ==> r == Failure(ReadFailed("refs/tags/" + tag))
    ensures ("refs/tags/" + tag) in dir.files ==>
      var tagged := Trim(dir.files["refs/tags/" + tag]);
      var objectPath := ObjectPath(tagged);
      if dir.inflateSync && objectPath in dir.files && Take(dir.files[objectPath], 3) == "tag"
      then r == AnnotatedTarget(dir.files[objectPath], objectPath)
      else r == Success(tagged)
  {
    match ReadTrimmed(dir, "refs/tags/" + tag)
    case Failure(e) => Failure(e)
    case Success(tagged) =>
      var objectPath := ObjectPath(tagged);
      if !dir.inflateSync || objectPath !in dir.files then Success(tagged)
      else
        var contents := dir.files[objectPath];
        if Take(contents, 3) == "tag" then AnnotatedTarget(contents, objectPath) else Success(tagged)
  }

  /** No tag before position `i` throws or points to the sha. */
  predicate NoMatchBefore(commits: seq<Result<string, GitError>>, sha: string, i: nat)
    requires i <= |commits|
  {
    forall j :: 0 <= j < i ==> commits[j].Success? && commits[j].value != sha
  }

  /** The loop of `findTag` over the tags and the commits they point to: the first tag whose
      commit is the sha; the first error thrown stops the scan. */
  function ScanTags(tags: seq<string>, commits: seq<Result<string, GitError>>, sha: string): (r: Result<Option<string>, GitError>)
    requires |tags| == |commits|
    ensures r == Success(None) <==> NoMatchBefore(commits, sha, |commits|)
    ensures r.Success? && r.value.Some? ==>
      exists i :: 0 <= i < |tags| && NoMatchBefore(commits, sha, i)
        && tags[i] == r.value.value && commits[i] == Success(sha)
    ensures r.Failure? ==>
      exists i :: 0 <= i < |tags| && NoMatchBefore(commits, sha, i) && commits[i] == Failure(r.error)
  {
    if tags == [] then Success(None)
    else if commits[0].Failure? then
      assert NoMatchBefore(commits, sha, 0);
      Failure(commits[0].error)
    else if commits[0].value == sha then
      assert NoMatchBefore(commits, sha, 0);
      Success(Some(tags[0]))
    else
      var r := ScanTags(tags[1..], commits[1..], sha);
      assert forall i :: 0 <= i < |tags| - 1 ==>
        (NoMatchBefore(commits[1..], sha, i) <==> NoMatchBefore(commits, sha, i + 1));
      r
  }

  /** One step of the scan from position `i`. */
  lemma ScanTagsFrom(tags: seq<string>, commits: seq<Result<string, GitError>>, sha: string, i: nat)
    requires |tags| == |commits| && i < |tags|
    ensures ScanTags(tags[i..], commits[i..], sha) ==
      if commits[i].Failure? then Failure(commits[i].error)
      else if commits[i].value == sha then Success(Some(tags[i]))
      else ScanTags(tags[i + 1..], commits[i + 1..], sha)
  {
    assert tags[i..][1..] == tags[i + 1..] && commits[i..][1..] == commits[i + 1..];
  }

  /** What each tag points to. */
  function TagCommits(dir: GitDir, tags: seq<string>): (cs: seq<Result<string, GitError>>)
    ensures |cs| == |tags|
    ensures forall i :: 0 <= i < |tags| ==> cs[i] == CommitForTag(dir, tags[i])
  {
    if tags == [] then [] else [CommitForTag(dir, tags[0])] + TagCommits(dir, tags[1..])
  }

  /** `findTag(sha)`: a non-empty packed tag, else (when `refs/tags` exists) the scan. */
  function FindTagSpec(dir: GitDir, sha: string): (r: Result<Option<string>, GitError>)
    ensures r.Success? && r.value.Some? && FindPackedTag(dir, sha) != r.value ==>
      dir.tagEntries.Some? && r.value.value in dir.tagEntries.value
      && CommitForTag(dir, r.value.value) == Success(sha)
    ensures dir.tagEntries.None? ==> r.Success?
    // Without `refs/tags`, only a non-empty packed tag is found.
    ensures dir.tagEntries.None? && !(FindPackedTag(dir, sha).Some? && FindPackedTag(dir, sha).value != []) ==>
      r == Success(None)
    // A non-empty packed tag is taken first ...
    ensures FindPackedTag(dir, sha).Some? && FindPackedTag(dir, sha).value != [] ==> r == Success(FindPackedTag(dir, sha))
    // ... otherwise the entries of `refs/tags` are scanned for the first one pointing to the sha.
    ensures (FindPackedTag(dir, sha).None? || FindPackedTag(dir, sha).value == []) && dir.tagEntries.Some? ==>
      r == ScanTags(dir.tagEntries.value, TagCommits(dir, dir.tagEntries.value), sha)
  {
    var packed := FindPackedTag(dir, sha);
    if packed.Some? && packed.value != [] then Success(packed)
    else if dir.tagEntries.None? then Success(None)
    else ScanTags(dir.tagEntries.value, TagCommits(dir, dir.tagEntries.value), sha)
  }

  /** The loop of `findTag` over the entries of `refs/tags`. */
  method ScanTagDir(dir: GitDir, tags: seq<string>, sha: string) returns (r: Result<Option<string>, GitError>)
    ensures r == ScanTags(tags, TagCommits(dir, tags), sha)
  {
    ghost var commits := TagCommits(dir, tags);
    var i := 0;
    while i < |tags|
      invariant 0 <= i <= |tags|
      invariant ScanTags(tags, commits, sha) == ScanTags(tags[i..], commits[i..], sha)
    {
      ScanTagsFrom(tags, commits, sha, i);
      var commit := CommitForTag(dir, tags[i]);
      if commit.Failure? {
        return Failure(commit.error);
      }
      if commit.value == sha {
        return Success(Some(tags[i]));
      }
      i := i + 1;
    }
    return Success(None);
  }

  /** `findTag(sha)`. */
  method FindTag(dir: GitDir, sha: string) returns (r: Result<Option<string>, GitError>)
    ensures r == FindTagSpec(dir, sha)
  {
    var packed := FindPackedTag(dir, sha);
    if packed.Some? && packed.value != [] {
      return Success(packed);
    }
    if dir.tagEntries.None? {
      return Success(None);
    }
    r := ScanTagDir(dir, dir.tagEntries.value, sha);
  }

  // ---------------------------------------------------------------------------
  // meta
  // ---------------------------------------------------------------------------

  /** The `catch` of `meta`: errors are swallowed (keeping what was already set) only when
      error suppression is on. */
  function Caught(partial: RepoMeta, e: GitError, suppressErrors: bool): (r: Result<RepoMeta, GitError>)
    ensures r.Success? <==> suppressErrors
    ensures r.Success? ==> r.value == partial
    ensures r.Failure? ==> r.error == e
  {
    if suppressErrors then Success(partial) else Failure(e)
  }

  /** `meta` for a repository whose `.git` directory is `dir` and whose root is `root`. */
  function Meta(dir: GitDir, root: string, suppressErrors: bool): (r: Result<RepoMeta, GitError>)
    ensures "HEAD" !in dir.files ==> r == Success(RepoMeta(None, None, None, None, root))
    ensures suppressErrors ==> r.Success?
    ensures r.Success? ==> r.value.root == root
    ensures r.Success? ==> r.value.abbreviatedSha == (if r.value.sha.Some? then Some(Take(r.value.sha.value, 10)) else None)
    ensures r.Success? && r.value.tag.Some? ==>
      r.value.tag.value != [] && r.value.sha.Some? && FindTagSpec(dir, r.value.sha.value) == Success(r.value.tag)
    ensures "HEAD" in dir.files && r.Success? ==>
      var head := dir.files["HEAD"];
      && r.value.branch == (if HeadRefPath(head).Some? then Some(BranchName(head)) else None)
      && (HeadRefPath(head).None? ==> r.value.sha == Some(BranchName(head)))
      && (HeadRefPath(head).Some? && r.value.sha.Some? ==>
            ReadTrimmed(dir, Trim(HeadRefPath(head).value)) == Success(r.value.sha.value))
    // Without suppression a detached HEAD throws exactly the error of its tag lookup, if any.
    ensures "HEAD" in dir.files && HeadRefPath(dir.files["HEAD"]).None? && !suppressErrors ==>
      var found := FindTagSpec(dir, BranchName(dir.files["HEAD"]));
      && (r.Success? <==> found.Success?)
      && (found.Failure? ==> r == Failure(found.error))
    // A symbolic HEAD whose ref file exists gives that file's trimmed content as the sha, and
    // throws (without suppression) exactly the error of the tag lookup, if any; a missing ref
    // file throws, or leaves only the branch set when errors are suppressed.
    ensures "HEAD" in dir.files && HeadRefPath(dir.files["HEAD"]).Some? ==>
      match ReadTrimmed(dir, Trim(HeadRefPath(dir.files["HEAD"]).value))
      case Success(sha) =>
        && (r.Success? ==> r.value.sha == Some(sha))
        && (!suppressErrors ==> (r.Success? <==> FindTagSpec(dir, sha).Success?))
        && (!suppressErrors && FindTagSpec(dir, sha).Failure? ==> r == Failure(FindTagSpec(dir, sha).error))
      case Failure(e) =>
        r == (if suppressErrors then Success(RepoMeta(None, None, Some(BranchName(dir.files["HEAD"])), None, root))
              else Failure(e))
    // Without suppression a result always has a sha, and its tag lookup did not throw.
    ensures "HEAD" in dir.files && !suppressErrors && r.Success? ==>
      r.value.sha.Some? && FindTagSpec(dir, r.value.sha.value).Success?
    // The tag is set exactly when the lookup finds a non-empty one.
    ensures r.Success? && r.value.sha.Some? && FindTagSpec(dir, r.value.sha.value).Success? ==>
      var found := FindTagSpec(dir, r.value.sha.value).value;
      r.value.tag == (if found.Some? && found.value != [] then found else None)
  {
    var empty := RepoMeta(None, None, None, None, root);
    if "HEAD" !in dir.files then Success(empty)
    else
      var head := dir.files["HEAD"];
      var name := BranchName(head);
      var ref := HeadRefPath(head);
      var partial := if ref.Some? then empty.(branch := Some(name)) else empty;
      var sha := if ref.Some? then ReadTrimmed(dir, Trim(ref.value)) else Success(name);
      match sha
      case Failure(e) => Caught(partial, e, suppressErrors)
      case Success(s) =>
        var withSha := partial.(sha := Some(s), abbreviatedSha := Some(Take(s, 10)));
        match FindTagSpec(dir, s)
        case Failure(e) => Caught(withSha, e, suppressErrors)
        case Success(tag) =>
          Success(if tag.Some? && tag.value != [] then withSha.(tag := tag) else withSha)
  }
}
