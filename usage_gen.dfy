/**
 * The usage generator (cmd/cli-usage-gen/main.go): walks a directory of
 * Markdown files and collects one topic per file, named by the file's path
 * below the root with a trailing `README.md` and then the extension removed.
 *
 * The directory walk and the file system are outside the model: `Walk` is
 * given each entry as the walk would present it, and `Add` is given what
 * opening and reading the file yields (`FileAccess`).
 */
module UsageGen {
  import opened Wrappers

  /** The file that stands for the topic of its directory. */
  const IndexPage: string := "README.md"

  /** A collected topic: its name and the file's bytes. */
  datatype Topic = Topic(name: string, data: seq<Byte>)

  /** An error value, known by its message. */
  datatype Failure = Failure(message: string)

  /** `os.ErrInvalid`, what reading through a nil file gives. */
  const ErrInvalid: Failure := Failure("invalid argument")

  /** The error for a directory that bears the index page's name. */
  function DirectoryError(): Failure
  {
    Failure("directory named '" + IndexPage + "'")
  }

  /** What the walk knows of an entry: its base name and whether it is a directory. */
  datatype FileInfo = FileInfo(name: string, isDir: bool)

  /** What `walk` returns: carry on, skip this directory, or stop with an error. */
  datatype WalkResult = Continue | SkipDir | Stop(err: Failure)

  /**
   * What opening and reading a file gives: its contents, a missing file
   * (an error matching `os.ErrNotExist`), another error from `os.Open`, or an
   * error from reading.
   */
  datatype FileAccess = Contents(data: seq<Byte>) | Missing | OpenError(err: Failure) | ReadError(err: Failure)

  predicate HasSuffix(s: string, suffix: string)
  {
    |suffix| <= |s| && s[|s| - |suffix|..] == suffix
  }

  /** `strings.TrimSuffix`. */
  function TrimSuffix(s: string, suffix: string): string
  {
    if HasSuffix(s, suffix) then s[..|s| - |suffix|] else s
  }

  /** Trimming a suffix that is there leaves what came before it; otherwise nothing changes. */
  lemma TrimSuffixSpec(s: string, suffix: string)
    ensures HasSuffix(s, suffix) ==> TrimSuffix(s, suffix) + suffix == s
    ensures !HasSuffix(s, suffix) ==> TrimSuffix(s, suffix) == s
  {
  }

  /** Trimming undoes appending. */
  lemma TrimSuffixAppend(x: string, suffix: string)
    ensures TrimSuffix(x + suffix, suffix) == x
  {
    assert (x + suffix)[|x|..] == suffix;
    assert (x + suffix)[..|x|] == x;
  }

  /** The extension search of `filepath.Ext`, from position `i` backwards, stopping at a separator. */
  function ExtFrom(path: string, i: nat): string
    requires i <= |path|
  {
    if i == 0 || path[i - 1] == '/' then ""
    else if path[i - 1] == '.' then path[i - 1..]
    else ExtFrom(path, i - 1)
  }

  /** `filepath.Ext`: from the last dot of the final path element on, or "" when it has none. */
  function Ext(path: string): string
  {
    ExtFrom(path, |path|)
  }

  /**
   * Searching backwards from `i`: the result is empty, or the suffix of the
   * path from a dot before `i`, with no dot and no separator between that dot and `i`.
   */
  lemma {:induction false} ExtFromSpec(path: string, i: nat)
    requires i <= |path|
    ensures var e := ExtFrom(path, i);
            e == [] ||
            (|path| - i < |e| <= |path| && e == path[|path| - |e|..] && e[0] == '.' &&
             forall k :: |path| - |e| < k < i ==> path[k] != '.' && path[k] != '/')
  {
    if i > 0 && path[i - 1] != '/' && path[i - 1] != '.' {
      ExtFromSpec(path, i - 1);
    }
  }

  /**
   * Searching backwards from `i`, the result is empty exactly when no dot
   * before `i` has only non-separators between it and `i`.
   */
  lemma {:induction false} ExtFromEmpty(path: string, i: nat)
    requires i <= |path|
    ensures ExtFrom(path, i) == [] <==>
            forall k :: 0 <= k < i && (forall m :: k < m < i ==> path[m] != '/') ==> path[k] != '.'
  {
    if i > 0 && path[i - 1] != '/' && path[i - 1] != '.' {
      ExtFromEmpty(path, i - 1);
    }
  }

  /**
   * The extension is empty exactly when the final element of the path has
   * no dot; otherwise it is the suffix of the path from the last dot of the
   * final element: no dot and no separator follow that dot.
   */
  lemma ExtSpec(path: string)
    ensures Ext(path) == [] <==>
            forall k :: 0 <= k < |path| && (forall m :: k < m < |path| ==> path[m] != '/') ==> path[k] != '.'
    ensures Ext(path) == [] ||
            (HasSuffix(path, Ext(path)) && Ext(path)[0] == '.' &&
             forall k :: |path| - |Ext(path)| < k < |path| ==> path[k] != '.' && path[k] != '/')
  {
    ExtFromSpec(path, |path|);
    ExtFromEmpty(path, |path|);
  }

  /** Every path that ends in ".md" has the extension ".md". */
  lemma ExtMarkdown(p: string)
    requires |p| >= 3 && p[|p| - 3] == '.' && p[|p| - 2] == 'm' && p[|p| - 1] == 'd'
    ensures Ext(p) == ".md"
  {
    var n := |p|;
    assert p[n - 3..] == ".md";
    assert ExtFrom(p, n) == ExtFrom(p, n - 1) == ExtFrom(p, n - 2) == ".md";
  }

  /**
   * The topic name of a file below `root`: the path after the root and one
   * separator, without a trailing `README.md`, then without the extension.
   */
  function TopicName(root: string, filename: string): string
    requires |root| < |filename|
  {
    TrimSuffix(TrimSuffix(filename[|root| + 1..], IndexPage), Ext(filename))
  }

  /** The index page of a directory below the root (or of the root) names the directory's topic. */
  lemma IndexPageTopic(root: string, dir: string)
    requires dir == [] || dir[|dir| - 1] == '/'
    ensures TopicName(root, root + "/" + dir + IndexPage) == dir
  {
    var f := root + "/" + dir + IndexPage;
    var n := |f|;
    assert f[|root| + 1..] == dir + IndexPage;
    TrimSuffixAppend(dir, IndexPage);
    assert f[n - 3] == IndexPage[6] && f[n - 2] == IndexPage[7] && f[n - 1] == IndexPage[8];
    ExtMarkdown(f);
    assert !HasSuffix(dir, ".md");
  }

  /** Any other Markdown file below the root is named by its path without ".md". */
  lemma MarkdownTopic(root: string, stem: string)
    requires !HasSuffix(stem + ".md", IndexPage)
    ensures TopicName(root, root + "/" + stem + ".md") == stem
  {
    var f := root + "/" + stem + ".md";
    var n := |f|;
    assert f[|root| + 1..] == stem + ".md";
    assert f[n - 3] == '.' && f[n - 2] == 'm' && f[n - 1] == 'd';
    ExtMarkdown(f);
    TrimSuffixAppend(stem, ".md");
  }

  /** The index page of the root names the topic "". */
  lemma RootIndexTopic(root: string)
    ensures TopicName(root, root + "/README.md") == ""
  {
    IndexPageTopic(root, "");
    assert root + "/" + "" + IndexPage == root + "/README.md";
  }

  /** The index page of the sub-directory "cli" names the topic "cli/". */
  lemma SubdirectoryIndexTopic(root: string)
    ensures TopicName(root, root + "/cli/README.md") == "cli/"
  {
    IndexPageTopic(root, "cli/");
    assert root + "/" + "cli/" + IndexPage == root + "/cli/README.md";
  }

  /** The page "test.md" names the topic "test". */
  lemma PageTopic(root: string)
    ensures TopicName(root, root + "/test.md") == "test"
  {
    MarkdownTopic(root, "test");
    assert root + "/" + "test" + ".md" == root + "/test.md";
  }

  /** `add` with the error check as intended: a missing file adds nothing, every other failure is returned. */
  function AddTopic(root: string, topics: seq<Topic>, filename: string, access: FileAccess): (seq<Topic>, Option<Failure>)
    requires |root| < |filename|
  {
    match access
    case Missing => (topics, None)
    case OpenError(e) => (topics, Some(e))
    case ReadError(e) => (topics, Some(e))
    case Contents(b) => (topics + [Topic(TopicName(root, filename), b)], None)
  }

  /**
   * `add` as written: an open error other than a missing file is not
   * returned, so the nil file is read and the read fails with `os.ErrInvalid`.
   */
  function AddTopicAsWritten(root: string, topics: seq<Topic>, filename: string, access: FileAccess): (seq<Topic>, Option<Failure>)
    requires |root| < |filename|
  {
    match access
    case OpenError(_) => (topics, Some(ErrInvalid))
    case _ => AddTopic(root, topics, filename, access)
  }

  /**
   * `add` appends exactly one topic, named by `TopicName`, for a file it can
   * read, and changes nothing otherwise; it reports an error exactly when
   * the file exists and cannot be opened or read, and that error is the one
   * that occurred.
   */
  lemma AddTopicSpec(root: string, topics: seq<Topic>, filename: string, access: FileAccess)
    requires |root| < |filename|
    ensures var (after, err) := AddTopic(root, topics, filename, access);
            (access.Contents? ==> after == topics + [Topic(TopicName(root, filename), access.data)] && err == None) &&
            (!access.Contents? ==> after == topics) &&
            (err.Some? <==> access.OpenError? || access.ReadError?) &&
            (err.Some? ==> err.value == access.err)
  {
  }

  /** The two versions differ exactly on open errors other than `os.ErrInvalid`: the written one loses the error. */
  lemma AddTopicAsWrittenLosesOpenError(root: string, topics: seq<Topic>, filename: string, access: FileAccess)
    requires |root| < |filename|
    ensures AddTopicAsWritten(root, topics, filename, access) != AddTopic(root, topics, filename, access)
            <==> access.OpenError? && access.err != ErrInvalid
    ensures AddTopicAsWritten(root, topics, filename, access).0 == AddTopic(root, topics, filename, access).0
  {
  }

  /** A file that exists but cannot be opened for lack of permission is reported as an invalid argument. */
  lemma PermissionDeniedExample(root: string, topics: seq<Topic>)
    ensures AddTopicAsWritten(root, topics, root + "/secret.md", OpenError(Failure("permission denied"))).1 == Some(ErrInvalid)
    ensures AddTopic(root, topics, root + "/secret.md", OpenError(Failure("permission denied"))).1
            == Some(Failure("permission denied"))
  {
    assert Failure("permission denied") != ErrInvalid;
  }

  /** `walk` on one entry, with `add` as intended: the result and the topics afterwards. */
  function WalkEntry(root: string, topics: seq<Topic>, path: string, info: FileInfo, err: Option<Failure>,
                     access: FileAccess): (WalkResult, seq<Topic>)
    requires err.None? ==> info.name != []
    requires err.None? && info.name[0] != '.' && !info.isDir ==> |root| < |path|
  {
    if err.Some? then (Stop(err.value), topics)
    else if info.name[0] == '.' then (if info.isDir then SkipDir else Continue, topics)
    else if info.isDir then (if info.name == IndexPage then Stop(DirectoryError()) else Continue, topics)
    else
      var (after, e) := AddTopic(root, topics, path, access);
      (if e.Some? then Stop(e.value) else Continue, after)
  }

  /**
   * `walk` on one entry as written: it relies on `add` as written, so a file
   * that exists but cannot be opened stops the walk with `os.ErrInvalid`.
   */
  function WalkEntryAsWritten(root: string, topics: seq<Topic>, path: string, info: FileInfo, err: Option<Failure>,
                              access: FileAccess): (WalkResult, seq<Topic>)
    requires err.None? ==> info.name != []
    requires err.None? && info.name[0] != '.' && !info.isDir ==> |root| < |path|
  {
    if err.None? && info.name[0] != '.' && !info.isDir && access.OpenError? then (Stop(ErrInvalid), topics)
    else WalkEntry(root, topics, path, info, err, access)
  }

  /**
   * The walk as written and as intended differ exactly on a file whose open
   * error is not `os.ErrInvalid`, and then only in the error that stops the
   * walk; the topics are the same in every case.
   */
  lemma WalkEntryAsWrittenLosesOpenError(root: string, topics: seq<Topic>, path: string, info: FileInfo,
                                         err: Option<Failure>, access: FileAccess)
    requires err.None? ==> info.name != []
    requires err.None? && info.name[0] != '.' && !info.isDir ==> |root| < |path|
    ensures WalkEntryAsWritten(root, topics, path, info, err, access) != WalkEntry(root, topics, path, info, err, access)
            <==> err.None? && info.name[0] != '.' && !info.isDir && access.OpenError? && access.err != ErrInvalid
    ensures WalkEntryAsWritten(root, topics, path, info, err, access).1 == WalkEntry(root, topics, path, info, err, access).1
  {
  }

  /**
   * What `walk` promises: an error it is handed comes back unchanged; an
   * entry whose name starts with a dot is skipped (a whole directory with
   * SkipDir); a directory adds nothing and is an error only when named
   * `README.md`; at most one topic is added, always at the end.
   */
  lemma WalkEntrySpec(root: string, topics: seq<Topic>, path: string, info: FileInfo, err: Option<Failure>,
                      access: FileAccess)
    requires err.None? ==> info.name != []
    requires err.None? && info.name[0] != '.' && !info.isDir ==> |root| < |path|
    ensures var (r, after) := WalkEntry(root, topics, path, info, err, access);
            (err.Some? ==> r == Stop(err.value) && after == topics) &&
            (err.None? && info.name[0] == '.' ==> after == topics && (r == SkipDir <==> info.isDir) && !r.Stop?) &&
            (err.None? && info.isDir ==> after == topics && (r.Stop? <==> info.name == IndexPage)) &&
            (after == topics || (|after| == |topics| + 1 && after[..|topics|] == topics))
  {
  }

  /** The generator's state: the root directory and the topics collected so far. */
  class Generator {
    const root: string
    var topics: seq<Topic>

    constructor (root: string)
      ensures this.root == root && topics == []
    {
      this.root := root;
      topics := [];
    }

    /** `add` as intended: reads the file and appends its topic, returning any open or read error as it occurred. */
    method Add(filename: string, access: FileAccess) returns (err: Option<Failure>)
      requires |root| < |filename|
      modifies this
      ensures (topics, err) == AddTopic(root, old(topics), filename, access)
    {
      match access {
        case Missing =>
          return None;
        case OpenError(e) =>
          return Some(e);
        case ReadError(e) =>
          return Some(e);
        case Contents(b) =>
          var name := TrimSuffix(filename[|root| + 1..], IndexPage);
          name := TrimSuffix(name, Ext(filename));
          topics := topics + [Topic(name, b)];
          return None;
      }
    }

    /** `walk` with `add` as intended: the callback the directory walk calls for each entry. */
    method Walk(path: string, info: FileInfo, err: Option<Failure>, access: FileAccess) returns (r: WalkResult)
      requires err.None? ==> info.name != []
      requires err.None? && info.name[0] != '.' && !info.isDir ==> |root| < |path|
      modifies this
      ensures (r, topics) == WalkEntry(root, old(topics), path, info, err, access)
    {
      if err.Some? {
        return Stop(err.value);
      }
      if info.name[0] == '.' {
        if info.isDir {
          return SkipDir;
        }
        return Continue;
      }
      if info.isDir {
        if info.name == IndexPage {
          return Stop(DirectoryError());
        }
        return Continue;
      }
      var e := Add(path, access);
      r := if e.Some? then Stop(e.value) else Continue;
    }
  }
}
