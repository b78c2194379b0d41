/** utils.go: shortening a path for log lines, and the existence test built
    on os.Stat. The local filesystem itself is abstract: a map from the paths
    that exist to what os.Stat and os.Open report for them. */
module Utils {
  import opened GoStd

  /** What os.Stat reports about an existing path. */
  datatype FileInfo = FileInfo(isDir: bool, size: int, mode: nat)

  /** The outcome of os.Stat: the information, a "does not exist" error
      (which, like Go's *PathError, records the path), or any other error
      (permission denied, I/O error, ...). */
  datatype StatResult = StatOk(info: FileInfo) | NotExist(path: string) | StatFailed(msg: string)

  /** The text of os.Stat's "does not exist" error. */
  function NotExistMessage(path: string): string {
    "stat " + path + ": no such file or directory"
  }

  /** A local path that is there: either os.Stat succeeds on it (and os.Open
      then fails with `openErr`, if that is set) or os.Stat fails with an
      error other than "does not exist". */
  datatype LocalEntry = Present(info: FileInfo, openErr: Option<string>) | Unstatable(err: string)

  /** The local filesystem at one moment: paths that are absent from the map
      do not exist. */
  type FileSystem = map<string, LocalEntry>

  function Stat(fs: FileSystem, path: string): StatResult {
    if path !in fs then NotExist(path)
    else match fs[path]
      case Present(info, _) => StatOk(info)
      case Unstatable(e) => StatFailed(e)
  }

  /** FileExists: a successful stat means the path exists; a not-exist error
      means it does not and is no error; any other error is returned together
      with "exists". */
  function FileExists(stat: StatResult): (r: (bool, Status))
    ensures r.0 <==> !stat.NotExist?
    ensures r.1 != Ok <==> stat.StatFailed?
    ensures stat.StatFailed? ==> r.1 == Err(stat.msg)
  {
    match stat
    case StatOk(_) => (true, Ok)
    case NotExist(_) => (false, Ok)
    case StatFailed(e) => (true, Err(e))
  }

  /** TruncatePath: a path of more than three '/'-separated pieces is shown as
      "..." followed by its last three pieces. */
  function TruncatePath(path: string): (r: string)
    ensures |Split(path)| <= 3 ==> r == path
  {
    var pieces := Split(path);
    if |pieces| <= 3 then path else "..." + Join(pieces[|pieces| - 3..])
  }

  /** A long path is shortened to "..." and a suffix of the original path that
      holds exactly its last three pieces (no slash after the dots). */
  lemma TruncatePathKeepsTail(path: string)
    requires |Split(path)| > 3
    ensures var r := TruncatePath(path);
      HasPrefix(r, "...") && HasSuffix(path, r[3..]) &&
      Split(r[3..]) == Split(path)[|Split(path)| - 3..]
  {
    var pieces := Split(path);
    var n := |pieces|;
    var tail := Join(pieces[n - 3..]);
    assert TruncatePath(path)[3..] == tail;
    JoinSplit(path);
    assert pieces == pieces[..n - 3] + pieces[n - 3..];
    JoinAppend(pieces[..n - 3], pieces[n - 3..]);
    assert path == Join(pieces[..n - 3]) + "/" + tail;
    SplitPiecesHaveNoSlash(path);
    SplitJoin(pieces[n - 3..]);
  }

  /** The output of TruncatePath has at most three pieces, so truncating twice
      is truncating once. */
  lemma TruncatePathIdempotent(path: string)
    ensures |Split(TruncatePath(path))| <= 3
    ensures TruncatePath(TruncatePath(path)) == TruncatePath(path)
  {
    var pieces := Split(path);
    var n := |pieces|;
    if n > 3 {
      var last := pieces[n - 3..];
      SplitPiecesHaveNoSlash(path);
      SplitJoin(last);
      SplitPrepend("...", Join(last));
      assert Split(TruncatePath(path)) == ["..." + last[0]] + last[1..];
    }
  }
}
