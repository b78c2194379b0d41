/** container_filer_sftp.go: the ContainerFiler that talks SFTP to the
    application container. The SFTP client is abstract: it records every
    request it is sent and answers each with a fixed reply; what Stat reports
    and what the walker lists are fixed per path as well. */
module SftpFiler {
  import opened GoStd
  import SyncEngine

  /** The server's answer to one request. */
  datatype Reply = Done | Failed(msg: string)

  /** The Go error a reply becomes. */
  function AsStatus(r: Reply): Status {
    if r.Done? then Ok else Err(r.msg)
  }

  /** What Client.Stat reports about a remote path. */
  datatype RemoteStat = RemoteInfo(isDir: bool) | StatError(msg: string)

  /** One entry yielded by the client's walker: its path, whether it is a
      directory, and the error met while visiting it, if any. */
  datatype WalkEntry = WalkEntry(path: string, isDir: bool, err: Option<string>)

  /** One request sent to the SFTP server. `Download` stands for the whole of
      downloadFile (remote stat, local create, copy); `Upload` is the io.Copy
      of the local file `source` into the remote file just created. */
  datatype ClientCall =
    | Download(localPath: string, remotePath: string)
    | CreateFile(path: string)
    | Upload(path: string, source: string, length: int)
    | Chmod(path: string, mode: nat)
    | CloseFile(path: string)
    | StatPath(path: string)
    | Mkdir(path: string)
    | Remove(path: string)
    | RemoveDirectory(path: string)
    | RenamePath(oldname: string, newname: string)

  class SftpClient {
    /** Every request sent so far, oldest first. */
    var calls: seq<ClientCall>
    const reply: ClientCall -> Reply
    const stat: string -> RemoteStat
    /** The entries Client.Walk(root) yields, in the walker's pre-order (the
        root first, every directory before what lies beneath it), before any
        SkipDir. */
    const walk: string -> seq<WalkEntry>

    constructor (reply: ClientCall -> Reply, stat: string -> RemoteStat, walk: string -> seq<WalkEntry>)
      ensures calls == [] && this.reply == reply && this.stat == stat && this.walk == walk
    {
      calls := [];
      this.reply := reply;
      this.stat := stat;
      this.walk := walk;
    }

    method Request(c: ClientCall) returns (r: Reply)
      modifies this
      ensures calls == old(calls) + [c] && r == reply(c)
    {
      calls := calls + [c];
      r := reply(c);
    }

    method Stat(path: string) returns (r: RemoteStat)
      modifies this
      ensures calls == old(calls) + [StatPath(path)] && r == stat(path)
    {
      calls := calls + [StatPath(path)];
      r := stat(path);
    }
  }

  /** toLocalPath: the remote path with the target directory (and its '/')
      removed, placed under the source directory. */
  function ToLocalPath(sourceDir: string, targetDir: string, pathfile: string): string {
    WithTrailingSlash(sourceDir) + TrimPrefix(pathfile, WithTrailingSlash(targetDir))
  }

  /** `p` lies beneath the directory `dir`. */
  predicate Beneath(p: string, dir: string) {
    HasPrefix(p, dir + "/")
  }

  /** `p` lies beneath one of the directories the walker was told to skip. */
  predicate IsPruned(p: string, pruned: seq<string>) {
    exists k :: 0 <= k < |pruned| && Beneath(p, pruned[k])
  }

  /** What the walk loop does with one entry: the requests it sends, the
      errors it logs, and the skipped directories afterwards. */
  datatype Visit = Visit(calls: seq<ClientCall>, log: seq<string>, pruned: seq<string>)

  function VisitEntry(sourceDir: string, root: string, ignore: (string, bool) -> bool,
                      reply: ClientCall -> Reply, e: WalkEntry, pruned: seq<string>): Visit
  {
    if IsPruned(e.path, pruned) || e.path == root then Visit([], [], pruned)
    else if ignore(e.path, e.isDir) && e.isDir then Visit([], [], pruned + [e.path])
    else if ignore(e.path, e.isDir) || e.isDir then Visit([], [], pruned)
    else if e.err.Some? then Visit([], [e.err.value], pruned)
    else
      var c := Download(ToLocalPath(sourceDir, root, e.path), e.path);
      Visit([c], if reply(c).Failed? then [reply(c).msg] else [], pruned)
  }

  /** The requests and logged errors of the walk loop from entry `i` on. */
  function WalkFrom(sourceDir: string, root: string, ignore: (string, bool) -> bool,
                    reply: ClientCall -> Reply, es: seq<WalkEntry>, i: nat, pruned: seq<string>): (seq<ClientCall>, seq<string>)
    requires i <= |es|
    decreases |es| - i
  {
    if i == |es| then ([], [])
    else
      var v := VisitEntry(sourceDir, root, ignore, reply, es[i], pruned);
      var rest := WalkFrom(sourceDir, root, ignore, reply, es, i + 1, v.pruned);
      (v.calls + rest.0, v.log + rest.1)
  }

  /** A walk entry that is downloaded unless a skipped directory hides it. */
  predicate Fetched(root: string, ignore: (string, bool) -> bool, e: WalkEntry) {
    e.path != root && !e.isDir && !ignore(e.path, false) && e.err.None?
  }

  /** A walk entry that is an ignored directory hiding `p`. */
  predicate Prunes(root: string, ignore: (string, bool) -> bool, e: WalkEntry, p: string) {
    e.path != root && e.isDir && ignore(e.path, true) && Beneath(p, e.path)
  }

  lemma BeneathTransitive(p: string, d: string, e: string)
    requires Beneath(p, d) && Beneath(d, e)
    ensures Beneath(p, e)
  {
    assert p[..|e| + 1] == p[..|d| + 1][..|e| + 1];
  }

  /** An entry beneath a skipped directory is never yielded, so it cannot
      skip anything itself that its ancestor does not already skip. */
  lemma PrunedEntryPrunesNothing(root: string, ignore: (string, bool) -> bool, e: WalkEntry,
                                 p: string, pruned: seq<string>)
    requires IsPruned(e.path, pruned) && !IsPruned(p, pruned)
    ensures !Prunes(root, ignore, e, p)
  {
    var k :| 0 <= k < |pruned| && Beneath(e.path, pruned[k]);
    if Beneath(p, e.path) {
      BeneathTransitive(p, e.path, pruned[k]);
    }
  }

  /** Some entry from `i` on is a file `p` that is fetched, and no ignored
      directory among the entries before it contains it. */
  predicate FoundFrom(root: string, ignore: (string, bool) -> bool, es: seq<WalkEntry>, i: nat, p: string) {
    exists j :: i <= j < |es| && es[j].path == p && Fetched(root, ignore, es[j]) &&
      forall k :: i <= k < j ==> !Prunes(root, ignore, es[k], p)
  }

  lemma FoundFromStep(root: string, ignore: (string, bool) -> bool, es: seq<WalkEntry>, i: nat, p: string)
    requires i < |es|
    ensures FoundFrom(root, ignore, es, i, p) <==>
      (es[i].path == p && Fetched(root, ignore, es[i])) ||
      (!Prunes(root, ignore, es[i], p) && FoundFrom(root, ignore, es, i + 1, p))
  {
    if FoundFrom(root, ignore, es, i, p) && !(es[i].path == p && Fetched(root, ignore, es[i])) {
      var j :| i <= j < |es| && es[j].path == p && Fetched(root, ignore, es[j]) &&
        forall k :: i <= k < j ==> !Prunes(root, ignore, es[k], p);
      assert j != i;
    }
    if !Prunes(root, ignore, es[i], p) && FoundFrom(root, ignore, es, i + 1, p) {
      var j :| i + 1 <= j < |es| && es[j].path == p && Fetched(root, ignore, es[j]) &&
        forall k :: i + 1 <= k < j ==> !Prunes(root, ignore, es[k], p);
      assert forall k :: i <= k < j ==> !Prunes(root, ignore, es[k], p);
    }
  }

  /** Adding a skipped directory hides exactly what lies beneath it. */
  lemma PruneOneMore(p: string, pruned: seq<string>, d: string)
    ensures IsPruned(p, pruned + [d]) <==> IsPruned(p, pruned) || Beneath(p, d)
  {
    var more := pruned + [d];
    if Beneath(p, d) {
      assert Beneath(p, more[|pruned|]);
    }
    if IsPruned(p, pruned) {
      var k :| 0 <= k < |pruned| && Beneath(p, pruned[k]);
      assert Beneath(p, more[k]);
    }
    if IsPruned(p, more) && !IsPruned(p, pruned) {
      var k :| 0 <= k < |more| && Beneath(p, more[k]);
      assert k == |pruned|;
    }
  }

  /** The entry `p` is still to be downloaded from entry `i` on, given the
      directories skipped so far. */
  predicate Reaches(root: string, ignore: (string, bool) -> bool, es: seq<WalkEntry>, i: nat,
                    pruned: seq<string>, p: string) {
    !IsPruned(p, pruned) && FoundFrom(root, ignore, es, i, p)
  }

  /** One entry sends at most one request, a download of that entry, and
      only when it is a fetched file that no skipped directory hides. */
  lemma VisitCalls(sourceDir: string, root: string, ignore: (string, bool) -> bool,
                   reply: ClientCall -> Reply, e: WalkEntry, pruned: seq<string>)
    ensures var v := VisitEntry(sourceDir, root, ignore, reply, e, pruned);
      (v.calls == [] || v.calls == [Download(ToLocalPath(sourceDir, root, e.path), e.path)]) &&
      (v.calls != [] <==> !IsPruned(e.path, pruned) && Fetched(root, ignore, e))
  {
  }

  lemma ReachesStep(sourceDir: string, root: string, ignore: (string, bool) -> bool,
                    reply: ClientCall -> Reply, es: seq<WalkEntry>, i: nat, pruned: seq<string>, p: string)
    requires i < |es|
    ensures var v := VisitEntry(sourceDir, root, ignore, reply, es[i], pruned);
      Reaches(root, ignore, es, i, pruned, p) <==>
        (v.calls != [] && es[i].path == p) || Reaches(root, ignore, es, i + 1, v.pruned, p)
  {
    var e := es[i];
    FoundFromStep(root, ignore, es, i, p);
    VisitCalls(sourceDir, root, ignore, reply, e, pruned);
    if IsPruned(e.path, pruned) {
      if !IsPruned(p, pruned) {
        PrunedEntryPrunesNothing(root, ignore, e, p, pruned);
      }
    } else if e.path != root && ignore(e.path, e.isDir) && e.isDir {
      PruneOneMore(p, pruned, e.path);
    }
  }

  lemma WalkFromUnfold(sourceDir: string, root: string, ignore: (string, bool) -> bool,
                       reply: ClientCall -> Reply, es: seq<WalkEntry>, i: nat, pruned: seq<string>)
    requires i < |es|
    ensures var v := VisitEntry(sourceDir, root, ignore, reply, es[i], pruned);
      var rest := WalkFrom(sourceDir, root, ignore, reply, es, i + 1, v.pruned);
      WalkFrom(sourceDir, root, ignore, reply, es, i, pruned) == (v.calls + rest.0, v.log + rest.1)
  {
  }

  /** The walk sends only downloads, and downloads the remote file `p` (to
      its local path) exactly when some entry for `p` is a file that is not
      the root, not ignored and met no error, and no ignored directory
      yielded before it (nor one skipped already) contains it. */
  lemma {:induction false} WalkDownloads(sourceDir: string, root: string, ignore: (string, bool) -> bool,
                                         reply: ClientCall -> Reply, es: seq<WalkEntry>, i: nat,
                                         pruned: seq<string>, l: string, p: string)
    requires i <= |es|
    ensures forall c :: c in WalkFrom(sourceDir, root, ignore, reply, es, i, pruned).0 ==> c.Download?
    ensures Download(l, p) in WalkFrom(sourceDir, root, ignore, reply, es, i, pruned).0 <==>
      l == ToLocalPath(sourceDir, root, p) && Reaches(root, ignore, es, i, pruned, p)
    decreases |es| - i
  {
    if i < |es| {
      var v := VisitEntry(sourceDir, root, ignore, reply, es[i], pruned);
      WalkFromUnfold(sourceDir, root, ignore, reply, es, i, pruned);
      WalkDownloads(sourceDir, root, ignore, reply, es, i + 1, v.pruned, l, p);
      VisitCalls(sourceDir, root, ignore, reply, es[i], pruned);
      ReachesStep(sourceDir, root, ignore, reply, es, i, pruned, p);
    }
  }

  /** The walk logs nothing when no entry met an error and every download
      succeeded. */
  lemma {:induction false} WalkQuietWhenAllSucceed(sourceDir: string, root: string, ignore: (string, bool) -> bool,
                                                   reply: ClientCall -> Reply, es: seq<WalkEntry>, i: nat,
                                                   pruned: seq<string>)
    requires i <= |es|
    requires forall j :: i <= j < |es| ==> es[j].err.None?
    requires forall c :: c in WalkFrom(sourceDir, root, ignore, reply, es, i, pruned).0 ==> reply(c).Done?
    ensures WalkFrom(sourceDir, root, ignore, reply, es, i, pruned).1 == []
    decreases |es| - i
  {
    if i < |es| {
      var v := VisitEntry(sourceDir, root, ignore, reply, es[i], pruned);
      var rest := WalkFrom(sourceDir, root, ignore, reply, es, i + 1, v.pruned);
      assert WalkFrom(sourceDir, root, ignore, reply, es, i, pruned).0 == v.calls + rest.0;
      assert forall c :: c in v.calls ==> reply(c).Done?;
      WalkQuietWhenAllSucceed(sourceDir, root, ignore, reply, es, i + 1, v.pruned);
    }
  }

  /** Sending the requests of an upload (CopyContent): create the remote
      file, copy the local file into it, set its mode; the file, once
      created, is closed last whatever happened. */
  function UploadEffect(reply: ClientCall -> Reply, source: string, length: int,
                        remotePath: string, permissions: nat): (seq<ClientCall>, Status)
  {
    var create := CreateFile(remotePath);
    var copy := Upload(remotePath, source, length);
    var chmod := Chmod(remotePath, permissions);
    var close := CloseFile(remotePath);
    if reply(create).Failed? then ([create], AsStatus(reply(create)))
    else if reply(copy).Failed? then ([create, copy, close], AsStatus(reply(copy)))
    else ([create, copy, chmod, close], AsStatus(reply(chmod)))
  }

  /** CopyContent succeeds exactly when creating, copying and the mode change
      all succeed, and otherwise reports the first of them that failed; the
      mode is set only on a fully copied file; a created file is closed once,
      as the last request, and a close error is never reported. */
  lemma UploadOrder(reply: ClientCall -> Reply, source: string, length: int, remotePath: string, permissions: nat)
    ensures var (calls, status) := UploadEffect(reply, source, length, remotePath, permissions);
      var create := CreateFile(remotePath);
      var copy := Upload(remotePath, source, length);
      var chmod := Chmod(remotePath, permissions);
      calls[0] == create &&
      (status == Ok <==> reply(create).Done? && reply(copy).Done? && reply(chmod).Done?) &&
      (reply(create).Failed? ==> calls == [create] && status == Err(reply(create).msg)) &&
      (reply(create).Done? && reply(copy).Failed? ==> status == Err(reply(copy).msg)) &&
      (chmod in calls <==> reply(create).Done? && reply(copy).Done?) &&
      (reply(create).Done? ==> calls[|calls| - 1] == CloseFile(remotePath) &&
                                multiset(calls)[CloseFile(remotePath)] == 1)
  {
  }

  /** Delete: stat the remote path, then remove it as a directory or as a
      file. */
  function DeleteEffect(reply: ClientCall -> Reply, stat: string -> RemoteStat, remotePath: string): (seq<ClientCall>, Status)
  {
    match stat(remotePath)
    case StatError(msg) => ([StatPath(remotePath)], Err(msg))
    case RemoteInfo(isDir) =>
      var c := if isDir then RemoveDirectory(remotePath) else Remove(remotePath);
      ([StatPath(remotePath), c], AsStatus(reply(c)))
  }

  /** A stat error is reported with nothing removed; otherwise exactly one
      removal of the right kind is sent and its error is reported. */
  lemma DeleteRemovesRightKind(reply: ClientCall -> Reply, stat: string -> RemoteStat, remotePath: string)
    ensures var (calls, status) := DeleteEffect(reply, stat, remotePath);
      calls[0] == StatPath(remotePath) &&
      (stat(remotePath).StatError? ==> calls == [StatPath(remotePath)] && status == Err(stat(remotePath).msg)) &&
      (stat(remotePath).RemoteInfo? ==>
        |calls| == 2 &&
        (calls[1] == RemoveDirectory(remotePath) <==> stat(remotePath).isDir) &&
        (calls[1] == Remove(remotePath) <==> !stat(remotePath).isDir) &&
        (status == Ok <==> reply(calls[1]).Done?))
  {
  }

  /** The requests CreateFolders sends until one fails, and its result. */
  function MkdirUntilFailure(reply: ClientCall -> Reply, targets: seq<string>): (r: (seq<ClientCall>, Status))
  {
    if targets == [] then ([], Ok)
    else if reply(Mkdir(targets[0])).Failed? then ([Mkdir(targets[0])], AsStatus(reply(Mkdir(targets[0]))))
    else
      var rest := MkdirUntilFailure(reply, targets[1..]);
      ([Mkdir(targets[0])] + rest.0, rest.1)
  }

  /** Mkdir is asked for the targets in order, up to and including the first
      that fails, whose error is the result; nothing is sent after it. */
  lemma {:induction false} MkdirStopsAtFirstFailure(reply: ClientCall -> Reply, targets: seq<string>)
    ensures var (calls, status) := MkdirUntilFailure(reply, targets);
      |calls| <= |targets| &&
      (forall m :: 0 <= m < |calls| ==> calls[m] == Mkdir(targets[m])) &&
      (forall m :: 0 <= m < |calls| - 1 ==> reply(calls[m]).Done?) &&
      (status == Ok <==> |calls| == |targets| && forall m :: 0 <= m < |calls| ==> reply(calls[m]).Done?) &&
      (status != Ok ==> calls != [] && status == AsStatus(reply(calls[|calls| - 1])))
  {
    if targets != [] && reply(Mkdir(targets[0])).Done? {
      MkdirStopsAtFirstFailure(reply, targets[1..]);
    }
  }

  /** The directories the CreateFolders loop asks for, as written: the loop
      appends `Join(dirs[:i-1]) + "/"` to the accumulated prefix for every
      non-empty segment after the first. */
  function AsWrittenTargets(dirs: seq<string>, i: nat, prefix: string): seq<string>
    requires i <= |dirs|
    decreases |dirs| - i
  {
    if i == |dirs| then []
    else if dirs[i] == "" then AsWrittenTargets(dirs, i + 1, prefix)
    else
      var next := if i > 0 then prefix + Join(dirs[..i - 1]) + "/" else prefix;
      [next + dirs[i]] + AsWrittenTargets(dirs, i + 1, next)
  }

  /** The non-empty segments of `dirs`, in order. */
  function NonEmpty(dirs: seq<string>): seq<string> {
    if dirs == [] then [] else (if dirs[0] == "" then [] else [dirs[0]]) + NonEmpty(dirs[1..])
  }

  /** The target without its last segment `seg`: the prefix it was asked
      for under. */
  function DirPart(target: string, seg: string): string {
    if |seg| <= |target| then target[..|target| - |seg|] else target
  }

  /** Targets `t` for the segments `ne`: each ends with its segment and
      starts with `prefix`, and each starts with the prefix the one before
      was asked for under, so that prefix is only ever extended. */
  predicate PrefixOnlyGrows(t: seq<string>, ne: seq<string>, prefix: string) {
    |t| == |ne| &&
    (forall m :: 0 <= m < |t| ==> HasSuffix(t[m], ne[m]) && HasPrefix(t[m], prefix)) &&
    (forall m :: 0 <= m < |t| - 1 ==> HasPrefix(t[m + 1], DirPart(t[m], ne[m])))
  }

  /** As written, one Mkdir target per non-empty segment, in order, each
      ending with its segment and starting with the base prefix; the
      accumulated prefix is never reset: each target starts with the prefix
      of the one before. */
  lemma {:induction false} AsWrittenTargetsPerSegment(dirs: seq<string>, i: nat, prefix: string)
    requires i <= |dirs|
    ensures PrefixOnlyGrows(AsWrittenTargets(dirs, i, prefix), NonEmpty(dirs[i..]), prefix)
    decreases |dirs| - i
  {
    if i < |dirs| {
      var next := if i > 0 then prefix + Join(dirs[..i - 1]) + "/" else prefix;
      var after := if dirs[i] == "" then prefix else next;
      AsWrittenTargetsPerSegment(dirs, i + 1, after);
      var rest := AsWrittenTargets(dirs, i + 1, after);
      var neRest := NonEmpty(dirs[i + 1..]);
      assert dirs[i..][0] == dirs[i] && dirs[i..][1..] == dirs[i + 1..];
      assert NonEmpty(dirs[i..]) == (if dirs[i] == "" then [] else [dirs[i]]) + neRest;
      if dirs[i] != "" {
        assert HasPrefix(next, prefix) by {
          if i > 0 { assert next == prefix + (Join(dirs[..i - 1]) + "/"); }
        }
        SegmentTargetsStep(prefix, next, dirs[i], rest, neRest);
        assert AsWrittenTargets(dirs, i, prefix) == [next + dirs[i]] + rest;
      } else {
        assert AsWrittenTargets(dirs, i, prefix) == rest;
        assert NonEmpty(dirs[i..]) == neRest;
      }
    }
  }

  /** The step of AsWrittenTargetsPerSegment for a non-empty segment `d`
      asked for under `next`, which extends `prefix`. */
  lemma SegmentTargetsStep(prefix: string, next: string, d: string, rest: seq<string>, neRest: seq<string>)
    requires HasPrefix(next, prefix) && PrefixOnlyGrows(rest, neRest, next)
    ensures PrefixOnlyGrows([next + d] + rest, [d] + neRest, prefix)
  {
    var t := [next + d] + rest;
    var ne := [d] + neRest;
    assert (next + d)[|next|..] == d;
    assert (next + d)[..|next|] == next;
    PrefixTransitive(next + d, next, prefix);
    forall m | 1 <= m < |t|
      ensures HasSuffix(t[m], ne[m]) && HasPrefix(t[m], prefix)
    {
      assert t[m] == rest[m - 1] && ne[m] == neRest[m - 1];
      PrefixTransitive(rest[m - 1], next, prefix);
    }
    forall m | 0 <= m < |t| - 1
      ensures HasPrefix(t[m + 1], DirPart(t[m], ne[m]))
    {
      if m > 0 {
        assert t[m + 1] == rest[m] && t[m] == rest[m - 1] && ne[m] == neRest[m - 1];
      } else {
        assert DirPart(t[0], ne[0]) == next;
      }
    }
  }

  /** The directories CreateFolders evidently means to create: for every
      non-empty segment, the path of the segments up to and including it. */
  function IntendedTargets(base: string, dirs: seq<string>, i: nat): seq<string>
    requires i <= |dirs|
    decreases |dirs| - i
  {
    if i == |dirs| then []
    else if dirs[i] == "" then IntendedTargets(base, dirs, i + 1)
    else [base + Join(dirs[..i + 1])] + IntendedTargets(base, dirs, i + 1)
  }

  lemma {:induction false} IntendedTargetsAll(base: string, dirs: seq<string>, i: nat)
    requires i <= |dirs|
    requires forall k :: 0 <= k < |dirs| ==> dirs[k] != ""
    ensures var t := IntendedTargets(base, dirs, i);
      |t| == |dirs| - i && forall m :: 0 <= m < |t| ==> t[m] == base + Join(dirs[..i + m + 1])
    decreases |dirs| - i
  {
    if i < |dirs| {
      IntendedTargetsAll(base, dirs, i + 1);
      var t := IntendedTargets(base, dirs, i);
      var rest := IntendedTargets(base, dirs, i + 1);
      assert t == [base + Join(dirs[..i + 1])] + rest;
      forall m | 1 <= m < |t|
        ensures t[m] == base + Join(dirs[..i + m + 1])
      {
        assert t[m] == rest[m - 1];
      }
    }
  }

  /** Corrected CreateFolders on a path without empty segments: the first
      directory is made right under the base, every later one inside the one
      before it, and the last one is the whole requested path. */
  lemma IntendedTargetsNest(remotePath: string, dir: string)
    requires forall k :: 0 <= k < |Split(dir)| ==> Split(dir)[k] != ""
    ensures var base := WithTrailingSlash(remotePath);
      var t := IntendedTargets(base, Split(dir), 0);
      |t| == |Split(dir)| &&
      t[0] == base + Split(dir)[0] &&
      (forall m :: 0 < m < |t| ==> t[m] == t[m - 1] + "/" + Split(dir)[m]) &&
      t[|t| - 1] == base + dir
  {
    var base := WithTrailingSlash(remotePath);
    var dirs := Split(dir);
    IntendedTargetsAll(base, dirs, 0);
    var t := IntendedTargets(base, dirs, 0);
    assert dirs[..1] == [dirs[0]];
    forall m | 0 < m < |t|
      ensures t[m] == t[m - 1] + "/" + dirs[m]
    {
      JoinAppend(dirs[..m], [dirs[m]]);
      assert dirs[..m] + [dirs[m]] == dirs[..m + 1];
    }
    JoinSplit(dir);
    assert dirs[..|dirs|] == dirs;
  }

  /** The as-written loop does not nest the directories: under "R", "a/b"
      makes "R/a" and then "R//b" instead of "R/a/b", and "a/b/c" makes
      "R//a/c" last instead of "R/a/b/c". */
  lemma AsWrittenTargetsMisplaced()
    ensures AsWrittenTargets(["a", "b"], 0, "R/") == ["R/a", "R//b"]
    ensures IntendedTargets("R/", ["a", "b"], 0) == ["R/a", "R/a/b"]
    ensures AsWrittenTargets(["a", "b", "c"], 0, "R/") == ["R/a", "R//b", "R//a/c"]
    ensures IntendedTargets("R/", ["a", "b", "c"], 0) == ["R/a", "R/a/b", "R/a/b/c"]
  {
    var ab := ["a", "b"];
    assert ab[..0] == [] && ab[..1] == ["a"] && ab[..2] == ab && ab[1..] == ["b"];
    assert "R/" + Join([]) + "/" == "R//";
    assert AsWrittenTargets(ab, 2, "R//") == [];
    assert AsWrittenTargets(ab, 1, "R/") == ["R//" + "b"] + AsWrittenTargets(ab, 2, "R//");
    assert "R//" + "b" == "R//b";
    assert Join(ab) == "a" + "/" + "b";
    assert "R/" + ("a" + "/" + "b") == "R/a/b";
    assert AsWrittenTargets(ab, 0, "R/") == ["R/" + "a"] + AsWrittenTargets(ab, 1, "R/");
    assert Join(["a"]) == "a" && "R/" + "a" == "R/a";
    assert IntendedTargets("R/", ab, 2) == [];
    assert IntendedTargets("R/", ab, 1) == ["R/" + Join(ab)] + IntendedTargets("R/", ab, 2);
    assert IntendedTargets("R/", ab, 0) == ["R/" + Join(["a"])] + IntendedTargets("R/", ab, 1);
    var abc := ["a", "b", "c"];
    assert abc[..0] == [] && abc[..1] == ["a"] && abc[..2] == ["a", "b"] && abc[..3] == abc;
    assert abc[1..] == ["b", "c"] && abc[1..][1..] == ["c"];
    assert Join(abc[1..]) == "b" + "/" + "c";
    assert Join(abc) == "a" + "/" + ("b" + "/" + "c");
    assert "R/" + ("a" + "/" + ("b" + "/" + "c")) == "R/a/b/c";
    assert "R//" + Join(["a"]) + "/" == "R//a/";
    assert AsWrittenTargets(abc, 3, "R//a/") == [];
    assert AsWrittenTargets(abc, 2, "R//") == ["R//a/" + "c"] + AsWrittenTargets(abc, 3, "R//a/");
    assert "R//a/" + "c" == "R//a/c";
    assert AsWrittenTargets(abc, 1, "R/") == ["R//" + "b"] + AsWrittenTargets(abc, 2, "R//");
  }

  class ContainerFilerSftp {
    const client: SftpClient
    /** SyncIgnore.Match: whether a path (a directory or not) is ignored;
        constantly false when no ignore file was loaded. */
    const ignore: (string, bool) -> bool
    /** The lines logged at error level, oldest first. */
    var errorLog: seq<string>

    constructor (client: SftpClient, ignore: (string, bool) -> bool)
      ensures this.client == client && this.ignore == ignore && errorLog == []
    {
      this.client := client;
      this.ignore := ignore;
      errorLog := [];
    }

    /** CopyRemoteFolder: walks the target directory (one trailing '/'
        removed) and downloads what WalkFrom says, logging errors instead of
        returning them. */
    method CopyRemoteFolder(sourceDir: string, targetDir: string) returns (status: Status)
      modifies this, client
      ensures status == Ok
      ensures var root := TrimSuffix(targetDir, "/");
        var w := WalkFrom(sourceDir, root, ignore, client.reply, client.walk(root), 0, []);
        client.calls == old(client.calls) + w.0 && errorLog == old(errorLog) + w.1
    {
      var root := TrimSuffix(targetDir, "/");
      var entries := client.walk(root);
      ghost var total := WalkFrom(sourceDir, root, ignore, client.reply, entries, 0, []);
      ghost var doneCalls: seq<ClientCall> := [];
      ghost var doneLog: seq<string> := [];
      var pruned: seq<string> := [];
      var i := 0;
      while i < |entries|
        invariant i <= |entries|
        invariant client.calls == old(client.calls) + doneCalls
        invariant errorLog == old(errorLog) + doneLog
        invariant doneCalls + WalkFrom(sourceDir, root, ignore, client.reply, entries, i, pruned).0 == total.0
        invariant doneLog + WalkFrom(sourceDir, root, ignore, client.reply, entries, i, pruned).1 == total.1
      {
        var e := entries[i];
        ghost var v := VisitEntry(sourceDir, root, ignore, client.reply, e, pruned);
        ghost var rest := WalkFrom(sourceDir, root, ignore, client.reply, entries, i + 1, v.pruned);
        ghost var calls0, log0 := client.calls, errorLog;
        if IsPruned(e.path, pruned) || e.path == root {
        } else if ignore(e.path, e.isDir) && e.isDir {
          pruned := pruned + [e.path];
        } else if ignore(e.path, e.isDir) || e.isDir {
        } else if e.err.Some? {
          errorLog := errorLog + [e.err.value];
        } else {
          var r := client.Request(Download(ToLocalPath(sourceDir, root, e.path), e.path));
          if r.Failed? {
            errorLog := errorLog + [r.msg];
          }
        }
        assert client.calls == calls0 + v.calls && errorLog == log0 + v.log && pruned == v.pruned;
        ConcatAssoc(old(client.calls), doneCalls, v.calls);
        ConcatAssoc(doneCalls, v.calls, rest.0);
        ConcatAssoc(old(errorLog), doneLog, v.log);
        ConcatAssoc(doneLog, v.log, rest.1);
        doneCalls := doneCalls + v.calls;
        doneLog := doneLog + v.log;
        i := i + 1;
      }
      status := Ok;
    }

    /** CopyContent: the requests of UploadEffect, its result. */
    method CopyContent(source: string, length: int, remotePath: string, permissions: nat) returns (status: Status)
      modifies client
      ensures var (calls, s) := UploadEffect(client.reply, source, length, remotePath, permissions);
        client.calls == old(client.calls) + calls && status == s
    {
      var r := client.Request(CreateFile(remotePath));
      if r.Failed? {
        return AsStatus(r);
      }
      r := client.Request(Upload(remotePath, source, length));
      if r.Failed? {
        status := AsStatus(r);
      } else {
        r := client.Request(Chmod(remotePath, permissions));
        status := AsStatus(r);
      }
      // the deferred Close, whose error is dropped
      var _ := client.Request(CloseFile(remotePath));
    }

    /** CreateFolders as the source writes it: the accumulated prefix grows
        by the wrong segments (see AsWrittenTargetsMisplaced). */
    method CreateFoldersAsWritten(remotePath: string, dir: string) returns (status: Status)
      modifies client
      ensures var (calls, s) := MkdirUntilFailure(client.reply,
                                  AsWrittenTargets(Split(dir), 0, WithTrailingSlash(remotePath)));
        client.calls == old(client.calls) + calls && status == s
    {
      var prefix := WithTrailingSlash(remotePath);
      var dirs := Split(dir);
      ghost var total := MkdirUntilFailure(client.reply, AsWrittenTargets(dirs, 0, prefix));
      ghost var done: seq<ClientCall> := [];
      var i := 0;
      while i < |dirs|
        invariant i <= |dirs|
        invariant client.calls == old(client.calls) + done
        invariant done + MkdirUntilFailure(client.reply, AsWrittenTargets(dirs, i, prefix)).0 == total.0
        invariant MkdirUntilFailure(client.reply, AsWrittenTargets(dirs, i, prefix)).1 == total.1
      {
        if dirs[i] != "" {
          if i > 0 {
            prefix := prefix + Join(dirs[..i - 1]) + "/";
          }
          var r := client.Request(Mkdir(prefix + dirs[i]));
          ConcatAssoc(old(client.calls), done, [Mkdir(prefix + dirs[i])]);
          if r.Failed? {
            return AsStatus(r);
          }
          ConcatAssoc(done, [Mkdir(prefix + dirs[i])],
                      MkdirUntilFailure(client.reply, AsWrittenTargets(dirs, i + 1, prefix)).0);
          done := done + [Mkdir(prefix + dirs[i])];
        }
        i := i + 1;
      }
      status := Ok;
    }

    /** CreateFolders as evidently intended: Mkdir for every non-empty
        segment's path from the base, stopping at the first error. */
    method CreateFolders(remotePath: string, dir: string) returns (status: Status)
      modifies client
      ensures var (calls, s) := MkdirUntilFailure(client.reply,
                                  IntendedTargets(WithTrailingSlash(remotePath), Split(dir), 0));
        client.calls == old(client.calls) + calls && status == s
    {
      var base := WithTrailingSlash(remotePath);
      var dirs := Split(dir);
      ghost var total := MkdirUntilFailure(client.reply, IntendedTargets(base, dirs, 0));
      ghost var done: seq<ClientCall> := [];
      var i := 0;
      while i < |dirs|
        invariant i <= |dirs|
        invariant client.calls == old(client.calls) + done
        invariant done + MkdirUntilFailure(client.reply, IntendedTargets(base, dirs, i)).0 == total.0
        invariant MkdirUntilFailure(client.reply, IntendedTargets(base, dirs, i)).1 == total.1
      {
        if dirs[i] != "" {
          var target := base + Join(dirs[..i + 1]);
          var r := client.Request(Mkdir(target));
          ConcatAssoc(old(client.calls), done, [Mkdir(target)]);
          if r.Failed? {
            return AsStatus(r);
          }
          ConcatAssoc(done, [Mkdir(target)], MkdirUntilFailure(client.reply, IntendedTargets(base, dirs, i + 1)).0);
          done := done + [Mkdir(target)];
        }
        i := i + 1;
      }
      status := Ok;
    }

    /** Delete: the requests and result of DeleteEffect. */
    method Delete(remotePath: string) returns (status: Status)
      modifies client
      ensures var (calls, s) := DeleteEffect(client.reply, client.stat, remotePath);
        client.calls == old(client.calls) + calls && status == s
    {
      var info := client.Stat(remotePath);
      if info.StatError? {
        return Err(info.msg);
      }
      var r;
      if info.isDir {
        r := client.Request(RemoveDirectory(remotePath));
      } else {
        r := client.Request(Remove(remotePath));
      }
      status := AsStatus(r);
    }

    /** Rename: one rename request, whose error is the result. */
    method Rename(srcRmtPath: string, trtRmtPath: string) returns (status: Status)
      modifies client
      ensures client.calls == old(client.calls) + [RenamePath(srcRmtPath, trtRmtPath)]
      ensures status == AsStatus(client.reply(RenamePath(srcRmtPath, trtRmtPath)))
    {
      var r := client.Request(RenamePath(srcRmtPath, trtRmtPath));
      status := AsStatus(r);
    }
  }

  /** A local file below the source directory goes up to the remote path
      the sync engine computes, and CopyRemoteFolder brings that remote path
      back to the same local file. */
  lemma LocalRemoteLocal(sourceDir: string, targetDir: string, rel: string)
    requires !HasSuffix(sourceDir, "/")
    ensures SyncEngine.ToRemotePath(sourceDir, targetDir, sourceDir + "/" + rel) == WithTrailingSlash(targetDir) + rel
    ensures ToLocalPath(sourceDir, targetDir, SyncEngine.ToRemotePath(sourceDir, targetDir, sourceDir + "/" + rel))
            == sourceDir + "/" + rel
  {
    var p := sourceDir + "/" + rel;
    assert HasPrefix(p, sourceDir) && p[|sourceDir|..] == "/" + rel;
    assert HasPrefix("/" + rel, "/") && ("/" + rel)[1..] == rel;
    var w := WithTrailingSlash(targetDir);
    assert HasPrefix(w + rel, w) && (w + rel)[|w|..] == rel;
  }

  /** A remote file below the target directory comes down to a local path
      that the sync engine maps back to the same remote path. */
  lemma RemoteLocalRemote(sourceDir: string, targetDir: string, rel: string)
    requires !HasSuffix(sourceDir, "/")
    ensures var remote := WithTrailingSlash(targetDir) + rel;
      ToLocalPath(sourceDir, targetDir, remote) == sourceDir + "/" + rel &&
      SyncEngine.ToRemotePath(sourceDir, targetDir, ToLocalPath(sourceDir, targetDir, remote)) == remote
  {
    var w := WithTrailingSlash(targetDir);
    assert HasPrefix(w + rel, w) && (w + rel)[|w|..] == rel;
    LocalRemoteLocal(sourceDir, targetDir, rel);
  }

  /** CopyRemoteFolder removes one trailing '/' from the target directory;
      unless it ends in "//" this maps files to the same local paths. */
  lemma TrimmedRootSameLocalPaths(sourceDir: string, targetDir: string, p: string)
    requires !HasSuffix(targetDir, "//")
    ensures ToLocalPath(sourceDir, TrimSuffix(targetDir, "/"), p) == ToLocalPath(sourceDir, targetDir, p)
  {
    var t := TrimSuffix(targetDir, "/");
    if HasSuffix(targetDir, "/") {
      assert t + "/" == targetDir;
    }
  }
}
