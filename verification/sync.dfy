/** sync.go: the live-sync engine. Watcher events on local paths become calls
    on the container filer; on the way, events on editor temporaries are
    dropped, an editor's atomic save is absorbed (the "swapping" flag) and the
    two halves of a rename are paired (the "fileToRenamed" field).

    The pure functions below say what one event does to the engine's two
    fields and which filer calls it issues (an `Effect`); the class `Sync`
    holds the fields and carries out the same steps in place, and each of its
    methods is proved to have exactly the effect the function describes. */
module SyncEngine {
  import opened GoStd
  import opened Utils
  import opened ContainerFiler

  const IgnoredExts: seq<string> := ["swp", "swx"]

  /** The message of the Go run-time panic raised by `ext[:len(ext)-1]` on an
      empty extension. */
  const SliceOutOfRange: string := "runtime error: slice bounds out of range [:-1]"

  const NotADirectory: string := "You must pass a directory, not a file in source dir"

  /** What the watch loop puts in front of an event's error when it logs it. */
  const EventErrored: string := "Event has errored: "

  /** The line the watch loop logs for an event that ended in error `m`. */
  function ErroredLine(m: string): (line: string)
    ensures HasPrefix(line, EventErrored) && HasSuffix(line, m)
  {
    SuffixOfConcat(EventErrored, m);
    EventErrored + m
  }

  /** isIgnored: editor swap files (extension ".swp" or ".swx") and files
      whose name is an integer as strconv.Atoi reads it. */
  predicate IsIgnored(path: string) {
    DotOneOf(Ext(path), IgnoredExts) || AtoiSucceeds(Base(path))
  }

  /** The loop over the ignored extensions: `ext` is "." followed by one of
      `exts`. */
  predicate DotOneOf(ext: string, exts: seq<string>)
    decreases |exts|
  {
    exts != [] && (ext == "." + exts[0] || DotOneOf(ext, exts[1..]))
  }

  /** The first result of FileExists: os.Stat succeeded or failed with an
      error other than "does not exist". */
  predicate Exists(fs: FileSystem, path: string) {
    FileExists(Stat(fs, path)).0
  }

  /** The candidate after `path`: the path with the last character of its
      extension removed. */
  lemma NextCandidate(path: string)
    requires Ext(path) != "" && Ext(path) != "."
    ensures |path| >= 1 && |Ext(path)| >= 2
    ensures TrimSuffix(path, Ext(path)) + Ext(path)[..|Ext(path)| - 1] == path[..|path| - 1]
    ensures Ext(path[..|path| - 1]) != ""
  {
    var ext := Ext(path);
    ExtBeyondDot(path);
    ExtDropLast(path);
    assert HasSuffix(path, ext);
    var stem := TrimSuffix(path, ext);
    assert stem == path[..|path| - |ext|];
    DropLastOfTail(path, |ext|);
  }

  /** isSwappingWithLastState: while the extension is longer than "." and the
      path does not exist, drop the extension's last character and look
      again; report `state` (true once a character was dropped) with the path
      where the search stopped. A missing path whose extension is empty makes
      the source slice out of range, hence the precondition. */
  function IsSwappingWithLastState(fs: FileSystem, path: string, state: bool): (r: (bool, string))
    requires Exists(fs, path) || Ext(path) != ""
    decreases |path|
  {
    var ext := Ext(path);
    if ext == "." then (false, path)
    else if Exists(fs, path) then (state, path)
    else
      var tempPath := TrimSuffix(path, ext);
      NextCandidate(path);
      IsSwappingWithLastState(fs, tempPath + ext[..|ext| - 1], true)
  }

  function IsSwapping(fs: FileSystem, path: string): (r: (bool, string))
    requires Exists(fs, path) || Ext(path) != ""
  {
    IsSwappingWithLastState(fs, path, false)
  }

  /** The calls to isSwapping that panic. */
  predicate SwapProbePanics(fs: FileSystem, path: string) {
    !Exists(fs, path) && Ext(path) == ""
  }

  /** TrimPath: the path relative to the source directory, without a leading
      '/'. */
  function TrimPath(sourceDir: string, path: string): string {
    TrimPrefix(TrimPrefix(path, sourceDir), "/")
  }

  /** ToRemotePath: the target directory, with one trailing '/' ensured,
      followed by the relative path. */
  function ToRemotePath(sourceDir: string, targetDir: string, path: string): string {
    WithTrailingSlash(targetDir) + TrimPath(sourceDir, path)
  }

  /** The outcome of NewSync's check of the source directory. */
  datatype Checked = Accepted(dir: string) | Rejected(msg: string)

  /** NewSync: the source directory must stat as a directory; one trailing
      '/' is removed from it. */
  function CheckSourceDir(fs: FileSystem, sourceDir: string): Checked {
    match Stat(fs, sourceDir)
    case NotExist(p) => Rejected(NotExistMessage(p))
    case StatFailed(m) => Rejected(m)
    case StatOk(info) =>
      if !info.isDir then Rejected(NotADirectory) else Accepted(TrimSuffix(sourceDir, "/"))
  }

  /** What getFile reports: the stat of an opened file, or the error of os.Stat
      or os.Open. */
  datatype Opened = Opened(info: FileInfo) | OpenFailed(msg: string)

  function GetFile(fs: FileSystem, path: string): Opened {
    if path !in fs then OpenFailed(NotExistMessage(path))
    else match fs[path]
      case Unstatable(e) => OpenFailed(e)
      case Present(info, openErr) =>
        if openErr.Some? then OpenFailed(openErr.value) else Opened(info)
  }

  /** The fixed roots of one sync session and its force flag. */
  datatype Session = Session(sourceDir: string, targetDir: string, forceSync: bool)

  /** The engine's two mutable fields. */
  datatype SyncState = SyncState(fileToRenamed: string, swapping: bool)

  /** What handling one event does: the new fields, the filer calls issued
      (in order) and the error returned. */
  datatype Effect = Effect(state: SyncState, calls: seq<FilerCall>, status: Status)

  function Upload(s: Session, path: string, info: FileInfo): FilerCall {
    CopyContent(path, info.size, ToRemotePath(s.sourceDir, s.targetDir, path), info.mode)
  }

  /** One filer call whose reply is the event's error. */
  function Issue(st: SyncState, reply: FilerCall -> Status, c: FilerCall): Effect {
    Effect(st, [c], reply(c))
  }

  function WriteEffect(s: Session, reply: FilerCall -> Status, fs: FileSystem, st: SyncState, path: string): Effect {
    if st.swapping then Effect(st, [], Ok)
    else match GetFile(fs, path)
      case OpenFailed(m) => Effect(st, [], Err(m))
      case Opened(info) => Issue(st, reply, Upload(s, path, info))
  }

  function CreateEffect(s: Session, reply: FilerCall -> Status, fs: FileSystem, st: SyncState, path: string): Effect {
    if st.swapping then Effect(st, [], Ok)
    else if SwapProbePanics(fs, path) then Effect(st, [], Panic(SliceOutOfRange))
    else if IsSwapping(fs, path).0 then Effect(st.(swapping := true), [], Ok)
    else match GetFile(fs, path)
      case OpenFailed(m) => Effect(st, [], Err(m))
      case Opened(info) =>
        if info.isDir then Issue(st, reply, CreateFolders(s.targetDir, TrimPath(s.sourceDir, path)))
        else Issue(st, reply, Upload(s, path, info))
  }

  function DeleteEffect(s: Session, reply: FilerCall -> Status, fs: FileSystem, st: SyncState, path: string): Effect {
    if st.swapping then
      var st' := st.(swapping := false);
      if SwapProbePanics(fs, path) then Effect(st', [], Panic(SliceOutOfRange))
      else WriteEffect(s, reply, fs, st', IsSwapping(fs, path).1)
    else Issue(st, reply, Delete(ToRemotePath(s.sourceDir, s.targetDir, path)))
  }

  function RenameEffect(s: Session, reply: FilerCall -> Status, fs: FileSystem, st: SyncState, path: string): Effect {
    if st.swapping then Effect(st, [], Ok)
    else
      var (found, err) := FileExists(Stat(fs, path));
      if err != Ok then Effect(st, [], err)
      else if !found && Ext(path) == "" then Effect(st, [], Panic(SliceOutOfRange))
      else if !found && IsSwapping(fs, path).0 then Effect(st.(swapping := true), [], Ok)
      else if st.fileToRenamed == "" && !found then
        Issue(st, reply, Delete(ToRemotePath(s.sourceDir, s.targetDir, path)))
      else if found then Effect(st.(fileToRenamed := path), [], Ok)
      else
        Issue(st.(fileToRenamed := ""), reply,
              Rename(ToRemotePath(s.sourceDir, s.targetDir, path),
                     ToRemotePath(s.sourceDir, s.targetDir, st.fileToRenamed)))
  }

  datatype EventKind = WriteEvent | CreateEvent | RemoveEvent | RenameEvent

  /** A watcher event, together with the local filesystem as the engine finds
      it while handling the event. */
  datatype Event = Event(kind: EventKind, path: string, disk: FileSystem)

  /** action: dispatch on the kind of event. */
  function ActionEffect(s: Session, reply: FilerCall -> Status, st: SyncState, ev: Event): Effect {
    match ev.kind
    case WriteEvent => WriteEffect(s, reply, ev.disk, st, ev.path)
    case CreateEvent => CreateEffect(s, reply, ev.disk, st, ev.path)
    case RemoveEvent => DeleteEffect(s, reply, ev.disk, st, ev.path)
    case RenameEvent => RenameEffect(s, reply, ev.disk, st, ev.path)
  }

  /** The watch loop so far: the fields, every filer call issued, the error
      lines logged, and the panic that ended the process, if any. */
  datatype Trace = Trace(state: SyncState, calls: seq<FilerCall>, errors: seq<string>, panic: Option<string>)

  /** How the engine handles one event that is not ignored. */
  function Handler(s: Session, reply: FilerCall -> Status): (SyncState, Event) -> Effect {
    (st: SyncState, ev: Event) => ActionEffect(s, reply, st, ev)
  }

  /** One turn of the watch loop with handler `handle`: ignored events are
      skipped, an error is logged and the loop goes on, a panic ends it. */
  function Consume(handle: (SyncState, Event) -> Effect, t: Trace, ev: Event): Trace {
    if t.panic.Some? || IsIgnored(ev.path) then t
    else Absorb(t, handle(t.state, ev))
  }

  /** The trace after an event with effect `e` was handled. */
  function Absorb(t: Trace, e: Effect): Trace {
    match e.status
    case Ok => Trace(e.state, t.calls + e.calls, t.errors, None)
    case Err(m) => Trace(e.state, t.calls + e.calls, t.errors + [ErroredLine(m)], None)
    case Panic(m) => Trace(e.state, t.calls + e.calls, t.errors, Some(m))
  }

  function ConsumeAll(handle: (SyncState, Event) -> Effect, t: Trace, events: seq<Event>): Trace
    decreases |events|
  {
    if events == [] then t
    else Consume(handle, ConsumeAll(handle, t, events[..|events| - 1]), events[|events| - 1])
  }

  /** What DirIsEmpty reports about the source directory. */
  datatype DirProbe = EmptyDir | NonEmptyDir | DirError(msg: string)

  /** syncFolder: pull the remote tree when the source directory is empty or
      the pull is forced. */
  function SyncFolderEffect(s: Session, reply: FilerCall -> Status, probe: DirProbe): (seq<FilerCall>, Status) {
    if probe.DirError? then ([], Err(probe.msg))
    else if probe.NonEmptyDir? && !s.forceSync then ([], Ok)
    else
      var c := CopyRemoteFolder(s.sourceDir, s.targetDir);
      ([c], reply(c))
  }

  datatype RunResult = RunResult(trace: Trace, status: Status)

  /** A turn of the loop on an event that is not ignored absorbs the
      handler's effect: its calls, its error in the log, its panic. */
  lemma TurnAbsorbs(h: (SyncState, Event) -> Effect, st: SyncState, ev: Event)
    requires !IsIgnored(ev.path)
    ensures var e := h(st, ev);
      var t := Consume(h, Trace(st, [], [], None), ev);
      t.state == e.state && t.calls == e.calls &&
      t.errors == (if e.status.Err? then [ErroredLine(e.status.msg)] else []) &&
      t.panic == (if e.status.Panic? then Some(e.status.reason) else None)
  {
    var e := h(st, ev);
    assert [] + e.calls == e.calls;
  }

  /** Run: the initial pull, then (when the watch could be set up) the watch
      loop over the events delivered, whose calls follow the pull's. */
  function RunEffect(s: Session, reply: FilerCall -> Status, st: SyncState, probe: DirProbe,
                     watch: Status, events: seq<Event>): RunResult
  {
    var (pull, pulled) := SyncFolderEffect(s, reply, probe);
    if pulled != Ok then RunResult(Trace(st, pull, [], None), pulled)
    else if watch != Ok then RunResult(Trace(st, pull, [], None), watch)
    else
      var u := ConsumeAll(Handler(s, reply), Trace(st, [], [], None), events);
      RunResult(Trace(u.state, pull + u.calls, u.errors, u.panic),
                if u.panic.Some? then Panic(u.panic.value) else Ok)
  }

  /** Once the process has panicked, later events change nothing. */
  lemma {:induction false} PanicIsFinal(h: (SyncState, Event) -> Effect, t: Trace, events: seq<Event>, i: nat)
    requires i <= |events|
    requires ConsumeAll(h, t, events[..i]).panic.Some?
    ensures ConsumeAll(h, t, events) == ConsumeAll(h, t, events[..i])
    decreases |events|
  {
    if i < |events| {
      var front := events[..|events| - 1];
      assert front[..i] == events[..i];
      PanicIsFinal(h, t, front, i);
    } else {
      assert events[..i] == events;
    }
  }

  /** A turn of the loop depends on the trace so far only through the fields
      (and whether the process is still alive). */
  lemma ConsumeShift(h: (SyncState, Event) -> Effect, t: Trace, ev: Event)
    requires t.panic == None
    ensures var u := Consume(h, Trace(t.state, [], [], None), ev);
      Consume(h, t, ev) == Trace(u.state, t.calls + u.calls, t.errors + u.errors, u.panic)
  {
    var e := h(t.state, ev);
    assert t.calls + [] == t.calls && t.errors + [] == t.errors;
    assert [] + e.calls == e.calls;
    match e.status {
      case Ok =>
      case Err(m) => assert [] + [m] == [m];
      case Panic(m) =>
    }
  }

  /** The whole watch loop depends on the trace it starts from only through
      the fields. */
  lemma {:induction false} ConsumeAllShift(h: (SyncState, Event) -> Effect, t: Trace, events: seq<Event>)
    requires t.panic == None
    ensures var u := ConsumeAll(h, Trace(t.state, [], [], None), events);
      ConsumeAll(h, t, events) == Trace(u.state, t.calls + u.calls, t.errors + u.errors, u.panic)
    decreases |events|
  {
    var t0 := Trace(t.state, [], [], None);
    if events == [] {
      assert t.calls + [] == t.calls && t.errors + [] == t.errors;
    } else {
      var front, last := events[..|events| - 1], events[|events| - 1];
      ConsumeAllShift(h, t, front);
      var v := ConsumeAll(h, t0, front);
      var w := ConsumeAll(h, t, front);
      assert w == Trace(v.state, t.calls + v.calls, t.errors + v.errors, v.panic);
      if v.panic == None {
        ConsumeShift(h, w, last);
        ConsumeShift(h, v, last);
        var x := Consume(h, Trace(v.state, [], [], None), last);
        ConcatAssoc(t.calls, v.calls, x.calls);
        ConcatAssoc(t.errors, v.errors, x.errors);
      }
    }
  }

  /** The loop so far, one event further. */
  lemma ConsumeAllNext(h: (SyncState, Event) -> Effect, start: Trace, events: seq<Event>, i: nat)
    requires i < |events|
    requires ConsumeAll(h, start, events[..i]).panic == None
    ensures var t := ConsumeAll(h, start, events[..i]);
      var u := Consume(h, Trace(t.state, [], [], None), events[i]);
      ConsumeAll(h, start, events[..i + 1]) == Trace(u.state, t.calls + u.calls, t.errors + u.errors, u.panic)
  {
    assert events[..i + 1][..i] == events[..i];
    ConsumeShift(h, ConsumeAll(h, start, events[..i]), events[i]);
  }

  class Sync {
    const containerFiler: RecordingFiler
    const sourceDir: string
    const targetDir: string
    var fileToRenamed: string
    var swapping: bool
    var forceSync: bool
    /** The messages the watch loop logged at error level. */
    var errorLog: seq<string>

    function Roots(): Session
      reads this
    {
      Session(sourceDir, targetDir, forceSync)
    }

    function State(): SyncState
      reads this
    {
      SyncState(fileToRenamed, swapping)
    }

    constructor (containerFiler: RecordingFiler, sourceDir: string, targetDir: string)
      ensures this.containerFiler == containerFiler
      ensures Roots() == Session(sourceDir, targetDir, false)
      ensures State() == SyncState("", false) && errorLog == []
    {
      this.containerFiler := containerFiler;
      this.sourceDir := sourceDir;
      this.targetDir := targetDir;
      fileToRenamed := "";
      swapping := false;
      forceSync := false;
      errorLog := [];
    }

    /** NewSync: a new engine on the accepted source directory, or the error. */
    static method NewSync(containerFiler: RecordingFiler, fs: FileSystem, sourceDir: string, targetDir: string)
      returns (s: Sync?, status: Status)
      ensures CheckSourceDir(fs, sourceDir).Rejected? ==>
        s == null && status == Err(CheckSourceDir(fs, sourceDir).msg)
      ensures CheckSourceDir(fs, sourceDir).Accepted? ==>
        status == Ok && s != null && fresh(s) && s.containerFiler == containerFiler &&
        s.Roots() == Session(CheckSourceDir(fs, sourceDir).dir, targetDir, false) &&
        s.State() == SyncState("", false) && s.errorLog == []
    {
      match CheckSourceDir(fs, sourceDir)
      case Rejected(m) =>
        s, status := null, Err(m);
      case Accepted(dir) =>
        s := new Sync(containerFiler, dir, targetDir);
        status := Ok;
    }

    method SetForceSync(forceSync: bool)
      modifies this
      ensures Roots() == old(Roots()).(forceSync := forceSync)
      ensures State() == old(State()) && errorLog == old(errorLog)
    {
      this.forceSync := forceSync;
    }

    method SyncFolder(probe: DirProbe) returns (status: Status)
      modifies containerFiler
      ensures var (calls, result) := SyncFolderEffect(Roots(), containerFiler.reply, probe);
        containerFiler.calls == old(containerFiler.calls) + calls && status == result
    {
      if probe.DirError? {
        return Err(probe.msg);
      }
      if probe.NonEmptyDir? && !forceSync {
        return Ok;
      }
      status := containerFiler.Call(CopyRemoteFolder(sourceDir, targetDir));
    }

    method Write(fs: FileSystem, path: string) returns (status: Status)
      modifies containerFiler
      ensures var e := WriteEffect(Roots(), containerFiler.reply, fs, State(), path);
        e.state == State() && containerFiler.calls == old(containerFiler.calls) + e.calls &&
        status == e.status
    {
      if swapping {
        return Ok;
      }
      match GetFile(fs, path)
      case OpenFailed(m) =>
        return Err(m);
      case Opened(info) =>
        status := containerFiler.Call(CopyContent(path, info.size, ToRemotePath(sourceDir, targetDir, path), info.mode));
    }

    method Create(fs: FileSystem, path: string) returns (status: Status)
      modifies this, containerFiler
      ensures var e := CreateEffect(old(Roots()), containerFiler.reply, fs, old(State()), path);
        State() == e.state && containerFiler.calls == old(containerFiler.calls) + e.calls &&
        status == e.status
      ensures Roots() == old(Roots()) && errorLog == old(errorLog)
    {
      if swapping {
        return Ok;
      }
      if SwapProbePanics(fs, path) {
        return Panic(SliceOutOfRange);
      }
      var (isSwapping, _) := IsSwapping(fs, path);
      if isSwapping {
        swapping := true;
        return Ok;
      }
      match GetFile(fs, path)
      case OpenFailed(m) =>
        return Err(m);
      case Opened(info) =>
        if info.isDir {
          status := containerFiler.Call(CreateFolders(targetDir, TrimPath(sourceDir, path)));
        } else {
          status := containerFiler.Call(CopyContent(path, info.size, ToRemotePath(sourceDir, targetDir, path), info.mode));
        }
    }

    method Delete(fs: FileSystem, path: string) returns (status: Status)
      modifies this, containerFiler
      ensures var e := DeleteEffect(old(Roots()), containerFiler.reply, fs, old(State()), path);
        State() == e.state && containerFiler.calls == old(containerFiler.calls) + e.calls &&
        status == e.status
      ensures Roots() == old(Roots()) && errorLog == old(errorLog)
    {
      if swapping {
        swapping := false;
        if SwapProbePanics(fs, path) {
          return Panic(SliceOutOfRange);
        }
        var (_, swappedFile) := IsSwapping(fs, path);
        status := Write(fs, swappedFile);
        return;
      }
      status := containerFiler.Call(FilerCall.Delete(ToRemotePath(sourceDir, targetDir, path)));
    }

    method Rename(fs: FileSystem, path: string) returns (status: Status)
      modifies this, containerFiler
      ensures var e := RenameEffect(old(Roots()), containerFiler.reply, fs, old(State()), path);
        State() == e.state && containerFiler.calls == old(containerFiler.calls) + e.calls &&
        status == e.status
      ensures Roots() == old(Roots()) && errorLog == old(errorLog)
    {
      if swapping {
        return Ok;
      }
      var (found, err) := FileExists(Stat(fs, path));
      if err != Ok {
        return err;
      }
      if !found {
        if Ext(path) == "" {
          return Panic(SliceOutOfRange);
        }
        var (isSwapping, _) := IsSwapping(fs, path);
        if isSwapping {
          swapping := true;
          return Ok;
        }
      }
      if fileToRenamed == "" && !found {
        status := containerFiler.Call(FilerCall.Delete(ToRemotePath(sourceDir, targetDir, path)));
        return;
      }
      if found {
        fileToRenamed := path;
        return Ok;
      }
      status := containerFiler.Call(FilerCall.Rename(ToRemotePath(sourceDir, targetDir, path),
                                                     ToRemotePath(sourceDir, targetDir, fileToRenamed)));
      fileToRenamed := "";
    }

    method Action(ev: Event) returns (status: Status)
      modifies this, containerFiler
      ensures var e := ActionEffect(old(Roots()), containerFiler.reply, old(State()), ev);
        State() == e.state && containerFiler.calls == old(containerFiler.calls) + e.calls &&
        status == e.status
      ensures Roots() == old(Roots()) && errorLog == old(errorLog)
    {
      match ev.kind
      case WriteEvent => status := Write(ev.disk, ev.path);
      case CreateEvent => status := Create(ev.disk, ev.path);
      case RemoveEvent => status := Delete(ev.disk, ev.path);
      case RenameEvent => status := Rename(ev.disk, ev.path);
    }

    /** One turn of the watch loop of Run: skip an ignored event, otherwise
        handle it and log its error. */
    method HandleEvent(ev: Event) returns (status: Status)
      modifies this, containerFiler
      ensures var t := Consume(Handler(old(Roots()), containerFiler.reply), Trace(old(State()), [], [], None), ev);
        State() == t.state && containerFiler.calls == old(containerFiler.calls) + t.calls &&
        errorLog == old(errorLog) + t.errors &&
        status == (if t.panic.Some? then Panic(t.panic.value) else Ok)
      ensures Roots() == old(Roots())
    {
      if IsIgnored(ev.path) {
        assert containerFiler.calls == containerFiler.calls + [];
        return Ok;
      }
      ghost var h := Handler(Roots(), containerFiler.reply);
      ghost var e := h(State(), ev);
      TurnAbsorbs(h, State(), ev);
      assert e == ActionEffect(Roots(), containerFiler.reply, State(), ev);
      var err := Action(ev);
      assert err == e.status;
      match err
      case Ok =>
        status := Ok;
      case Err(m) =>
        errorLog := errorLog + [ErroredLine(m)];
        status := Ok;
      case Panic(_) =>
        status := err;
    }

    /** The watch loop of Run over the events delivered. */
    method Watch(events: seq<Event>) returns (status: Status)
      modifies this, containerFiler
      ensures var u := ConsumeAll(Handler(old(Roots()), containerFiler.reply), Trace(old(State()), [], [], None), events);
        State() == u.state && containerFiler.calls == old(containerFiler.calls) + u.calls &&
        errorLog == old(errorLog) + u.errors &&
        status == (if u.panic.Some? then Panic(u.panic.value) else Ok)
      ensures Roots() == old(Roots())
    {
      ghost var h := Handler(Roots(), containerFiler.reply);
      ghost var start := Trace(State(), [], [], None);
      assert events[..0] == [];
      var i := 0;
      while i < |events|
        invariant 0 <= i <= |events|
        invariant Roots() == old(Roots())
        invariant ConsumeAll(h, start, events[..i]).panic == None
        invariant State() == ConsumeAll(h, start, events[..i]).state
        invariant containerFiler.calls == old(containerFiler.calls) + ConsumeAll(h, start, events[..i]).calls
        invariant errorLog == old(errorLog) + ConsumeAll(h, start, events[..i]).errors
      {
        ghost var t := ConsumeAll(h, start, events[..i]);
        ghost var u := Consume(h, Trace(State(), [], [], None), events[i]);
        ghost var calls0, log0 := containerFiler.calls, errorLog;
        ConsumeAllNext(h, start, events, i);
        assert Handler(Roots(), containerFiler.reply) == h;
        var err := HandleEvent(events[i]);
        assert containerFiler.calls == calls0 + u.calls;
        ConcatAssoc(old(containerFiler.calls), t.calls, u.calls);
        assert errorLog == log0 + u.errors;
        ConcatAssoc(old(errorLog), t.errors, u.errors);
        if err != Ok {
          PanicIsFinal(h, start, events, i + 1);
          return err;
        }
        i := i + 1;
      }
      assert events[..i] == events;
      status := Ok;
    }

    /** Run, with the watcher's events given as a finite sequence (the channel
        of the source is never closed, so there the loop does not end) and the
        outcome of setting up the watch as a parameter. */
    method Run(probe: DirProbe, watch: Status, events: seq<Event>) returns (status: Status)
      modifies this, containerFiler
      ensures var r := RunEffect(old(Roots()), containerFiler.reply, old(State()), probe, watch, events);
        State() == r.trace.state && containerFiler.calls == old(containerFiler.calls) + r.trace.calls &&
        errorLog == old(errorLog) + r.trace.errors && status == r.status
      ensures Roots() == old(Roots())
    {
      ghost var roots, st := Roots(), State();
      ghost var pull := SyncFolderEffect(roots, containerFiler.reply, probe).0;
      var err := SyncFolder(probe);
      if err != Ok {
        return err;
      }
      if watch != Ok {
        return watch;
      }
      status := Watch(events);
      ghost var u := ConsumeAll(Handler(roots, containerFiler.reply), Trace(st, [], [], None), events);
      ConcatAssoc(old(containerFiler.calls), pull, u.calls);
    }
  }
}
