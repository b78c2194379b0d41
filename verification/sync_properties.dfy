/** What the sync engine of sync.go guarantees: how the swap detection
    searches, which paths are ignored, what one event does to the remote
    side, how the two halves of a rename are paired, and how Run is put
    together. */
module SyncProperties {
  import opened GoStd
  import opened Utils
  import opened ContainerFiler
  import opened SyncEngine

  /** What the search of isSwappingWithLastState from `p` guarantees about
      its result `r`: it only ever drops characters of the extension, never
      its '.'; every longer candidate it passed is missing; it stops on a
      path that exists or whose extension is just "."; and it reports a swap
      exactly when it stopped on an existing path with a proper extension
      after dropping at least one character (or when it was told a character
      was already dropped). */
  predicate SearchOutcome(fs: FileSystem, p: string, state: bool, r: (bool, string)) {
    SearchShape(p, r.1) && SearchStops(fs, p, state, r)
  }

  /** The search ends on a prefix of `p` that keeps the extension's '.'. */
  predicate SearchShape(p: string, found: string) {
    HasPrefix(p, found) &&
    (found == p || |p| - |Ext(p)| < |found| < |p|) &&
    (Ext(p) != "" ==> Ext(found) == Ext(p)[..|found| - (|p| - |Ext(p)|)])
  }

  /** Where and why the search stopped, and what it reports. */
  predicate SearchStops(fs: FileSystem, p: string, state: bool, r: (bool, string)) {
    (Ext(r.1) == "." || Exists(fs, r.1)) &&
    (forall k :: |r.1| < k <= |p| ==> !Exists(fs, p[..k])) &&
    (r.0 <==> Ext(r.1) != "." && Exists(fs, r.1) && (state || |r.1| < |p|))
  }

  lemma {:induction false} SwapSearch(fs: FileSystem, p: string, state: bool)
    requires Exists(fs, p) || Ext(p) != ""
    ensures SearchOutcome(fs, p, state, IsSwappingWithLastState(fs, p, state))
    decreases |p|
  {
    var ext := Ext(p);
    if ext == "." || Exists(fs, p) {
      assert p[..|p|] == p;
      if ext != "" {
        assert ext[..|p| - (|p| - |ext|)] == ext;
      }
    } else {
      NextCandidate(p);
      var q := p[..|p| - 1];
      SwapSearch(fs, q, true);
      var r := IsSwappingWithLastState(fs, q, true);
      assert IsSwappingWithLastState(fs, p, state) == r;
      SwapSearchStep(fs, p, state, r);
    }
  }

  /** One step of the search: the outcome from the next candidate is the
      outcome from `p`. */
  lemma SwapSearchStep(fs: FileSystem, p: string, state: bool, r: (bool, string))
    requires Ext(p) != "" && Ext(p) != "." && !Exists(fs, p)
    requires |p| >= 1 && SearchOutcome(fs, p[..|p| - 1], true, r)
    ensures SearchOutcome(fs, p, state, r)
  {
    NextCandidate(p);
    StepKeepsExtension(p, r.1);
    StepStops(fs, p, state, r);
  }

  lemma StepKeepsExtension(p: string, found: string)
    requires |Ext(p)| >= 2
    requires SearchShape(p[..|p| - 1], found)
    ensures SearchShape(p, found) && |found| < |p|
  {
    var ext := Ext(p);
    ExtDropLast(p);
    var q := p[..|p| - 1];
    assert q[..|found|] == p[..|found|];
    if found == q {
      assert Ext(q)[..|q| - (|q| - |Ext(q)|)] == Ext(q);
    }
    assert Ext(q)[..|found| - (|p| - |ext|)] == ext[..|found| - (|p| - |ext|)];
  }

  lemma StepStops(fs: FileSystem, p: string, state: bool, r: (bool, string))
    requires |p| >= 1 && !Exists(fs, p) && |r.1| < |p|
    requires SearchStops(fs, p[..|p| - 1], true, r)
    ensures SearchStops(fs, p, state, r)
  {
    StepPassesMissing(fs, p, p[..|p| - 1], r.1);
  }

  lemma StepPassesMissing(fs: FileSystem, p: string, q: string, found: string)
    requires |p| >= 1 && q == p[..|p| - 1] && !Exists(fs, p) && |found| < |p|
    requires forall k :: |found| < k <= |p| - 1 ==> !Exists(fs, q[..k])
    ensures forall k :: |found| < k <= |p| ==> !Exists(fs, p[..k])
  {
    forall k | |found| < k <= |p|
      ensures !Exists(fs, p[..k])
    {
      if k == |p| {
        assert p[..k] == p;
      } else {
        assert p[..k] == q[..k];
      }
    }
  }

  /** isSwapping reports a swap exactly when some shorter prefix of the path
      that keeps the extension's '.' and at least one character after it
      exists, and every longer prefix, the path included, is missing: the
      path is an editor's temporary copy of that file. */
  lemma IsSwappingIff(fs: FileSystem, p: string)
    requires Exists(fs, p) || Ext(p) != ""
    ensures IsSwapping(fs, p).0 <==>
      exists k :: |p| - |Ext(p)| + 1 < k < |p| && Exists(fs, p[..k]) &&
        forall j :: k < j <= |p| ==> !Exists(fs, p[..j])
  {
    SwapSearch(fs, p, false);
    var r := IsSwapping(fs, p);
    var stem := |p| - |Ext(p)|;
    assert r.1 == p[..|r.1|];
    if r.0 {
      assert |r.1| != stem + 1;
    } else if Ext(r.1) == "." {
      assert |Ext(p)[..|r.1| - stem]| == 1;
    } else {
      assert r.1 == p && p[..|p|] == p;
    }
  }

  /** A path that exists is never a swap, and isSwapping then reports the
      path itself. */
  lemma ExistingPathIsNoSwap(fs: FileSystem, p: string)
    requires Exists(fs, p)
    ensures IsSwapping(fs, p) == (false, p)
  {
  }

  const TextFile: FileInfo := FileInfo(false, 12, 420)

  /** An editor that saves a file by first writing a copy with one more
      character ("notes.txt~" for "notes.txt"): the copy is recognised as a
      swap of the file, which is where the search stops. */
  lemma BackupCopyIsSwap(fs: FileSystem, name: string, c: char)
    requires Ext(name) != "" && Ext(name) != "." && c != '.' && c != '/'
    requires Exists(fs, name) && !Exists(fs, name + [c])
    ensures Ext(name + [c]) == Ext(name) + [c]
    ensures IsSwapping(fs, name + [c]) == (true, name)
  {
    var p := name + [c];
    assert p[..|p| - 1] == name;
    assert Ext(p) == Ext(name) + [c];
    NextCandidate(p);
    var e := Ext(p);
    assert TrimSuffix(p, e) + e[..|e| - 1] == name;
    assert IsSwappingWithLastState(fs, name, true) == (true, name);
    assert IsSwapping(fs, p) == IsSwappingWithLastState(fs, name, true);
  }

  /** When no prefix of `x.y` longer than `x.` exists, the search runs down
      to `x.` and reports no swap. */
  lemma NoSwapWithoutShorterFile(fs: FileSystem, x: string, y: string)
    requires NoDotNoSlash(y) && y != ""
    requires forall k :: |x| + 1 < k <= |x| + 1 + |y| ==> !Exists(fs, (x + "." + y)[..k])
    ensures Ext(x + "." + y) == "." + y
    ensures IsSwapping(fs, x + "." + y) == (false, x + ".")
  {
    var p := x + "." + y;
    ExtOfDotSuffix(x, y);
    SwapSearch(fs, p, false);
    NoSwapEnd(fs, x, y, IsSwapping(fs, p));
  }

  /** The end of that search: every candidate longer than `x.` is missing,
      so the search can only stop at `x.`. */
  lemma NoSwapEnd(fs: FileSystem, x: string, y: string, r: (bool, string))
    requires Ext(x + "." + y) == "." + y
    requires forall k :: |x| + 1 < k <= |x| + 1 + |y| ==> !Exists(fs, (x + "." + y)[..k])
    requires SearchOutcome(fs, x + "." + y, false, r)
    ensures r == (false, x + ".")
  {
    var p := x + "." + y;
    assert r.1 == p[..|r.1|];
    assert Ext(r.1) == ("." + y)[..|r.1| - |x|];
    assert |Ext(r.1)| == |r.1| - |x|;
    assert |r.1| == |x| + 1;
    assert r.1 == x + ".";
  }

  /** A temporary name that adds a whole extension ("notes.txt.tmp") is not
      recognised: the search only shortens the last extension and stops at
      "notes.txt.". */
  lemma AddedExtensionIsNoSwap()
    ensures Ext("notes.txt.tmp") == ".tmp" &&
      IsSwapping(map["notes.txt" := Present(TextFile, None)], "notes.txt.tmp") == (false, "notes.txt.")
  {
    var fs := map["notes.txt" := Present(TextFile, None)];
    assert "notes.txt.tmp" == "notes.txt" + "." + "tmp";
    forall k | 10 < k <= 13
      ensures !Exists(fs, ("notes.txt" + "." + "tmp")[..k])
    {
      assert |("notes.txt" + "." + "tmp")[..k]| != |"notes.txt"|;
    }
    NoSwapWithoutShorterFile(fs, "notes.txt", "tmp");
    assert "notes.txt" + "." == "notes.txt." && "." + "tmp" == ".tmp";
  }

  /** A file whose name is a number of up to 18 digits is ignored, wherever
      it is (editors probe a directory with such names, vim with "4913"). */
  lemma NumericNameIgnored(dir: string, d: string)
    requires 1 <= |d| <= 18 && AllDigits(d)
    ensures IsIgnored(dir + "/" + d)
  {
    assert NoSlash(d) by {
      forall i | 0 <= i < |d| ensures d[i] != '/' { assert IsDigit(d[i]); }
    }
    BaseAfterSlash(dir, d);
    AtoiOfShortDigits(d);
  }

  lemma VimProbeFileIgnored()
    ensures IsIgnored("/home/me/app/4913")
  {
    assert "/home/me/app/4913" == "/home/me/app" + "/" + "4913";
    NumericNameIgnored("/home/me/app", "4913");
  }

  /** Swap files of vim are ignored. */
  lemma SwapFileIgnored(p: string)
    requires Ext(p) == ".swp" || Ext(p) == ".swx"
    ensures IsIgnored(p)
  {
    assert "." + IgnoredExts[0] == ".swp" && "." + IgnoredExts[1] == ".swx";
  }

  /** An ordinary source file is not ignored. */
  lemma SourceFileNotIgnored()
    ensures !IsIgnored("/home/me/app/main.go")
  {
    var p := "/home/me/app/main.go";
    assert p == "/home/me/app/main" + "." + "go";
    ExtOfDotSuffix("/home/me/app/main", "go");
    assert Ext(p) == ".go";
    assert p == "/home/me/app" + "/" + "main.go";
    assert NoSlash("main.go");
    BaseAfterSlash("/home/me/app", "main.go");
    NotIgnoredByName(p);
  }

  /** isIgnored judges a path by its extension and its base name only: one
      with another extension whose base starts with a letter passes. */
  lemma NotIgnoredByName(p: string)
    requires Ext(p) != ".swp" && Ext(p) != ".swx"
    requires Base(p) != "" && 'a' <= Base(p)[0] <= 'z'
    ensures !IsIgnored(p)
  {
    SwapExtensions(Ext(p));
    AtoiFailsOnLetter(Base(p));
  }

  /** isIgnored holds exactly for the swap extensions and for base names
      that strconv.Atoi accepts. */
  lemma IsIgnoredIff(p: string)
    ensures IsIgnored(p) <==> Ext(p) == ".swp" || Ext(p) == ".swx" || AtoiSucceeds(Base(p))
  {
    SwapExtensions(Ext(p));
  }

  /** The swap extensions are exactly ".swp" and ".swx". */
  lemma SwapExtensions(ext: string)
    ensures DotOneOf(ext, IgnoredExts) <==> ext == ".swp" || ext == ".swx"
  {
    assert "." + IgnoredExts[0] == ".swp" && "." + IgnoredExts[1] == ".swx";
    assert IgnoredExts[1..][1..] == [];
  }

  /** The events that are not ignored, in order. */
  function Unignored(events: seq<Event>): (r: seq<Event>)
    ensures |r| <= |events|
    ensures forall i :: 0 <= i < |r| ==> !IsIgnored(r[i].path) && r[i] in events
    decreases |events|
  {
    if events == [] then []
    else
      var last := events[|events| - 1];
      var front := Unignored(events[..|events| - 1]);
      if IsIgnored(last.path) then front else front + [last]
  }

  /** Ignored events leave no trace: the watch loop over all events ends
      exactly where the loop over the events that are not ignored ends. */
  lemma {:induction false} IgnoredEventsInvisible(h: (SyncState, Event) -> Effect, t: Trace, events: seq<Event>)
    ensures ConsumeAll(h, t, events) == ConsumeAll(h, t, Unignored(events))
    decreases |events|
  {
    if events != [] {
      var front, last := events[..|events| - 1], events[|events| - 1];
      IgnoredEventsInvisible(h, t, front);
      var u := Unignored(front);
      if !IsIgnored(last.path) {
        assert Unignored(events) == u + [last];
        assert (u + [last])[..|u|] == u;
      }
    }
  }

  /** While a swap is in progress, write, create and rename events change
      nothing and reach no filer. */
  lemma SwappingSuppresses(s: Session, reply: FilerCall -> Status, st: SyncState, ev: Event)
    requires st.swapping && !ev.kind.RemoveEvent?
    ensures ActionEffect(s, reply, st, ev) == Effect(st, [], Ok)
  {
  }

  /** Every event issues at most one filer call, the call's reply is the
      event's error, and only rename events touch fileToRenamed. */
  lemma AtMostOneCall(s: Session, reply: FilerCall -> Status, st: SyncState, ev: Event)
    ensures var e := ActionEffect(s, reply, st, ev);
      |e.calls| <= 1 &&
      (|e.calls| == 1 ==> e.status == reply(e.calls[0])) &&
      (!ev.kind.RenameEvent? ==> e.state.fileToRenamed == st.fileToRenamed)
  {
    match ev.kind
    case WriteEvent => WriteOneCall(s, reply, ev.disk, st, ev.path);
    case CreateEvent => CreateOneCall(s, reply, ev.disk, st, ev.path);
    case RemoveEvent => DeleteOneCall(s, reply, ev.disk, st, ev.path);
    case RenameEvent => RenameOneCall(s, reply, ev.disk, st, ev.path);
  }

  /** At most one call, whose reply is the effect's status. */
  predicate OneCall(reply: FilerCall -> Status, e: Effect) {
    |e.calls| <= 1 && (|e.calls| == 1 ==> e.status == reply(e.calls[0]))
  }

  lemma WriteOneCall(s: Session, reply: FilerCall -> Status, fs: FileSystem, st: SyncState, p: string)
    ensures var e := WriteEffect(s, reply, fs, st, p);
      OneCall(reply, e) && e.state.fileToRenamed == st.fileToRenamed
  {
  }

  lemma CreateOneCall(s: Session, reply: FilerCall -> Status, fs: FileSystem, st: SyncState, p: string)
    ensures var e := CreateEffect(s, reply, fs, st, p);
      OneCall(reply, e) && e.state.fileToRenamed == st.fileToRenamed
  {
  }

  lemma DeleteOneCall(s: Session, reply: FilerCall -> Status, fs: FileSystem, st: SyncState, p: string)
    ensures var e := DeleteEffect(s, reply, fs, st, p);
      OneCall(reply, e) && e.state.fileToRenamed == st.fileToRenamed
  {
  }

  lemma RenameOneCall(s: Session, reply: FilerCall -> Status, fs: FileSystem, st: SyncState, p: string)
    ensures OneCall(reply, RenameEffect(s, reply, fs, st, p))
  {
  }

  /** A write that is not suppressed uploads the file to its remote path with
      the size and mode os.Stat reports; a file that cannot be opened gives
      its error and no call. */
  lemma WriteUploads(s: Session, reply: FilerCall -> Status, fs: FileSystem, st: SyncState, p: string)
    requires !st.swapping
    ensures var e := WriteEffect(s, reply, fs, st, p);
      e.state == st &&
      (p in fs && fs[p].Present? && fs[p].openErr.None? ==>
        e.calls == [CopyContent(p, fs[p].info.size, ToRemotePath(s.sourceDir, s.targetDir, p), fs[p].info.mode)]) &&
      (!(p in fs && fs[p].Present? && fs[p].openErr.None?) ==>
        e.calls == [] && e.status == Err(GetFile(fs, p).msg)) &&
      (e.calls == [] ==> e.status.Err?) &&
      (e.calls != [] ==> e.status == reply(e.calls[0]))
  {
  }

  /** A delete outside a swap deletes exactly the remote counterpart. */
  lemma DeleteRemovesRemote(s: Session, reply: FilerCall -> Status, fs: FileSystem, st: SyncState, p: string)
    requires !st.swapping
    ensures var c := Delete(ToRemotePath(s.sourceDir, s.targetDir, p));
      DeleteEffect(s, reply, fs, st, p) == Effect(st, [c], reply(c))
  {
  }

  /** A delete ends a swap: the flag drops, and the file the swap was for
      (found by the same search) is uploaded if it can be opened; otherwise
      its error is returned. Nothing is ever deleted then. */
  lemma SwapEndsWithUpload(s: Session, reply: FilerCall -> Status, fs: FileSystem, st: SyncState, p: string)
    requires st.swapping && !SwapProbePanics(fs, p)
    ensures var target := IsSwapping(fs, p).1;
      var e := DeleteEffect(s, reply, fs, st, p);
      e.state == SyncState(st.fileToRenamed, false) &&
      HasPrefix(p, target) &&
      (forall c :: c in e.calls ==> c.CopyContent?) &&
      (target in fs && fs[target].Present? && fs[target].openErr.None? ==>
        e.calls == [CopyContent(target, fs[target].info.size,
                                ToRemotePath(s.sourceDir, s.targetDir, target), fs[target].info.mode)] &&
        e.status == reply(e.calls[0])) &&
      (!(target in fs && fs[target].Present? && fs[target].openErr.None?) ==>
        e.calls == [] && e.status == Err(GetFile(fs, target).msg)) &&
      (e.calls == [] ==> e.status.Err?)
  {
    SwapSearch(fs, p, false);
    WriteUploads(s, reply, fs, st.(swapping := false), IsSwapping(fs, p).1);
  }

  /** A create starts a swap exactly when the created path is a swap of an
      existing file; no call is made then. */
  lemma CreateStartsSwap(s: Session, reply: FilerCall -> Status, fs: FileSystem, st: SyncState, p: string)
    requires !st.swapping && !SwapProbePanics(fs, p)
    ensures var e := CreateEffect(s, reply, fs, st, p);
      (e.state.swapping <==> IsSwapping(fs, p).0) &&
      (e.state.swapping ==> e.calls == [] && e.status == Ok) &&
      e.state.fileToRenamed == st.fileToRenamed
  {
  }

  /** A created directory becomes a CreateFolders call under the target
      root with the path relative to the source root; a created file is
      uploaded. */
  lemma CreateMirrors(s: Session, reply: FilerCall -> Status, fs: FileSystem, st: SyncState, p: string)
    requires !st.swapping && p in fs && fs[p].Present? && fs[p].openErr.None?
    ensures var info := fs[p].info;
      CreateEffect(s, reply, fs, st, p).calls ==
        if info.isDir then [CreateFolders(s.targetDir, TrimPath(s.sourceDir, p))]
        else [CopyContent(p, info.size, ToRemotePath(s.sourceDir, s.targetDir, p), info.mode)]
  {
    ExistingPathIsNoSwap(fs, p);
  }

  /** A created path that is not a swap and cannot be opened (missing,
      unstatable or unreadable) gives its error and no call. */
  lemma CreateOpenFails(s: Session, reply: FilerCall -> Status, fs: FileSystem, st: SyncState, p: string)
    requires !st.swapping && !SwapProbePanics(fs, p) && !IsSwapping(fs, p).0
    requires !(p in fs && fs[p].Present? && fs[p].openErr.None?)
    ensures CreateEffect(s, reply, fs, st, p) == Effect(st, [], Err(GetFile(fs, p).msg))
  {
  }

  /** A rename event whose path cannot be stat'ed returns the stat error,
      with no call and no change. */
  lemma RenameStatFails(s: Session, reply: FilerCall -> Status, fs: FileSystem, st: SyncState, p: string)
    requires !st.swapping && p in fs && fs[p].Unstatable?
    ensures RenameEffect(s, reply, fs, st, p) == Effect(st, [], Err(fs[p].err))
  {
  }

  /** A rename event on a missing path starts a swap exactly when the path
      is a swap of an existing file; no call is made then and the pending
      name is kept. */
  lemma RenameStartsSwap(s: Session, reply: FilerCall -> Status, fs: FileSystem, st: SyncState, p: string)
    requires !st.swapping && !SwapProbePanics(fs, p) && p !in fs
    ensures var e := RenameEffect(s, reply, fs, st, p);
      (e.state.swapping <==> IsSwapping(fs, p).0) &&
      (e.state.swapping ==> e.calls == [] && e.status == Ok && e.state.fileToRenamed == st.fileToRenamed)
  {
  }

  /** A rename event on a path that exists remembers it as the new name. */
  lemma RenameRemembersExisting(s: Session, reply: FilerCall -> Status, fs: FileSystem, st: SyncState, b: string)
    requires !st.swapping && b in fs && fs[b].Present?
    ensures RenameEffect(s, reply, fs, st, b) == Effect(st.(fileToRenamed := b), [], Ok)
  {
  }

  /** A rename event on a missing path, with a new name pending, moves the
      remote copy of the missing path to the pending name and clears it. */
  lemma RenameCompletesPair(s: Session, reply: FilerCall -> Status, fs: FileSystem, st: SyncState, a: string)
    requires !st.swapping && st.fileToRenamed != ""
    requires a !in fs && Ext(a) != "" && !IsSwapping(fs, a).0
    ensures var c := Rename(ToRemotePath(s.sourceDir, s.targetDir, a), ToRemotePath(s.sourceDir, s.targetDir, st.fileToRenamed));
      RenameEffect(s, reply, fs, st, a) == Effect(st.(fileToRenamed := ""), [c], reply(c))
  {
  }

  /** A rename whose other half was not seen deletes the remote copy. */
  lemma LoneRenameDeletes(s: Session, reply: FilerCall -> Status, fs: FileSystem, st: SyncState, a: string)
    requires !st.swapping && st.fileToRenamed == ""
    requires a !in fs && Ext(a) != "" && !IsSwapping(fs, a).0
    ensures var c := Delete(ToRemotePath(s.sourceDir, s.targetDir, a));
      RenameEffect(s, reply, fs, st, a) == Effect(st, [c], reply(c))
  {
  }

  function RenameOf(p: string, disk: FileSystem): Event {
    Event(RenameEvent, p, disk)
  }

  function Fresh(st: SyncState): Trace {
    Trace(st, [], [], None)
  }

  lemma ConsumeTwo(h: (SyncState, Event) -> Effect, t: Trace, e1: Event, e2: Event)
    ensures ConsumeAll(h, t, [e1, e2]) == Consume(h, Consume(h, t, e1), e2)
  {
    assert [e1, e2][..1] == [e1] && [e1][..0] == [];
    assert ConsumeAll(h, t, [e1]) == Consume(h, ConsumeAll(h, t, []), e1);
  }

  lemma ConsumeThree(h: (SyncState, Event) -> Effect, t: Trace, e1: Event, e2: Event, e3: Event)
    ensures ConsumeAll(h, t, [e1, e2, e3]) == Consume(h, Consume(h, Consume(h, t, e1), e2), e3)
  {
    assert [e1, e2, e3][..2] == [e1, e2];
    ConsumeTwo(h, t, e1, e2);
  }

  /** The two halves of a rename: first the new name `b`, which exists, then
      the old name `a`, which does not; together they move the remote copy
      of `a` to `b`, and the pending name is cleared whatever the filer
      answers. */
  lemma RenamePairing(s: Session, reply: FilerCall -> Status, a: string, b: string,
                      before: FileSystem, after: FileSystem)
    requires b != "" && b in before && before[b].Present? && !IsIgnored(b)
    requires a !in after && Ext(a) != "" && !IsSwapping(after, a).0 && !IsIgnored(a)
    ensures var c := Rename(ToRemotePath(s.sourceDir, s.targetDir, a), ToRemotePath(s.sourceDir, s.targetDir, b));
      var t := ConsumeAll(Handler(s, reply), Fresh(SyncState("", false)), [RenameOf(b, before), RenameOf(a, after)]);
      t.calls == [c] && t.state == SyncState("", false) &&
      (reply(c).Ok? ==> t.errors == [] && t.panic == None)
  {
    var h := Handler(s, reply);
    var st0, st1 := SyncState("", false), SyncState(b, false);
    var e1, e2 := RenameOf(b, before), RenameOf(a, after);
    var c := Rename(ToRemotePath(s.sourceDir, s.targetDir, a), ToRemotePath(s.sourceDir, s.targetDir, b));
    RenameRemembersExisting(s, reply, before, st0, b);
    RenameCompletesPair(s, reply, after, st1, a);
    PairedTurns(h, st0, st1, e1, e2, c, reply(c));
  }

  /** Two turns: the first only changes the fields, the second issues one
      call `c` with reply `r` and restores them. */
  lemma PairedTurns(h: (SyncState, Event) -> Effect, st0: SyncState, st1: SyncState,
                    e1: Event, e2: Event, c: FilerCall, r: Status)
    requires !IsIgnored(e1.path) && !IsIgnored(e2.path)
    requires h(st0, e1) == Effect(st1, [], Ok) && h(st1, e2) == Effect(st0, [c], r)
    ensures var t := ConsumeAll(h, Fresh(st0), [e1, e2]);
      t.calls == [c] && t.state == st0 && (r.Ok? ==> t.errors == [] && t.panic == None)
  {
    var none: seq<FilerCall> := [];
    assert none + none == none && none + [c] == [c];
    ConsumeHandled(h, Fresh(st0), e1, Effect(st1, [], Ok));
    ConsumeHandled(h, Fresh(st1), e2, Effect(st0, [c], r));
    ConsumeTwo(h, Fresh(st0), e1, e2);
  }

  /** A turn on a live trace with an event that is not ignored absorbs the
      handler's effect. */
  lemma ConsumeHandled(h: (SyncState, Event) -> Effect, t: Trace, ev: Event, e: Effect)
    requires t.panic == None && !IsIgnored(ev.path) && h(t.state, ev) == e
    ensures Consume(h, t, ev) == Absorb(t, e)
  {
  }

  /** The two fields are not exclusive: a swap can start while one half of a
      rename is pending (`b` exists, then `w`, a swap of an existing file, is
      created), and then the other half `a` is dropped. */
  lemma PendingRenameSurvivesSwap(s: Session, reply: FilerCall -> Status, fs: FileSystem, b: string, w: string, a: string)
    requires b in fs && fs[b].Present? && !IsIgnored(b)
    requires !Exists(fs, w) && Ext(w) != "" && IsSwapping(fs, w).0 && !IsIgnored(w)
    ensures var evs := [RenameOf(b, fs), Event(CreateEvent, w, fs), RenameOf(a, fs)];
      ConsumeAll(Handler(s, reply), Fresh(SyncState("", false)), evs) == Trace(SyncState(b, true), [], [], None)
  {
    var e1, e2, e3 := RenameOf(b, fs), Event(CreateEvent, w, fs), RenameOf(a, fs);
    var st1, st2 := SyncState(b, false), SyncState(b, true);
    RenameRemembersExisting(s, reply, fs, SyncState("", false), b);
    CreateOfSwapStartsSwap(s, reply, fs, st1, w);
    SwappingSuppresses(s, reply, st2, e3);
    QuietTurns(Handler(s, reply), SyncState("", false), st1, st2, e1, e2, e3);
  }

  /** Three turns whose effects issue no call and succeed: the first two
      change the fields, the third leaves them alone. */
  lemma QuietTurns(h: (SyncState, Event) -> Effect, st0: SyncState, st1: SyncState, st2: SyncState,
                   e1: Event, e2: Event, e3: Event)
    requires !IsIgnored(e1.path) && !IsIgnored(e2.path)
    requires h(st0, e1) == Effect(st1, [], Ok) && h(st1, e2) == Effect(st2, [], Ok) && h(st2, e3) == Effect(st2, [], Ok)
    ensures ConsumeAll(h, Fresh(st0), [e1, e2, e3]) == Fresh(st2)
  {
    var none: seq<FilerCall> := [];
    assert none + none == none;
    ConsumeHandled(h, Fresh(st0), e1, Effect(st1, [], Ok));
    ConsumeHandled(h, Fresh(st1), e2, Effect(st2, [], Ok));
    ConsumeThree(h, Fresh(st0), e1, e2, e3);
    NoCallNoChange(h, Fresh(st2), e3);
  }

  /** A backup copy written during a rename: for instance "new.txt" is the
      new name of a rename, then an editor starts saving "notes.txt" through
      "notes.txt~", and the old name's event comes while the swap is on. */
  lemma SwapDuringPendingRename(s: Session, reply: FilerCall -> Status, fs: FileSystem,
                                b: string, name: string, c: char, a: string)
    requires b in fs && fs[b].Present? && !IsIgnored(b)
    requires Ext(name) != "" && Ext(name) != "." && c != '.' && c != '/'
    requires Exists(fs, name) && !Exists(fs, name + [c]) && !IsIgnored(name + [c])
    ensures var evs := [RenameOf(b, fs), Event(CreateEvent, name + [c], fs), RenameOf(a, fs)];
      ConsumeAll(Handler(s, reply), Fresh(SyncState("", false)), evs) == Trace(SyncState(b, true), [], [], None)
  {
    BackupCopyIsSwap(fs, name, c);
    PendingRenameSurvivesSwap(s, reply, fs, b, name + [c], a);
  }

  /** A created path that is a swap of an existing file starts a swap and
      issues no call. */
  lemma CreateOfSwapStartsSwap(s: Session, reply: FilerCall -> Status, fs: FileSystem, st: SyncState, p: string)
    requires !st.swapping && !Exists(fs, p) && Ext(p) != "" && IsSwapping(fs, p).0
    ensures CreateEffect(s, reply, fs, st, p) == Effect(st.(swapping := true), [], Ok)
  {
  }

  /** An event whose handling leaves the fields alone, issues no call and
      succeeds leaves the trace as it was. */
  lemma NoCallNoChange(h: (SyncState, Event) -> Effect, t: Trace, ev: Event)
    requires t.panic == None && h(t.state, ev) == Effect(t.state, [], Ok)
    ensures Consume(h, t, ev) == t
  {
    assert t.calls + [] == t.calls;
  }

  /** A name whose first character is a letter and whose extension is not
      one of the swap extensions is not ignored. */
  lemma NotIgnoredText(x: string, y: string)
    requires |x| > 0 && 'a' <= x[0] <= 'z' && NoSlash(x) && NoDotNoSlash(y) && y != "swp" && y != "swx"
    ensures !IsIgnored(x + "." + y)
  {
    var p := x + "." + y;
    ExtOfDotSuffix(x, y);
    assert Ext(p) != ".swp" && Ext(p) != ".swx" by {
      assert ("." + y)[1..] == y && ".swp"[1..] == "swp" && ".swx"[1..] == "swx";
    }
    assert NoSlash(p) by {
      forall i | 0 <= i < |p| ensures p[i] != '/' {
        if i < |x| { assert p[i] == x[i]; }
        else if i > |x| { assert p[i] == y[i - |x| - 1]; }
      }
    }
    BaseOfNoSlash(p);
    assert p[0] == x[0];
    NotIgnoredByName(p);
  }

  /** syncFolder pulls the remote tree exactly when the source directory
      could be read and is empty or the pull is forced, and then issues one
      CopyRemoteFolder of the two roots. */
  lemma SyncFolderGate(s: Session, reply: FilerCall -> Status, probe: DirProbe)
    ensures var (calls, status) := SyncFolderEffect(s, reply, probe);
      (calls != [] <==> probe.EmptyDir? || (probe.NonEmptyDir? && s.forceSync)) &&
      (calls != [] ==> calls == [CopyRemoteFolder(s.sourceDir, s.targetDir)] && status == reply(calls[0])) &&
      (probe.DirError? ==> status == Err(probe.msg)) &&
      (probe.NonEmptyDir? && !s.forceSync ==> status == Ok)
  {
  }

  /** Run stops after a failed pull or watch set-up with only the pull
      issued; otherwise it is one watch loop whose trace starts with the
      pull's calls, and it ends without error exactly when nothing panicked. */
  lemma RunDecomposes(s: Session, reply: FilerCall -> Status, st: SyncState, probe: DirProbe,
                      watch: Status, events: seq<Event>)
    ensures var (pull, pulled) := SyncFolderEffect(s, reply, probe);
      var r := RunEffect(s, reply, st, probe, watch, events);
      (pulled != Ok || watch != Ok ==> r.trace.calls == pull && r.trace.errors == [] && r.status != Ok) &&
      (pulled == Ok && watch == Ok ==>
        r.trace == ConsumeAll(Handler(s, reply), Trace(st, pull, [], None), events) &&
        (r.status == Ok <==> r.trace.panic == None))
  {
    var (pull, pulled) := SyncFolderEffect(s, reply, probe);
    ConsumeAllShift(Handler(s, reply), Trace(st, pull, [], None), events);
    var u := ConsumeAll(Handler(s, reply), Fresh(st), events);
    assert [] + u.errors == u.errors;
  }

  /** NewSync accepts exactly a directory, and removes at most one trailing
      '/'. */
  lemma CheckSourceDirSpec(fs: FileSystem, sourceDir: string)
    ensures var c := CheckSourceDir(fs, sourceDir);
      (c.Accepted? <==> Stat(fs, sourceDir).StatOk? && Stat(fs, sourceDir).info.isDir) &&
      (c.Accepted? ==> c.dir == sourceDir || c.dir + "/" == sourceDir) &&
      (c.Accepted? && HasSuffix(sourceDir, "/") ==> c.dir + "/" == sourceDir)
  {
  }

  /** A path below the source root maps to the same relative path below the
      target root, which gets exactly one '/' between them. */
  lemma RemotePathOfChild(s: Session, rel: string)
    requires !HasPrefix(rel, "/")
    ensures TrimPath(s.sourceDir, s.sourceDir + "/" + rel) == rel
    ensures ToRemotePath(s.sourceDir, s.targetDir, s.sourceDir + "/" + rel) == WithTrailingSlash(s.targetDir) + rel
  {
    var p := s.sourceDir + "/" + rel;
    assert HasPrefix(p, s.sourceDir) && p[|s.sourceDir|..] == "/" + rel;
    assert HasPrefix("/" + rel, "/") && ("/" + rel)[1..] == rel;
  }

  /** Distinct files below the source root have distinct remote paths. */
  lemma RemotePathInjective(s: Session, rel1: string, rel2: string)
    requires !HasPrefix(rel1, "/") && !HasPrefix(rel2, "/")
    requires ToRemotePath(s.sourceDir, s.targetDir, s.sourceDir + "/" + rel1) ==
             ToRemotePath(s.sourceDir, s.targetDir, s.sourceDir + "/" + rel2)
    ensures rel1 == rel2
  {
    RemotePathOfChild(s, rel1);
    RemotePathOfChild(s, rel2);
    var w := WithTrailingSlash(s.targetDir);
    assert rel1 == (w + rel1)[|w|..];
    assert rel2 == (w + rel2)[|w|..];
  }
}
