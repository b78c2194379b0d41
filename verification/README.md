# cf-plugin-sync, modelled in Dafny

cf-plugin-sync is a Cloud Foundry CLI plugin that keeps a local folder and a
folder inside a running application container in step. It does this over
SSH and SFTP. When the local folder is empty, or when it is asked to, it
first pulls the remote tree. It then watches the local folder and turns
every filesystem event into a call on a *container filer*:

- a write or a created file becomes an upload;
- a created directory becomes a `CreateFolders`;
- a removal becomes a remote delete;
- a pair of rename events becomes a remote rename.

Along the way the engine does three things:

- It drops events on editor temporaries: vim swap files and files with a
  numeric name.
- It absorbs an editor's atomic save (the `swapping` flag). A created or
  renamed path that is missing, and whose extension shortened character by
  character reaches an existing file, starts a swap. The next removal ends
  the swap: it runs the same search from the removed path and uploads the
  file that search finds. That file can differ from the one that started
  the swap, or fail to open (its error, and no call), or the search can
  panic on an empty extension. Nothing is deleted then.
- It pairs the two halves of a rename (the `fileToRenamed` field).

The project models:

- the sync engine (`sync.go`), as pure effect functions plus a `Sync` class
  whose methods are proved to have exactly those effects;
- the SFTP filer (`container_filer_sftp.go`), as a class over a client that
  records requests;
- the connection logic of `ssh.go`: fingerprint checking, target
  validation, the user name, terminal allocation, listeners and closing;
- the path helpers of `utils.go`;
- the directory defaults of `sync_command.go`.

The filer interface (`container_filer.go`) is the alphabet of the recorded
calls.

The model is organised in these modules:

| module | file | contents |
|---|---|---|
| `GoStd` | `go_std.dfy` | the Go library functions the program uses: `strings`, `filepath.Ext`/`Base`, `strconv.Atoi`'s acceptance, `%d` |
| `Utils` | `utils.dfy` | `TruncatePath` and `FileExists`, over a map that stands for the local filesystem |
| `ContainerFiler` | `container_filer.dfy` | the filer calls, and a filer that records them |
| `SyncEngine` | `sync.dfy` | the engine |
| `SyncProperties` | `sync_properties.dfy` | what the engine guarantees |
| `SftpFiler` | `container_filer_sftp.dfy` | the SFTP filer |
| `SecureShell` | `ssh.dfy` | the connection logic |
| `SyncCommand` | `sync_command.dfy` | the directory defaults |

### Two points where the code is followed as written

**How far the swap search goes.** The swap heuristic is easily read as
recognising an editor temporary such as `file.txt.swp` as a swap of
`file.txt`. The code does not do that. `isSwappingWithLastState` only shortens the last
extension, and it stops at `file.txt.`, whose extension is `"."`. A `.swp`
event is dropped by `isIgnored` before any of this happens. The model follows
the code: see `SyncProperties.AddedExtensionIsNoSwap` and
`SyncProperties.NoSwapWithoutShorterFile`.

**Empty extensions.** A missing path whose extension is empty makes
`ext[:len(ext)-1]` slice out of range. The model makes that a
`Panic(...)` status, and the watch loop stops there.

## Model

| member | source | states |
|---|---|---|
| GoStd.Ext | sync.go:215 | `filepath.Ext` is a suffix of the path that is empty or starts with the last '.', with no '.' or '/' after it |
| GoStd.AtoiOfShortDigits | sync.go:74 | `strconv.Atoi` accepts any string of 1 to 18 decimal digits (the value fits in 64 bits) |
| GoStd.AtoiFailsOnLetter | sync.go:74 | `strconv.Atoi` rejects a string that starts with neither a sign nor a digit |
| GoStd.DecimalRoundTrip | ssh.go:85 | reading back the digits `%d` writes gives the number |
| GoStd.JoinSplit | utils.go:11-15 | joining the pieces of `strings.Split(s, "/")` with "/" gives `s` back |
| GoStd.SplitJoin | utils.go:11-15 | splitting a join of slash-free pieces gives the pieces back |
| Utils.FileExists | utils.go:18-27 | a successful stat gives (true, nil); "does not exist" gives (false, nil); any other error gives (true, that error); "exists" is false only for "does not exist" |
| Utils.TruncatePath | utils.go:9-14 | a path of at most three pieces is returned unchanged |
| Utils.TruncatePathKeepsTail | utils.go:15 | a longer path becomes "..." followed by a suffix of the path that splits into exactly its last three pieces |
| Utils.TruncatePathIdempotent | utils.go:9-16 | the output has at most three pieces, so truncating twice is truncating once |
| ContainerFiler.RecordingFiler.Call | container_filer.go:8-15 | each filer call is appended to the call log and answered with its reply |
| SyncEngine.NextCandidate | sync.go:225-226 | `TrimSuffix(path, ext) + ext[:len(ext)-1]` is the path without its last character, which still has an extension, so the search shortens the path |
| SyncEngine.PanicIsFinal | sync.go:55-64 | once an event has panicked, later events change nothing |
| SyncEngine.ConsumeAllShift | sync.go:55-64 | the loop's calls and logged errors from one point on depend only on the two fields there |
| SyncEngine.Sync.NewSync | sync.go:25-41 | a source that does not stat as a directory is refused with the stat error or the "not a directory" message and no engine; otherwise a fresh engine with one trailing '/' trimmed, no swap and nothing pending |
| SyncEngine.Sync.SetForceSync | sync.go:242-244 | only the force flag changes |
| SyncEngine.Sync.SyncFolder | sync.go:80-96 | the call log grows by exactly the calls of `SyncFolderEffect`, and its status is returned |
| SyncEngine.Sync.Write | sync.go:144-157 | the fields are unchanged; the calls and the status are those of `WriteEffect` |
| SyncEngine.Sync.Create | sync.go:158-181 | the new fields, the calls and the status are those of `CreateEffect`; the roots and the error log are unchanged |
| SyncEngine.Sync.Delete | sync.go:135-143 | the new fields, the calls and the status are those of `DeleteEffect` |
| SyncEngine.Sync.Rename | sync.go:182-209 | the new fields, the calls and the status are those of `RenameEffect`; the pending name is cleared after the remote rename whatever it returns |
| SyncEngine.Sync.Action | sync.go:122-134 | dispatching on the event kind has the effect of the matching handler |
| SyncEngine.ErroredLine | sync.go:62 | the line logged for a failed event starts with "Event has errored: " and ends with the event's error message |
| SyncEngine.Sync.HandleEvent | sync.go:56-63 | an ignored event changes nothing; otherwise the event is handled, an error `m` is logged as "Event has errored: " + `m` and gives Ok, and a panic is returned |
| SyncEngine.Sync.Watch | sync.go:55-64 | after the loop over the events, the fields, the call log and the error log (one "Event has errored: " line per failed event) are those of `ConsumeAll` from the old fields; it returns Ok unless a handler panicked |
| SyncEngine.Sync.Run | sync.go:43-66 | the fields, the calls, the error log and the status are those of `RunEffect`: pull, then (when the watch was set up) the loop |
| SyncProperties.SwapSearch | sync.go:213-227 | `isSwappingWithLastState` ends on a prefix that keeps the extension's '.'; every longer candidate it passed is missing; it stops on an existing path or an extension of "."; it reports a swap exactly when it stopped on an existing file after dropping a character |
| SyncProperties.IsSwappingIff | sync.go:210-227 | `isSwapping` is true exactly when some prefix with '.' and at least one extension character exists and every longer prefix, the path included, is missing |
| SyncProperties.ExistingPathIsNoSwap | sync.go:220-223 | an existing path gives (false, path) |
| SyncProperties.BackupCopyIsSwap | sync.go:213-227 | a missing `name + c` next to an existing `name` with an extension (such as `notes.txt~`) is a swap of `name` |
| SyncProperties.NoSwapWithoutShorterFile | sync.go:213-227 | when no prefix of `x.y` longer than `x.` exists, the result is (false, `x.`) |
| SyncProperties.AddedExtensionIsNoSwap | sync.go:213-227 | `notes.txt.tmp` next to `notes.txt` is no swap; the search ends at `notes.txt.` |
| SyncProperties.IsIgnoredIff | sync.go:67-79 | a path is ignored exactly when its extension is ".swp" or ".swx" or `strconv.Atoi` accepts its base name |
| SyncProperties.SwapExtensions | sync.go:68-73 | the extension loop matches exactly ".swp" and ".swx" |
| SyncProperties.SwapFileIgnored | sync.go:68-73 | a path with extension ".swp" or ".swx" is ignored |
| SyncProperties.NumericNameIgnored | sync.go:74-77 | a file whose name is 1 to 18 digits is ignored, in any directory |
| SyncProperties.VimProbeFileIgnored | sync.go:74-77 | vim's probe file `4913` is ignored |
| SyncProperties.NotIgnoredByName | sync.go:67-79 | a path with another extension whose base name starts with a letter is not ignored |
| SyncProperties.NotIgnoredText | sync.go:67-79 | `x.y` with a letter first and an extension other than swp/swx is not ignored |
| SyncProperties.SourceFileNotIgnored | sync.go:67-79 | `/home/me/app/main.go` is not ignored |
| SyncProperties.IgnoredEventsInvisible | sync.go:55-58 | the loop over all events ends exactly where the loop over the non-ignored events ends, so ignored events cause no call |
| SyncProperties.Unignored | sync.go:56-58 | the events kept are among the events and none is ignored |
| SyncProperties.SwappingSuppresses | sync.go:144-185 | while swapping, write, create and rename return nil with no call and the fields unchanged |
| SyncProperties.AtMostOneCall | sync.go:122-209 | each event issues at most one filer call, whose reply is the event's error; only renames touch `fileToRenamed` |
| SyncProperties.WriteUploads | sync.go:144-157 | a write outside a swap uploads the file to its remote path with its stat size and mode, and the upload's reply is the result; a file that cannot be opened gives its open error and no call |
| SyncProperties.DeleteRemovesRemote | sync.go:142 | a removal outside a swap issues exactly `Delete(ToRemotePath(path))` |
| SyncProperties.SwapEndsWithUpload | sync.go:136-140 | a removal during a swap clears the flag and looks for a file whose path is a prefix of the removed one; it never deletes, whatever it finds; when that file opens it is uploaded and the upload's reply is the result, otherwise no call is made and the file's open error is returned |
| SyncProperties.CreateStartsSwap | sync.go:162-167 | a create starts a swap exactly when the path is a swap, with no call then |
| SyncProperties.CreateOfSwapStartsSwap | sync.go:162-167 | a create of a swap path sets the flag, issues nothing and returns nil |
| SyncProperties.CreateMirrors | sync.go:168-180 | a created directory becomes `CreateFolders(targetDir, TrimPath(path))`, and a created file becomes an upload |
| SyncProperties.CreateOpenFails | sync.go:168-171 | a created path that is no swap and cannot be opened gives its open error and no call |
| SyncProperties.RenameStatFails | sync.go:186-189 | a rename whose path stat fails with an error other than not-exist returns that error, with no call and no change |
| SyncProperties.RenameStartsSwap | sync.go:190-197 | a rename of a missing path sets `swapping` exactly when `isSwapping` flags it; then no call is made, Ok is returned and the pending name is kept |
| SyncProperties.RenameRemembersExisting | sync.go:201-204 | a rename of an existing path stores it as pending, overwriting any earlier one, with no call |
| SyncProperties.RenameCompletesPair | sync.go:205-208 | a rename of a missing, non-swap path with a pending name issues `Rename(remote(old), remote(pending))` and clears the pending name |
| SyncProperties.LoneRenameDeletes | sync.go:198-200 | a rename of a missing, non-swap path with nothing pending deletes its remote copy |
| SyncProperties.RenamePairing | sync.go:182-209 | new name then old name: one remote rename from the old to the new remote path, and the pending name is cleared |
| SyncProperties.PendingRenameSurvivesSwap | sync.go:158-209 | a swap can start while a rename half is pending; the other half is then dropped, and both fields stay set |
| SyncProperties.SwapDuringPendingRename | sync.go:158-209 | the same, for an editor that saves through `name + c` |
| SyncProperties.SyncFolderGate | sync.go:80-96 | the pull happens exactly when the directory is empty or the pull is forced; it is one `CopyRemoteFolder(sourceDir, targetDir)` whose error is returned; a `DirIsEmpty` error is returned before any call; a non-empty directory without `--force-sync` gives Ok and no call |
| SyncProperties.RunDecomposes | sync.go:43-66 | a failed pull or watch stops `Run` with only the pull issued; otherwise `Run` is the watch loop started after the pull, and it returns nil exactly when nothing panicked |
| SyncProperties.CheckSourceDirSpec | sync.go:27-34 | only a directory is accepted, with at most one trailing '/' removed |
| SyncProperties.RemotePathOfChild | sync.go:228-241 | `sourceDir/rel` maps to `rel` below the target with exactly one '/' between them |
| SyncProperties.RemotePathInjective | sync.go:228-241 | distinct files below the source root have distinct remote paths |
| SftpFiler.VisitCalls | container_filer_sftp.go:34-55 | one walk entry sends at most one request: a download of that entry, exactly when it is not pruned, not the root, not ignored, not a directory and has no error |
| SftpFiler.PruneOneMore | container_filer_sftp.go:38-41 | `SkipDir` on a directory hides exactly the entries beneath it |
| SftpFiler.WalkDownloads | container_filer_sftp.go:30-58 | the walk sends only downloads; it downloads `p` to `toLocalPath(p)` exactly when an entry for `p` is a file that is not the root, not ignored, has no error and is not beneath an ignored directory |
| SftpFiler.WalkQuietWhenAllSucceed | container_filer_sftp.go:48-55 | with no walk errors and every download successful, nothing is logged |
| SftpFiler.UploadOrder | container_filer_sftp.go:117-126 | Create, then copy, then Chmod; the first failure of Create or copy is returned before any Chmod; success needs all three; a created file is closed once, last, and its close error is dropped |
| SftpFiler.DeleteRemovesRightKind | container_filer_sftp.go:150-166 | stat first; a stat error is returned with nothing removed; a directory gets `RemoveDirectory`, anything else `Remove`, and its error is the result |
| SftpFiler.MkdirStopsAtFirstFailure | container_filer_sftp.go:142-145 | Mkdir is sent for the targets in order, up to and including the first failure, whose error is returned; nothing after it |
| SftpFiler.AsWrittenTargetsPerSegment | container_filer_sftp.go:133-146 | as written: one Mkdir target per non-empty segment, in order, each ending with its segment and starting with the remote base path; each target also starts with the path the previous target was built on, so the accumulated prefix is only ever extended, never reset |
| SftpFiler.AsWrittenTargetsMisplaced | container_filer_sftp.go:139-142 | as written, "a/b" under "R" asks for `R/a` and `R//b`, not `R/a/b` |
| SftpFiler.IntendedTargetsNest | container_filer_sftp.go:133-146 | corrected: the first directory goes right under the base, each later one inside the one before, and the last is the whole requested path |
| SftpFiler.ContainerFilerSftp.CopyRemoteFolder | container_filer_sftp.go:30-58 | always returns nil; the requests and the logged errors are those of the walk over the target directory with one trailing '/' trimmed |
| SftpFiler.ContainerFilerSftp.CopyContent | container_filer_sftp.go:109-127 | the requests and the result are those of `UploadEffect` |
| SftpFiler.ContainerFilerSftp.CreateFoldersAsWritten | container_filer_sftp.go:128-149 | the requests and the result are the Mkdirs of the as-written targets, stopping at the first failure |
| SftpFiler.ContainerFilerSftp.CreateFolders | container_filer_sftp.go:128-149 | the requests and the result are the Mkdirs of the corrected, nested targets, stopping at the first failure |
| SftpFiler.ContainerFilerSftp.Delete | container_filer_sftp.go:150-166 | the requests and the result are those of `DeleteEffect` |
| SftpFiler.ContainerFilerSftp.Rename | container_filer_sftp.go:167-175 | exactly one rename request, whose error is the result |
| SftpFiler.LocalRemoteLocal | container_filer_sftp.go:99-108 | `toLocalPath` inverts `Sync.ToRemotePath` on files below the source directory |
| SftpFiler.RemoteLocalRemote | container_filer_sftp.go:99-108 | `Sync.ToRemotePath` inverts `toLocalPath` on remote files below the target directory |
| SftpFiler.TrimmedRootSameLocalPaths | container_filer_sftp.go:31 | trimming one trailing '/' from the target does not change local paths (unless it ends in "//") |
| SecureShell.FingerprintCallback | ssh.go:209-212 | no callback exactly when host validation is skipped; otherwise it checks against the expected fingerprint |
| SecureShell.VerifyHostKeyAccepts | ssh.go:214-235 | a key is accepted exactly when the expected fingerprint has length 43, 59 or 47 and equals the key's SHA-256 base64, SHA-1 hex or MD5 hex fingerprint; other non-zero lengths get "Unsupported host key fingerprint format" |
| SecureShell.RejectionNamesReceivedKey | ssh.go:224-233 | a rejection with an empty or supported expectation names the fingerprint computed in the selected format (MD5 when empty) |
| SecureShell.FingerprintLengths | ssh.go:23-27 | for 16-, 20- and 32-byte digests, the three fingerprints are 47, 59 and 43 characters long, the selector constants |
| SecureShell.SpacedHexLength | ssh.go:192-200 | colon-hex of n bytes has 3n - 1 characters |
| SecureShell.Base64RawLength | ssh.go:202-205 | unpadded base64 of n bytes has ceil(4n/3) characters |
| SecureShell.ColonHexInjective | ssh.go:192-200 | distinct digests have distinct colon-hex fingerprints |
| SecureShell.OwnFingerprintsAccepted | ssh.go:192-235 | each of a key's own three fingerprints makes the callback accept it |
| SecureShell.AcceptedHexFingerprintPinsDigest | ssh.go:217-233 | an MD5 or SHA-1 expectation accepts only keys with that very digest |
| SecureShell.ToUpperIsStarted | ssh.go:181 | with the model's ASCII `ToUpper`, `strings.ToUpper(state) == "STARTED"` exactly when the state spells "started" in any mix of cases |
| SecureShell.ValidateTargetOrder | ssh.go:180-190 | valid exactly when started and on Diego; the state check comes first |
| SecureShell.SshUserRoundTrip | ssh.go:85 | the user name is "cf:" + GUID + "/" + index, and both the GUID and the index can be read back from it |
| SecureShell.ShouldAllocateTerminalTable | ssh.go:238-251 | Force gives true, No gives false, Yes gives whether stdin is a terminal, Auto gives no command and stdin a terminal, anything else false; a terminal is never allocated unless forced or stdin is one |
| SecureShell.ListenersInSpecOrder | ssh.go:110-118 | one listener per successful Listen, in spec order; the first failure is the result and nothing after it is tried |
| SecureShell.SecureShell.Connect | ssh.go:78-100 | a validation error is returned before dialing; otherwise one TCP dial of the SSH endpoint with "cf:GUID/index", the token and the fingerprint callback; the client and the options are stored only when dialing succeeds |
| SecureShell.SecureShell.LocalPortForward | ssh.go:109-121 | the listeners of `ListenUntilFailure` are appended, the earlier ones kept on failure; without a connection it panics |
| SecureShell.SecureShell.Close | ssh.go:102-107 | every stored listener is closed, and its error ignored; the result is the client's close result, or a panic when there is no client |
| SyncCommand.SourceDirChoice | sync_command.go:29-35 | the source flag when given, otherwise "./sync-" + app name, distinct per application |
| SyncCommand.TargetDirBelowApp | sync_command.go:36-45 | "~/app" without a flag; otherwise "~/app/" followed by the flag without its leading '/', which ends the result |
| SyncCommand.TargetDirInjective | sync_command.go:36-45 | two flags give the same target only when they differ at most by a leading '/' |
| SyncCommand.StartSyncNeedsAppName | sync_command.go:46-52 | refused with "You must pass an app name." exactly when the first argument is missing or empty; otherwise the source directory of getSourceDir and the target directory of getTargetDir, which starts with "~/app" |

## Left out

- Concurrency is not modelled. This covers the event channel and its 50
  slots, `notify.Watch` and `notify.Stop`, keepalive, `Wait`, and the
  accept loop and connection forwarding goroutines. Events arrive as a
  finite sequence. Whether `notify.Watch` could be set up is a parameter.
- SyncEngine.Sync.Run: the source loop never ends, because the channel is
  never closed. The model ends when the sequence of events runs out.
- The local filesystem is a map from path to what `os.Stat` and `os.Open`
  report. `DirIsEmpty` is a parameter. The open file handed to
  `CopyContent` is named by its local path.
- SftpFiler.ContainerFilerSftp.CopyRemoteFolder: all of downloadFile
  (`MkdirAll`, `Stat`, `OpenFile`, `Open`, `io.Copy`) is one `Download`
  request, and its failure is one logged message.
- The engine's filer (`RecordingFiler`) records each call and answers it
  with a fixed reply per call, given as a function.
- The SFTP server and the walker are recorded requests with fixed replies.
  `Client.Walk` is the sequence of entries it yields, in pre-order.
- The ignore-file matcher of `sync_ignore.go` is an uninterpreted predicate.
  It is constantly false when no ignore file was loaded.
- MD5, SHA-1 and SHA-256 are not modelled: a host key is given by its three
  digests. Dialing, listening and closing are functions that answer with
  fixed results.
- Progress bars, `SetWriter` and info and warning log lines are not
  modelled. Only error-level log lines are kept, as a log. The watch loop's
  lines carry the "Event has errored: " prefix of sync.go:62; the SFTP
  walk's lines are the bare error message.
- `main.go`, `commands.go`, `logger_windows.go`, and the platform and JSON
  part of the sync command after the directory choice, are CLI and plugin
  glue.
- The path separator is '/', so `filepath.ToSlash` and `FromSlash` are the
  identity.
- SecureShell.ToUpper: covers ASCII letters only. Unicode case mapping is
  not modelled.
- SecureShell.ToUpperIsStarted: Go's `strings.ToUpper` is Unicode-aware.
  For example 'ſ' (U+017F) upper-cases to 'S', so Go accepts a state such
  as "ſtarted" while the model's ASCII `ToUpper` rejects it.
- Strings are sequences of characters, while Go's `len` and slicing count
  bytes. The two agree on ASCII text only. For a non-ASCII path or
  fingerprint, a choice made by length can differ: the fingerprint format
  chosen at ssh.go:217, and the `ext[:len(ext)-1]` slice at sync.go:226.
- SecureShell.Quoted: `%q` is the string in double quotes, with no
  escaping. Fingerprints contain no character that needs escaping.
  Application names with quotes or backslashes would be escaped by Go but
  not here.
- GoStd.AtoiSucceeds: `strconv.Atoi` is modelled as the 64-bit platform's
  (an optional sign, decimal digits, and a value in the signed 64-bit
  range). Only whether it succeeds is modelled, not the value.
- SecureShell.SecureShell.LocalPortForward: `c.opts` being nil is a panic
  status, not a crash of the process.

## Findings

| source | as written | input that shows it | evidently intended | confidence | as-written member | corrected member |
|---|---|---|---|---|---|---|
| container_filer_sftp.go:139-142 | for every non-empty segment after the first, `CreateFolders` appends `Join(dirs[:i-1], "/") + "/"` to the accumulated remote path and never resets it | `CreateFolders("R", "a/b")` sends `Mkdir("R/a")` then `Mkdir("R//b")`; `"a/b/c"` gives `R/a`, `R//b`, `R//a/c` | each segment is made inside the one before: `R/a`, `R/a/b`, `R/a/b/c` | not executed | SftpFiler.ContainerFilerSftp.CreateFoldersAsWritten, SftpFiler.AsWrittenTargetsMisplaced | SftpFiler.ContainerFilerSftp.CreateFolders, SftpFiler.IntendedTargetsNest |
