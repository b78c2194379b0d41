/** sync_command.go: the `sync` command's choice of the local and remote
    directories, and its first check on the arguments. */
module SyncCommand {
  import opened GoStd

  const DefaultSyncFolder: string := "sync"
  const DefaultRootTargetFolder: string := "~/app"

  /** getSourceDir: the `source` flag, or "./sync-<app>" when it is empty. */
  function GetSourceDir(sourceFlag: string, appName: string): string {
    if sourceFlag == "" then "./" + DefaultSyncFolder + "-" + appName else sourceFlag
  }

  /** getTargetDir: "~/app", or the `target` flag placed below it with one
      '/' between. */
  function GetTargetDir(targetFlag: string): string {
    if targetFlag == "" then DefaultRootTargetFolder
    else
      var t := if HasPrefix(targetFlag, "/") then targetFlag else "/" + targetFlag;
      DefaultRootTargetFolder + t
  }

  /** A given source flag is used as it is; without one, each application
      gets its own folder in the working directory. */
  lemma SourceDirChoice(sourceFlag: string, appName: string, otherApp: string)
    ensures sourceFlag != "" ==> GetSourceDir(sourceFlag, appName) == sourceFlag
    ensures sourceFlag == "" ==>
      HasPrefix(GetSourceDir(sourceFlag, appName), "./sync-") &&
      GetSourceDir(sourceFlag, appName)[7..] == appName
    ensures GetSourceDir("", appName) == GetSourceDir("", otherApp) ==> appName == otherApp
  {
    assert "./" + DefaultSyncFolder + "-" == "./sync-";
    var a := GetSourceDir("", appName);
    var b := GetSourceDir("", otherApp);
    assert a[7..] == appName && b[7..] == otherApp;
  }

  /** The target is always inside "~/app": a non-empty flag, with at most
      one leading '/' removed, is placed right below it. */
  lemma TargetDirBelowApp(targetFlag: string)
    ensures targetFlag == "" ==> GetTargetDir(targetFlag) == "~/app"
    ensures targetFlag != "" ==>
      GetTargetDir(targetFlag) == "~/app/" + TrimPrefix(targetFlag, "/") &&
      HasSuffix(GetTargetDir(targetFlag), targetFlag)
  {
    if targetFlag != "" {
      var r := GetTargetDir(targetFlag);
      if HasPrefix(targetFlag, "/") {
        assert targetFlag == "/" + targetFlag[1..];
        assert r == "~/app/" + targetFlag[1..];
      }
      assert r[|r| - |targetFlag|..] == targetFlag;
    }
  }

  /** Two flags lead to the same target only when they differ at most by a
      leading '/'. */
  lemma TargetDirInjective(f: string, g: string)
    requires f != "" && g != ""
    requires GetTargetDir(f) == GetTargetDir(g)
    ensures TrimPrefix(f, "/") == TrimPrefix(g, "/")
  {
    TargetDirBelowApp(f);
    TargetDirBelowApp(g);
    var r := GetTargetDir(f);
    assert TrimPrefix(f, "/") == r[6..] == TrimPrefix(g, "/");
  }

  /** What Sync settles before it asks the platform anything: a missing
      application name is refused, otherwise the two directories. */
  datatype Start = Refused(msg: string) | Directories(appName: string, sourceDir: string, targetDir: string)

  /** The first argument names the application (cli's Args().First() is ""
      when there is none). */
  function StartSync(args: seq<string>, sourceFlag: string, targetFlag: string): Start {
    var appName := if |args| > 0 then args[0] else "";
    if appName == "" then Refused("You must pass an app name.")
    else Directories(appName, GetSourceDir(sourceFlag, appName), GetTargetDir(targetFlag))
  }

  /** Sync refuses to start exactly when no application name is given, and
      otherwise works on the directories getSourceDir and getTargetDir
      choose for that application. */
  lemma StartSyncNeedsAppName(args: seq<string>, sourceFlag: string, targetFlag: string)
    ensures StartSync(args, sourceFlag, targetFlag).Refused? <==> args == [] || args[0] == ""
    ensures StartSync(args, sourceFlag, targetFlag).Refused? ==>
      StartSync(args, sourceFlag, targetFlag).msg == "You must pass an app name."
    ensures StartSync(args, sourceFlag, targetFlag).Directories? ==>
      var st := StartSync(args, sourceFlag, targetFlag);
      st.appName == args[0] && st.sourceDir == GetSourceDir(sourceFlag, args[0]) &&
      st.targetDir == GetTargetDir(targetFlag) && HasPrefix(st.targetDir, "~/app")
  {
    if args != [] && args[0] != "" {
      assert GetTargetDir(targetFlag)[..5] == "~/app";
    }
  }
}
