/** The launcher's version lifecycle: launching a version (re-register, then start), downloading
    and unpacking a catalog version, removing a version, and importing a package file. The
    launcher's working directory is reduced to the sets of directories and files it holds,
    the host to the Registrar's Machine, and the downloader, the login and the archive
    extraction to outcomes passed in. */
module Lifecycle {
  import opened Options
  import opened Versions
  import opened Registrar

  /** The two version downloaders: anonymous, or signed in to the user's account (needed for Beta). */
  datatype Tier = Anonymous | Authenticated

  /** Calls the launcher makes outside the host's package manager, in order. */
  datatype Call =
    | LoginStarted
    | Download(tier: Tier, uuid: string, revision: string, path: string)
    | DeletedDirectory(path: string)
    | Extraction(archive: string, directory: string)
    | DeletedFile(path: string)

  /** How the downloader's Download call ends. */
  datatype DownloadResult = Completed | NoLink | NetworkFailure | Cancelled

  /** How ZipFile.ExtractToDirectory ends: Corrupt is InvalidDataException, raised when the
      archive is opened, before the target directory is created. */
  datatype Unpacking = Unpacked | Corrupt

  datatype DownloadReport = LoginFailed | LinkMissing | DownloadFailed | DownloadCancelled | UnpackFailed | Installed

  /** What a download reports to the user, failure by failure in the order they can happen. */
  function Verdict(loginOk: bool, result: DownloadResult, unpacking: Unpacking): (r: DownloadReport)
    ensures r == Installed <==> loginOk && result.Completed? && unpacking.Unpacked?
    ensures r == LoginFailed <==> !loginOk
    ensures r == UnpackFailed <==> loginOk && result.Completed? && unpacking.Corrupt?
    ensures r == LinkMissing <==> loginOk && result.NoLink?
    ensures r == DownloadFailed <==> loginOk && result.NetworkFailure?
    ensures r == DownloadCancelled <==> loginOk && result.Cancelled?
  {
    if !loginOk then LoginFailed
    else match result
      case NoLink => LinkMissing
      case NetworkFailure => DownloadFailed
      case Cancelled => DownloadCancelled
      case Completed => if unpacking.Corrupt? then UnpackFailed else Installed
  }

  datatype ImportReport = DialogCancelled | Busy | Declined | RemoveFailed | UnknownDirectory | ImportFailed | ImportDone

  /** The downloader a version type needs. */
  function TierFor(t: VersionType): (tier: Tier)
    ensures tier == Authenticated <==> t == Beta
  {
    if t == Beta then Authenticated else Anonymous
  }

  /** Path.GetFullPath of a directory below the working directory: the working directory, a
      separator, then the relative path. */
  function FullPath(workDir: string, dir: string): (r: string)
    ensures workDir + "\\" <= r && r[|workDir| + 1..] == dir
  {
    workDir + "\\" + dir
  }

  /** The number of login starts among the calls. */
  function Logins(calls: seq<Call>): nat
  {
    if calls == [] then 0 else (if calls[0] == LoginStarted then 1 else 0) + Logins(calls[1..])
  }

  lemma {:induction false} LoginsAppend(a: seq<Call>, b: seq<Call>)
    ensures Logins(a + b) == Logins(a) + Logins(b)
  {
    if a == [] {
      assert a + b == b;
    } else {
      assert (a + b)[0] == a[0];
      assert (a + b)[1..] == a[1..] + b;
      LoginsAppend(a[1..], b);
    }
  }

  /** The index of the first imported entry installed in dir, or |vs| when there is none. */
  function FirstImportedAt(vs: seq<Version>, dir: string): (k: nat)
    ensures k <= |vs|
    ensures forall j :: 0 <= j < k ==> !(vs[j].IsImported() && vs[j].gameDirectory == dir)
    ensures k < |vs| ==> vs[k].IsImported() && vs[k].gameDirectory == dir
  {
    if vs == [] then 0
    else if vs[0].IsImported() && vs[0].gameDirectory == dir then 0
    else 1 + FirstImportedAt(vs[1..], dir)
  }

  lemma FirstImportedIsFirst(vs: seq<Version>, dir: string, k: nat)
    requires k <= |vs|
    requires forall j :: 0 <= j < k ==> !(vs[j].IsImported() && vs[j].gameDirectory == dir)
    requires k < |vs| ==> vs[k].IsImported() && vs[k].gameDirectory == dir
    ensures k == FirstImportedAt(vs, dir)
  {
  }

  /** The index of the first occurrence of v, or |vs| when v does not occur. */
  function IndexOf(vs: seq<Version>, v: Version): (k: nat)
    ensures k <= |vs|
    ensures forall j :: 0 <= j < k ==> vs[j] != v
    ensures k < |vs| <==> v in vs
    ensures k < |vs| ==> vs[k] == v
  {
    if vs == [] then 0
    else if vs[0] == v then 0
    else 1 + IndexOf(vs[1..], v)
  }

  /** The collection after ObservableCollection.Remove(v): the first occurrence is cut out;
      the entries before it keep their places and those after it move up by one. */
  function Excluding(vs: seq<Version>, v: Version): (r: seq<Version>)
    ensures v !in vs ==> r == vs
    ensures v in vs ==> |r| == |vs| - 1 && multiset(r) == multiset(vs) - multiset{v}
    ensures forall j :: 0 <= j < |r| ==> r[j] == if j < IndexOf(vs, v) then vs[j] else vs[j + 1]
    ensures forall u :: u in r ==> u in vs
  {
    var k := IndexOf(vs, v);
    if k == |vs| then vs
    else
      assert vs == vs[..k] + [v] + vs[k + 1..];
      vs[..k] + vs[k + 1..]
  }

  /** The states shown while signing in and downloading (None: the slot is cleared). */
  function FetchStates(loginOk: bool, progressed: bool, result: DownloadResult): seq<Option<VersionState>>
  {
    if !loginOk then [None]
    else (if progressed then [Some(Downloading)] else []) + if result != Completed then [None] else []
  }

  /** The states shown while unpacking. */
  function InstallStates(unpacking: Unpacking): seq<Option<VersionState>>
  {
    [Some(Extracting), None] + if unpacking == Unpacked then [None] else []
  }

  /** The states a download shows, in order. */
  function DownloadStates(loginOk: bool, progressed: bool, result: DownloadResult, unpacking: Unpacking): seq<Option<VersionState>>
  {
    [Some(Initializing)] + FetchStates(loginOk, progressed, result)
    + if loginOk && result == Completed then InstallStates(unpacking) else []
  }

  lemma DownloadStatesSplit(t0: seq<Option<VersionState>>, loginOk: bool, progressed: bool,
                            result: DownloadResult, unpacking: Unpacking)
    ensures t0 + DownloadStates(loginOk, progressed, result, unpacking)
         == (t0 + [Some(Initializing)]) + FetchStates(loginOk, progressed, result)
            + (if loginOk && result == Completed then InstallStates(unpacking) else [])
  {
    var f, r := FetchStates(loginOk, progressed, result),
                (if loginOk && result == Completed then InstallStates(unpacking) else []);
    assert DownloadStates(loginOk, progressed, result, unpacking) == [Some(Initializing)] + f + r;
    assert t0 + ([Some(Initializing)] + f + r) == (t0 + [Some(Initializing)]) + f + r;
  }

  /** Position of a state in the download progression Initializing, Downloading, Extracting, cleared. */
  function Rank(s: Option<VersionState>): nat
  {
    match s
    case Some(Initializing) => 0
    case Some(Downloading) => 1
    case Some(Extracting) => 2
    case Some(_) => 4
    case None => 3
  }

  /** The download progression as a list of the possible state sequences. */
  lemma DownloadShapes(loginOk: bool, progressed: bool, result: DownloadResult, unpacking: Unpacking)
    ensures var t, I, D, E := DownloadStates(loginOk, progressed, result, unpacking),
                              Some(Initializing), Some(Downloading), Some(Extracting);
      t in {[I, None], [I, D, None], [I, E, None], [I, D, E, None], [I, E, None, None], [I, D, E, None, None]}
  {
    var t := DownloadStates(loginOk, progressed, result, unpacking);
    var I, D, E := Some(Initializing), Some(Downloading), Some(Extracting);
    if !loginOk {
      assert t == [I, None];
    } else if result != Completed {
      if progressed {
        assert t == [I, D, None];
      } else {
        assert t == [I, None];
      }
    } else if unpacking == Unpacked {
      if progressed {
        assert t == [I, D, E, None, None];
      } else {
        assert t == [I, E, None, None];
      }
    } else {
      if progressed {
        assert t == [I, D, E, None];
      } else {
        assert t == [I, E, None];
      }
    }
  }

  /** A download moves forward only: Initializing first, the slot cleared last, and every state
      in between no earlier in the progression than the one before it. */
  lemma DownloadProgression(loginOk: bool, progressed: bool, result: DownloadResult, unpacking: Unpacking)
    ensures var t := DownloadStates(loginOk, progressed, result, unpacking);
      && t[0] == Some(Initializing)
      && t[|t| - 1] == None
      && (forall i, j :: 0 <= i < j < |t| ==> Rank(t[i]) <= Rank(t[j]))
  {
    DownloadShapes(loginOk, progressed, result, unpacking);
  }

  /** Extracting is shown exactly when the download completed, and Downloading exactly when
      progress was reported. */
  lemma DownloadStatesShown(loginOk: bool, progressed: bool, result: DownloadResult, unpacking: Unpacking)
    ensures var t := DownloadStates(loginOk, progressed, result, unpacking);
      && (Some(Extracting) in t <==> loginOk && result == Completed)
      && (Some(Downloading) in t <==> loginOk && progressed)
  {
    var t := DownloadStates(loginOk, progressed, result, unpacking);
    var f := FetchStates(loginOk, progressed, result);
    assert Some(Extracting) !in f;
    assert t == [Some(Initializing)] + f + (if loginOk && result == Completed then InstallStates(unpacking) else []);
  }

  datatype LaunchResult = Started | ReRegisterFailed | LaunchFailed

  /** The calls of signing in and downloading v: the sign-in is started by the first Beta
      download only, and the download is requested only when the sign-in succeeds. */
  function FetchCalls(v: Version, loginStarted: bool, loginSucceeds: bool): seq<Call>
  {
    (if v.versionType == Beta && !loginStarted then [LoginStarted] else [])
    + if v.versionType != Beta || loginSucceeds then [Download(TierFor(v.versionType), v.uuid, "1", DownloadPath(v.versionType, v.name))] else []
  }

  /** The calls of unpacking archive into dir: the old directory is deleted when it exists,
      the archive extracted, and the archive deleted when asked to after a success. */
  function UnpackCalls(dir: string, archive: string, existed: bool, deleted: bool): seq<Call>
  {
    (if existed then [DeletedDirectory(dir)] else []) + [Extraction(archive, dir)]
    + if deleted then [DeletedFile(archive)] else []
  }

  class Launcher {
    const machine: Machine
    /** The working directory the relative game directories live in. */
    const workDir: string
    /** Whether the shared sign-in task succeeds; every Beta download awaits the same task. */
    const loginSucceeds: bool
    var versions: seq<Version>
    var hasLaunchTask: bool
    var loginStarted: bool
    var directories: set<string>
    var files: set<string>
    var calls: seq<Call>

    /** The sign-in is started at most once: the flag says whether it has been. */
    predicate Valid()
      reads this
    {
      Logins(calls) == if loginStarted then 1 else 0
    }

    constructor(machine: Machine, workDir: string, loginSucceeds: bool, versions: seq<Version>,
                directories: set<string>, files: set<string>)
      ensures Valid()
      ensures this.machine == machine && this.workDir == workDir && this.loginSucceeds == loginSucceeds
      ensures this.versions == versions && this.directories == directories && this.files == files
      ensures !hasLaunchTask && !loginStarted && calls == []
    {
      this.machine := machine;
      this.workDir := workDir;
      this.loginSucceeds := loginSucceeds;
      this.versions := versions;
      this.directories := directories;
      this.files := files;
      hasLaunchTask := false;
      loginStarted := false;
      calls := [];
    }

    /** A catalog entry counts as installed when its directory exists. */
    predicate IsInstalled(v: Version)
      reads this
      ensures IsInstalled(v) <==> v.gameDirectory in directories
    {
      v.gameDirectory in directories
    }

    /** The synchronous half of a launch request: refused while another launch runs. */
    method InvokeLaunch(v: Version) returns (started: bool)
      modifies this
      ensures started <==> !old(hasLaunchTask)
      ensures hasLaunchTask
      ensures versions == old(versions) && loginStarted == old(loginStarted) && calls == old(calls)
      ensures directories == old(directories) && files == old(files)
    {
      if hasLaunchTask {
        return false;
      }
      hasLaunchTask := true;
      started := true;
    }

    /** The launch task: re-register the version's directory, then start the package. Every
        exit clears the launch flag and the entry's slot. */
    method LaunchTask(v: Version) returns (result: LaunchResult)
      requires hasLaunchTask
      modifies this, v, machine
      ensures !hasLaunchTask && v.stateChangeInfo == None && v.isNew == old(v.isNew)
      ensures versions == old(versions) && loginStarted == old(loginStarted) && calls == old(calls)
      ensures directories == old(directories) && files == old(files)
      ensures var r := ReRegisterSpec(old(machine.State()), machine.env, v.GamePackageFamily(),
                                      FullPath(workDir, v.gameDirectory));
        if r.status != Ok then
          && result == ReRegisterFailed
          && Reached(r, machine.State(), r.status)
          && v.trail == old(v.trail) + [Some(Registering), None]
        else
          && (result == Started <==> LaunchSpec(r.host, machine.env, v.GamePackageFamily()).status == Ok)
          && result != ReRegisterFailed
          && machine.State() == LaunchSpec(r.host, machine.env, v.GamePackageFamily()).host
          && v.trail == old(v.trail) + [Some(Registering), Some(Launching), None]
    {
      v.SetStateChangeInfo(Some(NewInfo(Registering)));
      var gameDir := FullPath(workDir, v.gameDirectory);
      var status := machine.ReRegisterPackage(v.GamePackageFamily(), gameDir);
      if status != Ok {
        hasLaunchTask := false;
        v.SetStateChangeInfo(None);
        return ReRegisterFailed;
      }
      result := StartGame(v);
    }

    /** The second half of the launch task: start the registered package under Launching. */
    method StartGame(v: Version) returns (result: LaunchResult)
      modifies this, v, machine
      ensures !hasLaunchTask && v.stateChangeInfo == None && v.isNew == old(v.isNew)
      ensures versions == old(versions) && loginStarted == old(loginStarted) && calls == old(calls)
      ensures directories == old(directories) && files == old(files)
      ensures var r := LaunchSpec(old(machine.State()), machine.env, v.GamePackageFamily());
        && machine.State() == r.host
        && (result == Started <==> r.status == Ok)
        && result != ReRegisterFailed
      ensures v.trail == old(v.trail) + [Some(Launching), None]
    {
      v.SetStateChangeInfo(Some(NewInfo(Launching)));
      var ok := machine.LaunchPackage(v.GamePackageFamily());
      hasLaunchTask := false;
      v.SetStateChangeInfo(None);
      result := if ok then Started else LaunchFailed;
    }

    /** Picks the downloader for t; a Beta download starts the shared sign-in unless it was
        started before, and waits for it. */
    method SelectDownloader(t: VersionType) returns (tier: Tier, ok: bool)
      requires Valid()
      modifies this
      ensures Valid()
      ensures tier == TierFor(t)
      ensures ok <==> t != Beta || loginSucceeds
      ensures loginStarted == (old(loginStarted) || t == Beta)
      ensures calls == old(calls) + if t == Beta && !old(loginStarted) then [LoginStarted] else []
      ensures versions == old(versions) && hasLaunchTask == old(hasLaunchTask)
      ensures directories == old(directories) && files == old(files)
    {
      tier := TierFor(t);
      ok := true;
      if t == Beta {
        if !loginStarted {
          LoginsAppend(calls, [LoginStarted]);
          loginStarted := true;
          calls := calls + [LoginStarted];
        }
        ok := loginSucceeds;
      }
    }

    /** The download call: each progress report runs the callback on the entry's slot, in order. */
    method RunDownload(v: Version, tier: Tier, path: string, events: seq<ProgressEvent>, result: DownloadResult)
      requires Valid() && v.stateChangeInfo.Some?
      modifies this, v
      ensures Valid()
      ensures v.stateChangeInfo == Some(AfterProgress(old(v.stateChangeInfo).value, events))
      ensures v.isNew == old(v.isNew)
      ensures v.trail == old(v.trail) +
                if events != [] && old(v.stateChangeInfo).value.state != Downloading then [Some(Downloading)] else []
      ensures calls == old(calls) + [Download(tier, v.uuid, "1", path)]
      ensures files == if result == Completed then old(files) + {path} else old(files)
      ensures versions == old(versions) && hasLaunchTask == old(hasLaunchTask) && loginStarted == old(loginStarted)
      ensures directories == old(directories)
    {
      LoginsAppend(calls, [Download(tier, v.uuid, "1", path)]);
      calls := calls + [Download(tier, v.uuid, "1", path)];
      ghost var start := v.stateChangeInfo.value;
      ghost var trail0 := v.trail;
      var i := 0;
      while i < |events|
        modifies v
        invariant 0 <= i <= |events|
        invariant v.stateChangeInfo == Some(AfterProgress(start, events[..i]))
        invariant v.isNew == old(v.isNew)
        invariant v.trail == trail0 + if i > 0 && start.state != Downloading then [Some(Downloading)] else []
        invariant i > 0 ==> v.stateChangeInfo.value.state == Downloading
      {
        assert events[..i + 1][..i] == events[..i];
        v.ReportProgress(events[i]);
        i := i + 1;
      }
      assert events[..|events|] == events;
      if result == Completed {
        files := files + {path};
      }
    }

    /** Deletes a directory, with everything below it, when it exists. */
    method ClearDirectory(dir: string)
      requires Valid()
      modifies this
      ensures Valid()
      ensures directories == old(directories) - {dir}
      ensures calls == old(calls) + if dir in old(directories) then [DeletedDirectory(dir)] else []
      ensures versions == old(versions) && hasLaunchTask == old(hasLaunchTask) && loginStarted == old(loginStarted)
      ensures files == old(files)
    {
      if dir in directories {
        LoginsAppend(calls, [DeletedDirectory(dir)]);
        calls := calls + [DeletedDirectory(dir)];
        directories := directories - {dir};
      }
    }

    /** Unpacking a downloaded package into the version's directory, replacing an old one. */
    method Unpack(v: Version, archive: string, unpacking: Unpacking, deleteAppx: bool) returns (ok: bool)
      requires Valid()
      modifies this
      ensures Valid()
      ensures ok <==> unpacking == Unpacked
      ensures directories == (old(directories) - {v.gameDirectory}) + if ok then {v.gameDirectory} else {}
      ensures calls == old(calls) + UnpackCalls(v.gameDirectory, archive, v.gameDirectory in old(directories), ok && deleteAppx)
      ensures files == if ok && deleteAppx then old(files) - {archive} else old(files)
      ensures versions == old(versions) && hasLaunchTask == old(hasLaunchTask) && loginStarted == old(loginStarted)
    {
      var dir := v.gameDirectory;
      ClearDirectory(dir);
      LoginsAppend(calls, [Extraction(archive, dir)]);
      calls := calls + [Extraction(archive, dir)];
      ok := unpacking == Unpacked;
      if ok {
        directories := directories + {dir};
      }
      if ok && deleteAppx {
        LoginsAppend(calls, [DeletedFile(archive)]);
        calls := calls + [DeletedFile(archive)];
        files := files - {archive};
      }
    }

    /** Signs in when needed and downloads the package; the slot is cleared when either fails. */
    method Fetch(v: Version, events: seq<ProgressEvent>, result: DownloadResult) returns (path: string, fetched: bool)
      requires Valid() && v.stateChangeInfo == Some(NewInfo(Initializing).(cancellable := true))
      modifies this, v
      ensures Valid()
      ensures path == DownloadPath(v.versionType, v.name)
      ensures var loginOk := v.versionType != Beta || loginSucceeds;
        && (fetched <==> loginOk && result == Completed)
        && v.trail == old(v.trail) + FetchStates(loginOk, events != [], result)
      ensures fetched ==> v.stateChangeInfo.Some?
      ensures !fetched ==> v.stateChangeInfo == None
      ensures loginStarted == (old(loginStarted) || v.versionType == Beta)
      ensures calls == old(calls) + FetchCalls(v, old(loginStarted), loginSucceeds)
      ensures files == if fetched then old(files) + {path} else old(files)
      ensures v.isNew == old(v.isNew)
      ensures versions == old(versions) && hasLaunchTask == old(hasLaunchTask) && directories == old(directories)
    {
      path := DownloadPath(v.versionType, v.name);
      var tier, loginOk := SelectDownloader(v.versionType);
      if !loginOk {
        v.SetStateChangeInfo(None);
        return path, false;
      }
      RunDownload(v, tier, path, events, result);
      fetched := result == Completed;
      if !fetched {
        v.SetStateChangeInfo(None);
      }
    }

    /** Unpacks the downloaded package under the Extracting state; the slot is cleared after
        a failure, and twice after a success (once after unpacking, once as the task ends). */
    method Install(v: Version, archive: string, unpacking: Unpacking, deleteAppx: bool) returns (ok: bool)
      requires Valid() && v.stateChangeInfo.Some?
      modifies this, v
      ensures Valid()
      ensures ok <==> unpacking == Unpacked
      ensures v.stateChangeInfo == None && v.isNew == old(v.isNew)
      ensures v.trail == old(v.trail) + InstallStates(unpacking)
      ensures directories == (old(directories) - {v.gameDirectory}) + if ok then {v.gameDirectory} else {}
      ensures calls == old(calls) + UnpackCalls(v.gameDirectory, archive, v.gameDirectory in old(directories), ok && deleteAppx)
      ensures files == if ok && deleteAppx then old(files) - {archive} else old(files)
      ensures versions == old(versions) && hasLaunchTask == old(hasLaunchTask) && loginStarted == old(loginStarted)
    {
      v.SetVersionState(Extracting);
      ok := Unpack(v, archive, unpacking, deleteAppx);
      v.SetStateChangeInfo(None);
      if ok {
        v.SetStateChangeInfo(None);
      }
    }

    /** Downloads and unpacks a catalog version. There is no busy check here: the caller
        starts a download only on an idle entry. The slot shows Initializing, then Downloading
        from the first progress report, then Extracting, and is cleared on every exit. */
    method InvokeDownload(v: Version, events: seq<ProgressEvent>, result: DownloadResult,
                          unpacking: Unpacking, deleteAppx: bool) returns (report: DownloadReport)
      requires Valid() && v.stateChangeInfo == None
      modifies this, v
      ensures Valid()
      ensures !v.isNew && v.stateChangeInfo == None
      ensures var loginOk := v.versionType != Beta || loginSucceeds;
        && v.trail == old(v.trail) + DownloadStates(loginOk, events != [], result, unpacking)
        && report == Verdict(loginOk, result, unpacking)
      ensures loginStarted == (old(loginStarted) || v.versionType == Beta)
      ensures report == Installed ==> IsInstalled(v)
      ensures report == UnpackFailed ==> !IsInstalled(v)
      ensures var path, fetchCalls := DownloadPath(v.versionType, v.name), FetchCalls(v, old(loginStarted), loginSucceeds);
        if report != Installed && report != UnpackFailed then
          && directories == old(directories) && files == old(files)
          && calls == old(calls) + fetchCalls
        else
          && directories == (old(directories) - {v.gameDirectory}) + (if report == Installed then {v.gameDirectory} else {})
          && files == (if report == Installed && deleteAppx then old(files) - {path} else old(files) + {path})
          && calls == old(calls) + fetchCalls
                      + UnpackCalls(v.gameDirectory, path, v.gameDirectory in old(directories), report == Installed && deleteAppx)
      ensures versions == old(versions) && hasLaunchTask == old(hasLaunchTask)
    {
      ghost var loginOk := v.versionType != Beta || loginSucceeds;
      DownloadStatesSplit(v.trail, loginOk, events != [], result, unpacking);
      v.isNew := false;
      v.SetStateChangeInfo(Some(NewInfo(Initializing).(cancellable := true)));
      var path, fetched := Fetch(v, events, result);
      if !fetched {
        return Verdict(v.versionType != Beta || loginSucceeds, result, unpacking);
      }
      var ok := Install(v, path, unpacking, deleteAppx);
      report := if ok then Installed else UnpackFailed;
    }

    /** Removes a version: its packages are unregistered, its directory deleted, and an
        imported entry dropped from the list. A failure leaves the entry marked Uninstalling. */
    method Remove(v: Version) returns (ok: bool)
      requires Valid()
      modifies this, v, machine
      ensures Valid()
      ensures var u := UnregisterSpec(old(machine.State()), machine.env, v.GamePackageFamily(),
                                      FullPath(workDir, v.gameDirectory));
        && machine.State() == u.host
        && (ok <==> u.status == Ok && v.gameDirectory in old(directories))
      ensures ok ==> && v.stateChangeInfo == None && !IsInstalled(v)
                     && directories == old(directories) - {v.gameDirectory}
                     && versions == (if v.IsImported() then Excluding(old(versions), v) else old(versions))
                     && v.trail == old(v.trail) + [Some(Uninstalling), None]
                     && calls == old(calls) + [DeletedDirectory(v.gameDirectory)]
      ensures !ok ==> && v.stateChangeInfo == Some(NewInfo(Uninstalling))
                      && directories == old(directories) && versions == old(versions)
                      && v.trail == old(v.trail) + [Some(Uninstalling)]
                      && calls == old(calls)
      ensures v.isNew == old(v.isNew)
      ensures hasLaunchTask == old(hasLaunchTask) && loginStarted == old(loginStarted) && files == old(files)
    {
      v.SetStateChangeInfo(Some(NewInfo(Uninstalling)));
      var unregistered := machine.UnregisterPackage(v.GamePackageFamily(), FullPath(workDir, v.gameDirectory));
      if !unregistered {
        return false;
      }
      ok := DeleteVersion(v);
    }

    /** The end of a removal once the packages are gone: the directory is deleted, the slot
        cleared and an imported entry dropped from the list. */
    method DeleteVersion(v: Version) returns (ok: bool)
      requires Valid()
      modifies this, v
      ensures Valid()
      ensures ok <==> v.gameDirectory in old(directories)
      ensures ok ==> && v.stateChangeInfo == None
                     && directories == old(directories) - {v.gameDirectory}
                     && versions == (if v.IsImported() then Excluding(old(versions), v) else old(versions))
                     && v.trail == old(v.trail) + [None]
                     && calls == old(calls) + [DeletedDirectory(v.gameDirectory)]
      ensures !ok ==> unchanged(this) && unchanged(v)
      ensures v.isNew == old(v.isNew)
      ensures hasLaunchTask == old(hasLaunchTask) && loginStarted == old(loginStarted) && files == old(files)
    {
      if v.gameDirectory !in directories {
        // Directory.Delete throws on a missing directory.
        return false;
      }
      LoginsAppend(calls, [DeletedDirectory(v.gameDirectory)]);
      calls := calls + [DeletedDirectory(v.gameDirectory)];
      directories := directories - {v.gameDirectory};
      v.SetStateChangeInfo(None);
      if v.IsImported() {
        versions := Excluding(versions, v);
      }
      ok := true;
    }

    /** The first imported entry installed in dir: the foreach scan of the version list. */
    method FindImported(dir: string) returns (k: nat)
      ensures k == FirstImportedAt(versions, dir)
    {
      k := 0;
      while k < |versions|
        invariant k <= |versions|
        invariant forall j :: 0 <= j < k ==> !(versions[j].IsImported() && versions[j].gameDirectory == dir)
      {
        if versions[k].IsImported() && versions[k].gameDirectory == dir {
          FirstImportedIsFirst(versions, dir, k);
          return;
        }
        k := k + 1;
      }
      FirstImportedIsFirst(versions, dir, k);
    }

    /** When the import target exists: refuses for a busy or unknown owner and for a declined
        prompt, and otherwise removes the imported entry that owns the directory. */
    method ResolveClash(directory: string, confirm: bool) returns (proceed: bool, report: ImportReport)
      requires Valid() && directory in directories
      modifies this, machine, versions
      ensures Valid()
      ensures var k := FirstImportedAt(old(versions), directory);
        if k == |old(versions)| then
          !proceed && report == UnknownDirectory && unchanged(this) && unchanged(machine) && unchanged(old(versions))
        else if old(versions[k].stateChangeInfo).Some? then
          !proceed && report == Busy && unchanged(this) && unchanged(machine) && unchanged(old(versions))
        else if !confirm then
          !proceed && report == Declined && unchanged(this) && unchanged(machine) && unchanged(old(versions))
        else
          var owner := old(versions[k]);
          && (forall u :: u in old(versions) && u != owner ==> unchanged(u))
          && machine.State() == UnregisterSpec(old(machine.State()), machine.env, owner.GamePackageFamily(),
                                               FullPath(workDir, directory)).host
          && (proceed ==> && versions == Excluding(old(versions), owner)
                          && directories == old(directories) - {directory}
                          && calls == old(calls) + [DeletedDirectory(directory)]
                          && owner.stateChangeInfo == None)
          && (!proceed ==> && report == RemoveFailed && versions == old(versions)
                           && directories == old(directories) && calls == old(calls)
                           && owner.stateChangeInfo == Some(NewInfo(Uninstalling)))
      ensures hasLaunchTask == old(hasLaunchTask) && loginStarted == old(loginStarted) && files == old(files)
    {
      ghost var k0 := FirstImportedAt(versions, directory);
      var k := FindImported(directory);
      if k == |versions| {
        return false, UnknownDirectory;
      }
      var owner := versions[k];
      if owner.IsStateChanging() {
        return false, Busy;
      }
      if !confirm {
        return false, Declined;
      }
      proceed := Remove(owner);
      report := if proceed then ImportDone else RemoveFailed;
    }

    /** Adds a new imported entry for the package and unpacks it under Extracting; the entry
        stays in the list whether or not the archive unpacks, and its slot is cleared either way. */
    method AddImported(name: string, archive: string, unpacking: Unpacking) returns (entry: Version)
      requires Valid()
      modifies this
      ensures Valid()
      ensures fresh(entry)
      ensures entry.IsImported() && entry.name == name && entry.uuid == UNKNOWN_UUID
      ensures entry.gameDirectory == ImportedDirectory(name)
      ensures entry.stateChangeInfo == None && entry.trail == [Some(Extracting), None]
      ensures versions == old(versions) + [entry]
      ensures directories == if unpacking.Unpacked? then old(directories) + {entry.gameDirectory} else old(directories)
      ensures calls == old(calls) + [Extraction(archive, entry.gameDirectory)]
      ensures hasLaunchTask == old(hasLaunchTask) && loginStarted == old(loginStarted) && files == old(files)
    {
      var directory := ImportedDirectory(name);
      entry := new Version.Import(name, directory);
      versions := versions + [entry];
      entry.SetStateChangeInfo(Some(NewInfo(Extracting)));
      LoginsAppend(calls, [Extraction(archive, directory)]);
      calls := calls + [Extraction(archive, directory)];
      if unpacking.Unpacked? {
        directories := directories + {directory};
      }
      entry.SetStateChangeInfo(None);
    }

    /** Importing over an existing directory: the clash is resolved first, and the new entry
        is added only when the owning entry was removed. */
    method ReplaceImported(name: string, archive: string, confirm: bool, unpacking: Unpacking)
      returns (report: ImportReport, entry: Option<Version>)
      requires Valid() && ImportedDirectory(name) in directories
      modifies this, machine, versions
      ensures Valid()
      ensures var d := ImportedDirectory(name);
              var k := FirstImportedAt(old(versions), d);
        if k == |old(versions)| then
          report == UnknownDirectory && entry == None && unchanged(this) && unchanged(machine) && unchanged(old(versions))
        else if old(versions[k].stateChangeInfo).Some? then
          report == Busy && entry == None && unchanged(this) && unchanged(machine) && unchanged(old(versions))
        else if !confirm then
          report == Declined && entry == None && unchanged(this) && unchanged(machine) && unchanged(old(versions))
        else
          var owner := old(versions[k]);
          && (forall u :: u in old(versions) && u != owner ==> unchanged(u))
          && machine.State() == UnregisterSpec(old(machine.State()), machine.env, owner.GamePackageFamily(),
                                               FullPath(workDir, d)).host
          && (report == RemoveFailed ==>
                entry == None && versions == old(versions) && directories == old(directories) && calls == old(calls))
          && (report != RemoveFailed ==>
                && report in {ImportDone, ImportFailed} && entry.Some? && fresh(entry.value)
                && versions == Excluding(old(versions), owner) + [entry.value]
                && entry.value.IsImported() && entry.value.name == name && entry.value.gameDirectory == d
                && entry.value.stateChangeInfo == None && entry.value.trail == [Some(Extracting), None]
                && (report == ImportDone <==> unpacking.Unpacked?)
                && directories == (old(directories) - {d}) + (if unpacking.Unpacked? then {d} else {})
                && calls == old(calls) + [DeletedDirectory(d), Extraction(archive, d)])
      ensures hasLaunchTask == old(hasLaunchTask) && loginStarted == old(loginStarted) && files == old(files)
    {
      var proceed;
      proceed, report := ResolveClash(ImportedDirectory(name), confirm);
      if !proceed {
        return report, None;
      }
      ghost var host := machine.State();
      var e := AddImported(name, archive, unpacking);
      assert machine.State() == host;
      entry := Some(e);
      report := if unpacking.Unpacked? then ImportDone else ImportFailed;
    }

    /** The import button: picked is the file chosen in the dialog (None when it is cancelled),
        archive its full path, confirm the answer to the replace prompt. An existing target
        directory is replaced only when an idle imported entry owns it and the user agrees. */
    method ImportButtonClicked(picked: Option<string>, archive: string, confirm: bool, unpacking: Unpacking)
      returns (report: ImportReport, entry: Option<Version>)
      requires Valid()
      modifies this, machine, versions
      ensures Valid()
      ensures report in {DialogCancelled, UnknownDirectory, Busy, Declined} ==>
                entry == None && unchanged(this) && unchanged(machine) && unchanged(old(versions))
      ensures report == RemoveFailed ==>
                entry == None && versions == old(versions) && directories == old(directories) && calls == old(calls)
      ensures picked.None? ==> report == DialogCancelled
      ensures picked.Some? && ImportedDirectory(picked.value) in old(directories) ==>
                var k := FirstImportedAt(old(versions), ImportedDirectory(picked.value));
                && (k == |old(versions)| ==> report == UnknownDirectory)
                && (k < |old(versions)| && old(versions[k].stateChangeInfo).Some? ==> report == Busy)
                && (k < |old(versions)| && old(versions[k].stateChangeInfo).None? && !confirm ==> report == Declined)
                && (k < |old(versions)| && old(versions[k].stateChangeInfo).None? && confirm ==>
                      report in {RemoveFailed, ImportDone, ImportFailed})
                && (k < |old(versions)| ==> forall u :: u in old(versions) && u != old(versions[k]) ==> unchanged(u))
                && (k < |old(versions)| && old(versions[k].stateChangeInfo).None? && confirm ==>
                      machine.State() == UnregisterSpec(old(machine.State()), machine.env, old(versions[k]).GamePackageFamily(),
                                                        FullPath(workDir, ImportedDirectory(picked.value))).host)
                && (report in {ImportDone, ImportFailed} ==>
                      (k < |old(versions)| && entry.Some?
                       && versions == Excluding(old(versions), old(versions[k])) + [entry.value]))
      ensures picked.Some? && ImportedDirectory(picked.value) !in old(directories) ==>
                report in {ImportDone, ImportFailed} && entry.Some? && versions == old(versions) + [entry.value]
                && unchanged(machine) && unchanged(old(versions))
      ensures report in {ImportDone, ImportFailed} ==>
                && picked.Some? && entry.Some? && fresh(entry.value)
                && entry.value.IsImported() && entry.value.name == picked.value
                && entry.value.gameDirectory == ImportedDirectory(picked.value)
                && entry.value.stateChangeInfo == None && entry.value.trail == [Some(Extracting), None]
                && (report == ImportDone <==> unpacking.Unpacked?)
                && (entry.value.gameDirectory in directories <==> unpacking.Unpacked?)
                && var d := entry.value.gameDirectory;
                   && directories == (old(directories) - {d}) + (if unpacking.Unpacked? then {d} else {})
                   && calls == old(calls) + (if d in old(directories) then [DeletedDirectory(d)] else [])
                                          + [Extraction(archive, d)]
      ensures hasLaunchTask == old(hasLaunchTask) && loginStarted == old(loginStarted) && files == old(files)
    {
      if picked.None? {
        return DialogCancelled, None;
      }
      if ImportedDirectory(picked.value) in directories {
        report, entry := ReplaceImported(picked.value, archive, confirm, unpacking);
      } else {
        var e := AddImported(picked.value, archive, unpacking);
        entry := Some(e);
        report := if unpacking.Unpacked? then ImportDone else ImportFailed;
      }
    }
  }
}
