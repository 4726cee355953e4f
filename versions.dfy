/** A version entry of the launcher: the pure derivations from its type and name, the
    state-change slot whose presence marks the entry busy, and the progress arithmetic
    shown while a download runs. */
module Versions {
  import opened Options

  datatype VersionType = Release | Beta | Preview | Imported

  datatype VersionState = Initializing | Downloading | Extracting | Registering | Launching | Uninstalling

  /** The host package families: Preview installs under its own family, everything else under the main one. */
  const MINECRAFT: string := "Microsoft.MinecraftUWP_8wekyb3d8bbwe"
  const MINECRAFT_PREVIEW: string := "Microsoft.MinecraftWindowsBeta_8wekyb3d8bbwe"

  /** The identifier given to imported entries, which have no catalog identity. */
  const UNKNOWN_UUID: string := "未知"

  /** Directory (relative to the working directory) that holds imported versions. */
  const IMPORTED_VERSIONS_PATH: string := "imported_versions"

  const BETA_TAG: string := "(测试版)"
  const PREVIEW_TAG: string := "(预览版)"
  const NEW_SUFFIX: string := " (新版！)"

  function DirectoryPrefix(t: VersionType): string
  {
    if t == Preview then "Minecraft-Preview-" else "Minecraft-"
  }

  /** Install directory of a catalog version (the five-argument constructor): Preview builds
      get their own prefix. */
  function CatalogDirectory(t: VersionType, name: string): (d: string)
    ensures d == "Minecraft-Preview-" + name <==> t == Preview
    ensures d == "Minecraft-" + name <==> t != Preview
  {
    var d := DirectoryPrefix(t) + name;
    assert |"Minecraft-Preview-" + name| != |"Minecraft-" + name|;
    d
  }

  /** The file a download is written to (the download task's dlPath), which the download task
      spells out again rather than deriving from the entry's directory. */
  function DownloadPath(t: VersionType, name: string): (p: string)
    ensures p == CatalogDirectory(t, name) + ".Appx"
  {
    DirectoryPrefix(t) + name + ".Appx"
  }

  /** Path.Combine(IMPORTED_VERSIONS_PATH, fileName) for an imported archive. */
  function ImportedDirectory(fileName: string): (d: string)
    ensures IMPORTED_VERSIONS_PATH + "\\" <= d && d[|IMPORTED_VERSIONS_PATH| + 1..] == fileName
    ensures forall t, name :: d != CatalogDirectory(t, name)
  {
    var d := IMPORTED_VERSIONS_PATH + "\\" + fileName;
    assert d[0] == 'i';
    assert forall t, name :: CatalogDirectory(t, name)[0] == 'M';
    d
  }

  /** Recovers a catalog version's name from its install directory, if the directory has the type's prefix. */
  function CatalogName(t: VersionType, dir: string): Option<string>
  {
    var p := DirectoryPrefix(t);
    if |p| <= |dir| && dir[..|p|] == p then Some(dir[|p|..]) else None
  }

  lemma CatalogNameInverse(t: VersionType, name: string, dir: string)
    ensures CatalogName(t, dir) == Some(name) <==> dir == CatalogDirectory(t, name)
  {
    var p := DirectoryPrefix(t);
    if dir == CatalogDirectory(t, name) {
      assert dir[..|p|] == p && dir[|p|..] == name;
    }
    if CatalogName(t, dir) == Some(name) {
      assert dir == dir[..|p|] + dir[|p|..];
    }
  }

  /** A Preview build and a non-Preview build of the same name never share an install directory. */
  lemma PreviewDirectoryIsSeparate(t: VersionType, name: string)
    requires t != Preview
    ensures CatalogDirectory(Preview, name) != CatalogDirectory(t, name)
  {
    assert |CatalogDirectory(Preview, name)| == 18 + |name|;
    assert |CatalogDirectory(t, name)| == 10 + |name|;
  }

  function PackageFamily(t: VersionType): (f: string)
    ensures f == MINECRAFT_PREVIEW <==> t == Preview
    ensures f == MINECRAFT <==> t != Preview
  {
    assert MINECRAFT[19] != MINECRAFT_PREVIEW[19];
    if t == Preview then MINECRAFT_PREVIEW else MINECRAFT
  }

  /** The list label: the name, then the type tag (Beta and Preview only), then the "new" marker.
      The label starts with the name and adds nothing exactly for an old Release or Imported entry. */
  function DisplayName(name: string, t: VersionType, isNew: bool): (r: string)
    ensures name <= r
    ensures r == name <==> (t == Release || t == Imported) && !isNew
  {
    var tag := if t == Beta then BETA_TAG else if t == Preview then PREVIEW_TAG else "";
    var r := name + (if |tag| > 0 then " " + tag else "") + (if isNew then NEW_SUFFIX else "");
    assert r[..|name|] == name;
    assert t == Beta || t == Preview || isNew ==> |r| > |name|;
    r
  }

  /** The progress slot of a busy entry. cancellable says whether a cancel command is attached. */
  datatype StateChangeInfo = StateChangeInfo(state: VersionState, downloadedBytes: int, totalSize: int, cancellable: bool)

  /** A fresh slot, as the one-argument constructor makes it: no bytes, no total, no cancel command. */
  function NewInfo(s: VersionState): StateChangeInfo
  {
    StateChangeInfo(s, 0, 0, false)
  }

  function IsProgressIndeterminate(s: VersionState): (r: bool)
    ensures r <==> s != Downloading
  {
    match s
    case Initializing => true
    case Extracting => true
    case Uninstalling => true
    case Registering => true
    case Launching => true
    case Downloading => false
  }

  /** C#'s integer division on long, which truncates toward zero. */
  function TruncDiv(a: int, d: int): int
    requires d > 0
  {
    if a >= 0 then a / d else -((-a) / d)
  }

  /** Bytes / 1024 / 1024, as the status line computes it: the whole number of mebibytes,
      rounded toward zero, so a negative count gives the negated figure of its magnitude. */
  function MiB(bytes: int): (r: int)
    ensures bytes >= 0 ==> 0 <= r && r * 1048576 <= bytes < (r + 1) * 1048576
    ensures bytes < 0 ==> 0 <= -r && -r * 1048576 <= -bytes < (-r + 1) * 1048576
  {
    var b := if bytes >= 0 then bytes else -bytes;
    var q1, r1 := b / 1024, b % 1024;
    var q2, r2 := q1 / 1024, q1 % 1024;
    assert b == 1024 * q1 + r1;
    assert q1 == 1024 * q2 + r2;
    assert b == 1048576 * q2 + (1024 * r2 + r1);
    assert 0 <= 1024 * r2 + r1 < 1048576;
    TruncDiv(TruncDiv(bytes, 1024), 1024)
  }

  datatype Status = Preparing | Progress(doneMiB: int, totalMiB: int) | Unpacking | RegisteringPackage | Starting | Removing

  /** The status line; only Downloading shows figures, in whole mebibytes. */
  function DisplayStatus(info: StateChangeInfo): (r: Status)
    ensures r.Progress? <==> !IsProgressIndeterminate(info.state)
    ensures r.Progress? && info.downloadedBytes >= 0 ==>
              r.doneMiB * 1048576 <= info.downloadedBytes < (r.doneMiB + 1) * 1048576
    ensures r.Progress? && info.totalSize >= 0 ==>
              r.totalMiB * 1048576 <= info.totalSize < (r.totalMiB + 1) * 1048576
    ensures r == Preparing <==> info.state == Initializing
    ensures r == Unpacking <==> info.state == Extracting
    ensures r == RegisteringPackage <==> info.state == Registering
    ensures r == Starting <==> info.state == Launching
    ensures r == Removing <==> info.state == Uninstalling
  {
    match info.state
    case Initializing => Preparing
    case Downloading => Progress(MiB(info.downloadedBytes), MiB(info.totalSize))
    case Extracting => Unpacking
    case Registering => RegisteringPackage
    case Launching => Starting
    case Uninstalling => Removing
  }

  /** One progress report from the downloader: the bytes so far and the total when it is known. */
  datatype ProgressEvent = ProgressEvent(current: int, total: Option<int>)

  /** The download callback: the first report switches to Downloading and fixes the total if known;
      every report overwrites the byte count. */
  function Progressed(info: StateChangeInfo, e: ProgressEvent): (r: StateChangeInfo)
    ensures r.state == Downloading && r.downloadedBytes == e.current && r.cancellable == info.cancellable
    ensures r.totalSize == if info.state == Downloading || e.total.None? then info.totalSize else e.total.value
  {
    var started :=
      if info.state != Downloading
      then info.(state := Downloading, totalSize := if e.total.Some? then e.total.value else info.totalSize)
      else info;
    started.(downloadedBytes := e.current)
  }

  /** The slot after a run of reports, applied in order. */
  function AfterProgress(info: StateChangeInfo, events: seq<ProgressEvent>): StateChangeInfo
    decreases |events|
  {
    if events == [] then info
    else Progressed(AfterProgress(info, events[..|events| - 1]), events[|events| - 1])
  }

  /** Only the first report can set the total; the last report's byte count is what remains. */
  lemma {:induction false} ProgressOutcome(info: StateChangeInfo, events: seq<ProgressEvent>)
    requires events != []
    ensures AfterProgress(info, events).state == Downloading
    ensures AfterProgress(info, events).downloadedBytes == events[|events| - 1].current
    ensures AfterProgress(info, events).totalSize ==
              if info.state == Downloading || events[0].total.None? then info.totalSize else events[0].total.value
    ensures AfterProgress(info, events).cancellable == info.cancellable
  {
    var n := |events|;
    if n > 1 {
      ProgressOutcome(info, events[..n - 1]);
      assert events[..n - 1][0] == events[0];
    }
  }

  /** A version entry. The catalog fields never change after construction; isNew and the
      state-change slot are updated in place. trail records every value the slot's state takes,
      in order (None when the slot is cleared), as the property-change notifications report it. */
  class Version {
    const uuid: string
    const name: string
    const versionType: VersionType
    const gameDirectory: string
    var isNew: bool
    var stateChangeInfo: Option<StateChangeInfo>
    ghost var trail: seq<Option<VersionState>>

    constructor Catalog(uuid: string, name: string, versionType: VersionType, isNew: bool)
      ensures this.uuid == uuid && this.name == name && this.versionType == versionType
      ensures this.isNew == isNew && gameDirectory == CatalogDirectory(versionType, name)
      ensures stateChangeInfo == None && trail == []
    {
      this.uuid := uuid;
      this.name := name;
      this.versionType := versionType;
      this.isNew := isNew;
      gameDirectory := CatalogDirectory(versionType, name);
      stateChangeInfo := None;
      trail := [];
    }

    constructor Import(name: string, directory: string)
      ensures uuid == UNKNOWN_UUID && this.name == name && versionType == Imported
      ensures !isNew && gameDirectory == directory
      ensures stateChangeInfo == None && trail == []
    {
      uuid := UNKNOWN_UUID;
      this.name := name;
      versionType := Imported;
      isNew := false;
      gameDirectory := directory;
      stateChangeInfo := None;
      trail := [];
    }

    /** An imported entry always belongs to the main (non-Preview) package family. */
    predicate IsImported()
      ensures IsImported() <==> versionType == Imported
      ensures IsImported() ==> GamePackageFamily() == MINECRAFT
    {
      versionType == Imported
    }

    /** Only a Preview entry uses the Preview family. */
    function GamePackageFamily(): (f: string)
      ensures f == MINECRAFT_PREVIEW <==> versionType == Preview
      ensures f == MINECRAFT <==> versionType != Preview
    {
      PackageFamily(versionType)
    }

    /** The busy flag: an operation is in flight exactly when the slot is filled. */
    predicate IsStateChanging()
      reads this
      ensures IsStateChanging() <==> stateChangeInfo.Some?
    {
      stateChangeInfo.Some?
    }

    function Label(): string
      reads this
    {
      DisplayName(name, versionType, isNew)
    }

    /** Assigns the slot (the StateChangeInfo setter). */
    method SetStateChangeInfo(info: Option<StateChangeInfo>)
      modifies this
      ensures stateChangeInfo == info && isNew == old(isNew)
      ensures trail == old(trail) + [if info.Some? then Some(info.value.state) else None]
    {
      stateChangeInfo := info;
      trail := trail + [if info.Some? then Some(info.value.state) else None];
    }

    /** Changes the state of the slot in place, keeping its counters and cancel command. */
    method SetVersionState(s: VersionState)
      requires stateChangeInfo.Some?
      modifies this
      ensures stateChangeInfo == Some(old(stateChangeInfo).value.(state := s)) && isNew == old(isNew)
      ensures trail == old(trail) + [Some(s)]
    {
      stateChangeInfo := Some(stateChangeInfo.value.(state := s));
      trail := trail + [Some(s)];
    }

    /** The download progress callback. */
    method ReportProgress(e: ProgressEvent)
      requires stateChangeInfo.Some?
      modifies this
      ensures stateChangeInfo == Some(Progressed(old(stateChangeInfo).value, e)) && isNew == old(isNew)
      ensures trail == old(trail) + if old(stateChangeInfo).value.state != Downloading then [Some(Downloading)] else []
    {
      var info := stateChangeInfo.value;
      if info.state != Downloading {
        info := info.(state := Downloading);
        trail := trail + [Some(Downloading)];
        if e.total.Some? {
          info := info.(totalSize := e.total.value);
        }
      }
      stateChangeInfo := Some(info.(downloadedBytes := e.current));
    }
  }
}
