/** The host side of a version switch: the packages the host's package manager reports for a
    family, the backup of the family's data folder before a package is removed, the
    unregister and re-register protocols, and the restore of the backup once the new
    registration exists. Each host call is a step on a Host value (the specification
    functions below); the Machine class at the end performs the same steps in place, with the
    loops of the launcher, and is proved to reach what the functions describe. */
module Registrar {
  import opened Options
  import opened DataFolder

  /** A package as the package manager reports it. location is None when asking for the
      installed location throws FileNotFoundException. */
  datatype Package = Package(fullName: string, family: string, location: Option<string>, developmentMode: bool)

  /** The removal option passed to the package manager: 0, or PreserveApplicationData. */
  datatype RemovalOption = DefaultRemoval | PreserveApplicationData

  /** The host calls that change something, in the order they are made. */
  datatype Effect =
    | MovedDataToBackup(family: string)
    | RemovedPackage(fullName: string, option: RemovalOption)
    | RegisteredPackage(manifest: string)
    | RestoredBackup(family: string)
    | Launched(family: string)

  /** The installed packages, each family's local data folder, the temporary backup
      directory (None: it does not exist) and the host calls made so far. */
  datatype Host = Host(packages: seq<Package>, data: map<string, Folder>, backup: Option<Folder>, trace: seq<Effect>)

  /** What the host decides on its own: the package names whose removal it rejects, the
      manifests whose registration it rejects, the package family each manifest declares
      (the registered package joins that family, whichever family the launcher asked for),
      the families whose launch fails, and the user's answers to the overwrite prompt of the
      restore. */
  datatype Env = Env(removalRejected: set<string>, registrationRejected: set<string>,
                     declaredFamily: string -> string, launchRejected: set<string>, overwrite: Prompt)

  /** How a protocol ended: normally, by an exception, or by an exception thrown while the
      backup was being merged back (the data folder is then partly merged). */
  datatype Status = Ok | Threw | ThrewInRestore

  datatype Outcome = Outcome(host: Host, status: Status)

  const MANIFEST_NAME: string := "AppxManifest.xml"

  /** Path.Combine(gameDir, "AppxManifest.xml"). */
  function ManifestPath(gameDir: string): string
  {
    gameDir + "\\" + MANIFEST_NAME
  }

  /** The installed location, or "" when it cannot be found. */
  function PackagePath(p: Package): (r: string)
    ensures p.location.None? ==> r == ""
    ensures p.location.Some? ==> r == p.location.value
  {
    if p.location.Some? then p.location.value else ""
  }

  /** The packages of one family, in the package manager's order. */
  function FindPackages(ps: seq<Package>, family: string): (r: seq<Package>)
    ensures forall p :: p in r <==> p in ps && p.family == family
    ensures |r| <= |ps|
  {
    if ps == [] then []
    else (if ps[0].family == family then [ps[0]] else []) + FindPackages(ps[1..], family)
  }

  /** The package list once the package named name is removed. */
  function Without(ps: seq<Package>, name: string): (r: seq<Package>)
    ensures forall p :: p in r <==> p in ps && p.fullName != name
    ensures |r| <= |ps|
  {
    if ps == [] then []
    else (if ps[0].fullName != name then [ps[0]] else []) + Without(ps[1..], name)
  }

  /** Package full names identify packages. */
  predicate UniqueNames(ps: seq<Package>)
  {
    forall i, j :: 0 <= i < j < |ps| ==> ps[i].fullName != ps[j].fullName
  }

  /** The host calls made for removing one package of the given family. */
  function RemovalEffects(p: Package, family: string): seq<Effect>
  {
    if p.developmentMode then [RemovedPackage(p.fullName, PreserveApplicationData)]
    else [MovedDataToBackup(family), RemovedPackage(p.fullName, DefaultRemoval)]
  }

  /** The host calls made for removing the packages ps one after the other. */
  function RemovalsOf(ps: seq<Package>, family: string): seq<Effect>
  {
    if ps == [] then [] else RemovalEffects(ps[0], family) + RemovalsOf(ps[1..], family)
  }

  /** The host calls made for removing found[i], ..., found[k-1] one after the other. */
  function RemovalsIn(found: seq<Package>, i: nat, k: nat, family: string): seq<Effect>
    requires i <= k <= |found|
    decreases k - i
  {
    if i == k then [] else RemovalEffects(found[i], family) + RemovalsIn(found, i + 1, k, family)
  }

  /** BackupMinecraftDataForRemoval: the family's data folder is moved to the temporary
      backup directory, which must not exist yet. */
  function BackupSpec(h: Host, family: string): (r: Outcome)
    ensures r.status != ThrewInRestore
    ensures r.status == Ok <==> h.backup.None? && family in h.data
    ensures r.status == Ok ==>
      && r.host.backup == Some(h.data[family])
      && family !in r.host.data
      && r.host.data == h.data - {family}
      && r.host.packages == h.packages
      && r.host.trace == h.trace + [MovedDataToBackup(family)]
    ensures r.status == Threw ==> r.host == h
  {
    if h.backup.Some? || family !in h.data then Outcome(h, Threw)
    else Outcome(h.(data := h.data - {family}, backup := Some(h.data[family]),
                    trace := h.trace + [MovedDataToBackup(family)]), Ok)
  }

  /** The package manager's RemovePackageAsync call. */
  function RemoveCall(h: Host, env: Env, name: string, option: RemovalOption): (r: Outcome)
    ensures r.status != ThrewInRestore
    ensures r.status == Ok <==> name !in env.removalRejected
    ensures r.status == Ok ==>
      && r.host.packages == Without(h.packages, name)
      && r.host.data == h.data && r.host.backup == h.backup
      && r.host.trace == h.trace + [RemovedPackage(name, option)]
    ensures r.status == Threw ==> r.host == h
  {
    if name in env.removalRejected then Outcome(h, Threw)
    else Outcome(h.(packages := Without(h.packages, name), trace := h.trace + [RemovedPackage(name, option)]), Ok)
  }

  /** RemovePackage: a package in development mode is removed keeping its application data;
      any other package has its data backed up first and is then removed with option 0. */
  function RemoveSpec(h: Host, env: Env, pkg: Package, family: string): (r: Outcome)
    ensures r.status != ThrewInRestore
    ensures r.status == Ok <==>
      pkg.fullName !in env.removalRejected && (pkg.developmentMode || (h.backup.None? && family in h.data))
    ensures r.status == Ok ==>
      && r.host.packages == Without(h.packages, pkg.fullName)
      && r.host.trace == h.trace + RemovalEffects(pkg, family)
    ensures r.status == Threw ==> h.packages == r.host.packages && h.trace <= r.host.trace <= h.trace + RemovalEffects(pkg, family)
    ensures pkg.developmentMode ==> r.host.data == h.data && r.host.backup == h.backup
    ensures !pkg.developmentMode && (h.backup.Some? || family !in h.data) ==> r == Outcome(h, Threw)
    ensures !pkg.developmentMode && h.backup.None? && family in h.data ==>
      && r.host.backup == Some(h.data[family])
      && r.host.data == h.data - {family}
    ensures !pkg.developmentMode && h.backup.None? && family in h.data && r.status == Threw ==>
      && r.host.packages == h.packages
      && r.host.trace == h.trace + [MovedDataToBackup(family)]
  {
    if pkg.developmentMode then RemoveCall(h, env, pkg.fullName, PreserveApplicationData)
    else
      var b := BackupSpec(h, family);
      if b.status != Ok then b else RemoveCall(b.host, env, pkg.fullName, DefaultRemoval)
  }

  /** The package gameDir's manifest registers: named after the manifest, in the family the
      manifest declares, installed at gameDir, in development mode. */
  function Registered(env: Env, gameDir: string): (p: Package)
    ensures p.location == Some(gameDir) && PackagePath(p) == gameDir && p.developmentMode
    ensures p.family == env.declaredFamily(ManifestPath(gameDir))
  {
    var m := ManifestPath(gameDir);
    Package(m, env.declaredFamily(m), Some(gameDir), true)
  }

  /** The package manager's RegisterPackageAsync call in development mode on gameDir's
      manifest. The registered package's family is the manifest's; its data folder is created
      when it does not exist. */
  function RegisterSpec(h: Host, env: Env, gameDir: string): (r: Outcome)
    ensures r.status != ThrewInRestore
    ensures r.status == Ok <==> ManifestPath(gameDir) !in env.registrationRejected
    ensures r.status == Ok ==>
      var f := env.declaredFamily(ManifestPath(gameDir));
      && r.host.packages == h.packages + [Registered(env, gameDir)]
      && f in r.host.data
      && (f in h.data ==> r.host.data == h.data)
      && (f !in h.data ==> r.host.data == h.data[f := map[]])
      && r.host.backup == h.backup
      && r.host.trace == h.trace + [RegisteredPackage(ManifestPath(gameDir))]
    ensures r.status == Threw ==> r.host == h
  {
    var m := ManifestPath(gameDir);
    var f := env.declaredFamily(m);
    if m in env.registrationRejected then Outcome(h, Threw)
    else
      Outcome(h.(packages := h.packages + [Registered(env, gameDir)],
                 data := if f in h.data then h.data else h.data[f := map[]],
                 trace := h.trace + [RegisteredPackage(m)]), Ok)
  }

  /** The data folder the restore merges into: the family's, or an empty one. */
  function DataOf(h: Host, family: string): Folder
  {
    if family in h.data then h.data[family] else map[]
  }

  /** RestoreMinecraftDataFromReinstall: nothing happens without a backup; otherwise the
      backup is merged into the family's data folder and then deleted, together with
      whatever the user chose not to move. */
  function RestoreSpec(h: Host, env: Env, family: string): (r: Outcome)
    ensures r.status != Threw
    ensures h.backup.None? ==> r == Outcome(h, Ok)
    ensures r.host.packages == h.packages
    ensures r.status == Ok ==> r.host.backup.None?
    ensures r.status == Ok ==> r.host.trace == h.trace + if h.backup.Some? then [RestoredBackup(family)] else []
    ensures r.status == ThrewInRestore ==> h.backup.Some? && r.host == h
    ensures h.backup.Some? ==>
              (r.status == Ok <==> FolderOk(Dir(h.backup.value), DataOf(h, family), env.overwrite, [], AsWritten))
    ensures r.status == Ok && h.backup.Some? ==>
              r.host.data == h.data[family := RestoredInto(Dir(h.backup.value), DataOf(h, family), env.overwrite, [])]
  {
    if h.backup.None? then Outcome(h, Ok)
    else
      var b, to := Dir(h.backup.value), DataOf(h, family);
      if FolderOk(b, to, env.overwrite, [], AsWritten) then
        Outcome(h.(data := h.data[family := RestoredInto(b, to, env.overwrite, [])], backup := None,
                   trace := h.trace + [RestoredBackup(family)]), Ok)
      else Outcome(h, ThrewInRestore)
  }

  /** A package UnregisterPackage removes: its location is unknown or is the game directory. */
  predicate Doomed(p: Package, gameDir: string)
  {
    PackagePath(p) == "" || PackagePath(p) == gameDir
  }

  /** The doomed packages among ps, in order. */
  function DoomedAmong(ps: seq<Package>, gameDir: string): (r: seq<Package>)
    ensures forall p :: p in r <==> p in ps && Doomed(p, gameDir)
  {
    if ps == [] then []
    else (if Doomed(ps[0], gameDir) then [ps[0]] else []) + DoomedAmong(ps[1..], gameDir)
  }

  /** UnregisterPackage from the i-th package found on: each doomed package is removed; the
      first failing removal ends the scan. */
  function UnregisterFrom(h: Host, env: Env, found: seq<Package>, i: nat, family: string, gameDir: string): (r: Outcome)
    requires i <= |found|
    ensures r.status != ThrewInRestore
    ensures forall p :: p in r.host.packages ==> p in h.packages
    decreases |found| - i
  {
    if i == |found| then Outcome(h, Ok)
    else if Doomed(found[i], gameDir) then
      var o := RemoveSpec(h, env, found[i], family);
      if o.status != Ok then o else UnregisterFrom(o.host, env, found, i + 1, family, gameDir)
    else UnregisterFrom(h, env, found, i + 1, family, gameDir)
  }

  /** UnregisterPackage on the family's packages: it removes exactly the doomed ones, in the
      package manager's order, unless a removal fails. */
  function UnregisterSpec(h: Host, env: Env, family: string, gameDir: string): (r: Outcome)
    ensures r.status != ThrewInRestore
    ensures var doomed := DoomedAmong(FindPackages(h.packages, family), gameDir);
      && h.trace <= r.host.trace <= h.trace + RemovalsOf(doomed, family)
      && (r.status == Ok ==> r.host.trace == h.trace + RemovalsOf(doomed, family))
      && (r.status == Ok ==> forall p :: p in r.host.packages <==> p in h.packages && p.fullName !in NamesOf(doomed))
  {
    var found := FindPackages(h.packages, family);
    assert found[0..] == found;
    UnregisterTrace(h, env, found, 0, family, gameDir);
    UnregisterPackages(h, env, found, 0, family, gameDir);
    UnregisterFrom(h, env, found, 0, family, gameDir)
  }

  /** The index of the first package at or after i that is installed at gameDir, or |found|. */
  function FirstAt(found: seq<Package>, i: nat, gameDir: string): (k: nat)
    requires i <= |found|
    ensures i <= k <= |found|
    ensures forall j :: i <= j < k ==> PackagePath(found[j]) != gameDir
    ensures k < |found| ==> PackagePath(found[k]) == gameDir
    decreases |found| - i
  {
    if i == |found| || PackagePath(found[i]) == gameDir then i else FirstAt(found, i + 1, gameDir)
  }

  /** ReRegisterPackage from the i-th package found on: a package already installed at gameDir
      ends the protocol; any other is removed; once all are gone, gameDir's manifest is
      registered and the data backup restored. */
  function ReRegisterFrom(h: Host, env: Env, found: seq<Package>, i: nat, family: string, gameDir: string): (r: Outcome)
    requires i <= |found|
    ensures forall p :: p in r.host.packages ==> p in h.packages || p == Registered(env, gameDir)
    decreases |found| - i
  {
    if i == |found| then
      var r := RegisterSpec(h, env, gameDir);
      if r.status != Ok then r else RestoreSpec(r.host, env, family)
    else if PackagePath(found[i]) == gameDir then Outcome(h, Ok)
    else
      var o := RemoveSpec(h, env, found[i], family);
      if o.status != Ok then o else ReRegisterFrom(o.host, env, found, i + 1, family, gameDir)
  }

  /** ReRegisterPackage on the family's packages: the packages before the first one installed
      at gameDir are removed in order; if there is one, the protocol ends there; otherwise
      gameDir's manifest is registered and the backup restored. */
  function ReRegisterSpec(h: Host, env: Env, family: string, gameDir: string): (r: Outcome)
    ensures var found := FindPackages(h.packages, family);
      var k := FirstAt(found, 0, gameDir);
      var removals := h.trace + RemovalsIn(found, 0, k, family);
      && (r.status != Threw && k < |found| ==> r.host.trace == removals)
      && (r.status == ThrewInRestore ==> k == |found| && r.host.trace == removals + [RegisteredPackage(ManifestPath(gameDir))])
      && (r.status == Threw ==> h.trace <= r.host.trace <= removals)
  {
    var found := FindPackages(h.packages, family);
    ReRegisterOrder(h, env, found, 0, family, gameDir);
    ReRegisterFailure(h, env, found, 0, family, gameDir);
    ReRegisterFrom(h, env, found, 0, family, gameDir)
  }

  /** Launching through AppDiagnosticInfo: with no package of the family nothing is launched
      and no error is raised. */
  function LaunchSpec(h: Host, env: Env, family: string): (r: Outcome)
    ensures r.status != ThrewInRestore && r.host.packages == h.packages
    ensures r.status == Threw <==> FindPackages(h.packages, family) != [] && family in env.launchRejected
    ensures r.host.trace == if FindPackages(h.packages, family) != [] && r.status == Ok
                            then h.trace + [Launched(family)] else h.trace
  {
    if FindPackages(h.packages, family) == [] then Outcome(h, Ok)
    else if family in env.launchRejected then Outcome(h, Threw)
    else Outcome(h.(trace := h.trace + [Launched(family)]), Ok)
  }

  /** The machine state h is what outcome o describes. After a failed restore the partly
      merged data folder and the backup's remains are not determined. */
  predicate Reached(o: Outcome, h: Host, status: Status)
  {
    && o.status == status
    && o.host.packages == h.packages
    && o.host.trace == h.trace
    && (status == ThrewInRestore ==> h.backup.Some?)
    && (status != ThrewInRestore ==> h == o.host)
  }

  /** A trace that stopped within the calls x stopped within any longer list of calls x + y. */
  lemma PrefixWithin(a: seq<Effect>, x: seq<Effect>, y: seq<Effect>, c: seq<Effect>)
    requires a <= c <= a + x
    ensures a <= c <= a + (x + y)
  {
    assert a + (x + y) == (a + x) + y;
    assert forall j :: 0 <= j < |c| ==> c[j] == (a + x)[j] == ((a + x) + y)[j];
  }

  /** Calls x followed by calls made within y are calls made within x + y. */
  lemma PrefixAfter(a: seq<Effect>, x: seq<Effect>, y: seq<Effect>, c: seq<Effect>)
    requires a + x <= c <= (a + x) + y
    ensures a <= c <= a + (x + y)
  {
    assert a + (x + y) == (a + x) + y;
    assert forall j :: 0 <= j < |a| ==> c[j] == (a + x)[j] == a[j];
  }

  /** Unregistering makes the removal calls of the doomed packages of the family, one after
      the other in the package manager's order, and stops at the first removal that fails. */
  lemma {:induction false} UnregisterTrace(h: Host, env: Env, found: seq<Package>, i: nat, family: string, gameDir: string)
    requires i <= |found|
    ensures var o := UnregisterFrom(h, env, found, i, family, gameDir);
      && o.status != ThrewInRestore
      && h.trace <= o.host.trace <= h.trace + RemovalsOf(DoomedAmong(found[i..], gameDir), family)
      && (o.status == Ok ==> o.host.trace == h.trace + RemovalsOf(DoomedAmong(found[i..], gameDir), family))
    decreases |found| - i
  {
    if i < |found| {
      assert found[i..] == [found[i]] + found[i + 1..];
      var rest := DoomedAmong(found[i + 1..], gameDir);
      if Doomed(found[i], gameDir) {
        assert DoomedAmong(found[i..], gameDir) == [found[i]] + rest;
        var o1 := RemoveSpec(h, env, found[i], family);
        if o1.status == Ok {
          UnregisterTrace(o1.host, env, found, i + 1, family, gameDir);
          var o := UnregisterFrom(o1.host, env, found, i + 1, family, gameDir);
          PrefixAfter(h.trace, RemovalEffects(found[i], family), RemovalsOf(rest, family), o.host.trace);
        } else {
          PrefixWithin(h.trace, RemovalEffects(found[i], family), RemovalsOf(rest, family), o1.host.trace);
        }
      } else {
        assert DoomedAmong(found[i..], gameDir) == rest;
        UnregisterTrace(h, env, found, i + 1, family, gameDir);
      }
    }
  }

  function NamesOf(ps: seq<Package>): set<string>
  {
    set p | p in ps :: p.fullName
  }

  /** After a complete unregister, a package is still installed exactly when no doomed package
      of the family carries its name. */
  lemma {:induction false} UnregisterPackages(h: Host, env: Env, found: seq<Package>, i: nat, family: string, gameDir: string)
    requires i <= |found|
    ensures var o := UnregisterFrom(h, env, found, i, family, gameDir);
      o.status == Ok ==>
        forall p :: p in o.host.packages <==> p in h.packages && p.fullName !in NamesOf(DoomedAmong(found[i..], gameDir))
    decreases |found| - i
  {
    if i < |found| {
      assert found[i..] == [found[i]] + found[i + 1..];
      var rest := DoomedAmong(found[i + 1..], gameDir);
      if Doomed(found[i], gameDir) {
        assert DoomedAmong(found[i..], gameDir) == [found[i]] + rest;
        assert NamesOf([found[i]] + rest) == {found[i].fullName} + NamesOf(rest);
        var o1 := RemoveSpec(h, env, found[i], family);
        if o1.status == Ok {
          UnregisterPackages(o1.host, env, found, i + 1, family, gameDir);
        }
      } else {
        assert DoomedAmong(found[i..], gameDir) == rest;
        UnregisterPackages(h, env, found, i + 1, family, gameDir);
      }
    }
  }

  /** Registering and restoring, the end of a re-register that found no package at gameDir. */
  lemma RegisterThenRestore(h: Host, env: Env, family: string, gameDir: string)
    ensures var r := RegisterSpec(h, env, gameDir);
      var o := if r.status != Ok then r else RestoreSpec(r.host, env, family);
      var registered := h.trace + [RegisteredPackage(ManifestPath(gameDir))];
      && (o.status == Threw ==> o.host.trace == h.trace)
      && (o.status == ThrewInRestore ==> o.host.trace == registered)
      && (o.status == Ok ==> o.host.trace == registered || o.host.trace == registered + [RestoredBackup(family)])
  {
  }

  /** One removal step of the re-register scan. */
  lemma ReRegisterStep(h: Host, env: Env, found: seq<Package>, i: nat, family: string, gameDir: string)
    requires i < |found| && PackagePath(found[i]) != gameDir
    requires RemoveSpec(h, env, found[i], family).status == Ok
    ensures var o1, k := RemoveSpec(h, env, found[i], family), FirstAt(found, i, gameDir);
      && ReRegisterFrom(h, env, found, i, family, gameDir) == ReRegisterFrom(o1.host, env, found, i + 1, family, gameDir)
      && FirstAt(found, i + 1, gameDir) == k
      && h.trace + RemovalsIn(found, i, k, family) == o1.host.trace + RemovalsIn(found, i + 1, k, family)
  {
    var k := FirstAt(found, i, gameDir);
    var x, y := RemovalEffects(found[i], family), RemovalsIn(found, i + 1, k, family);
    assert h.trace + (x + y) == (h.trace + x) + y;
  }

  /** Re-registering scans the family's packages in order. Every package before the first one
      installed at gameDir is removed, in order; if there is such a package the scan stops
      there, with no registration and no restore; otherwise gameDir's manifest is registered
      and the backup, if any, restored. */
  lemma {:induction false} ReRegisterOrder(h: Host, env: Env, found: seq<Package>, i: nat, family: string, gameDir: string)
    requires i <= |found|
    ensures var o, k := ReRegisterFrom(h, env, found, i, family, gameDir), FirstAt(found, i, gameDir);
      var removals := h.trace + RemovalsIn(found, i, k, family);
      var registered := removals + [RegisteredPackage(ManifestPath(gameDir))];
      && (o.status != Threw && k < |found| ==> o.host.trace == removals)
      && (o.status == ThrewInRestore ==> k == |found| && o.host.trace == registered)
      && (o.status == Ok && k == |found| ==>
            o.host.trace == registered || o.host.trace == registered + [RestoredBackup(family)])
    decreases |found| - i
  {
    var k := FirstAt(found, i, gameDir);
    if i < |found| && PackagePath(found[i]) != gameDir {
      var o1 := RemoveSpec(h, env, found[i], family);
      if o1.status == Ok {
        ReRegisterStep(h, env, found, i, family, gameDir);
        ReRegisterOrder(o1.host, env, found, i + 1, family, gameDir);
      }
    } else if i == |found| {
      RegisterThenRestore(h, env, family, gameDir);
    }
  }

  /** A re-register that fails has made only some of the removal calls of the packages
      before the first one installed at gameDir, in order. */
  lemma {:induction false} ReRegisterFailure(h: Host, env: Env, found: seq<Package>, i: nat, family: string, gameDir: string)
    requires i <= |found|
    ensures var o, k := ReRegisterFrom(h, env, found, i, family, gameDir), FirstAt(found, i, gameDir);
      o.status == Threw ==> h.trace <= o.host.trace <= h.trace + RemovalsIn(found, i, k, family)
    decreases |found| - i
  {
    var k := FirstAt(found, i, gameDir);
    if i < |found| && PackagePath(found[i]) != gameDir {
      var x, y := RemovalEffects(found[i], family), RemovalsIn(found, i + 1, k, family);
      var o1 := RemoveSpec(h, env, found[i], family);
      if o1.status == Ok {
        ReRegisterFailure(o1.host, env, found, i + 1, family, gameDir);
        var o := ReRegisterFrom(o1.host, env, found, i + 1, family, gameDir);
        if o.status == Threw {
          PrefixAfter(h.trace, x, y, o.host.trace);
        }
      } else {
        PrefixWithin(h.trace, x, y, o1.host.trace);
      }
    } else if i == |found| {
      RegisterThenRestore(h, env, family, gameDir);
    }
  }

  lemma {:induction false} FindAppend(ps: seq<Package>, x: Package, family: string)
    ensures FindPackages(ps + [x], family) == FindPackages(ps, family) + if x.family == family then [x] else []
  {
    if ps != [] {
      assert (ps + [x])[1..] == ps[1..] + [x];
      FindAppend(ps[1..], x, family);
    }
  }

  lemma {:induction false} FindWithout(ps: seq<Package>, name: string, family: string)
    ensures FindPackages(Without(ps, name), family) == Without(FindPackages(ps, family), name)
  {
    if ps != [] {
      var a, t := ps[0], ps[1..];
      assert ps == [a] + t;
      var sel := if a.fullName != name && a.family == family then [a] else [];
      FindWithout(t, name, family);
      WithoutCons(a, t, name);
      if a.fullName != name {
        FindCons(a, Without(t, name), family);
        assert FindPackages(Without(ps, name), family) == sel + FindPackages(Without(t, name), family);
      } else {
        assert Without(ps, name) == Without(t, name);
        assert FindPackages(Without(ps, name), family) == sel + FindPackages(Without(t, name), family);
      }
      FindCons(a, t, family);
      if a.family == family {
        WithoutCons(a, FindPackages(t, family), name);
        assert Without(FindPackages(ps, family), name) == sel + Without(FindPackages(t, family), name);
      } else {
        assert FindPackages(ps, family) == FindPackages(t, family);
        assert Without(FindPackages(ps, family), name) == sel + Without(FindPackages(t, family), name);
      }
    }
  }

  lemma FindCons(a: Package, t: seq<Package>, family: string)
    ensures FindPackages([a] + t, family) == (if a.family == family then [a] else []) + FindPackages(t, family)
  {
    assert ([a] + t)[1..] == t;
  }

  lemma WithoutCons(a: Package, t: seq<Package>, name: string)
    ensures Without([a] + t, name) == (if a.fullName != name then [a] else []) + Without(t, name)
  {
    assert ([a] + t)[1..] == t;
  }

  lemma {:induction false} WithoutAbsent(ps: seq<Package>, name: string)
    requires forall p :: p in ps ==> p.fullName != name
    ensures Without(ps, name) == ps
  {
    if ps != [] {
      WithoutAbsent(ps[1..], name);
      assert ps == [ps[0]] + ps[1..];
    }
  }

  lemma {:induction false} UniqueFind(ps: seq<Package>, family: string)
    requires UniqueNames(ps)
    ensures UniqueNames(FindPackages(ps, family))
  {
    if ps != [] {
      UniqueFind(ps[1..], family);
      var rest := FindPackages(ps[1..], family);
      if ps[0].family == family {
        forall q | q in rest
          ensures q.fullName != ps[0].fullName
        {
          var j :| 0 <= j < |ps[1..]| && ps[1..][j] == q;
          assert ps[j + 1] == q;
        }
        var r := [ps[0]] + rest;
        forall a, b | 0 <= a < b < |r|
          ensures r[a].fullName != r[b].fullName
        {
          assert r[b] == rest[b - 1] && r[b] in rest;
        }
      }
    }
  }

  /** Removing the package found at i leaves the packages found after it. */
  lemma FoundAfterRemoval(ps: seq<Package>, found: seq<Package>, i: nat, family: string)
    requires i < |found| && UniqueNames(found)
    requires FindPackages(ps, family) == found[i..]
    ensures FindPackages(Without(ps, found[i].fullName), family) == found[i + 1..]
  {
    var a, n, rest := found[i], found[i].fullName, found[i + 1..];
    assert found[i..] == [a] + rest;
    NameNotLater(found, i);
    calc {
      FindPackages(Without(ps, n), family);
      { FindWithout(ps, n, family); }
      Without(FindPackages(ps, family), n);
      Without([a] + rest, n);
      { WithoutCons(a, rest, n); }
      [] + Without(rest, n);
      { assert [] + Without(rest, n) == Without(rest, n); WithoutAbsent(rest, n); }
      rest;
    }
  }

  lemma NameNotLater(found: seq<Package>, i: nat)
    requires i < |found| && UniqueNames(found)
    ensures forall p :: p in found[i + 1..] ==> p.fullName != found[i].fullName
  {
    forall p | p in found[i + 1..]
      ensures p.fullName != found[i].fullName
    {
      var j :| 0 <= j < |found[i + 1..]| && found[i + 1..][j] == p;
      assert found[i + 1 + j] == p;
    }
  }

  /** After a successful re-register, the family's first package is the one installed at
      gameDir, whether it was found there or has just been registered. */
  lemma {:induction false} ReRegisterLeavesMatch(h: Host, env: Env, found: seq<Package>, i: nat, family: string, gameDir: string)
    requires i <= |found| && UniqueNames(found)
    requires env.declaredFamily(ManifestPath(gameDir)) == family
    requires FindPackages(h.packages, family) == found[i..]
    ensures var o := ReRegisterFrom(h, env, found, i, family, gameDir);
      o.status == Ok ==>
        var f := FindPackages(o.host.packages, family);
        f != [] && PackagePath(f[0]) == gameDir
    decreases |found| - i
  {
    if i == |found| {
      var r := RegisterSpec(h, env, gameDir);
      if r.status == Ok {
        FindAppend(h.packages, Registered(env, gameDir), family);
      }
    } else if PackagePath(found[i]) != gameDir {
      var o1 := RemoveSpec(h, env, found[i], family);
      if o1.status == Ok {
        FoundAfterRemoval(h.packages, found, i, family);
        ReRegisterStep(h, env, found, i, family, gameDir);
        ReRegisterLeavesMatch(o1.host, env, found, i + 1, family, gameDir);
      }
    }
  }

  /** Re-registering a second time changes nothing: the package registered (or found) by the
      first run is found at gameDir straight away. */
  lemma ReRegisterIdempotent(h: Host, env: Env, family: string, gameDir: string)
    requires UniqueNames(h.packages)
    requires env.declaredFamily(ManifestPath(gameDir)) == family
    ensures var o := ReRegisterSpec(h, env, family, gameDir);
      o.status == Ok ==> ReRegisterSpec(o.host, env, family, gameDir) == Outcome(o.host, Ok)
  {
    var found := FindPackages(h.packages, family);
    UniqueFind(h.packages, family);
    assert found[0..] == found;
    ReRegisterLeavesMatch(h, env, found, 0, family, gameDir);
  }

  /** The family's data is either in place, or (after the one removal that backs it up) in
      the temporary backup directory. */
  predicate DataSafe(data0: map<string, Folder>, h: Host, family: string)
    requires family in data0
  {
    || (h.backup.None? && h.data == data0)
    || (h.backup == Some(data0[family]) && h.data == data0 - {family})
  }

  /** At most one of found[i..] is outside development mode, and none is once the backup exists. */
  predicate OneBackupAtMost(h: Host, found: seq<Package>, i: nat)
    requires i <= |found|
  {
    && (forall j, j' :: i <= j < j' < |found| ==> found[j].developmentMode || found[j'].developmentMode)
    && (h.backup.Some? ==> forall j :: i <= j < |found| ==> found[j].developmentMode)
  }

  /** Registering and restoring gives the data folder back as it was before the backup. */
  lemma RestoreAfterRegister(data0: map<string, Folder>, h: Host, env: Env, family: string, gameDir: string)
    requires family in data0 && DataSafe(data0, h, family)
    requires ManifestPath(gameDir) !in env.registrationRejected
    requires env.declaredFamily(ManifestPath(gameDir)) == family
    ensures var r := RegisterSpec(h, env, gameDir);
      var o := RestoreSpec(r.host, env, family);
      r.status == Ok && o.status == Ok && o.host.data == data0 && o.host.backup.None?
  {
    var r := RegisterSpec(h, env, gameDir);
    if h.backup.Some? {
      var b := Dir(data0[family]);
      assert DataOf(r.host, family) == map[];
      RestoreIntoEmpty(b, env.overwrite, [], AsWritten);
      assert (data0 - {family})[family := map[]][family := data0[family]] == data0;
    }
  }

  lemma {:induction false} KeepsDataFrom(data0: map<string, Folder>, h: Host, env: Env, found: seq<Package>, i: nat,
                                         family: string, gameDir: string)
    requires i <= |found| && family in data0
    requires DataSafe(data0, h, family) && OneBackupAtMost(h, found, i)
    requires forall j :: i <= j < |found| ==> PackagePath(found[j]) != gameDir && found[j].fullName !in env.removalRejected
    requires ManifestPath(gameDir) !in env.registrationRejected
    requires env.declaredFamily(ManifestPath(gameDir)) == family
    ensures var o := ReRegisterFrom(h, env, found, i, family, gameDir);
      o.status == Ok && o.host.data == data0 && o.host.backup.None?
    decreases |found| - i
  {
    if i == |found| {
      RestoreAfterRegister(data0, h, env, family, gameDir);
    } else {
      var o1 := RemoveSpec(h, env, found[i], family);
      assert o1.status == Ok;
      assert DataSafe(data0, o1.host, family);
      ReRegisterStep(h, env, found, i, family, gameDir);
      KeepsDataFrom(data0, o1.host, env, found, i + 1, family, gameDir);
    }
  }

  /** Switching versions keeps the user's data: when no package of the family is installed at
      gameDir, at most one of them needs a backup, and the host accepts every call, the
      re-register ends with the family's data folder exactly as it was and no backup left. */
  lemma ReRegisterKeepsData(h: Host, env: Env, family: string, gameDir: string)
    requires h.backup.None? && family in h.data
    requires var found := FindPackages(h.packages, family);
      && (forall j, j' :: 0 <= j < j' < |found| ==> found[j].developmentMode || found[j'].developmentMode)
      && (forall p :: p in found ==> PackagePath(p) != gameDir && p.fullName !in env.removalRejected)
    requires ManifestPath(gameDir) !in env.registrationRejected
    requires env.declaredFamily(ManifestPath(gameDir)) == family
    ensures var o := ReRegisterSpec(h, env, family, gameDir);
      o.status == Ok && o.host.data == h.data && o.host.backup.None?
  {
    KeepsDataFrom(h.data, h, env, FindPackages(h.packages, family), 0, family, gameDir);
  }

  /** As written, the scan can strand the backup: when it removes a package outside
      development mode (backing the data up) and then meets a later package already installed
      at gameDir, it returns normally without restoring, so the family is left with no data
      folder and its data sits in the temporary backup directory. */
  lemma ReRegisterStrandsBackup(h: Host, env: Env, family: string, gameDir: string)
    requires h.backup.None? && family in h.data
    requires var found := FindPackages(h.packages, family);
      && |found| >= 2
      && !found[0].developmentMode && PackagePath(found[0]) != gameDir
      && found[0].fullName !in env.removalRejected
      && PackagePath(found[1]) == gameDir
    ensures var o := ReRegisterSpec(h, env, family, gameDir);
      o.status == Ok && o.host.backup == Some(h.data[family]) && family !in o.host.data
  {
    var found := FindPackages(h.packages, family);
    var o1 := RemoveSpec(h, env, found[0], family);
    assert o1.status == Ok;
    assert ReRegisterFrom(h, env, found, 0, family, gameDir) == ReRegisterFrom(o1.host, env, found, 1, family, gameDir);
  }

  /** The scan as evidently intended: a package found at gameDir still ends the protocol, but
      only after the backup an earlier removal made has been restored. */
  function ReRegisterRestoringFrom(h: Host, env: Env, found: seq<Package>, i: nat, family: string, gameDir: string): (r: Outcome)
    requires i <= |found|
    ensures forall p :: p in r.host.packages ==> p in h.packages || p == Registered(env, gameDir)
    decreases |found| - i
  {
    if i == |found| then
      var r := RegisterSpec(h, env, gameDir);
      if r.status != Ok then r else RestoreSpec(r.host, env, family)
    else if PackagePath(found[i]) == gameDir then RestoreSpec(h, env, family)
    else
      var o := RemoveSpec(h, env, found[i], family);
      if o.status != Ok then o else ReRegisterRestoringFrom(o.host, env, found, i + 1, family, gameDir)
  }

  /** Restoring a backup that holds the family's data while the family has no data folder puts
      the data folder back as it was. */
  lemma RestoreRecovers(data0: map<string, Folder>, h: Host, env: Env, family: string)
    requires family in data0 && DataSafe(data0, h, family)
    ensures var o := RestoreSpec(h, env, family);
      o.status == Ok && o.host.data == data0 && o.host.backup.None?
  {
    if h.backup.Some? {
      assert DataOf(h, family) == map[];
      RestoreIntoEmpty(Dir(data0[family]), env.overwrite, [], AsWritten);
      assert (data0 - {family})[family := data0[family]] == data0;
    }
  }

  lemma {:induction false} RestoringKeepsDataFrom(data0: map<string, Folder>, h: Host, env: Env, found: seq<Package>, i: nat,
                                                  family: string, gameDir: string)
    requires i <= |found| && family in data0
    requires DataSafe(data0, h, family) && OneBackupAtMost(h, found, i)
    requires forall j :: i <= j < |found| ==> found[j].fullName !in env.removalRejected
    requires ManifestPath(gameDir) !in env.registrationRejected
    requires env.declaredFamily(ManifestPath(gameDir)) == family
    ensures var o := ReRegisterRestoringFrom(h, env, found, i, family, gameDir);
      o.status == Ok && o.host.data == data0 && o.host.backup.None?
    decreases |found| - i
  {
    if i == |found| {
      RestoreAfterRegister(data0, h, env, family, gameDir);
    } else if PackagePath(found[i]) == gameDir {
      RestoreRecovers(data0, h, env, family);
    } else {
      var o1 := RemoveSpec(h, env, found[i], family);
      assert o1.status == Ok;
      assert DataSafe(data0, o1.host, family);
      RestoringKeepsDataFrom(data0, o1.host, env, found, i + 1, family, gameDir);
    }
  }

  /** With the restore on the early return, the data is kept whether or not a package of the
      family is already installed at gameDir. */
  lemma ReRegisterRestoringKeepsData(h: Host, env: Env, family: string, gameDir: string)
    requires h.backup.None? && family in h.data
    requires OneBackupAtMost(h, FindPackages(h.packages, family), 0)
    requires forall p :: p in FindPackages(h.packages, family) ==> p.fullName !in env.removalRejected
    requires ManifestPath(gameDir) !in env.registrationRejected
    requires env.declaredFamily(ManifestPath(gameDir)) == family
    ensures var o := ReRegisterRestoringFrom(h, env, FindPackages(h.packages, family), 0, family, gameDir);
      o.status == Ok && o.host.data == h.data && o.host.backup.None?
  {
    var found := FindPackages(h.packages, family);
    assert forall j :: 0 <= j < |found| ==> found[j].fullName !in env.removalRejected by {
      forall j | 0 <= j < |found|
        ensures found[j].fullName !in env.removalRejected
      {
        assert found[j] in found;
      }
    }
    RestoringKeepsDataFrom(h.data, h, env, found, 0, family, gameDir);
  }

  /** A manifest that declares another family registers nothing into the requested one, so the
      requested family's packages are what the removals left. */
  lemma RegisterIntoDeclaredFamily(h: Host, env: Env, family: string, gameDir: string)
    requires env.declaredFamily(ManifestPath(gameDir)) != family
    ensures var r := RegisterSpec(h, env, gameDir);
      FindPackages(r.host.packages, family) == FindPackages(h.packages, family)
  {
    FindAppend(h.packages, Registered(env, gameDir), family);
  }

  /** The host as the launcher sees it, changed in place by each call. */
  class Machine {
    const env: Env
    var packages: seq<Package>
    var data: map<string, Folder>
    var backup: Option<Folder>
    var trace: seq<Effect>

    function State(): Host
      reads this
    {
      Host(packages, data, backup, trace)
    }

    constructor(env: Env, packages: seq<Package>, data: map<string, Folder>, backup: Option<Folder>)
      ensures this.env == env
      ensures State() == Host(packages, data, backup, [])
    {
      this.env := env;
      this.packages := packages;
      this.data := data;
      this.backup := backup;
      this.trace := [];
    }

    method BackupMinecraftDataForRemoval(family: string) returns (ok: bool)
      modifies this
      ensures Outcome(State(), if ok then Ok else Threw) == BackupSpec(old(State()), family)
    {
      if backup.Some? {
        // The temporary directory is left for the user to inspect; nothing is moved.
        return false;
      }
      if family !in data {
        return false;
      }
      backup := Some(data[family]);
      data := data - {family};
      trace := trace + [MovedDataToBackup(family)];
      ok := true;
    }

    /** The package manager's removal call. */
    method RequestRemoval(name: string, option: RemovalOption) returns (ok: bool)
      modifies this
      ensures Outcome(State(), if ok then Ok else Threw) == RemoveCall(old(State()), env, name, option)
    {
      if name in env.removalRejected {
        return false;
      }
      packages := Without(packages, name);
      trace := trace + [RemovedPackage(name, option)];
      ok := true;
    }

    method RemovePackage(pkg: Package, family: string) returns (ok: bool)
      modifies this
      ensures Outcome(State(), if ok then Ok else Threw) == RemoveSpec(old(State()), env, pkg, family)
    {
      if !pkg.developmentMode {
        ok := BackupMinecraftDataForRemoval(family);
        if !ok {
          return;
        }
        ok := RequestRemoval(pkg.fullName, DefaultRemoval);
      } else {
        ok := RequestRemoval(pkg.fullName, PreserveApplicationData);
      }
    }

    method UnregisterPackage(family: string, gameDir: string) returns (ok: bool)
      modifies this
      ensures Outcome(State(), if ok then Ok else Threw) == UnregisterSpec(old(State()), env, family, gameDir)
    {
      var found := FindPackages(packages, family);
      ghost var spec := UnregisterFrom(State(), env, found, 0, family, gameDir);
      var i := 0;
      while i < |found|
        invariant 0 <= i <= |found|
        invariant spec == UnregisterFrom(State(), env, found, i, family, gameDir)
      {
        var location := PackagePath(found[i]);
        if location == "" || location == gameDir {
          ok := RemovePackage(found[i], family);
          if !ok {
            return;
          }
        }
        i := i + 1;
      }
      ok := true;
    }

    /** The package manager's registration call, in development mode. */
    method RegisterPackage(gameDir: string) returns (ok: bool)
      modifies this
      ensures Outcome(State(), if ok then Ok else Threw) == RegisterSpec(old(State()), env, gameDir)
    {
      var manifest := ManifestPath(gameDir);
      if manifest in env.registrationRejected {
        return false;
      }
      var family := env.declaredFamily(manifest);
      packages := packages + [Package(manifest, family, Some(gameDir), true)];
      if family !in data {
        data := data[family := map[]];
      }
      trace := trace + [RegisteredPackage(manifest)];
      ok := true;
    }

    method RestoreMinecraftDataFromReinstall(family: string) returns (status: Status)
      modifies this
      ensures Reached(RestoreSpec(old(State()), env, family), State(), status)
    {
      if backup.None? {
        return Ok;
      }
      var to := if family in data then data[family] else map[];
      var left, into, ok := RestoreMove(Dir(backup.value), to, env.overwrite, [], AsWritten);
      data := data[family := into];
      if !ok {
        // The exception leaves the backup directory with whatever was not moved yet.
        backup := Some(left);
        return ThrewInRestore;
      }
      // The backup directory is deleted recursively, with the files the user chose to keep.
      backup := None;
      trace := trace + [RestoredBackup(family)];
      status := Ok;
    }

    method ReRegisterPackage(family: string, gameDir: string) returns (status: Status)
      modifies this
      ensures Reached(ReRegisterSpec(old(State()), env, family, gameDir), State(), status)
    {
      var found := FindPackages(packages, family);
      ghost var spec := ReRegisterFrom(State(), env, found, 0, family, gameDir);
      var i := 0;
      while i < |found|
        invariant 0 <= i <= |found|
        invariant spec == ReRegisterFrom(State(), env, found, i, family, gameDir)
      {
        if PackagePath(found[i]) == gameDir {
          // Already registered from this directory: nothing more to do.
          return Ok;
        }
        var ok := RemovePackage(found[i], family);
        if !ok {
          return Threw;
        }
        i := i + 1;
      }
      var ok := RegisterPackage(gameDir);
      if !ok {
        return Threw;
      }
      status := RestoreMinecraftDataFromReinstall(family);
    }

    /** Launching the family's first package through the diagnostic API. */
    method LaunchPackage(family: string) returns (ok: bool)
      modifies this
      ensures Outcome(State(), if ok then Ok else Threw) == LaunchSpec(old(State()), env, family)
    {
      if FindPackages(packages, family) == [] {
        return true;
      }
      if family in env.launchRejected {
        return false;
      }
      trace := trace + [Launched(family)];
      ok := true;
    }
  }
}
