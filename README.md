# MCLauncher version lifecycle, modelled in Dafny

MCLauncher is a Windows launcher for Minecraft Bedrock. It keeps a list of game versions:
catalog versions that it downloads and unpacks into `Minecraft-<name>` or
`Minecraft-Preview-<name>`, and versions imported from a local `.appx` file into
`imported_versions\<file>`. To launch a version it re-registers that version's directory with
Windows in development mode. The registered package joins the family that the directory's
manifest declares, which for the game is the Minecraft or the Minecraft Preview family. Then
the launcher starts the family's package.

A development-mode package of the family is removed with its application data preserved, and
no backup is taken. Before the launcher removes any other package of the family, it moves the
family's private data folder to a temporary backup directory. After it registers the new
package, it merges the backup back in. It asks the user before it replaces a file.

This project models that lifecycle in five modules:

- `Options` holds the option type.
- `Versions` covers a version's derived names, its package family, its displayed label and
  status, and the progress callback. It also has the `Version` class, whose `stateChangeInfo`
  slot is the entry's busy flag.
- `DataFolder` models the data folder as a tree and restores a backup into it with the
  recursive `RestoreMove` merge.
- `Registrar` describes each host step as a function on a `Host` value. The value holds:
  - the installed packages, in enumeration order;
  - the data folders;
  - the backup;
  - a trace of host calls.

  The same module has the `Machine` class. It performs the steps in place, and each of its
  methods is proved against the matching function.
- `Lifecycle` has the `Launcher` class. It covers:
  - the launch guard and the launch task;
  - downloading and unpacking;
  - removal;
  - the import button.

Everything outside the launcher becomes an input: the host's answers, the downloader's
outcome, the archive's fate and the user's replies to prompts.

## Model

| member | source | states |
|---|---|---|
| Versions.CatalogNameInverse | MCLauncher/MainWindow.xaml.cs:546 | A catalog directory determines the version name: reading the name back from a directory succeeds exactly for the directory built from that name. |
| Versions.CatalogDirectory | MCLauncher/MainWindow.xaml.cs:546 | A catalog directory is `Minecraft-Preview-<name>` exactly for a Preview version and `Minecraft-<name>` exactly for every other type. |
| Versions.DownloadPath | MCLauncher/MainWindow.xaml.cs:338 | The download task spells out the file name again rather than reusing the entry's directory; it still comes out as the game directory's name followed by `.Appx`. |
| Versions.ImportedDirectory | MCLauncher/MainWindow.xaml.cs:137 | An imported version lives at `imported_versions\<file name>`, so it never lands in a directory that a catalog version of any type and name would use. |
| Versions.PreviewDirectoryIsSeparate | MCLauncher/MainWindow.xaml.cs:546 | A Preview version never shares its directory with a same-named version of another type. |
| Versions.PackageFamily | MCLauncher/MainWindow.xaml.cs:574-577 | Only Preview maps to the Preview package family; every other type, Imported included, maps to the Minecraft family. |
| Versions.DisplayName | MCLauncher/MainWindow.xaml.cs:581-590 | The displayed name starts with the version name. It equals the name exactly when the version is not Beta or Preview and is not new. |
| Versions.IsProgressIndeterminate | MCLauncher/MainWindow.xaml.cs:645-657 | The progress bar is indeterminate in every state except Downloading. |
| Versions.MiB | MCLauncher/MainWindow.xaml.cs:674 | The MiB figure is the byte count divided by 1024 twice with truncation: the whole number of mebibytes for a non-negative count, and the negated figure of the magnitude for a negative one. |
| Versions.DisplayStatus | MCLauncher/MainWindow.xaml.cs:669-682 | The status shows progress figures exactly when the state is Downloading. Both figures, downloaded and total, are whole mebibytes of their byte counts. Every other state has its own fixed status: Initializing is Preparing, Extracting is Unpacking, Registering, Launching and Uninstalling likewise. |
| Versions.ProgressOutcome | MCLauncher/MainWindow.xaml.cs:362-370 | After one or more progress reports the state is Downloading and the downloaded bytes are the last report's. The total size is set by the first report only, and only when that report carries one. |
| Versions.Progressed | MCLauncher/MainWindow.xaml.cs:362-370 | One progress report switches the slot to Downloading and records the reported bytes. It takes the report's total only if the slot was not yet Downloading and the report carries one. The cancel command is kept. |
| Versions.Version.Catalog | MCLauncher/MainWindow.xaml.cs:538-547 | A catalog entry's game directory is derived from its type and name, and it starts idle. |
| Versions.Version.Import | MCLauncher/MainWindow.xaml.cs:548-556 | An imported entry keeps the directory it is given, has the unknown-UUID sentinel and the Imported type, and starts idle. |
| Versions.Version.IsImported | MCLauncher/MainWindow.xaml.cs:568-570 | An entry is imported exactly when its type is Imported, and an imported entry uses the main Minecraft package family. |
| Versions.Version.GamePackageFamily | MCLauncher/MainWindow.xaml.cs:574-577 | An entry uses the Preview family exactly when it is a Preview version, and the main family otherwise. |
| Versions.Version.IsStateChanging | MCLauncher/MainWindow.xaml.cs:608 | An entry is busy exactly when its state-change slot is filled. |
| Versions.Version.SetStateChangeInfo | MCLauncher/MainWindow.xaml.cs:603-606 | Assigning the slot replaces it and records the new state, or the cleared slot, in the entry's state history. |
| Versions.Version.SetVersionState | MCLauncher/MainWindow.xaml.cs:636-643 | Setting the state of a busy entry changes only the state, and records it. |
| Versions.Version.ReportProgress | MCLauncher/MainWindow.xaml.cs:362-370 | One progress callback updates the slot to the progressed value. Downloading is recorded only on the first report. |
| DataFolder.RestoreMove | MCLauncher/MainWindow.xaml.cs:254-273 | The merge succeeds exactly when no I/O clash arises. It then leaves the destination and the backup as the restore specification describes, whatever order the directory listing gives. |
| DataFolder.MoveFiles | MCLauncher/MainWindow.xaml.cs:255-263 | Each backed-up file is moved over unless a same-named destination file is kept by a "no". A file meeting a directory is an error. |
| DataFolder.MergeSubdirectories | MCLauncher/MainWindow.xaml.cs:264-272 | Each backed-up directory is merged recursively. The loop keeps the invariant that the handled names match the specification. |
| DataFolder.MergeStep | MCLauncher/MainWindow.xaml.cs:265-271 | Handling one sub-directory extends the handled part of the specification by that name. |
| DataFolder.MergeOneDirectory | MCLauncher/MainWindow.xaml.cs:266-271 | A directory is created when missing, kept aside when a file blocks it and the user says no, and then merged. |
| DataFolder.RestoreIntoEmpty | MCLauncher/MainWindow.xaml.cs:254-273 | Restoring into an empty data folder cannot clash and gives back the backup exactly. |
| DataFolder.RestoreRules | MCLauncher/MainWindow.xaml.cs:255-272 | Per entry: a file moves unless a same-named file is kept by "no"; a directory blocked by a kept file stays in the backup; otherwise the directory is merged into the existing one or into a new empty one. |
| DataFolder.RestoreKeepsOtherEntries | MCLauncher/MainWindow.xaml.cs:254-273 | Destination names the backup does not hold are left alone, and no name is lost. |
| DataFolder.RestoreAnsweringYes | MCLauncher/MainWindow.xaml.cs:264-272 | With the corrected clash handling, answering yes everywhere lays the whole backup over the destination, as long as no file meets a directory. |
| DataFolder.AsWrittenFailsOverFile | MCLauncher/MainWindow.xaml.cs:267-269 | As written, a backed-up directory that meets a same-named file the user agrees to replace makes the restore fail. |
| DataFolder.DirectoryOverFileExample | MCLauncher/MainWindow.xaml.cs:267-269 | A concrete case: backup directory `games` over a data-folder file `games`, answered yes. It fails as written and succeeds with the correction. |
| Registrar.FindPackages | MCLauncher/MainWindow.xaml.cs:306 | The packages enumerated for a family are exactly the installed ones of that family. |
| Registrar.PackagePath | MCLauncher/MainWindow.xaml.cs:297-303 | A package whose installed location cannot be found has the path `""`; otherwise the path is its location. |
| Registrar.Without | MCLauncher/MainWindow.xaml.cs:289 | Removing a package by full name drops exactly the packages with that name. |
| Registrar.BackupSpec | MCLauncher/MainWindow.xaml.cs:241-252 | The backup refuses and changes nothing when the temporary directory already exists. Otherwise it moves the family's data folder into the backup and records the move. |
| Registrar.RemoveCall | MCLauncher/MainWindow.xaml.cs:289 | The host's removal call fails exactly for a rejected name, and then changes nothing. Otherwise it drops the packages with that name, records the call, and leaves the data folders and the backup alone. |
| Registrar.RemoveSpec | MCLauncher/MainWindow.xaml.cs:285-295 | A development-mode package is removed with PreserveApplicationData and no backup. Any other package first has its data folder moved to the backup; a refused backup stops the removal with nothing changed. After a successful backup the data has moved whether or not the host then accepts the removal: if it rejects it, the package stays and only the backup call is recorded. |
| Registrar.RegisterSpec | MCLauncher/MainWindow.xaml.cs:323-325 | Registration adds the development-mode package for `gameDir\AppxManifest.xml` and records the call, unless the host rejects it. The package joins the family the manifest declares, not the family the launcher asked for, and that family's data folder is created if missing. |
| Registrar.Registered | MCLauncher/MainWindow.xaml.cs:323-325 | The registered package is in development mode, located at the game directory, and in the family its manifest declares. |
| Registrar.RestoreSpec | MCLauncher/MainWindow.xaml.cs:275-283 | Restore does nothing without a backup. Otherwise the backup is merged into the family's data folder, using the merge rules as written (a directory over a file the user agrees to replace fails), and then deleted; a failure leaves the backup in place and reports the error. With a backup, the restore succeeds exactly when the merge does, and the family's folder becomes the merged folder. |
| Registrar.DoomedAmong | MCLauncher/MainWindow.xaml.cs:307-308 | Unregister selects exactly the packages whose location lookup failed (`""`) or equals the game directory. |
| Registrar.FirstAt | MCLauncher/MainWindow.xaml.cs:315-320 | The re-register scan stops at the first package located at the game directory, or runs to the end. |
| Registrar.UnregisterFrom | MCLauncher/MainWindow.xaml.cs:305-312 | Unregister never adds a package and never reaches the restore: every package installed afterwards was installed before. |
| Registrar.UnregisterSpec | MCLauncher/MainWindow.xaml.cs:305-312 | Unregistering the family makes exactly the removal calls of its selected packages in order, stopping part-way only on a failure; after success the installed packages are the previous ones minus the selected ones. |
| Registrar.ReRegisterFrom | MCLauncher/MainWindow.xaml.cs:314-328 | The only package a re-register can add is the development-mode registration of the game directory. |
| Registrar.ReRegisterSpec | MCLauncher/MainWindow.xaml.cs:314-328 | Re-registering the family removes the packages before the first one at the game directory, in order. When there is such a package the protocol ends there, with no registration. A failed restore happens only after the registration, with no package at the game directory found. A failure makes only a prefix of the planned removal calls. |
| Registrar.LaunchSpec | MCLauncher/MainWindow.xaml.cs:198-201 | When the family has a package, Launch records a launch of the family, or fails when the host rejects it. With no package it does nothing and succeeds. The model does not say which of the family's packages starts. |
| Registrar.UnregisterTrace | MCLauncher/MainWindow.xaml.cs:305-312 | Unregister removes the selected packages in enumeration order. A failure stops it part-way through that sequence of host calls. |
| Registrar.UnregisterPackages | MCLauncher/MainWindow.xaml.cs:305-312 | After a successful unregister, the installed packages are exactly the previous ones minus the selected ones. |
| Registrar.RegisterThenRestore | MCLauncher/MainWindow.xaml.cs:323-327 | Restore runs only after a successful registration, and its failure is reported after the registration is recorded. |
| Registrar.ReRegisterStep | MCLauncher/MainWindow.xaml.cs:315-322 | One removal in the re-register scan hands the rest of the scan on unchanged. |
| Registrar.ReRegisterOrder | MCLauncher/MainWindow.xaml.cs:314-328 | The scan removes every package before the first match, in order. If some package matches, nothing is registered or restored. Otherwise registration follows, and then the restore. |
| Registrar.ReRegisterFailure | MCLauncher/MainWindow.xaml.cs:314-322 | A failed removal leaves a prefix of the planned removals and nothing after them. |
| Registrar.FindAppend | MCLauncher/MainWindow.xaml.cs:325 | A newly registered package is enumerated after the existing ones. |
| Registrar.FindWithout | MCLauncher/MainWindow.xaml.cs:289 | Removing a package by name and then enumerating the family is the same as enumerating and then dropping that name. |
| Registrar.WithoutAbsent | MCLauncher/MainWindow.xaml.cs:289 | Removing a name no package has changes nothing. |
| Registrar.UniqueFind | MCLauncher/MainWindow.xaml.cs:306 | Enumerating a family keeps full names distinct. |
| Registrar.FoundAfterRemoval | MCLauncher/MainWindow.xaml.cs:315-321 | After the scan removes the current package, enumerating the family gives the rest of the scan. |
| Registrar.NameNotLater | MCLauncher/MainWindow.xaml.cs:315-321 | With distinct full names, the package being removed does not appear later in the scan. |
| Registrar.ReRegisterLeavesMatch | MCLauncher/MainWindow.xaml.cs:314-328 | When the manifest declares the requested family, a successful re-register leaves a package of the family at the game directory, first in enumeration order. |
| Registrar.ReRegisterIdempotent | MCLauncher/MainWindow.xaml.cs:314-328 | When the manifest declares the requested family, launching the same version again re-registers nothing: the second scan stops at once and changes nothing. |
| Registrar.RestoreAfterRegister | MCLauncher/MainWindow.xaml.cs:323-327 | When the manifest declares the requested family, registering and then restoring gives back the family's data folder as it was before the backup. |
| Registrar.KeepsDataFrom | MCLauncher/MainWindow.xaml.cs:314-328 | From any point of the scan where the data is safe, the rest of the re-register ends with the original data folder and no backup. |
| Registrar.ReRegisterKeepsData | MCLauncher/MainWindow.xaml.cs:314-328 | Switching versions keeps the user's data when no package of the family is already installed at the game directory, at most one package needs a backup, the manifest declares the requested family, and the host accepts every call. |
| Registrar.ReRegisterStrandsBackup | MCLauncher/MainWindow.xaml.cs:314-320 | As written, if the scan removes a package outside development mode and then meets a package already at the game directory, it ends normally with the family's data still in the backup and no data folder for the family. |
| Registrar.ReRegisterRestoringFrom | MCLauncher/MainWindow.xaml.cs:314-328 | The corrected scan, which restores the backup before the early return, also adds no package other than the game directory's registration. |
| Registrar.RestoreRecovers | MCLauncher/MainWindow.xaml.cs:275-283 | Restoring a backup of the family's data while the family has no data folder puts the folder back exactly, and removes the backup. |
| Registrar.RestoringKeepsDataFrom | MCLauncher/MainWindow.xaml.cs:314-328 | With the corrected scan, from any point where the data is safe, the rest of the re-register ends with the original data folder and no backup, whether or not a package at the game directory is met. |
| Registrar.ReRegisterRestoringKeepsData | MCLauncher/MainWindow.xaml.cs:314-328 | With the corrected scan, switching versions keeps the user's data even when a package of the family is already installed at the game directory. |
| Registrar.RegisterIntoDeclaredFamily | MCLauncher/MainWindow.xaml.cs:323-325 | A manifest that declares another family adds nothing to the requested family's packages. |
| Registrar.Machine.constructor | MCLauncher/MainWindow.xaml.cs:306 | The host starts with the given packages, data folders and backup, and an empty trace. |
| Registrar.Machine.BackupMinecraftDataForRemoval | MCLauncher/MainWindow.xaml.cs:241-252 | The in-place backup does what the backup specification says. |
| Registrar.Machine.RequestRemoval | MCLauncher/MainWindow.xaml.cs:289 | The host's removal call either removes the named package and records it, or is rejected with nothing changed. |
| Registrar.Machine.RemovePackage | MCLauncher/MainWindow.xaml.cs:285-295 | The in-place removal does what the removal specification says. |
| Registrar.Machine.UnregisterPackage | MCLauncher/MainWindow.xaml.cs:305-312 | The foreach loop over the family's packages removes the selected ones, as the unregister specification says. |
| Registrar.Machine.RegisterPackage | MCLauncher/MainWindow.xaml.cs:323-325 | The in-place registration does what the registration specification says, putting the package in the manifest's family. |
| Registrar.Machine.RestoreMinecraftDataFromReinstall | MCLauncher/MainWindow.xaml.cs:275-283 | The in-place restore runs the merge as written and reaches the restore specification's result, with packages and trace exact after a failure. |
| Registrar.Machine.ReRegisterPackage | MCLauncher/MainWindow.xaml.cs:314-328 | The foreach loop with its early return, then registration and restore, reaches the re-register specification's result. |
| Registrar.Machine.LaunchPackage | MCLauncher/MainWindow.xaml.cs:198-201 | The in-place launch does what the launch specification says. |
| Lifecycle.TierFor | MCLauncher/MainWindow.xaml.cs:339-341 | Only Beta versions use the signed-in downloader. |
| Lifecycle.FullPath | MCLauncher/MainWindow.xaml.cs:190 | The full path of a game directory is the working directory, a separator, then the relative directory. |
| Lifecycle.Verdict | MCLauncher/MainWindow.xaml.cs:346-405 | Each outcome has its own report. Success is reported exactly when sign-in, download and unpacking all succeed, and a sign-in failure exactly when sign-in fails. After a successful sign-in: a missing link, a network failure, a cancelled download (which shows no dialog) and an unpacking failure each give their own report. |
| Lifecycle.FirstImportedAt | MCLauncher/MainWindow.xaml.cs:140-141 | The conflict scan finds the first imported entry that owns the directory, or none. |
| Lifecycle.IndexOf | MCLauncher/MainWindow.xaml.cs:418 | The index of the first occurrence of an entry in the list, or the list length when it does not occur. |
| Lifecycle.Excluding | MCLauncher/MainWindow.xaml.cs:418 | Removing an entry from the list drops its first occurrence and nothing else. The entries before it keep their places and those after it move up by one, so the order is kept. |
| Lifecycle.DownloadShapes | MCLauncher/MainWindow.xaml.cs:332-407 | A download shows one of six state sequences: Initializing, optionally Downloading, Extracting when the download completed, and one or two clearings of the slot at the end. |
| Lifecycle.DownloadProgression | MCLauncher/MainWindow.xaml.cs:332-407 | A download's states run Initializing, then Downloading, then Extracting, never backwards, and it always ends with the slot cleared. |
| Lifecycle.DownloadStatesShown | MCLauncher/MainWindow.xaml.cs:361-388 | Extracting is shown exactly when sign-in and download succeed, and Downloading exactly when sign-in succeeds and some progress was reported. |
| Lifecycle.Launcher.constructor | MCLauncher/MainWindow.xaml.cs:41-42 | The launcher starts with no launch task and the sign-in not yet started. |
| Lifecycle.Launcher.IsInstalled | MCLauncher/MainWindow.xaml.cs:579 | A version is installed exactly when its game directory exists. |
| Lifecycle.Launcher.InvokeLaunch | MCLauncher/MainWindow.xaml.cs:184-188 | A launch request is refused while a launch task runs. Otherwise it sets the flag and starts. |
| Lifecycle.Launcher.LaunchTask | MCLauncher/MainWindow.xaml.cs:189-215 | The state goes Registering, then Launching after a successful re-register. On every exit path the flag is reset and the slot cleared. |
| Lifecycle.Launcher.StartGame | MCLauncher/MainWindow.xaml.cs:199-214 | The launch half starts the package under Launching, then resets the flag and clears the slot whether or not the start succeeds. |
| Lifecycle.Launcher.SelectDownloader | MCLauncher/MainWindow.xaml.cs:339-359 | A Beta download starts the shared sign-in only if nobody started it before, and then waits for its outcome. |
| Lifecycle.Launcher.RunDownload | MCLauncher/MainWindow.xaml.cs:361-371 | The download applies every progress report to the slot in order. A completed download leaves the package file. |
| Lifecycle.Launcher.ClearDirectory | MCLauncher/MainWindow.xaml.cs:390-391 | An existing game directory is deleted before extraction; a missing one is left alone. |
| Lifecycle.Launcher.Unpack | MCLauncher/MainWindow.xaml.cs:387-400 | An existing game directory is deleted before extraction. The directory exists afterwards exactly when the archive unpacked, and the package file is deleted after success when the preference asks for it. |
| Lifecycle.Launcher.Fetch | MCLauncher/MainWindow.xaml.cs:337-386 | Sign-in and download go on to unpacking only when both succeed. Otherwise the slot is cleared. The sign-in is started only by the first Beta download, the download is requested only after a successful sign-in, and only a completed download leaves the package file. |
| Lifecycle.Launcher.Install | MCLauncher/MainWindow.xaml.cs:387-408 | Unpacking runs under Extracting and clears the slot on failure, and twice on success. The directory is replaced and exists afterwards exactly on success; the package file is deleted only after success when the preference asks for it. |
| Lifecycle.Launcher.InvokeDownload | MCLauncher/MainWindow.xaml.cs:330-410 | Downloading clears the entry's new mark and shows exactly the state sequence of the download progression. The report matches what happened. A failed sign-in or download makes no extraction call and changes no file or directory. Once unpacking starts, the game directory is replaced and exists exactly when installed, and the package file stays unless the install succeeded and the preference deletes it. The calls made are exactly the sign-in, download and unpacking calls. |
| Lifecycle.Launcher.Remove | MCLauncher/MainWindow.xaml.cs:412-424 | Removal unregisters the selected packages and deletes the directory. On success the slot is cleared, an imported entry leaves the list and a catalog entry stays, no longer installed, and the directory deletion is the one call made. On failure the entry stays marked Uninstalling and no call is made. |
| Lifecycle.Launcher.DeleteVersion | MCLauncher/MainWindow.xaml.cs:415-423 | Once the packages are gone, a missing directory fails with nothing changed; otherwise the directory is deleted (one deletion call), the slot cleared, and an imported entry leaves the list. |
| Lifecycle.Launcher.FindImported | MCLauncher/MainWindow.xaml.cs:140-141 | The foreach scan returns the first imported entry owning the directory. |
| Lifecycle.Launcher.ResolveClash | MCLauncher/MainWindow.xaml.cs:138-160 | An existing target with no imported owner, a busy owner, or a declined prompt aborts with nothing changed, no entry included. An accepted prompt removes the owner first and leaves every other entry untouched. The family's packages at the directory are unregistered. The directory deletion is then the one call made, or no call is made when the removal fails. |
| Lifecycle.Launcher.ReplaceImported | MCLauncher/MainWindow.xaml.cs:138-172 | Importing over an existing directory aborts with nothing changed unless an idle imported entry owns it and the user agrees. Then the owner's packages are unregistered, and a failed removal adds nothing. Otherwise the owner leaves the list and the new entry is appended. The directory exists afterwards exactly when unpacking succeeded. The calls are the deletion, then the extraction. |
| Lifecycle.Launcher.AddImported | MCLauncher/MainWindow.xaml.cs:162-172 | A new imported entry is appended and unpacked under Extracting. It stays in the list even when unpacking fails, and its slot is cleared either way. |
| Lifecycle.Launcher.ImportButtonClicked | MCLauncher/MainWindow.xaml.cs:132-176 | The whole import: a cancelled dialog and every abort change nothing, no entry included. A free or freed target gets a new entry, replacing the removed owner in the list; the other entries are untouched. The owner's family packages are unregistered. Afterwards the target directory exists exactly when unpacking succeeded. The calls are the deletion of a freed target, then the extraction. |

## Left out

- All WPF presentation is left out: the list filters, `RefreshLists`, the version-list loading UI, the menus, and the message-box text. Message boxes that ask the user are inputs: the overwrite prompt in `Env`, and the import confirmation.
- Preferences persistence is left out. The "delete the package file after download" preference is a plain boolean input.
- `DeploymentProgressWrapper` and the WinRT async plumbing are left out. Each host call succeeds or fails according to the `Env` sets of rejected names.
- Concurrency is left out: `Task.Run`, `Dispatcher.Invoke`, `volatile` and `Interlocked.CompareExchange`. Operations run one after another. The one-shot sign-in is a flag that goes from unset to set.
- The downloader, the sign-in and `ZipFile.ExtractToDirectory` are foreign code and are not part of this model. Their outcomes are inputs: a list of progress reports and a result, a fixed sign-in outcome shared by all Beta downloads, and an unpacking result.
- The "remove all versions" menu is left out. It only starts several removals at once.
- The deletion of `AppxSignature.p7x` inside a freshly unpacked directory is left out, because the model does not track the contents of game directories.
- `UpdateInstallStatus` only raises a property-change notification and is left out. Whether a version is installed is `Launcher.IsInstalled`: its directory exists.
- `Path.GetFullPath` is modelled as the working directory, a backslash and the relative path (`Lifecycle.FullPath`).
- A registered package's full name is modelled as its manifest path. The real host derives it from the manifest's identity, which is not part of this model.
- Registrar.RemoveCall does not model what the host does to the data folder when it removes a package. The launcher moved that folder to the backup just before, or kept it with PreserveApplicationData.
- Registrar.RestoreSpec treats a missing family data folder as an empty one.
- Data-folder entry names are compared exactly. Windows file names ignore case, so a backed-up `Foo` meeting a data-folder `foo` prompts in the application (the `File.Exists` check at line 257), while in the model the two sit side by side. The launcher's own directory and file sets compare names exactly as well. The directory check at lines 138, 389 and 579 ignores case, but the owner match at line 141 is exact. So importing `Foo.appx` while an imported entry owns `imported_versions\foo.appx` aborts in the application (lines 154-157): the directory exists and no entry matches. In the model the target counts as free, so a new entry is added and extracted.
- Registrar.Machine.RestoreMinecraftDataFromReinstall: after a failed merge, the destination and the backup are left partly merged. The model pins down only the packages and the trace for that case, because the merge order comes from the directory listing.
- DataFolder.RestoreMove: after a failure, only the failure itself is promised. The partial result depends on the directory listing order.
- Lifecycle.Launcher.Unpack: an archive that fails to unpack is taken to be rejected before the target directory is created. Partially unpacked directories are not modelled.
- Lifecycle.Launcher.RunDownload: only a completed download leaves the package file. Partial files left by a failed download are not modelled.
- Lifecycle.Launcher.ImportButtonClicked: a failed removal during an import surfaces as the RemoveFailed report. In the application the exception escapes the event handler. `VersionList.AddEntry` is not part of this model and is taken to append an imported entry.
- Lifecycle.Launcher.InvokeDownload requires an idle entry, because the method itself never checks. Starting a download on a busy entry is the caller's responsibility.
- Versions.DisplayName: the localised tags are modelled as fixed strings. Only their presence or absence is proved.
- Integers are unbounded: the 64-bit byte counters are not modelled as wrapping.

## Findings

The registrar specification and the `Machine` follow the code as written. Each corrected definition stands beside it, with the intended property proved about it.

| source | as written | input that shows it | evidently intended | confidence | as-written member | corrected member |
|---|---|---|---|---|---|---|
| MCLauncher/MainWindow.xaml.cs:267-269 | When a backed-up directory meets a same-named file in the data folder and the user answers yes to "replace it?", `Directory.CreateDirectory` is called on the file's path. It throws, and the restore aborts part-way. | The backup holds a directory `games`, the data folder holds a file `games`, and the prompt is answered yes. | Delete the file, create the directory, and merge the backed-up directory into it. | not executed | DataFolder.AsWrittenFailsOverFile | DataFolder.RestoreAnsweringYes |
| MCLauncher/MainWindow.xaml.cs:314-320 | The re-register scan returns as soon as it meets a package installed at the game directory. An earlier package outside development mode may already have been removed, with the family's data moved to the backup, and the restore at line 327 is then skipped. | The family's packages are enumerated as P1, outside development mode and installed elsewhere, then P2, installed at the game directory; the host accepts the removal. | Restore the backup before the early return. | not executed; it needs two packages of one family installed at once | Registrar.ReRegisterStrandsBackup | Registrar.ReRegisterRestoringKeepsData |
