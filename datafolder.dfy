/** The application's private data folder as a tree, and the restore step that merges a
    backup into it after a reinstall: files are moved over one by one, the user is asked
    before a same-named destination file is replaced, and sub-directories are merged
    recursively. */
module DataFolder {
  import opened Options

  datatype Node = File(data: int) | Dir(entries: map<string, Node>)

  /** The entries of one directory, by name. */
  type Folder = map<string, Node>

  /** A path below the data folder, one name per level. */
  type Path = seq<string>

  /** The user's answer to "the destination already holds this; replace it?", by destination path. */
  type Prompt = Path -> bool

  /** What happens when a backed-up directory meets a same-named file that the user agreed to replace.
      AsWritten: Directory.CreateDirectory is called on the file's path and throws.
      ReplaceFile: the file is deleted and the directory created, as the prompt promises. */
  datatype ClashPolicy = AsWritten | ReplaceFile

  function Lookup(f: Folder, n: string): Option<Node>
  {
    if n in f then Some(f[n]) else None
  }

  /** The destination entry left by restoring source entry s over d (d absent: None) at path p. */
  function RestoredEntry(s: Node, d: Option<Node>, yes: Prompt, p: Path): Node
    decreases s, 1
  {
    match s
    case File(_) => if d.Some? && d.value.File? && !yes(p) then d.value else s
    case Dir(_) =>
      if d.Some? && d.value.Dir? then Dir(RestoredInto(s, d.value.entries, yes, p))
      else if d.Some? && !yes(p) then d.value
      else Dir(RestoredInto(s, map[], yes, p))
  }

  /** The destination directory after merging source directory s into dst. */
  function RestoredInto(s: Node, dst: Folder, yes: Prompt, p: Path): Folder
    requires s.Dir?
    decreases s, 0
  {
    map n | n in s.entries.Keys + dst.Keys ::
      if n in s.entries then RestoredEntry(s.entries[n], Lookup(dst, n), yes, p + [n]) else dst[n]
  }

  /** What remains of source entry s in the backup after the merge (None: it was moved away).
      Directories themselves are never moved, only emptied. */
  function LeftEntry(s: Node, d: Option<Node>, yes: Prompt, p: Path): Option<Node>
    decreases s, 1
  {
    match s
    case File(_) => if d.Some? && d.value.File? && !yes(p) then Some(s) else None
    case Dir(_) =>
      if d.Some? && d.value.Dir? then Some(Dir(LeftIn(s, d.value.entries, yes, p)))
      else if d.Some? && !yes(p) then Some(s)
      else Some(Dir(LeftIn(s, map[], yes, p)))
  }

  function LeftIn(s: Node, dst: Folder, yes: Prompt, p: Path): Folder
    requires s.Dir?
    decreases s, 0
  {
    map n | n in s.entries && LeftEntry(s.entries[n], Lookup(dst, n), yes, p + [n]).Some? ::
      LeftEntry(s.entries[n], Lookup(dst, n), yes, p + [n]).value
  }

  /** The merge of s over d completes without an I/O error: a file is never moved onto a
      directory, and (as written) a directory is never created over a file. */
  predicate EntryOk(s: Node, d: Option<Node>, yes: Prompt, p: Path, policy: ClashPolicy)
    decreases s, 1
  {
    match s
    case File(_) => !(d.Some? && d.value.Dir?)
    case Dir(_) =>
      if d.Some? && d.value.Dir? then FolderOk(s, d.value.entries, yes, p, policy)
      else if d.Some? && !yes(p) then true
      else (d.None? || policy == ReplaceFile) && FolderOk(s, map[], yes, p, policy)
  }

  predicate FolderOk(s: Node, dst: Folder, yes: Prompt, p: Path, policy: ClashPolicy)
    requires s.Dir?
    decreases s, 0
  {
    forall n :: n in s.entries ==> EntryOk(s.entries[n], Lookup(dst, n), yes, p + [n], policy)
  }

  /** The destination once the names in done have been handled and the others not yet. */
  function IntoAfter(from: Node, to: Folder, yes: Prompt, p: Path, done: set<string>): Folder
    requires from.Dir? && done <= from.entries.Keys
  {
    map n | n in to.Keys + done ::
      if n in done then RestoredEntry(from.entries[n], Lookup(to, n), yes, p + [n]) else to[n]
  }

  /** The backup once the names in done have been handled and the others not yet. */
  function LeftAfter(from: Node, to: Folder, yes: Prompt, p: Path, done: set<string>): Folder
    requires from.Dir? && done <= from.entries.Keys
  {
    map n | n in from.entries && (n in done ==> LeftEntry(from.entries[n], Lookup(to, n), yes, p + [n]).Some?) ::
      if n in done then LeftEntry(from.entries[n], Lookup(to, n), yes, p + [n]).value else from.entries[n]
  }

  ghost predicate OkAfter(from: Node, to: Folder, yes: Prompt, p: Path, policy: ClashPolicy, done: set<string>)
    requires from.Dir? && done <= from.entries.Keys
  {
    forall n :: n in done ==> EntryOk(from.entries[n], Lookup(to, n), yes, p + [n], policy)
  }

  /** Handling one more name n gives its destination entry and its remainder their final values. */
  lemma HandleOne(from: Node, to: Folder, yes: Prompt, p: Path, done: set<string>, n: string)
    requires from.Dir? && done <= from.entries.Keys
    requires n in from.entries && n !in done
    ensures Lookup(IntoAfter(from, to, yes, p, done), n) == Lookup(to, n)
    ensures IntoAfter(from, to, yes, p, done + {n}) ==
              IntoAfter(from, to, yes, p, done)[n := RestoredEntry(from.entries[n], Lookup(to, n), yes, p + [n])]
    ensures var l := LeftEntry(from.entries[n], Lookup(to, n), yes, p + [n]);
            LeftAfter(from, to, yes, p, done + {n}) ==
              if l.Some? then LeftAfter(from, to, yes, p, done)[n := l.value]
              else LeftAfter(from, to, yes, p, done) - {n}
  {
    HandleOneLeft(from, to, yes, p, done, n);
  }

  lemma HandleOneLeft(from: Node, to: Folder, yes: Prompt, p: Path, done: set<string>, n: string)
    requires from.Dir? && done <= from.entries.Keys
    requires n in from.entries && n !in done
    ensures var l := LeftEntry(from.entries[n], Lookup(to, n), yes, p + [n]);
            LeftAfter(from, to, yes, p, done + {n}) ==
              if l.Some? then LeftAfter(from, to, yes, p, done)[n := l.value]
              else LeftAfter(from, to, yes, p, done) - {n}
  {
  }

  /** One backed-up directory e meeting destination entry d at path q. */
  lemma DirectoryStep(e: Node, d: Option<Node>, yes: Prompt, q: Path, policy: ClashPolicy)
    requires e.Dir?
    ensures d.Some? && d.value.File? && !yes(q) ==>
      RestoredEntry(e, d, yes, q) == d.value && LeftEntry(e, d, yes, q) == Some(e) && EntryOk(e, d, yes, q, policy)
    ensures !(d.Some? && d.value.File? && !yes(q)) ==>
      var target := if d.Some? && d.value.Dir? then d.value.entries else map[];
      && RestoredEntry(e, d, yes, q) == Dir(RestoredInto(e, target, yes, q))
      && LeftEntry(e, d, yes, q) == Some(Dir(LeftIn(e, target, yes, q)))
      && EntryOk(e, d, yes, q, policy) ==
           ((d.Some? && d.value.File? ==> policy == ReplaceFile) && FolderOk(e, target, yes, q, policy))
  {
  }

  /** Once every name is handled, the loop state is the specified result. */
  lemma HandledAll(from: Node, to: Folder, yes: Prompt, p: Path, policy: ClashPolicy)
    requires from.Dir?
    ensures IntoAfter(from, to, yes, p, from.entries.Keys) == RestoredInto(from, to, yes, p)
    ensures LeftAfter(from, to, yes, p, from.entries.Keys) == LeftIn(from, to, yes, p)
    ensures OkAfter(from, to, yes, p, policy, from.entries.Keys) == FolderOk(from, to, yes, p, policy)
  {
  }

  /** Merges source directory from (the backup) into the destination directory to: first the
      files (MoveFiles), then the sub-directories (MergeSubdirectories), each in the file
      system's enumeration order, which is left unspecified here. Returns what remains of the
      source, the new destination and whether the merge ran to the end; on an I/O error it
      stops where it was. */
  method RestoreMove(from: Node, to: Folder, yes: Prompt, p: Path, policy: ClashPolicy)
    returns (left: Folder, into: Folder, ok: bool)
    requires from.Dir?
    ensures ok == FolderOk(from, to, yes, p, policy)
    ensures ok ==> left == LeftIn(from, to, yes, p) && into == RestoredInto(from, to, yes, p)
    decreases from, 2
  {
    left, into, ok := MoveFiles(from, to, yes, p, policy);
    if ok {
      left, into, ok := MergeSubdirectories(from, to, yes, p, policy, left, into);
      if ok {
        HandledAll(from, to, yes, p, policy);
      }
    }
  }

  /** The first loop of RestoreMove: each backed-up file is moved over, unless a same-named
      destination file exists and the user declines to replace it. */
  method MoveFiles(from: Node, to: Folder, yes: Prompt, p: Path, policy: ClashPolicy)
    returns (left: Folder, into: Folder, ok: bool)
    requires from.Dir?
    ensures !ok ==> !FolderOk(from, to, yes, p, policy)
    ensures ok ==> var files := set n | n in from.entries && from.entries[n].File?;
      && left == LeftAfter(from, to, yes, p, files)
      && into == IntoAfter(from, to, yes, p, files)
      && OkAfter(from, to, yes, p, policy, files)
  {
    var src := from.entries;
    var files := set n | n in src && src[n].File?;
    ghost var done: set<string> := {};
    left, into, ok := src, to, true;
    assert left == LeftAfter(from, to, yes, p, done);
    assert into == IntoAfter(from, to, yes, p, done);
    while files != {}
      invariant files !! done && files + done == set n | n in src && src[n].File?
      invariant left == LeftAfter(from, to, yes, p, done)
      invariant into == IntoAfter(from, to, yes, p, done)
      invariant OkAfter(from, to, yes, p, policy, done)
      decreases files
    {
      var n :| n in files;
      HandleOne(from, to, yes, p, done, n);
      var d := Lookup(into, n);
      if d.Some? && d.value.Dir? {
        // File.Move onto an existing directory fails.
        assert !EntryOk(src[n], Lookup(to, n), yes, p + [n], policy);
        ok := false;
        return;
      }
      if !(d.Some? && d.value.File? && !yes(p + [n])) {
        into := into[n := src[n]];
        left := left - {n};
      } else {
        into := into[n := d.value];
        left := left[n := src[n]];
      }
      files := files - {n};
      done := done + {n};
    }
  }

  /** The loop state of RestoreMove once the names in done have been handled. */
  ghost predicate Progress(from: Node, to: Folder, yes: Prompt, p: Path, policy: ClashPolicy,
                           done: set<string>, left: Folder, into: Folder)
    requires from.Dir?
  {
    && done <= from.entries.Keys
    && left == LeftAfter(from, to, yes, p, done)
    && into == IntoAfter(from, to, yes, p, done)
    && OkAfter(from, to, yes, p, policy, done)
  }

  /** The second loop of RestoreMove: each backed-up directory is merged recursively into the
      same-named destination directory, which is created first when missing. */
  method MergeSubdirectories(from: Node, to: Folder, yes: Prompt, p: Path, policy: ClashPolicy,
                             left0: Folder, into0: Folder)
    returns (left: Folder, into: Folder, ok: bool)
    requires from.Dir?
    requires Progress(from, to, yes, p, policy, (set n | n in from.entries && from.entries[n].File?), left0, into0)
    ensures !ok ==> !FolderOk(from, to, yes, p, policy)
    ensures ok ==> Progress(from, to, yes, p, policy, from.entries.Keys, left, into)
    decreases from, 1
  {
    var src := from.entries;
    var dirs := set n | n in src && src[n].Dir?;
    ghost var done := set n | n in src && src[n].File?;
    left, into, ok := left0, into0, true;
    while dirs != {}
      invariant dirs !! done && dirs + done == src.Keys
      invariant forall n :: n in dirs ==> src[n].Dir?
      invariant Progress(from, to, yes, p, policy, done, left, into)
      decreases dirs
    {
      var n :| n in dirs;
      left, into, ok := MergeStep(from, to, yes, p, policy, done, left, into, n);
      if !ok {
        return;
      }
      dirs := dirs - {n};
      done := done + {n};
    }
    assert done == src.Keys;
  }

  /** One iteration of the second loop: the backed-up directory named n is merged. */
  method MergeStep(from: Node, to: Folder, yes: Prompt, p: Path, policy: ClashPolicy,
                   ghost done: set<string>, left0: Folder, into0: Folder, n: string)
    returns (left: Folder, into: Folder, ok: bool)
    requires from.Dir? && n in from.entries && n !in done && from.entries[n].Dir?
    requires Progress(from, to, yes, p, policy, done, left0, into0)
    ensures !ok ==> !FolderOk(from, to, yes, p, policy)
    ensures ok ==> Progress(from, to, yes, p, policy, done + {n}, left, into)
    decreases from, 0
  {
    HandleOne(from, to, yes, p, done, n);
    var i, l;
    i, l, ok := MergeOneDirectory(from.entries[n], Lookup(into0, n), yes, p + [n], policy);
    into, left := into0[n := i], left0[n := l];
  }

  /** The body of the second loop for one backed-up directory e meeting destination entry d. */
  method MergeOneDirectory(e: Node, d: Option<Node>, yes: Prompt, q: Path, policy: ClashPolicy)
    returns (into: Node, left: Node, ok: bool)
    requires e.Dir?
    ensures ok == EntryOk(e, d, yes, q, policy)
    ensures ok ==> into == RestoredEntry(e, d, yes, q) && LeftEntry(e, d, yes, q) == Some(left)
    decreases e, 3
  {
    DirectoryStep(e, d, yes, q, policy);
    if d.Some? && d.value.File? && !yes(q) {
      // The user kept the file: the whole sub-tree stays in the backup.
      return d.value, e, true;
    }
    if d.Some? && d.value.File? && policy == AsWritten {
      // Directory.CreateDirectory on the path of an existing file throws.
      return d.value, e, false;
    }
    var target := if d.Some? && d.value.Dir? then d.value.entries else map[];
    var l, i;
    l, i, ok := RestoreMove(e, target, yes, q, policy);
    into, left := Dir(i), Dir(l);
  }

  /** Restoring into an empty folder never fails and reproduces the backup exactly. */
  lemma {:induction false} RestoreIntoEmpty(s: Node, yes: Prompt, p: Path, policy: ClashPolicy)
    requires s.Dir?
    ensures FolderOk(s, map[], yes, p, policy)
    ensures RestoredInto(s, map[], yes, p) == s.entries
  {
    forall n | n in s.entries
      ensures EntryOk(s.entries[n], None, yes, p + [n], policy)
      ensures RestoredEntry(s.entries[n], None, yes, p + [n]) == s.entries[n]
    {
      if s.entries[n].Dir? {
        RestoreIntoEmpty(s.entries[n], yes, p + [n], policy);
      }
    }
    assert forall n :: Lookup(map[], n) == None;
  }

  /** The per-name rules of the merge, for a name n of the backup directory s. */
  lemma RestoreRules(s: Node, dst: Folder, yes: Prompt, p: Path, n: string)
    requires s.Dir? && n in s.entries
    ensures var r, l, e := RestoredInto(s, dst, yes, p), LeftIn(s, dst, yes, p), s.entries[n];
      && (e.File? && n in dst && dst[n].File? && !yes(p + [n]) ==>
            r[n] == dst[n] && n in l && l[n] == e)
      && (e.File? && !(n in dst && dst[n].File? && !yes(p + [n])) ==> r[n] == e && n !in l)
      && (e.Dir? && n in dst && dst[n].File? && !yes(p + [n]) ==> r[n] == dst[n] && n in l && l[n] == e)
      && (e.Dir? && n !in dst ==> r[n] == Dir(RestoredInto(e, map[], yes, p + [n])))
      && (e.Dir? && n in dst && dst[n].Dir? ==> r[n] == Dir(RestoredInto(e, dst[n].entries, yes, p + [n])))
  {
  }

  /** Names of the destination that the backup does not hold are left alone. */
  lemma RestoreKeepsOtherEntries(s: Node, dst: Folder, yes: Prompt, p: Path)
    requires s.Dir?
    ensures RestoredInto(s, dst, yes, p).Keys == s.entries.Keys + dst.Keys
    ensures forall n :: n in dst && n !in s.entries ==> RestoredInto(s, dst, yes, p)[n] == dst[n]
  {
  }

  /** The backup laid over the destination: every backed-up file wins, directories merge. */
  function Overlay(s: Node, dst: Folder): Folder
    requires s.Dir?
    decreases s
  {
    map n | n in s.entries.Keys + dst.Keys ::
      if n !in s.entries then dst[n]
      else if s.entries[n].File? then s.entries[n]
      else Dir(Overlay(s.entries[n], if n in dst && dst[n].Dir? then dst[n].entries else map[]))
  }

  /** No backed-up file meets a same-named destination directory. */
  predicate NoDirBlocksFile(s: Node, dst: Folder)
    requires s.Dir?
    decreases s
  {
    forall n :: n in s.entries ==>
      if s.entries[n].File? then !(n in dst && dst[n].Dir?)
      else n in dst && dst[n].Dir? ==> NoDirBlocksFile(s.entries[n], dst[n].entries)
  }

  /** With the file-replacing fix, answering yes to every prompt restores the whole backup
      over the destination whenever no file meets a directory. */
  lemma {:induction false} RestoreAnsweringYes(s: Node, dst: Folder, yes: Prompt, p: Path)
    requires s.Dir? && NoDirBlocksFile(s, dst)
    requires forall q :: yes(q)
    ensures FolderOk(s, dst, yes, p, ReplaceFile)
    ensures RestoredInto(s, dst, yes, p) == Overlay(s, dst)
  {
    forall n | n in s.entries
      ensures EntryOk(s.entries[n], Lookup(dst, n), yes, p + [n], ReplaceFile)
      ensures RestoredEntry(s.entries[n], Lookup(dst, n), yes, p + [n]) == Overlay(s, dst)[n]
    {
      var e := s.entries[n];
      if e.Dir? {
        var sub := if n in dst && dst[n].Dir? then dst[n].entries else map[];
        RestoreAnsweringYes(e, sub, yes, p + [n]);
      }
    }
  }

  /** As written, a backed-up directory meeting a destination file that the user agreed to
      replace makes the whole restore fail. */
  lemma AsWrittenFailsOverFile(s: Node, dst: Folder, yes: Prompt, p: Path, n: string)
    requires s.Dir? && n in s.entries && s.entries[n].Dir?
    requires n in dst && dst[n].File? && yes(p + [n])
    ensures !FolderOk(s, dst, yes, p, AsWritten)
  {
    assert !EntryOk(s.entries[n], Lookup(dst, n), yes, p + [n], AsWritten);
  }

  /** The concrete case: backup holds directory "games", the fresh data folder holds a file
      "games", the user answers yes. As written the restore fails; with the fix it succeeds
      and the directory replaces the file. */
  lemma DirectoryOverFileExample()
    ensures !FolderOk(Dir(map["games" := Dir(map[])]), map["games" := File(0)], q => true, [], AsWritten)
    ensures FolderOk(Dir(map["games" := Dir(map[])]), map["games" := File(0)], q => true, [], ReplaceFile)
    ensures RestoredInto(Dir(map["games" := Dir(map[])]), map["games" := File(0)], q => true, [])
              == map["games" := Dir(map[])]
  {
    var s, dst := Dir(map["games" := Dir(map[])]), map["games" := File(0)];
    AsWrittenFailsOverFile(s, dst, q => true, [], "games");
    RestoreIntoEmpty(s.entries["games"], q => true, ["games"], ReplaceFile);
    assert RestoredInto(s, dst, q => true, []).Keys == {"games"};
  }
}
