/**
 The Scans folder browser: a stack of directory paths whose bottom is the
 Scans root, and the listing of the directory on top. The file system is an
 oracle handed to every operation; the manager only reads it, except for
 creating the root at start-up and removing a file on delete.
 */
module ScansFolder {
  import opened Maybe

  type Path = string

  /** One row of the listing: a name inside the listed directory and whether it is a directory. */
  datatype Entry = Entry(name: string, isDirectory: bool)

  /**
   What the manager can observe of the file system. `listings` holds, for every
   directory that can be read, the names it contains in listing order; reading
   any other path throws. `kinds` holds every path that exists, mapped to
   whether it is a directory.
   */
  datatype FileSystem = FileSystem(listings: map<Path, seq<string>>, kinds: map<Path, bool>)

  /** The published listing and the stack of visited directories. */
  datatype Manager = Manager(files: seq<Entry>, currentPath: seq<Path>)

  /** A manager together with the file system it leaves behind. */
  datatype Outcome = Outcome(manager: Manager, fs: FileSystem)

  const ScansFolderName := "Scans"

  /** Appending a path component; separator normalisation is not modelled. */
  function Join(parent: Path, name: string): (r: Path)
    ensures |r| > |parent|
  {
    parent + "/" + name
  }

  /** The Scans root inside the user's Documents directory. */
  function Root(documents: Path): Path
  {
    Join(documents, ScansFolderName)
  }

  function Top(m: Manager): Path
    requires |m.currentPath| > 0
  {
    m.currentPath[|m.currentPath| - 1]
  }

  ghost predicate NoDuplicates(ps: seq<Path>)
  {
    forall i, j :: 0 <= i < j < |ps| ==> ps[i] != ps[j]
  }

  /** The manager's invariant: the stack is never empty, starts at the root and repeats no path. */
  ghost predicate Valid(m: Manager, root: Path)
  {
    && |m.currentPath| > 0
    && m.currentPath[0] == root
    && NoDuplicates(m.currentPath)
  }

  ghost predicate SubsequenceOf(a: seq<string>, b: seq<string>)
    decreases |b|
  {
    a == [] || (|b| > 0 && ((a[0] == b[0] && SubsequenceOf(a[1..], b[1..])) || SubsequenceOf(a, b[1..])))
  }

  function Names(es: seq<Entry>): (r: seq<string>)
    ensures |r| == |es|
  {
    if |es| == 0 then [] else [es[0].name] + Names(es[1..])
  }

  /**
   The rows for the listed `items` of directory `dir`: an item is kept, with
   its directory flag, only when its joined path still exists.
   */
  function ExistingEntries(fs: FileSystem, dir: Path, items: seq<string>): (r: seq<Entry>)
    ensures forall e :: e in r <==>
      e.name in items && Join(dir, e.name) in fs.kinds && fs.kinds[Join(dir, e.name)] == e.isDirectory
    ensures SubsequenceOf(Names(r), items)
    ensures (forall k :: 0 <= k < |items| ==> Join(dir, items[k]) in fs.kinds) ==> Names(r) == items
  {
    if |items| == 0 then []
    else
      var rest := ExistingEntries(fs, dir, items[1..]);
      var path := Join(dir, items[0]);
      assert forall n :: n in items <==> n == items[0] || n in items[1..];
      assert SubsequenceOf(Names(rest), items) by {
        if Names(rest) != [] { assert SubsequenceOf(Names(rest), items[1..]); }
      }
      if path in fs.kinds then
        var e := Entry(items[0], fs.kinds[path]);
        assert Names([e] + rest) == [items[0]] + Names(rest) by {
          assert ([e] + rest)[1..] == rest;
        }
        [e] + rest
      else
        rest
  }

  /**
   `listFiles(in:)`: a readable directory replaces `files` and is pushed onto
   the stack unless the stack already holds it; an unreadable one changes nothing.
   */
  function ListFiles(m: Manager, fs: FileSystem, path: Path): (r: Manager)
    ensures path !in fs.listings ==> r == m
    ensures path in fs.listings ==> r.files == ExistingEntries(fs, path, fs.listings[path])
    ensures path in fs.listings ==> path in r.currentPath
    ensures path in fs.listings ==> (r.currentPath == m.currentPath <==> path in m.currentPath)
    ensures |m.currentPath| <= |r.currentPath| <= |m.currentPath| + 1
    ensures r.currentPath[..|m.currentPath|] == m.currentPath
    ensures NoDuplicates(m.currentPath) ==> NoDuplicates(r.currentPath)
  {
    if path in fs.listings then
      var files := ExistingEntries(fs, path, fs.listings[path]);
      if path in m.currentPath then
        Manager(files, m.currentPath)
      else
        Manager(files, m.currentPath + [path])
    else
      m
  }

  /** `createDirectory(atPath:)`: the path now exists as an empty, readable directory. */
  function CreateDirectory(fs: FileSystem, path: Path): FileSystem
  {
    FileSystem(fs.listings[path := []], fs.kinds[path := true])
  }

  /** `removeItem(atPath:)`: fails when nothing is at `path`, else the path stops existing. */
  function RemoveItem(fs: FileSystem, path: Path): (r: Option<FileSystem>)
    ensures r.None? <==> path !in fs.kinds
    ensures r.Some? ==> path !in r.value.kinds && path !in r.value.listings
    ensures r.Some? ==> forall p :: p != path ==>
      (p in r.value.kinds <==> p in fs.kinds) && (p in r.value.listings <==> p in fs.listings)
  {
    if path in fs.kinds then
      Some(FileSystem(fs.listings - {path}, fs.kinds - {path}))
    else
      None
  }

  /**
   `init()`: the stack is the Scans root alone; a missing root is created when
   `createSucceeds` (the creation error is swallowed otherwise); then the root is listed.
   */
  function Init(documents: Path, fs: FileSystem, createSucceeds: bool): (r: Outcome)
    ensures r.manager.currentPath == [Root(documents)]
    ensures Valid(r.manager, Root(documents))
    ensures Root(documents) in fs.kinds || !createSucceeds ==> r.fs == fs
    ensures Root(documents) !in fs.kinds && createSucceeds ==>
      Root(documents) in r.fs.listings && Root(documents) in r.fs.kinds && r.fs.kinds[Root(documents)]
      && r.manager.files == []
    ensures Root(documents) !in r.fs.listings ==> r.manager.files == []
    ensures Root(documents) in fs.kinds && Root(documents) in fs.listings ==>
      r.manager.files == ExistingEntries(fs, Root(documents), fs.listings[Root(documents)])
  {
    var root := Root(documents);
    var fs' := if root !in fs.kinds && createSucceeds then CreateDirectory(fs, root) else fs;
    Outcome(ListFiles(Manager([], [root]), fs', root), fs')
  }

  /** `goIntoDirectory(_:)`: list the named child of the top directory. */
  function GoIntoDirectory(m: Manager, fs: FileSystem, name: string): (r: Manager)
    requires |m.currentPath| > 0
    ensures var target := Join(Top(m), name);
      && (target !in fs.listings ==> r == m)
      && (target in fs.listings && target !in m.currentPath ==>
            r.currentPath == m.currentPath + [target] && Top(r) == target)
      && (target in fs.listings && target in m.currentPath ==> r.currentPath == m.currentPath)
      && (target in fs.listings ==> r.files == ExistingEntries(fs, target, fs.listings[target]))
  {
    ListFiles(m, fs, Join(Top(m), name))
  }

  /**
   `goUp()`: with more than the root on the stack, drop the top and relist the
   new top; the root itself is never dropped.
   */
  function GoUp(m: Manager, fs: FileSystem): (r: Manager)
    ensures |m.currentPath| <= 1 ==> r == m
    ensures |m.currentPath| > 1 ==> r.currentPath == m.currentPath[..|m.currentPath| - 1]
    ensures |m.currentPath| > 1 && Top(r) in fs.listings ==>
      r.files == ExistingEntries(fs, Top(r), fs.listings[Top(r)])
    ensures |m.currentPath| > 1 && Top(r) !in fs.listings ==> r.files == m.files
  {
    if |m.currentPath| > 1 then
      var popped := m.currentPath[..|m.currentPath| - 1];
      ListFiles(m.(currentPath := popped), fs, popped[|popped| - 1])
    else
      m
  }

  /**
   `deleteFile(fileName:)`: remove the named item of the top directory and, if
   that worked, relist the top directory. The stack is never changed.
   */
  function DeleteFile(m: Manager, fs: FileSystem, name: string): (r: Outcome)
    requires |m.currentPath| > 0
    ensures r.manager.currentPath == m.currentPath
    ensures Join(Top(m), name) !in fs.kinds ==> r == Outcome(m, fs)
    ensures Join(Top(m), name) in fs.kinds ==> Some(r.fs) == RemoveItem(fs, Join(Top(m), name))
    ensures Join(Top(m), name) in fs.kinds && Top(m) in fs.listings ==>
      r.manager.files == ExistingEntries(r.fs, Top(m), fs.listings[Top(m)])
    ensures Join(Top(m), name) in fs.kinds && Top(m) in fs.listings ==>
      forall e :: e in r.manager.files ==> e.name != name
  {
    var target := Join(Top(m), name);
    match RemoveItem(fs, target)
    case None => Outcome(m, fs)
    case Some(fs') => Outcome(ListFiles(m, fs', Top(m)), fs')
  }

  /** The folder view's actions, after start-up. */
  datatype Action = GoInto(name: string) | GoUpAction | Delete(name: string)

  function Step(o: Outcome, a: Action): (r: Outcome)
    requires |o.manager.currentPath| > 0
    ensures |r.manager.currentPath| > 0
  {
    match a
    case GoInto(name) => Outcome(GoIntoDirectory(o.manager, o.fs, name), o.fs)
    case GoUpAction => Outcome(GoUp(o.manager, o.fs), o.fs)
    case Delete(name) => DeleteFile(o.manager, o.fs, name)
  }

  /** Every action keeps the stack non-empty, rooted and free of duplicates. */
  lemma StepPreservesValid(o: Outcome, a: Action, root: Path)
    requires Valid(o.manager, root)
    ensures Valid(Step(o, a).manager, root)
  {
  }

  /** A session of actions applied in order; the stack it ends with is never empty. */
  function Run(o: Outcome, actions: seq<Action>): (r: Outcome)
    requires |o.manager.currentPath| > 0
    ensures |r.manager.currentPath| > 0
    decreases |actions|
  {
    if |actions| == 0 then o else Run(Step(o, actions[0]), actions[1..])
  }

  lemma {:induction false} RunPreservesValid(o: Outcome, actions: seq<Action>, root: Path)
    requires Valid(o.manager, root)
    ensures Valid(Run(o, actions).manager, root)
    decreases |actions|
  {
    if |actions| > 0 {
      StepPreservesValid(o, actions[0], root);
      RunPreservesValid(Step(o, actions[0]), actions[1..], root);
    }
  }

  /**
   From start-up on, whatever the user does and whatever the file system
   answers, the stack starts at the Scans root, is never empty and never
   holds a path twice.
   */
  lemma SessionKeepsStackValid(documents: Path, fs: FileSystem, createSucceeds: bool, actions: seq<Action>)
    ensures Valid(Run(Init(documents, fs, createSucceeds), actions).manager, Root(documents))
  {
    RunPreservesValid(Init(documents, fs, createSucceeds), actions, Root(documents));
  }

  /** Going up from the root changes nothing, whatever the file system holds. */
  lemma GoUpAtRootIsNoOp(documents: Path, fs: FileSystem, createSucceeds: bool, fs': FileSystem)
    ensures var m := Init(documents, fs, createSucceeds).manager; GoUp(m, fs') == m
  {
  }

  /** Going into a readable child and then up returns to the parent's stack. */
  lemma GoIntoThenUpRestoresStack(m: Manager, fs: FileSystem, name: string)
    requires |m.currentPath| > 0
    requires Join(Top(m), name) in fs.listings && Join(Top(m), name) !in m.currentPath
    ensures GoUp(GoIntoDirectory(m, fs, name), fs).currentPath == m.currentPath
  {
  }
}
