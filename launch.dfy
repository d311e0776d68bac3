/**
 * The launch window started from a taskbar shortcut: it reads the profile
 * named on its command line, shows one entry per item (marking the ones
 * whose path has gone missing) and registers a jump list with one task per
 * shown entry. The file system, the JSON parser, the shell's icon lookup and
 * shortcut resolution, and the exceptions an entry can raise while it is
 * shown are the environment `LaunchEnv`.
 */
module Launch {
  import opened Wrappers
  import opened Text
  import opened Paths
  import opened Storage
  import opened QuickLaunchLib
  import Manager

  /** What the launch window sees of the machine it runs on. */
  datatype LaunchEnv = LaunchEnv(
    disk: Disk,
    parse: JsonParser,
    getIcon: IconLookup,
    /** The entries whose display throws, and so are skipped. */
    faults: ItemRecord -> bool,
    /** `ResolveShortcut`: a link's target path, or `None` where the shell
        call throws. */
    resolveShortcut: string -> Option<string>,
    /** `Application.ResourceAssembly.Location`. */
    assemblyLocation: string)

  // ---------------------------------------------------------------------
  // Reading the profile

  /** `LoadFolders(filePath)`: the stored items, in stored order, of a
      profile that exists, reads and parses to a non-null profile with a
      non-null item list; every other outcome is the empty list. */
  function LoadFolders(filePath: string, env: LaunchEnv): (r: seq<ItemRecord>)
    ensures !FileExists(env.disk, Some(filePath)) ==> r == []
    ensures FileExists(env.disk, Some(filePath)) ==>
              match env.parse(env.disk.files[filePath])
              case Parsed(record) => r == record.items.GetOr([])
              case _ => r == []
  {
    if !FileExists(env.disk, Some(filePath)) then []
    else
      match ReadAllText(env.disk, filePath)
      case None => []
      case Some(json) =>
        match env.parse(json)
        case Parsed(launcherData) =>
          if launcherData.items.Some? then launcherData.items.value else []
        case _ => []
  }

  /** The entries `Init` shows: those of `LoadFolders` when the path is set
      or names an existing file, and none otherwise. */
  function InitEntries(jsonPath: Option<string>, env: LaunchEnv): (r: seq<ItemRecord>)
    ensures IsNullOrEmpty(jsonPath) ==> r == []
    ensures !IsNullOrEmpty(jsonPath) ==> r == LoadFolders(jsonPath.value, env)
  {
    if !IsNullOrEmpty(jsonPath) || FileExists(env.disk, jsonPath) then LoadFolders(jsonPath.value, env) else []
  }

  /** What the manager saves is what the launch window shows: given a
      parser that reads back what the writer wrote, the shortcut's profile
      path leads to the saved profile's items. */
  lemma LaunchReadsSavedProfile(d: Disk, appData: string, record: LauncherRecord, write: JsonWriter, env: LaunchEnv)
    requires env.disk == Manager.SaveProfile(d, appData, record, write)
    requires env.parse(write(record)) == Parsed(record)
    ensures InitEntries(Some(Manager.ShortcutArgument(appData, record.id)), env) == record.items.GetOr([])
  {
    var path := Manager.ShortcutArgument(appData, record.id);
    Manager.ProfileFolderShape(appData);
    var folder := Manager.ProfileFolder(appData);
    var name := Manager.ProfileFileName(record.id);
    assert path == Combine(folder, name);
    assert path != "" by {
      if !IsRooted(name) {
        assert |Append(folder, name)| >= |folder|;
      }
    }
  }

  // ---------------------------------------------------------------------
  // The command line

  /** The characters that separate arguments on a Windows command line. */
  const Blanks: set<char> := {' ', '\t'}

  /** The longest prefix of `s` without a character from `stops`. */
  function TakeUntil(s: string, stops: set<char>): (r: string)
    ensures |r| <= |s| && r == s[..|r|]
    ensures forall i :: 0 <= i < |r| ==> r[i] !in stops
    ensures |r| < |s| ==> s[|r|] in stops
  {
    if s == [] || s[0] in stops then [] else [s[0]] + TakeUntil(s[1..], stops)
  }

  /** A text cut off at a stop character is taken up to that character. */
  lemma {:induction false} TakeUntilPrefix(p: string, rest: string, stops: set<char>)
    requires forall i :: 0 <= i < |p| ==> p[i] !in stops
    requires rest != [] && rest[0] in stops
    ensures TakeUntil(p + rest, stops) == p
  {
    if p != [] {
      assert (p + rest)[1..] == p[1..] + rest;
      TakeUntilPrefix(p[1..], rest, stops);
    }
  }

  /** `s` without its leading blanks. */
  function SkipBlanks(s: string): (r: string)
    ensures |r| <= |s| && r == s[|s| - |r|..]
    ensures forall i :: 0 <= i < |s| - |r| ==> s[i] in Blanks
    ensures r != [] ==> r[0] !in Blanks
  {
    if s != [] && s[0] in Blanks then SkipBlanks(s[1..]) else s
  }

  /** `e.Args.FirstOrDefault()` for a program started with the argument
      string `arguments`: null when the string holds only blanks; an
      argument that opens with a double quote runs to the closing quote,
      any other to the next blank. */
  function FirstArgument(arguments: string): (r: Option<string>)
    ensures r.None? <==> forall i :: 0 <= i < |arguments| ==> arguments[i] in Blanks
    ensures r.Some? && arguments[0] == '"' ==> '"' !in r.value
    ensures r.Some? && arguments[0] !in Blanks && arguments[0] != '"' ==>
              r.value != "" && |r.value| <= |arguments| && r.value == arguments[..|r.value|] &&
              (forall i :: 0 <= i < |r.value| ==> r.value[i] !in Blanks)
  {
    var s := SkipBlanks(arguments);
    if s == [] then None
    else if s[0] == '"' then Some(TakeUntil(s[1..], {'"'}))
    else Some(TakeUntil(s, Blanks))
  }

  /** A path in double quotes arrives whole. */
  lemma FirstArgumentOfQuoted(path: string)
    requires '"' !in path
    ensures FirstArgument(Manager.QuotedArgument(path)) == Some(path)
  {
    var arguments := Manager.QuotedArgument(path);
    assert SkipBlanks(arguments) == arguments;
    assert arguments[1..] == path + "\"";
    TakeUntilPrefix(path, "\"", {'"'});
  }

  /** An unquoted argument string ends its first argument at the first
      blank. */
  lemma FirstArgumentOfUnquoted(first: string, rest: string)
    requires first != "" && first[0] != '"'
    requires forall i :: 0 <= i < |first| ==> first[i] !in Blanks
    requires rest != [] && rest[0] in Blanks
    ensures FirstArgument(first + rest) == Some(first)
  {
    assert (first + rest)[0] == first[0];
    assert SkipBlanks(first + rest) == first + rest;
    TakeUntilPrefix(first, rest, Blanks);
  }

  // ---------------------------------------------------------------------
  // From the shortcut to the entries

  /** The profile path under an AppData folder `C:\A B`, passed bare,
      arrives cut at the space. */
  lemma SpacedArgumentIsCut(id: Guid)
    requires id.Canonical()
    ensures |Manager.ShortcutArgument("C:\\A B", id)| >= 6
    ensures FirstArgument(Manager.ShortcutArgument("C:\\A B", id)) == Some("C:\\A")
  {
    var path := Manager.ShortcutArgument("C:\\A B", id);
    Manager.SavePathStartsWith("C:\\A B", id);
    assert path[..6] == "C:\\A B";
    assert path == "C:\\A" + path[4..];
    assert path[4] == ' ';
    FirstArgumentOfUnquoted("C:\\A", path[4..]);
  }

  /** The shortcut as the manager writes it, with the profile path as its
      bare argument string, loses the profile when the AppData folder holds
      a space: the launch program receives the path up to that space and
      shows nothing. */
  lemma SpacedProfileIsLost(d: Disk, record: LauncherRecord, write: JsonWriter, env: LaunchEnv)
    requires record.id.Canonical()
    requires env.disk == Manager.SaveProfile(d, "C:\\A B", record, write)
    requires "C:\\A" !in d.files
    ensures FirstArgument(Manager.ShortcutArgument("C:\\A B", record.id)) == Some("C:\\A")
    ensures InitEntries(FirstArgument(Manager.ShortcutArgument("C:\\A B", record.id)), env) == []
  {
    SpacedArgumentIsCut(record.id);
    assert "C:\\A" != Manager.SavePath("C:\\A B", record.id);
    assert "C:\\A" !in env.disk.files;
  }

  /** With the profile path in double quotes, the launch window started by
      the shortcut shows exactly the saved profile's items, whatever blanks
      the AppData folder holds. */
  lemma QuotedProfileIsRead(d: Disk, appData: string, record: LauncherRecord, write: JsonWriter, env: LaunchEnv)
    requires env.disk == Manager.SaveProfile(d, appData, record, write)
    requires env.parse(write(record)) == Parsed(record)
    requires '"' !in appData && '"' !in record.id.text
    ensures FirstArgument(Manager.QuotedArgument(Manager.ShortcutArgument(appData, record.id)))
              == Some(Manager.ShortcutArgument(appData, record.id))
    ensures InitEntries(FirstArgument(Manager.QuotedArgument(Manager.ShortcutArgument(appData, record.id))), env)
              == record.items.GetOr([])
  {
    Manager.SavePathAvoidsQuote(appData, record.id);
    FirstArgumentOfQuoted(Manager.ShortcutArgument(appData, record.id));
    LaunchReadsSavedProfile(d, appData, record, write, env);
  }

  // ---------------------------------------------------------------------
  // The entry list

  /** `FileSystemItem`: one line of the launch window. */
  datatype FileSystemItem = FileSystemItem(
    name: Option<string>,
    fullPath: Option<string>,
    isDirectory: bool,
    category: string,
    icon: Option<ImageSource>)

  const MissingFolderIcon: ImageSource := BitmapImage("/Assets/foldernotexists.ico")
  const MissingFileIcon: ImageSource := BitmapImage("/Assets/filenotexists.ico")
  const DirectoriesCategory: string := "Direcotries"
  const FilesCategory: string := "Files"

  /** The path of an entry is gone: a directory entry whose directory does
      not exist, or a file entry whose file does not. */
  predicate Missing(entry: ItemRecord, d: Disk) {
    if entry.isDirectory then !DirectoryExists(d, entry.path) else !FileExists(d, entry.path)
  }

  /** The body of `LoadFileList`'s loop for one entry: nothing when it
      throws; a missing path is shown as a "(Missing)" file with the
      matching missing icon; an existing directory is shown under the
      (misspelt) directories category and an existing file under files,
      both with the shell's icon. */
  function Project(entry: ItemRecord, env: LaunchEnv): (r: Option<FileSystemItem>)
    ensures r.None? <==> env.faults(entry)
    ensures r.Some? ==> r.value.fullPath == entry.path
    ensures r.Some? ==> (r.value.isDirectory <==> entry.isDirectory && !Missing(entry, env.disk))
    ensures r.Some? ==> (r.value.category == DirectoriesCategory <==> r.value.isDirectory)
    ensures r.Some? ==> (r.value.category == FilesCategory <==> !r.value.isDirectory)
    ensures r.Some? && Missing(entry, env.disk) ==>
              && r.value.name == Some(Show(entry.name) + " (Missing)")
              && r.value.icon == Some(if entry.isDirectory then MissingFolderIcon else MissingFileIcon)
    ensures r.Some? && !Missing(entry, env.disk) ==>
              && r.value.name == entry.name
              && r.value.icon == env.getIcon(entry.path, entry.isDirectory)
  {
    if env.faults(entry) then None
    else if entry.isDirectory then
      if !DirectoryExists(env.disk, entry.path) then
        Some(FileSystemItem(Some(Show(entry.name) + " (Missing)"), entry.path, false, FilesCategory, Some(MissingFolderIcon)))
      else
        Some(FileSystemItem(entry.name, entry.path, true, DirectoriesCategory, env.getIcon(entry.path, true)))
    else
      if !FileExists(env.disk, entry.path) then
        Some(FileSystemItem(Some(Show(entry.name) + " (Missing)"), entry.path, false, FilesCategory, Some(MissingFileIcon)))
      else
        Some(FileSystemItem(entry.name, entry.path, false, FilesCategory, env.getIcon(entry.path, false)))
  }

  /** The displayed entries, in input order, skipping those that throw. */
  function ProjectAll(entries: seq<ItemRecord>, env: LaunchEnv): (r: seq<FileSystemItem>)
    ensures |r| <= |entries|
  {
    if entries == [] then []
    else
      var last := Project(entries[|entries| - 1], env);
      ProjectAll(entries[..|entries| - 1], env) + if last.Some? then [last.value] else []
  }

  /** Showing two lists one after the other shows their concatenation. */
  lemma {:induction false} ProjectAllAppend(a: seq<ItemRecord>, b: seq<ItemRecord>, env: LaunchEnv)
    ensures ProjectAll(a + b, env) == ProjectAll(a, env) + ProjectAll(b, env)
    decreases |b|
  {
    if b != [] {
      assert (a + b)[..|a + b| - 1] == a + b[..|b| - 1];
      assert (a + b)[|a + b| - 1] == b[|b| - 1];
      ProjectAllAppend(a, b[..|b| - 1], env);
    } else {
      assert a + b == a;
    }
  }

  /** When no entry throws, there is one displayed item per entry, in
      order, and each shows its entry's path. */
  lemma {:induction false} ProjectAllNoFaults(entries: seq<ItemRecord>, env: LaunchEnv)
    requires forall k :: 0 <= k < |entries| ==> !env.faults(entries[k])
    ensures |ProjectAll(entries, env)| == |entries|
    ensures forall k :: 0 <= k < |entries| ==> ProjectAll(entries, env)[k] == Project(entries[k], env).value
    ensures forall k :: 0 <= k < |entries| ==> ProjectAll(entries, env)[k].fullPath == entries[k].path
  {
    if entries != [] {
      ProjectAllNoFaults(entries[..|entries| - 1], env);
    }
  }

  /** Exactly the displays of entries that do not throw are shown. */
  lemma {:induction false} ProjectAllMembers(entries: seq<ItemRecord>, env: LaunchEnv, x: FileSystemItem)
    ensures x in ProjectAll(entries, env) <==> exists k :: 0 <= k < |entries| && Project(entries[k], env) == Some(x)
  {
    if entries != [] {
      var init := entries[..|entries| - 1];
      ProjectAllMembers(init, env, x);
      assert forall k :: 0 <= k < |init| ==> init[k] == entries[k];
    }
  }

  // ---------------------------------------------------------------------
  // The jump list

  /** A `JumpTask` as the jump list holds it; the properties never set keep
      their defaults (null, index 0). */
  datatype JumpTask = JumpTask(
    title: Option<string>,
    description: string,
    applicationPath: string,
    arguments: string,
    workingDirectory: Option<string>,
    iconResourcePath: Option<string>,
    iconResourceIndex: int)

  /** How `CreateJumpList` treats a displayed entry. */
  datatype TaskKind = MissingPath | Folder | Executable | Shortcut | Document

  /** Which of the five kinds an entry is: its path exists neither as a
      file nor as a directory; or it is shown as a directory; or its
      extension is `.exe` or `.dll`, or `.lnk`, ignoring case; or none of
      these. */
  function Kind(item: FileSystemItem, d: Disk): (k: TaskKind)
    ensures k == MissingPath <==> !FileExists(d, item.fullPath) && !DirectoryExists(d, item.fullPath)
    ensures k != MissingPath ==> item.fullPath.Some?
    ensures k == Folder <==> k != MissingPath && item.isDirectory
    ensures k == Executable <==>
              && k != MissingPath && !item.isDirectory
              && (EqualsIgnoreCase(Some(GetExtension(item.fullPath.value)), Some(".exe"))
                  || EqualsIgnoreCase(Some(GetExtension(item.fullPath.value)), Some(".dll")))
    ensures k == Shortcut <==>
              && k != MissingPath && !item.isDirectory && k != Executable
              && EqualsIgnoreCase(Some(GetExtension(item.fullPath.value)), Some(".lnk"))
  {
    if !FileExists(d, item.fullPath) && !DirectoryExists(d, item.fullPath) then MissingPath
    else if item.isDirectory then Folder
    else
      var ext := Some(GetExtension(item.fullPath.value));
      if EqualsIgnoreCase(ext, Some(".exe")) || EqualsIgnoreCase(ext, Some(".dll")) then Executable
      else if EqualsIgnoreCase(ext, Some(".lnk")) then Shortcut
      else Document
  }

  /** The body of `CreateJumpList`'s loop for one entry. A missing path
      gives an error task that starts the launcher with `--error`; every
      other entry opens its quoted path with the explorer from its own
      directory, with the folder icon, its own icon (programs and
      libraries) or the document icon; a link instead starts its resolved
      target without arguments. `None` when resolving a link throws. */
  function TaskFor(item: FileSystemItem, env: LaunchEnv): (r: Option<JumpTask>)
    ensures Kind(item, env.disk) != Shortcut ==> r.Some?
    ensures Kind(item, env.disk) == Shortcut ==> (r.Some? <==> env.resolveShortcut(item.fullPath.value).Some?)
    ensures r.Some? && Kind(item, env.disk) == MissingPath ==>
              r.value == JumpTask(Some(Show(item.name)), "The path does not exist", env.assemblyLocation, "--error", None, None, 0)
    ensures r.Some? && Kind(item, env.disk) != MissingPath ==>
              && r.value.title == item.name
              && r.value.description == (if item.isDirectory then "Open folder: " else "Open: ") + Show(item.name)
              && r.value.workingDirectory == GetDirectoryName(item.fullPath.value)
    ensures r.Some? && Kind(item, env.disk) !in {MissingPath, Shortcut} ==>
              && r.value.applicationPath == "explorer.exe"
              && r.value.arguments == "\"" + item.fullPath.value + "\""
    ensures r.Some? && Kind(item, env.disk) == Folder ==>
              r.value.iconResourcePath == Some("shell32.dll") && r.value.iconResourceIndex == 3
    ensures r.Some? && Kind(item, env.disk) == Executable ==>
              r.value.iconResourcePath == item.fullPath && r.value.iconResourceIndex == 0
    ensures r.Some? && Kind(item, env.disk) == Shortcut ==>
              var target := env.resolveShortcut(item.fullPath.value).value;
              && r.value.applicationPath == target && r.value.arguments == ""
              && r.value.iconResourcePath == Some(target) && r.value.iconResourceIndex == 0
    ensures r.Some? && Kind(item, env.disk) == Document ==>
              r.value.iconResourcePath == Some("shell32.dll") && r.value.iconResourceIndex == 1
  {
    var kind := Kind(item, env.disk);
    if kind == MissingPath then
      Some(JumpTask(Some(Show(item.name)), "The path does not exist", env.assemblyLocation, "--error", None, None, 0))
    else
      var path := item.fullPath.value;
      var task := JumpTask(
        item.name,
        if item.isDirectory then "Open folder: " + Show(item.name) else "Open: " + Show(item.name),
        "explorer.exe",
        "\"" + path + "\"",
        GetDirectoryName(path),
        None,
        0);
      match kind
      case Folder => Some(task.(iconResourcePath := Some("shell32.dll"), iconResourceIndex := 3))
      case Executable => Some(task.(iconResourcePath := item.fullPath, iconResourceIndex := 0))
      case Shortcut =>
        (match env.resolveShortcut(path)
         case None => None
         case Some(exePath) =>
           Some(task.(applicationPath := exePath, arguments := "", iconResourcePath := Some(exePath), iconResourceIndex := 0)))
      case _ => Some(task.(iconResourcePath := Some("shell32.dll"), iconResourceIndex := 1))
  }

  /** The values of `f` on `xs`, in order, provided every one is present. */
  function AllPresent<A, B>(xs: seq<A>, f: A -> Option<B>): Option<seq<B>> {
    if xs == [] then Some([])
    else
      var init := AllPresent(xs[..|xs| - 1], f);
      var last := f(xs[|xs| - 1]);
      if init.Some? && last.Some? then Some(init.value + [last.value]) else None
  }

  /** `AllPresent` gives a list exactly when `f` is present on every
      element, and then the list of those values. */
  lemma {:induction false} AllPresentSpec<A, B>(xs: seq<A>, f: A -> Option<B>)
    ensures AllPresent(xs, f).Some? <==> forall k :: 0 <= k < |xs| ==> f(xs[k]).Some?
    ensures AllPresent(xs, f).Some? ==> |AllPresent(xs, f).value| == |xs|
    ensures AllPresent(xs, f).Some? ==> forall k :: 0 <= k < |xs| ==> AllPresent(xs, f).value[k] == f(xs[k]).value
  {
    if xs != [] {
      var init := xs[..|xs| - 1];
      AllPresentSpec(init, f);
      assert forall k :: 0 <= k < |init| ==> init[k] == xs[k];
    }
  }

  /** The jump list `CreateJumpList` registers; `None` when resolving some
      link throws and the list is not set. The list exists exactly when
      every entry's task can be made, and then holds one task per entry, in
      order. */
  function TasksFor(items: seq<FileSystemItem>, env: LaunchEnv): (r: Option<seq<JumpTask>>)
    ensures r.Some? <==> forall k :: 0 <= k < |items| ==> TaskFor(items[k], env).Some?
    ensures r.Some? ==> |r.value| == |items|
    ensures r.Some? ==> forall k :: 0 <= k < |items| ==> r.value[k] == TaskFor(items[k], env).value
  {
    AllPresentSpec(items, item => TaskFor(item, env));
    AllPresent(items, item => TaskFor(item, env))
  }

  /** An entry whose path exists nowhere ends up, through both loops, as a
      "(Missing)" line and an error task carrying the same title. */
  lemma MissingEntryTask(entry: ItemRecord, env: LaunchEnv)
    requires !env.faults(entry)
    requires !FileExists(env.disk, entry.path) && !DirectoryExists(env.disk, entry.path)
    ensures Project(entry, env).Some?
    ensures TaskFor(Project(entry, env).value, env) ==
              Some(JumpTask(Some(Show(entry.name) + " (Missing)"), "The path does not exist",
                            env.assemblyLocation, "--error", None, None, 0))
  {
  }

  /** The extension test ignores case: an existing `X.EXE` file is a
      program. */
  lemma UpperCaseExeIsExecutable(item: FileSystemItem, d: Disk, stem: string)
    requires item.fullPath == Some(stem + ".EXE") && FileExists(d, item.fullPath) && !item.isDirectory
    ensures Kind(item, d) == Executable
  {
    ExtensionOfSuffix(stem, ".EXE");
    assert Lower(".EXE") == ".exe" by {
      assert LowerChar('E') == 'e' && LowerChar('X') == 'x';
    }
  }

  // ---------------------------------------------------------------------
  // The window

  class LaunchWindow {
    const env: LaunchEnv
    /** The entries shown. */
    var items: seq<FileSystemItem>
    /** The jump list this window has registered, if any. */
    var jumpList: Option<seq<JumpTask>>

    /** `MainWindow(jsonPath)` and its `Init`: the profile's entries are
        shown; the jump list is registered later, once the window has
        loaded. */
    constructor (jsonPath: Option<string>, env: LaunchEnv)
      ensures this.env == env
      ensures items == ProjectAll(InitEntries(jsonPath, env), env)
      ensures jumpList == None
    {
      this.env := env;
      items, jumpList := [], None;
      new;
      var lstFolder: seq<ItemRecord> := [];
      if !IsNullOrEmpty(jsonPath) || FileExists(env.disk, jsonPath) {
        lstFolder := LoadFolders(jsonPath.value, env);
      }
      LoadFileList(lstFolder);
    }

    /** `LoadFileList(lstFolder)`: the entries are displayed one by one, in
        order, skipping those that throw. */
    method LoadFileList(lstFolder: seq<ItemRecord>)
      modifies this`items
      ensures items == ProjectAll(lstFolder, env)
    {
      items := [];
      for k := 0 to |lstFolder|
        invariant items == ProjectAll(lstFolder[..k], env)
      {
        var cItem := lstFolder[k];
        assert lstFolder[..k + 1][..k] == lstFolder[..k];
        if env.faults(cItem) {
          continue;
        }
        if cItem.isDirectory {
          if !DirectoryExists(env.disk, cItem.path) {
            items := items + [FileSystemItem(Some(Show(cItem.name) + " (Missing)"), cItem.path, false, FilesCategory, Some(MissingFolderIcon))];
          } else {
            items := items + [FileSystemItem(cItem.name, cItem.path, true, DirectoriesCategory, env.getIcon(cItem.path, true))];
          }
        } else {
          if !FileExists(env.disk, cItem.path) {
            items := items + [FileSystemItem(Some(Show(cItem.name) + " (Missing)"), cItem.path, false, FilesCategory, Some(MissingFileIcon))];
          } else {
            items := items + [FileSystemItem(cItem.name, cItem.path, false, FilesCategory, env.getIcon(cItem.path, false))];
          }
        }
      }
      assert lstFolder[..|lstFolder|] == lstFolder;
    }

    /** `CreateJumpList(items)`: one task per entry, in order, registered
        as the application's jump list; when resolving a link throws, the
        error is reported and the jump list is left as it was. */
    method CreateJumpList(entries: seq<FileSystemItem>)
      modifies this`jumpList
      ensures TasksFor(entries, env).Some? ==> jumpList == TasksFor(entries, env)
      ensures TasksFor(entries, env).None? ==> jumpList == old(jumpList)
    {
      var jumpItems: seq<JumpTask> := [];
      for k := 0 to |entries|
        invariant TasksFor(entries[..k], env) == Some(jumpItems)
      {
        assert entries[..k + 1][..k] == entries[..k];
        var task := TaskFor(entries[k], env);
        if task.None? {
          // Resolving a link threw: the error is reported and the jump
          // list is not set.
          assert TasksFor(entries, env).None? by {
            TasksForAbort(entries, k, env);
          }
          return;
        }
        jumpItems := jumpItems + [task.value];
      }
      assert entries[..|entries|] == entries;
      jumpList := Some(jumpItems);
    }

    /** Once the window has loaded, the jump list for its entries is
        created. */
    method Loaded()
      modifies this`jumpList
      ensures TasksFor(items, env).Some? ==> jumpList == TasksFor(items, env)
      ensures TasksFor(items, env).None? ==> jumpList == old(jumpList)
    {
      CreateJumpList(items);
    }
  }

  /** One task that cannot be made spoils the whole list. */
  lemma TasksForAbort(entries: seq<FileSystemItem>, k: nat, env: LaunchEnv)
    requires k < |entries| && TasksFor(entries[..k + 1], env).None?
    ensures TasksFor(entries, env).None?
  {
    AllPresentPrefix(entries, k + 1, item => TaskFor(item, env));
  }

  /** A prefix with an element that does not map spoils the whole list. */
  lemma AllPresentPrefix<A, B>(xs: seq<A>, n: nat, f: A -> Option<B>)
    requires n <= |xs| && AllPresent(xs[..n], f).None?
    ensures AllPresent(xs, f).None?
  {
    AllPresentSpec(xs[..n], f);
    AllPresentSpec(xs, f);
    var j :| 0 <= j < n && f(xs[..n][j]).None?;
    assert xs[..n][j] == xs[j];
  }
}
