# AdiQuickLaunch in Dafny

AdiQuickLaunch lets a Windows user group files and folders into *launchers*
and pin each launcher to the taskbar. It is made of three parts:

- **The profile model** (`AdiQuickLaunchLib`). A `QuickLauncher` has an id, a
  name, an icon path, an ordered list of `QuickItem`s and an editing flag.
  Each item has a name, a path, a directory flag, a one-way dirty flag and a
  lazily computed icon. Two WPF converters turn booleans into visibilities.
- **The manager** (`AdiQuickLaunchManager`). It loads every profile from
  `%AppData%\AdiSoft\AdiQuickLauncher\*.json`. It lets the user add, rename,
  fill and re-icon launchers. Adding items or a folder, removing an item and
  changing the icon save the profile at once; adding and renaming a launcher
  do not. It creates a desktop shortcut that starts the launch program with
  the profile's path. On close it saves every profile that has a dirty item.
- **The launch window** (`AdiQuickLaunch`). It reads the profile named on its
  command line and shows one line per item, marking items whose path has gone
  missing. It registers a jump list with one task per line.

The project has these modules:

| file | module | contents |
|---|---|---|
| `wrappers.dfy` | `Wrappers` | `Option`, which stands for C# null |
| `text.dfy` | `Text` | the .NET string operations the code calls |
| `paths.dfy` | `Paths` | `System.IO.Path` on backslash-separated Windows paths |
| `storage.dfy` | `Storage` | the file system as a value: file contents and the set of directories |
| `wpf.dfy` | `Wpf` | `Visibility` and the boxed values a converter receives |
| `boolean_to_visibility.dfy`, `invert_boolean_to_visibility.dfy` | one module per converter | the two converters |
| `quick_launcher.dfy` | `QuickLaunchLib` | `QuickItem` and `QuickLauncher` as classes, their persisted records, and deserialisation through the setters |
| `manager.dfy` | `Manager` | functions that describe naming, paths, saving and loading; `class ManagerWindow`, whose handlers are proved against those functions |
| `launch.dfy` | `Launch` | the launch window's profile reading, entry display and jump-list construction as functions; `class LaunchWindow`, whose loops are proved against them |

Things the program does that surface in the proofs:

- **Every loaded item starts dirty.** The JSON deserialiser sets `Name`
  through its setter. So every item with a non-null name comes out dirty
  (`QuickLaunchLib.Deserialize`). Closing the manager therefore re-saves
  every loaded profile that has a named item.
- **Renaming does not by itself make a launcher dirty.** Neither does
  changing its icon. Only the items carry the flag, so a new launcher that
  was only renamed is not saved on close (`Manager.NothingDirtyNothingSaved`
  writes nothing when no item is dirty), while a loaded one with a named item
  is saved whether or not it was renamed.
- **The unique-name search always ends.** A taken candidate uses up a
  distinct launcher, so the number found is at most `2·count + 1`.
- **A new folder item is named after its parent.** `AddFolder_Click` names
  it with `Path.GetDirectoryName` of the chosen folder, not `GetFileName`.
  The model keeps this as written (`Manager.ManagerWindow.AddFolder`).
- **The directories category is misspelt.** The launch window puts existing
  directories under the category `"Direcotries"`. The model uses the code's
  spelling.
- **Loading does not create the profile folder.** When the folder is
  missing, `LoadLaunchers` only returns an empty list; only `SaveLauncher`
  creates the folder (`Manager.LoadedProfiles`).

## Model

| member | source | states |
|---|---|---|
| Text.Show | AdiQuickLaunch/MainWindow.xaml.cs:254 | interpolating a null string gives the empty string, and a non-null one gives itself |
| Text.EqualsIgnoreCaseIsEquivalence | AdiQuickLaunchManager/MainWindow.xaml.cs:45 | the ordinal ignore-case comparison used for launcher names is reflexive, symmetric and transitive, with null equal only to null |
| Text.EmptyIsBlank | AdiQuickLaunch/MainWindow.xaml.cs:47 | every null-or-empty string counts as blank, but " " is blank without being empty |
| Text.NatToStringInjective | AdiQuickLaunchManager/MainWindow.xaml.cs:42 | distinct counters print as distinct decimal strings |
| Text.LowerOfDigits | AdiQuickLaunchManager/MainWindow.xaml.cs:42-45 | case folding leaves the printed counter unchanged |
| Paths.GetFileName | AdiQuickLaunchManager/MainWindow.xaml.cs:296 | the file name is what follows the last separator: a separator-free suffix of the path, preceded by a separator whenever it is not the whole path |
| Paths.GetDirectoryName | AdiQuickLaunchManager/MainWindow.xaml.cs:249 | null exactly for the empty path and a bare root (`\` or `X:\`); empty exactly for a path without separators; otherwise the prefix before the last separator, or up to and including it when that separator ends the root |
| Paths.GetExtension | AdiQuickLaunch/MainWindow.xaml.cs:182-188 | empty exactly when the path ends with a dot or no dot follows its last separator; otherwise the suffix from the last dot, at least two characters, with no further dot or separator |
| Paths.Combine | AdiQuickLaunchManager/MainWindow.xaml.cs:338 | a non-empty rooted second part replaces the first; otherwise the parts are joined with one separator |
| Paths.CombineAll | AdiQuickLaunchManager/MainWindow.xaml.cs:221-223 | the params form of Combine: one part is itself, two parts are the two-part Combine, and a non-empty rooted last part is the whole result |
| Paths.CombineAllSnoc | AdiQuickLaunchManager/MainWindow.xaml.cs:221-225 | combining n+1 parts at once equals a two-part combine of the first n parts combined and the last part |
| Paths.CombineEndsWith | AdiQuickLaunchManager/MainWindow.xaml.cs:219 | a non-empty second part ends what Combine makes |
| Paths.FileNameOfCombine | AdiQuickLaunchManager/MainWindow.xaml.cs:227 | a plain file name combined under any directory is what GetFileName gives back |
| Paths.DirectoryOfCombine | AdiQuickLaunchManager/MainWindow.xaml.cs:338 | a plain file name combined under a non-root directory lies directly inside it |
| Paths.ExtensionOfSuffix | AdiQuickLaunch/MainWindow.xaml.cs:182 | a final dotted suffix with no dot or separator after the dot is the extension |
| BooleanToVisibilityConverter.IsInvert | AdiQuickLaunchLib/Converter/BooleanToVisibilityConverter.cs:14 | only a string or another object whose text has six characters can ask for inversion; null, booleans, visibilities and UnsetValue never do |
| BooleanToVisibilityConverter.InvertInAnyCase | AdiQuickLaunchLib/Converter/BooleanToVisibilityConverter.cs:14 | "invert", "INVERT" and "Invert" all invert |
| BooleanToVisibilityConverter.LowersToInvert | AdiQuickLaunchLib/Converter/BooleanToVisibilityConverter.cs:14 | a six-character text that lower-cases letter by letter to "invert" inverts |
| BooleanToVisibilityConverter.Convert | AdiQuickLaunchLib/Converter/BooleanToVisibilityConverter.cs:9-27 | the result is Visible exactly when the value is a bool that differs from the invert flag; otherwise it is Collapsed, never Hidden |
| BooleanToVisibilityConverter.ConvertBack | AdiQuickLaunchLib/Converter/BooleanToVisibilityConverter.cs:29-48 | a visibility gives the bool (is Visible) xor invert; any other value gives UnsetValue |
| BooleanToVisibilityConverter.RoundTrip | AdiQuickLaunchLib/Converter/BooleanToVisibilityConverter.cs:9-48 | converting a bool and back gives the same bool, whatever the parameter |
| BooleanToVisibilityConverter.BackAndForth | AdiQuickLaunchLib/Converter/BooleanToVisibilityConverter.cs:9-48 | Hidden and Collapsed read back alike; reading back and converting keeps Visible and Collapsed and turns Hidden into Collapsed |
| InvertBooleanToVisibilityConverter.Convert | AdiQuickLaunchLib/Converter/InvertBooleanToVisibilityConverter.cs:9-20 | Collapsed exactly for the boxed bool true; Visible for everything else, null and non-bools included |
| InvertBooleanToVisibilityConverter.ConvertBack | AdiQuickLaunchLib/Converter/InvertBooleanToVisibilityConverter.cs:22-33 | always a bool, which is true exactly when the value is not Visible |
| InvertBooleanToVisibilityConverter.RoundTrip | AdiQuickLaunchLib/Converter/InvertBooleanToVisibilityConverter.cs:9-33 | converting a bool and back gives the same bool |
| InvertBooleanToVisibilityConverter.AgreesWithInvertParameter | AdiQuickLaunchLib/Converter/InvertBooleanToVisibilityConverter.cs:9-33 | on bools and read-back visibilities it equals the other converter with parameter "invert"; on non-bools the two disagree |
| QuickLaunchLib.EmojiFallback | AdiQuickLaunchLib/QuickLauncher.cs:95-103 | a bitmap: the packaged folder picture exactly for a directory, the file picture otherwise |
| QuickLaunchLib.QuickItem.constructor | AdiQuickLaunchLib/QuickLauncher.cs:13-14 | a new item has a null name, path and icon, is not a directory and is clean |
| QuickLaunchLib.QuickItem.SetName | AdiQuickLaunchLib/QuickLauncher.cs:19-29 | the name takes the value; a different value marks the item dirty; the same value changes nothing; the flag is never cleared |
| QuickLaunchLib.QuickItem.SetPath | AdiQuickLaunchLib/QuickLauncher.cs:46 | only the path changes |
| QuickLaunchLib.QuickItem.SetIsDirectory | AdiQuickLaunchLib/QuickLauncher.cs:47 | only the directory flag changes |
| QuickLaunchLib.QuickItem.GetIconSource | AdiQuickLaunchLib/QuickLauncher.cs:56-83 | a cached icon is returned without a lookup; otherwise the helper's icon, or the fallback when it has none, is cached and returned after exactly one lookup |
| QuickLaunchLib.QuickItem.SetIconSource | AdiQuickLaunchLib/QuickLauncher.cs:84-87 | the cache takes the value, null included |
| QuickLaunchLib.QuickItem.ToString | AdiQuickLaunchLib/QuickLauncher.cs:49-52 | an item prints as the path it persists |
| QuickLaunchLib.IconIsComputedOnce | AdiQuickLaunchLib/QuickLauncher.cs:56-83 | two reads of the icon give the same image and make at most one lookup |
| QuickLaunchLib.NewItem | AdiQuickLaunchManager/MainWindow.xaml.cs:291-302 | an item built with an object initialiser persists the given name, path and flag, is dirty exactly when the name is not null, and has no icon yet |
| QuickLaunchLib.ItemRecords | AdiQuickLaunchLib/QuickLauncher.cs:122 | the persisted item list has one record per item, in order |
| QuickLaunchLib.QuickLauncher.constructor | AdiQuickLaunchLib/QuickLauncher.cs:105-122 | a new launcher has the given id, no name, no icon, no items, and is not being edited |
| QuickLaunchLib.QuickLauncher.SetName | AdiQuickLaunchLib/QuickLauncher.cs:111-115 | the name takes the value, and whether some item is dirty does not change |
| QuickLaunchLib.QuickLauncher.SetIconPath | AdiQuickLaunchLib/QuickLauncher.cs:117-121 | the icon path takes the value, and dirtiness does not change |
| QuickLaunchLib.QuickLauncher.SetIsEditing | AdiQuickLaunchLib/QuickLauncher.cs:124-129 | the editing flag takes the value, and dirtiness does not change |
| QuickLaunchLib.QuickLauncher.CheckIsDirty | AdiQuickLaunchLib/QuickLauncher.cs:131-140 | true exactly when at least one item is dirty |
| QuickLaunchLib.Materialized | AdiQuickLaunchManager/MainWindow.xaml.cs:360-362 | a read-back profile always has an item list, equals the record exactly when the record's list was not null, and otherwise differs only in that list |
| QuickLaunchLib.DeserializeItems | AdiQuickLaunchLib/QuickLauncher.cs:16-47 | one fresh item per record, in order, persisting that record and dirty exactly when its name is not null |
| QuickLaunchLib.Deserialize | AdiQuickLaunchManager/MainWindow.xaml.cs:360-362 | a fresh launcher with fresh items that persists as the record read back, is not being edited, and is dirty exactly when some item has a name |
| Manager.LowerCandidateName | AdiQuickLaunchManager/MainWindow.xaml.cs:42-45 | folding "New Launcher n" folds only the fixed prefix |
| Manager.CandidateNameMatch | AdiQuickLaunchManager/MainWindow.xaml.cs:42-45 | a name that matches candidate n ignoring case matches no other candidate |
| Manager.LeastFreeNameIsUnique | AdiQuickLaunchManager/MainWindow.xaml.cs:34-48 | there is at most one least free name for a list of names |
| Manager.SearchStep | AdiQuickLaunchManager/MainWindow.xaml.cs:40-45 | each taken candidate uses up one more launcher not used before |
| Manager.MatchIsUnseen | AdiQuickLaunchManager/MainWindow.xaml.cs:40-45 | a launcher matching the current candidate matched no earlier candidate, so it has not been used up yet |
| Manager.SeenGrows | AdiQuickLaunchManager/MainWindow.xaml.cs:40-45 | adding that launcher keeps one matching launcher per taken candidate |
| Manager.AllTakenGrows | AdiQuickLaunchManager/MainWindow.xaml.cs:45 | a taken candidate extends the unbroken run of taken candidates the loop has passed |
| Manager.SearchDone | AdiQuickLaunchManager/MainWindow.xaml.cs:40-47 | a free candidate ends the search with the least free name, matched by no launcher, numbered at most 2·count + 1 |
| Manager.ExampleCandidates | AdiQuickLaunchManager/MainWindow.xaml.cs:45 | with "New Launcher 1" and "new launcher 3" present, candidate 3 is taken ignoring case and candidate 4 is free |
| Manager.ExampleMatches | AdiQuickLaunchManager/MainWindow.xaml.cs:45 | "New Launcher 1" is candidate 1 and "new launcher 3" equals candidate 3 ignoring case |
| Manager.LeastFreeNameExample | AdiQuickLaunchManager/MainWindow.xaml.cs:34-48 | for those two launchers the new name is "New Launcher 4" |
| Manager.FirstFreeIsLeast | AdiQuickLaunchManager/MainWindow.xaml.cs:34-48 | a free candidate reached after an unbroken run of taken ones from count + 1 is the least free name |
| Manager.Names | AdiQuickLaunchManager/MainWindow.xaml.cs:45 | the launchers' names, one per launcher, in order |
| Manager.FirstIndex | AdiQuickLaunchManager/MainWindow.xaml.cs:162 | the position of the first occurrence: it holds the element, and no earlier position does |
| Manager.RemoveFirstCutsFirst | AdiQuickLaunchManager/MainWindow.xaml.cs:162 | RemoveFirst, the model of Collection.Remove, keeps a list without the element as it is, and otherwise cuts out exactly the first occurrence |
| Manager.RemoveFirstAbsent | AdiQuickLaunchManager/MainWindow.xaml.cs:162 | removing an element the list does not hold changes nothing |
| Manager.RemoveFirstAt | AdiQuickLaunchManager/MainWindow.xaml.cs:318 | when position i holds the first occurrence, removing cuts out exactly position i |
| Manager.RemoveFirstMembers | AdiQuickLaunchManager/MainWindow.xaml.cs:318 | removing adds nothing and keeps every other element |
| Manager.RemoveFirstOfAppended | AdiQuickLaunchManager/MainWindow.xaml.cs:57-62 | removing an element that was just appended, and was not there before, gives the list back |
| Manager.Remember | AdiQuickLaunchManager/MainWindow.xaml.cs:84-85 | a name is stored for the launcher only when none is stored yet; other entries are unchanged |
| Manager.ShortcutArgument | AdiQuickLaunchManager/MainWindow.xaml.cs:221-223 | the four-part Combine handed to the launch program is exactly SavePath, the file SaveLauncher writes |
| Manager.LinkPathShape | AdiQuickLaunchManager/MainWindow.xaml.cs:219 | LinkPath is a .lnk file whatever the launcher is called, and lies directly on the desktop when the name is a plain file name |
| Manager.PlainLinkName | AdiQuickLaunchManager/MainWindow.xaml.cs:219 | a name without separators or a drive colon stays a plain relative name with .lnk appended |
| Manager.InstallPathShape | AdiQuickLaunchManager/MainWindow.xaml.cs:232-238 | the folder InstallPath gives, as GetApplicationInstallPath does, is named AdiQuickLaunchItem |
| Manager.LauncherExeShape | AdiQuickLaunchManager/MainWindow.xaml.cs:215 | LauncherExe is AdiQuickLaunch.exe, with extension .exe, directly inside the install folder |
| Manager.ExeNameIsPlain | AdiQuickLaunchManager/MainWindow.xaml.cs:215 | "AdiQuickLaunch.exe" is a plain relative name |
| Manager.ExtensionOfCombine | AdiQuickLaunchManager/MainWindow.xaml.cs:215-219 | a file ending in .lnk or .exe keeps that extension when combined under any folder |
| Manager.KnownExtension | AdiQuickLaunchManager/MainWindow.xaml.cs:338 | a path ending in .json, .lnk or .exe has that extension |
| Manager.AppendEndsWith | AdiQuickLaunchManager/MainWindow.xaml.cs:332-338 | a non-empty part ends the joined path |
| Manager.ProfileFolderShape | AdiQuickLaunchManager/MainWindow.xaml.cs:332-336 | the profile folder ends in "AdiQuickLauncher" |
| Manager.SavePathIsListed | AdiQuickLaunchManager/MainWindow.xaml.cs:338 | a profile with a canonical id is saved as <id>.json directly in the profile folder, with extension .json, so the folder's *.json listing finds it |
| Manager.SavePathParts | AdiQuickLaunchManager/MainWindow.xaml.cs:338 | SavePath, for a canonical id, is the profile folder, a backslash and <id>.json, and GetFileName and GetDirectoryName split it back into those two |
| Manager.ProfileFileNameShape | AdiQuickLaunchManager/MainWindow.xaml.cs:338 | <id>.json for a canonical id is a non-empty relative name with no separator |
| Manager.LinkFileName | AdiQuickLaunchManager/MainWindow.xaml.cs:219-227 | for a name without separators or a drive colon, the link's file name is <Name>.lnk, as the message shows |
| Manager.CreateShortcut | AdiQuickLaunchManager/MainWindow.xaml.cs:240-255 | the link targets the program, starts it in the program's directory, turns null arguments into "", and sets an icon exactly for a non-empty icon path |
| Manager.SaveProfile | AdiQuickLaunchManager/MainWindow.xaml.cs:330-342 | the folder exists afterwards; the profile's file holds the writer's JSON; every other file is unchanged |
| Manager.SaveAllSnoc | AdiQuickLaunchManager/MainWindow.xaml.cs:401-405 | SaveAll saves first to last: one more profile after the others is one SaveProfile on top |
| Manager.SaveAllKeepsOthers | AdiQuickLaunchManager/MainWindow.xaml.cs:399-406 | a file that no saved profile maps to keeps its existence and contents |
| Manager.SaveAllLastWins | AdiQuickLaunchManager/MainWindow.xaml.cs:399-406 | a saved profile's file holds the JSON of the last record saved to it |
| Manager.States | AdiQuickLaunchManager/MainWindow.xaml.cs:401-405 | one state per launcher, in order: whether it has a dirty item and what it persists as |
| Manager.DirtyRecords | AdiQuickLaunchManager/MainWindow.xaml.cs:401-405 | no more records than launchers |
| Manager.DirtyRecordsSnoc | AdiQuickLaunchManager/MainWindow.xaml.cs:401-405 | one more launcher adds its record exactly when it is dirty |
| Manager.DirtyRecordsMembers | AdiQuickLaunchManager/MainWindow.xaml.cs:401-405 | a record is saved on close exactly when some dirty launcher persists as it |
| Manager.NothingDirtyNothingSaved | AdiQuickLaunchManager/MainWindow.xaml.cs:401-405 | with no dirty launcher nothing is written |
| Manager.ParsedFile | AdiQuickLaunchManager/MainWindow.xaml.cs:355-368 | a file gives a profile exactly when it exists and parses to a non-null profile, and then gives that profile |
| Manager.ParsedFiles | AdiQuickLaunchManager/MainWindow.xaml.cs:355-368 | no more profiles than files |
| Manager.ParsedFilesAppend | AdiQuickLaunchManager/MainWindow.xaml.cs:355-368 | reading two listings in turn reads their concatenation |
| Manager.SkipsUnreadable | AdiQuickLaunchManager/MainWindow.xaml.cs:363-366 | a file that yields no profile is skipped without disturbing the others |
| Manager.ParsedFilesMembers | AdiQuickLaunchManager/MainWindow.xaml.cs:355-368 | exactly the profiles of listed files that parse are loaded |
| Manager.ParsedFilesAllGood | AdiQuickLaunchManager/MainWindow.xaml.cs:355-368 | when every file parses, there is one profile per file, in listing order |
| Manager.LoadedProfiles | AdiQuickLaunchManager/MainWindow.xaml.cs:344-371 | nothing when the profile folder is missing, and otherwise the parsed files of the listing |
| Manager.ManagerWindow.constructor | AdiQuickLaunchManager/MainWindow.xaml.cs:24-31 | the window opens with one fresh, non-editing launcher per loaded profile, each dirty exactly when some item has a name, nothing remembered and no shortcut made |
| Manager.ManagerWindow.LoadLaunchers | AdiQuickLaunchManager/MainWindow.xaml.cs:344-371 | one fresh launcher with fresh items per loaded profile, in listing order, persisting as that profile read back and dirty exactly when some item has a name |
| Manager.DeserializeFiles | AdiQuickLaunchManager/MainWindow.xaml.cs:355-368 | one fresh launcher per listed file that can be read and parsed, skipping the others, in listing order, each not being edited, persisting as its profile read back and dirty exactly when some item has a name |
| Manager.ManagerWindow.GetUniqueLauncherName | AdiQuickLaunchManager/MainWindow.xaml.cs:34-48 | the least free "New Launcher n" from n = count + 1 on; no launcher has it ignoring case; n ≤ 2·count + 1 |
| Manager.ManagerWindow.AddLauncher | AdiQuickLaunchManager/MainWindow.xaml.cs:50-62 | one fresh launcher with the unique name, the given id and no items is appended and is being edited, with "" remembered as its original |
| Manager.ManagerWindow.EditLauncherName | AdiQuickLaunchManager/MainWindow.xaml.cs:80-87 | the selected launcher, if any, is being edited and its name is remembered unless one already is; nothing else changes |
| Manager.ManagerWindow.EditorLoaded | AdiQuickLaunchManager/MainWindow.xaml.cs:106-112 | the name is remembered unless one already is |
| Manager.ManagerWindow.KeyDown | AdiQuickLaunchManager/MainWindow.xaml.cs:127-150 | Enter keeps the typed name; Escape restores the remembered one if any; both end editing, drop the memory and are handled; other keys change nothing |
| Manager.ManagerWindow.LostFocus | AdiQuickLaunchManager/MainWindow.xaml.cs:152-174 | a blank name with a blank original removes the launcher; a blank name with another original gets it back; otherwise the name stays; editing ends and the memory is dropped |
| Manager.ManagerWindow.SaveLauncher | AdiQuickLaunchManager/MainWindow.xaml.cs:330-342 | the disk becomes SaveProfile of the launcher's persisted form |
| Manager.ManagerWindow.AddItems | AdiQuickLaunchManager/MainWindow.xaml.cs:283-312 | with a selection and a confirmed dialog, one dirty file item per chosen file is appended in order, named by its file name, and the profile is saved; otherwise nothing changes |
| Manager.NewFileItems | AdiQuickLaunchManager/MainWindow.xaml.cs:291-300 | one fresh file item per chosen file, in order, named with the file's name, holding its path and dirty from the start |
| Manager.NewFileItem | AdiQuickLaunchManager/MainWindow.xaml.cs:294-299 | a fresh, dirty file item named with the file's name and holding its path |
| Manager.NewFolderItem | AdiQuickLaunchManager/MainWindow.xaml.cs:265-270 | a fresh directory item named GetDirectoryName of the folder, holding the folder, dirty exactly when that name is not null |
| Manager.ManagerWindow.AddFolder | AdiQuickLaunchManager/MainWindow.xaml.cs:257-282 | with a selection, a confirmed folder becomes a directory item named by GetDirectoryName and dirty exactly when that name is not null, appended after the others; the profile is saved even when the dialog was cancelled |
| Manager.ManagerWindow.RemoveFolder | AdiQuickLaunchManager/MainWindow.xaml.cs:314-328 | with a launcher and an item selected, the item's first occurrence is removed and the profile is saved; otherwise nothing changes |
| Manager.ManagerWindow.ChangeIcon | AdiQuickLaunchManager/MainWindow.xaml.cs:373-397 | with a selection and a chosen file, that file becomes the icon path and the profile is saved; otherwise nothing changes |
| Manager.ManagerWindow.CreateExecutableAndShortcut | AdiQuickLaunchManager/MainWindow.xaml.cs:206-230 | one shortcut <Name>.lnk on the desktop is added; it targets the installed launch program and its argument is the profile's save path |
| Manager.ManagerWindow.CreateLauncher | AdiQuickLaunchManager/MainWindow.xaml.cs:191-204 | with no selection nothing changes; otherwise the earlier shortcuts are kept and one is added: the CreateShortcut of the launcher's link path, the launch program, the profile's save path and its icon |
| Manager.ManagerWindow.Closing | AdiQuickLaunchManager/MainWindow.xaml.cs:399-406 | the disk becomes the saving, in list order, of exactly the launchers that had a dirty item |
| Manager.ClosingStep | AdiQuickLaunchManager/MainWindow.xaml.cs:401-405 | one more launcher looked at on close is saved on top of the others exactly when it is dirty |
| Manager.EscapeRestoresName | AdiQuickLaunchManager/MainWindow.xaml.cs:80-148 | starting a rename, typing and pressing Escape leaves the name as it was and remembers nothing |
| Manager.AbandonedLauncherIsRemoved | AdiQuickLaunchManager/MainWindow.xaml.cs:50-174 | adding a launcher and leaving it with a blank name restores the list and the memory exactly |
| Launch.LoadFolders | AdiQuickLaunch/MainWindow.xaml.cs:95-125 | the stored items of an existing file that parses to a non-null profile with a non-null item list; the empty list in every other case |
| Launch.InitEntries | AdiQuickLaunch/MainWindow.xaml.cs:47-49 | no entries for a null or empty path, and otherwise LoadFolders of the path |
| Launch.LaunchReadsSavedProfile | AdiQuickLaunchManager/MainWindow.xaml.cs:221-225 | if the parser reads back what the writer wrote, the launch window given the shortcut's argument string as its profile path shows exactly the saved profile's items |
| Launch.TakeUntil | AdiQuickLaunch/App.xaml.cs:23 | the longest prefix without a stop character: it avoids the stops, and the character after it is one |
| Launch.TakeUntilPrefix | AdiQuickLaunch/App.xaml.cs:23 | a text followed by a stop character is taken up to exactly that character |
| Launch.SkipBlanks | AdiQuickLaunch/App.xaml.cs:23 | the suffix left after the leading spaces and tabs, which starts with neither |
| Launch.FirstArgument | AdiQuickLaunch/App.xaml.cs:23 | `e.Args.FirstOrDefault()`: null exactly when the argument string holds only blanks; a quoted argument holds no quote; an unquoted one is a non-empty, blank-free prefix of the string |
| Launch.FirstArgumentOfQuoted | AdiQuickLaunch/App.xaml.cs:23 | a quote-free path in double quotes arrives as the first argument whole |
| Launch.FirstArgumentOfUnquoted | AdiQuickLaunch/App.xaml.cs:23 | an unquoted argument string gives as its first argument the text before its first blank |
| Launch.SpacedArgumentIsCut | AdiQuickLaunch/App.xaml.cs:23 | the save path under AppData `C:\A B`, passed bare, arrives as the first argument `C:\A` |
| Launch.SpacedProfileIsLost | AdiQuickLaunchManager/MainWindow.xaml.cs:221-225 | with AppData at `C:\A B`, the shortcut as written makes the launch program receive `C:\A` and show no entries |
| Launch.QuotedProfileIsRead | AdiQuickLaunchManager/MainWindow.xaml.cs:221-225 | with the profile path in double quotes, the launch program receives the whole save path and shows exactly the saved profile's items, whatever blanks AppData holds |
| Manager.SavePathStartsWith | AdiQuickLaunchManager/MainWindow.xaml.cs:223-225 | the save path of a canonical id starts with the AppData folder |
| Manager.SavePathAvoidsQuote | AdiQuickLaunchManager/MainWindow.xaml.cs:223-225 | an AppData folder and id without double quotes give a save path without them |
| Paths.AppendStartsWith | AdiQuickLaunchManager/MainWindow.xaml.cs:223-225 | appending a part keeps what it appends to as a prefix |
| Paths.CombineAvoids | AdiQuickLaunchManager/MainWindow.xaml.cs:223-225 | a character other than the separator that neither part holds is not in their Combine |
| Paths.JoinPartsAvoids | AdiQuickLaunchManager/MainWindow.xaml.cs:223-225 | a character other than the separator that no part holds is not in their join |
| Paths.CombineAllAvoids | AdiQuickLaunchManager/MainWindow.xaml.cs:223-225 | a character other than the separator that no part holds is not in their params Combine |
| Launch.Project | AdiQuickLaunch/MainWindow.xaml.cs:238-306 | an entry that throws is skipped; a missing path shows as "<name> (Missing)", a file, with the matching missing icon; an existing directory shows under "Direcotries", a file under "Files", both with the shell's icon |
| Launch.ProjectAll | AdiQuickLaunch/MainWindow.xaml.cs:233-312 | no more lines than entries |
| Launch.ProjectAllAppend | AdiQuickLaunch/MainWindow.xaml.cs:238-309 | showing two lists in turn shows their concatenation |
| Launch.ProjectAllNoFaults | AdiQuickLaunch/MainWindow.xaml.cs:238-309 | when no entry throws, there is one line per entry, in order, each with its entry's path |
| Launch.ProjectAllMembers | AdiQuickLaunch/MainWindow.xaml.cs:238-309 | exactly the lines of entries that do not throw are shown |
| Launch.Kind | AdiQuickLaunch/MainWindow.xaml.cs:153-200 | missing means neither file nor directory exists; otherwise a shown directory is a folder, .exe or .dll is a program, and a remaining .lnk is a shortcut, each exactly so and ignoring case; anything else is a document |
| Launch.TaskFor | AdiQuickLaunch/MainWindow.xaml.cs:153-200 | the task for each kind: the error task; explorer on the quoted path from its directory with the folder, own or document icon; the resolved target for a link, or nothing when resolving throws |
| Launch.TasksFor | AdiQuickLaunch/MainWindow.xaml.cs:151-213 | the jump list CreateJumpList registers exists exactly when every task can be made, and then has one task per entry, in order |
| Launch.AllPresentSpec | AdiQuickLaunch/MainWindow.xaml.cs:151-213 | mapping a partial function over a list succeeds exactly when every element maps, and then yields one value per element, in order |
| Launch.MissingEntryTask | AdiQuickLaunch/MainWindow.xaml.cs:153-164 | an entry whose path is gone shows as "(Missing)" and gets the error task with that same title |
| Launch.UpperCaseExeIsExecutable | AdiQuickLaunch/MainWindow.xaml.cs:182-183 | an existing X.EXE file is a program: the extension test ignores case |
| Launch.LaunchWindow.constructor | AdiQuickLaunch/MainWindow.xaml.cs:36-93 | the window shows the displayed entries of the profile and has no jump list yet |
| Launch.LaunchWindow.LoadFileList | AdiQuickLaunch/MainWindow.xaml.cs:233-312 | the shown list is ProjectAll of the entries |
| Launch.LaunchWindow.CreateJumpList | AdiQuickLaunch/MainWindow.xaml.cs:139-231 | the jump list becomes TasksFor of the entries, and is left as it was when a link cannot be resolved |
| Launch.LaunchWindow.Loaded | AdiQuickLaunch/MainWindow.xaml.cs:82-89 | once loaded, the jump list for the shown entries is created |
| Launch.TasksForAbort | AdiQuickLaunch/MainWindow.xaml.cs:215-223 | one task that cannot be made spoils the whole list |
| Launch.AllPresentPrefix | AdiQuickLaunch/MainWindow.xaml.cs:215-223 | a prefix whose mapping fails makes the whole mapping fail |

## Left out

- `IconHelper` and its shell P/Invoke are not part of this model. The icon lookup is the parameter `getIcon`.
- `App.xaml.cs`: its stopwatch timings and debug output are left out. The first command-line argument is modelled (`Launch.FirstArgument`).
- Launch.FirstArgument: the Windows command-line rules are simplified. A quote inside an argument, text after a closing quote and backslashes before a quote are not given their special meaning.
- Launch.LaunchReadsSavedProfile: it starts from the shortcut's whole argument string. The launch program keeps only the first argument, so the result holds end to end only for a save path without blanks; see Findings (`Launch.SpacedProfileIsLost`, `Launch.QuotedProfileIsRead`).
- The JSON serialiser is an oracle pair: a writer `JsonWriter` and a parser `JsonParser`. That the parser reads back what the writer wrote is not proved. `Launch.LaunchReadsSavedProfile` takes it as a hypothesis.
- Launch.LoadFolders: exceptions other than a failed read or parse (access denied, a path that is too long) are not distinguished; each gives the empty list.
- Manager.ManagerWindow.CreateExecutableAndShortcut: the shell COM object is modelled as appending a `Shortcut` value. A COM failure is not modelled, and neither is the confirmation message box.
- `ResolveShortcut` is the oracle `resolveShortcut`; `None` stands for the shell call throwing. Launch.LaunchWindow.CreateJumpList: other exceptions inside its `try` are not modelled.
- Launch.Project: which entries throw while shown is the oracle `faults`.
- Manager.ManagerWindow.AddItems: the new items are built first (`Manager.NewFileItems`) and appended to the launcher in one step after the loop. The collection's change notifications are not modelled, so the final state is the same as appending one at a time.
- QuickLaunchLib.Deserialize: the launcher's `Name` and `IconPath` are assigned directly rather than through their setters. Those setters only assign and raise a notification.
- Manager.ManagerWindow.Closing: the loop reads each launcher's dirtiness through `AnyDirty()`, the value `QuickLauncher.CheckIsDirty` is proved to return, rather than calling the method. It collects what `SaveLauncher` would write in a local disk that is stored after the loop. The effect on the disk is the same; an exception part-way through is not modelled.
- `PositionWindow` is left out. It works in floating-point screen coordinates.
- `OpenItem`, `Window_Deactivated`, `Window_KeyDown`, `CloseButton_Click` and `FileListBox_MouseClick` are left out. They start processes or close the window.
- Collection views and grouping, the window icon loaded on a background task, `Dispatcher` callbacks, focus, selection and `FindVisualChild` are left out. They are presentation only.
- `Guid.NewGuid()` is left out: the id is a parameter of `AddLauncher`.
- `Environment.GetFolderPath` and `AppDomain.BaseDirectory` are left out: `appData`, `desktop` and `baseDirectory` are constants of the window.
- The `#if DEBUG` install path of `GetApplicationInstallPath` is left out. Only the release path is modelled.
- Dialogs are left out: their results are inputs, with `None` for a cancelled dialog. The "no launcher selected" message boxes are left out; the model keeps only the fact that those branches change nothing.
- `PropertyChanged` notifications are left out. They have no effect on the state that is modelled.
- Write errors from `File.WriteAllText` and `Directory.CreateDirectory` are not modelled.
- The order in which `Directory.GetFiles` lists files is a parameter. It is constrained to list exactly the folder's files with extension `.json`, ignoring case, each once.
- Paths.Combine, Paths.GetDirectoryName: the helpers follow `System.IO.Path` only on backslash-separated paths. They do not handle `/`, UNC or device paths, or the drive-relative form `C:name`.
- Paths.GetDirectoryName: doubled separators are not collapsed. For `C:\a\\b` .NET gives `C:\a`, the model `C:\a\`.
- Paths.GetDirectoryName: a bare drive `C:` is not treated as a root. .NET gives null, the model the empty string.
- Paths.GetDirectoryName: a path of blanks only, such as `"   "`, gives the empty string. .NET gives null.
- Storage.FileExists, Storage.DirectoryExists: paths are compared as exact strings. NTFS ignores letter case and a trailing separator, so the model can mark an entry "(Missing)" that Windows finds.
- Storage.CreateDirectory: only the named directory is added, not its missing parents. .NET also creates the parents, such as `AppData\AdiSoft`; nothing in the model reads those parents.
- BooleanToVisibilityConverter.IsInvert: `ToLower()` is culture-sensitive in .NET. The model folds ASCII letters only.
- Text.EqualsIgnoreCase: ordinal ignore-case comparison is modelled as ASCII case folding. Non-ASCII letters compare exactly.
- A profile whose `Items` is JSON null is read by the manager as having no items (`QuickLaunchLib.Materialized`). The code would keep a null collection, and `CheckIsDirty` would then throw on close.

## Findings

| source | as written | input that shows it | evidently intended | confidence | as-written member | corrected member |
|---|---|---|---|---|---|---|
| AdiQuickLaunchManager/MainWindow.xaml.cs:221-225 | the profile path is the shortcut's bare argument string, without quotes. The launch program keeps only its first argument (AdiQuickLaunch/App.xaml.cs:23) | an AppData folder `C:\A B`: the launch program receives `C:\A` and shows no entries | the path in double quotes, as the launch window passes paths to its jump list tasks and to explorer (AdiQuickLaunch/MainWindow.xaml.cs:173, 320) | not executed | Launch.SpacedProfileIsLost | Launch.QuotedProfileIsRead |

`Manager.ManagerWindow.CreateExecutableAndShortcut` keeps the bare argument
as the code writes it. The end-to-end launch property is stated for the
quoted argument, `Manager.QuotedArgument`.
