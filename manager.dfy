/**
 * The profile manager window: the list of launchers, the table of names
 * remembered while a launcher is being renamed in place, the file system it
 * saves profiles to and the shortcuts it has created. The describing
 * functions (unique names, profile and shortcut paths, what loading and
 * saving do to the disk) come first; the window's handlers are methods of
 * `ManagerWindow`, proved against them.
 */
module Manager {
  import opened Wrappers
  import opened Text
  import opened Paths
  import opened Storage
  import opened QuickLaunchLib

  const Manufacturer: string := "AdiSoft"
  const ProductName: string := "AdiQuickLauncher"
  const BaseName: string := "New Launcher"

  // ---------------------------------------------------------------------
  // Unique names

  /** `$"{baseName} {counter}"`. */
  function CandidateName(n: nat): string {
    BaseName + " " + NatToString(n)
  }

  /** Folding a candidate name folds only its fixed prefix. */
  lemma LowerCandidateName(n: nat)
    ensures Lower(CandidateName(n)) == Lower(BaseName + " ") + NatToString(n)
  {
    LowerAppend(BaseName + " ", NatToString(n));
    LowerOfDigits(n);
  }

  /** A name that matches candidate `n` ignoring case matches no other
      candidate. */
  lemma CandidateNameMatch(m: nat, n: nat, x: Option<string>)
    requires m != n && EqualsIgnoreCase(x, Some(CandidateName(n)))
    ensures !EqualsIgnoreCase(x, Some(CandidateName(m)))
  {
    if EqualsIgnoreCase(x, Some(CandidateName(m))) {
      LowerCandidateName(m);
      LowerCandidateName(n);
      var p := |Lower(BaseName + " ")|;
      assert NatToString(m) == Lower(CandidateName(m))[p..];
      assert NatToString(n) == Lower(CandidateName(n))[p..];
      NatToStringInjective(m, n);
    }
  }

  /** Some launcher's name equals `candidate` ignoring case. */
  predicate Taken(names: seq<Option<string>>, candidate: string) {
    exists i :: 0 <= i < |names| && EqualsIgnoreCase(names[i], Some(candidate))
  }

  /** `name` is `"New Launcher n"` for the least `n` from `|names| + 1` on
      whose candidate no launcher has taken. */
  ghost predicate IsLeastFreeName(names: seq<Option<string>>, name: string) {
    exists n: nat ::
      && |names| + 1 <= n
      && name == CandidateName(n)
      && !Taken(names, name)
      && forall m :: |names| + 1 <= m < n ==> Taken(names, CandidateName(m))
  }

  /** There is only one least free name. */
  lemma LeastFreeNameIsUnique(names: seq<Option<string>>, a: string, b: string)
    requires IsLeastFreeName(names, a) && IsLeastFreeName(names, b)
    ensures a == b
  {
    var na: nat :| |names| + 1 <= na && a == CandidateName(na) && !Taken(names, a)
      && forall m :: |names| + 1 <= m < na ==> Taken(names, CandidateName(m));
    var nb: nat :| |names| + 1 <= nb && b == CandidateName(nb) && !Taken(names, b)
      && forall m :: |names| + 1 <= m < nb ==> Taken(names, CandidateName(m));
  }

  /** Every candidate from `lo` up to `hi` is taken. */
  ghost predicate AllTaken(names: seq<Option<string>>, lo: nat, hi: nat) {
    forall m :: lo <= m < hi ==> Taken(names, CandidateName(m))
  }

  /** Each index in `seen` is a launcher whose name matches one of the
      candidates from `lo` up to `hi`. */
  ghost predicate SeenMatch(names: seq<Option<string>>, seen: set<nat>, lo: nat, hi: nat) {
    forall i :: i in seen ==>
      i < |names| && exists m :: lo <= m < hi && EqualsIgnoreCase(names[i], Some(CandidateName(m)))
  }

  /** The state of the search after the candidates from `lo` up to `hi`
      were found taken: `seen` holds one matching launcher per candidate. */
  ghost predicate Searched(names: seq<Option<string>>, seen: set<nat>, lo: nat, hi: nat) {
    && lo <= hi
    && AllTaken(names, lo, hi)
    && SeenMatch(names, seen, lo, hi)
    && |seen| == hi - lo
  }

  /** Finding candidate `hi` taken uses up a launcher not used before. */
  lemma SearchStep(names: seq<Option<string>>, seen: set<nat>, lo: nat, hi: nat) returns (seen': set<nat>)
    requires Searched(names, seen, lo, hi) && Taken(names, CandidateName(hi))
    ensures Searched(names, seen', lo, hi + 1)
    ensures |seen'| == |seen| + 1 && |seen'| <= |names|
  {
    var i :| 0 <= i < |names| && EqualsIgnoreCase(names[i], Some(CandidateName(hi)));
    MatchIsUnseen(names, seen, lo, hi, i);
    seen' := seen + {i};
    SeenGrows(names, seen, lo, hi, i);
    AllTakenGrows(names, lo, hi);
    assert |seen'| == hi + 1 - lo;
    IndexSetBound(seen', |names|);
  }

  /** One more taken candidate extends the run of taken ones. */
  lemma AllTakenGrows(names: seq<Option<string>>, lo: nat, hi: nat)
    requires AllTaken(names, lo, hi) && Taken(names, CandidateName(hi))
    ensures AllTaken(names, lo, hi + 1)
  {
    forall m | lo <= m < hi + 1
      ensures Taken(names, CandidateName(m))
    {
      if m == hi {
        assert Taken(names, CandidateName(hi));
      }
    }
  }

  /** A launcher matching candidate `hi` matched none of the earlier
      candidates, so it is not in `seen`. */
  lemma MatchIsUnseen(names: seq<Option<string>>, seen: set<nat>, lo: nat, hi: nat, i: nat)
    requires SeenMatch(names, seen, lo, hi)
    requires i < |names| && EqualsIgnoreCase(names[i], Some(CandidateName(hi)))
    ensures i !in seen
  {
    if i in seen {
      var m :| lo <= m < hi && EqualsIgnoreCase(names[i], Some(CandidateName(m)));
      CandidateNameMatch(m, hi, names[i]);
    }
  }

  /** Adding the launcher that matches candidate `hi` keeps `seen` one
      matching launcher per candidate. */
  lemma SeenGrows(names: seq<Option<string>>, seen: set<nat>, lo: nat, hi: nat, i: nat)
    requires lo <= hi && SeenMatch(names, seen, lo, hi)
    requires i < |names| && EqualsIgnoreCase(names[i], Some(CandidateName(hi)))
    ensures SeenMatch(names, seen + {i}, lo, hi + 1)
  {
    forall j | j in seen + {i}
      ensures j < |names| && exists m :: lo <= m < hi + 1 && EqualsIgnoreCase(names[j], Some(CandidateName(m)))
    {
      if j == i {
        assert lo <= hi < hi + 1 && EqualsIgnoreCase(names[i], Some(CandidateName(hi)));
      }
    }
  }

  /** A free candidate ends the search with the least free name, whose
      number the used-up launchers bound. */
  lemma SearchDone(names: seq<Option<string>>, seen: set<nat>, lo: nat, hi: nat)
    requires lo == |names| + 1 && Searched(names, seen, lo, hi) && |seen| <= |names|
    requires !Taken(names, CandidateName(hi))
    ensures IsLeastFreeName(names, CandidateName(hi))
    ensures forall k :: 0 <= k < |names| ==> !EqualsIgnoreCase(names[k], Some(CandidateName(hi)))
    ensures hi <= 2 * |names| + 1
  {
  }

  /** The names of the worked example below. */
  const ExampleNames: seq<Option<string>> := [Some("New Launcher 1"), Some("new launcher 3")]

  /** The first example name is candidate 1; the second is candidate 3 up
      to case. */
  lemma ExampleMatches()
    ensures EqualsIgnoreCase(ExampleNames[0], Some(CandidateName(1)))
    ensures EqualsIgnoreCase(ExampleNames[1], Some(CandidateName(3)))
  {
    assert CandidateName(1) == "New Launcher 1";
    assert CandidateName(3) == "New Launcher 3";
    var low := Lower("new launcher 3");
    var up := Lower("New Launcher 3");
    assert low == up by {
      assert forall i :: 0 <= i < 14 ==> low[i] == LowerChar("new launcher 3"[i]) && up[i] == LowerChar("New Launcher 3"[i]);
    }
  }

  /** In the example, candidate 3 is taken ignoring case and candidate 4 is
      free. */
  lemma ExampleCandidates()
    ensures Taken(ExampleNames, CandidateName(3))
    ensures !Taken(ExampleNames, CandidateName(4))
  {
    ExampleMatches();
    CandidateNameMatch(4, 1, ExampleNames[0]);
    CandidateNameMatch(4, 3, ExampleNames[1]);
    forall i | 0 <= i < |ExampleNames|
      ensures !EqualsIgnoreCase(ExampleNames[i], Some(CandidateName(4)))
    {
      assert i == 0 || i == 1;
    }
  }

  /** With "New Launcher 1" and "new launcher 3" present the search starts
      at 3, finds it taken ignoring case, and settles on candidate 4,
      "New Launcher 4". */
  lemma LeastFreeNameExample()
    ensures IsLeastFreeName(ExampleNames, CandidateName(4))
  {
    ExampleCandidates();
    assert AllTaken(ExampleNames, 3, 4) by {
      forall m | 3 <= m < 4
        ensures Taken(ExampleNames, CandidateName(m))
      {
        assert m == 3;
      }
    }
    FirstFreeIsLeast(ExampleNames, 4);
  }

  /** A free candidate after an unbroken run of taken ones from
      `|names| + 1` is the least free name. */
  lemma FirstFreeIsLeast(names: seq<Option<string>>, n: nat)
    requires |names| + 1 <= n && AllTaken(names, |names| + 1, n)
    requires !Taken(names, CandidateName(n))
    ensures IsLeastFreeName(names, CandidateName(n))
  {
    var name := CandidateName(n);
    assert |names| + 1 <= n && name == CandidateName(n);
  }

  /** A set of indices below `n` has at most `n` elements. */
  lemma {:induction false} IndexSetBound(s: set<nat>, n: nat)
    requires forall i :: i in s ==> i < n
    ensures |s| <= n
    decreases n
  {
    if n == 0 {
      assert s == {};
    } else {
      IndexSetBound(s - {n - 1}, n - 1);
    }
  }

  /** The names of the launchers, in order. */
  function Names(ls: seq<QuickLauncher>): (r: seq<Option<string>>)
    reads ls
    ensures |r| == |ls|
    ensures forall k :: 0 <= k < |ls| ==> r[k] == ls[k].name
  {
    if ls == [] then [] else [ls[0].name] + Names(ls[1..])
  }

  // ---------------------------------------------------------------------
  // Collections

  /** The position of the first occurrence of `x`. */
  function FirstIndex<T(==)>(s: seq<T>, x: T): (i: nat)
    requires x in s
    ensures i < |s| && s[i] == x && x !in s[..i]
  {
    if s[0] == x then 0
    else
      var j := FirstIndex(s[1..], x);
      assert s[..j + 1] == [s[0]] + s[1..][..j];
      j + 1
  }

  /** `Collection.Remove`: drops the first occurrence of `x`, if any. */
  function RemoveFirst<T(==)>(s: seq<T>, x: T): seq<T> {
    if s == [] then []
    else if s[0] == x then s[1..]
    else [s[0]] + RemoveFirst(s[1..], x)
  }

  /** A list without `x` is kept as it is; otherwise exactly the first
      occurrence is cut out and the rest keeps its order. */
  lemma RemoveFirstCutsFirst<T>(s: seq<T>, x: T)
    ensures x !in s ==> RemoveFirst(s, x) == s
    ensures x in s ==> RemoveFirst(s, x) == s[..FirstIndex(s, x)] + s[FirstIndex(s, x) + 1..]
  {
    if x in s {
      RemoveFirstAt(s, FirstIndex(s, x));
    } else {
      RemoveFirstAbsent(s, x);
    }
  }

  /** Nothing is removed from a list without `x`. */
  lemma {:induction false} RemoveFirstAbsent<T>(s: seq<T>, x: T)
    requires x !in s
    ensures RemoveFirst(s, x) == s
  {
    if s != [] {
      assert x !in s[1..];
      RemoveFirstAbsent(s[1..], x);
    }
  }

  /** The first occurrence, at `i`, is the one cut out. */
  lemma {:induction false} RemoveFirstAt<T>(s: seq<T>, i: nat)
    requires i < |s| && s[i] !in s[..i]
    ensures RemoveFirst(s, s[i]) == s[..i] + s[i + 1..]
  {
    if i > 0 {
      assert s[0] != s[i] by { assert s[0] == s[..i][0]; }
      var t := s[1..];
      assert t[i - 1] == s[i];
      assert t[..i - 1] == s[..i][1..];
      RemoveFirstAt(t, i - 1);
      assert s[..i] == [s[0]] + t[..i - 1];
      assert s[i + 1..] == t[i..];
    }
  }

  /** Removing keeps every other element and adds none. */
  lemma RemoveFirstMembers<T>(s: seq<T>, x: T, y: T)
    ensures y in RemoveFirst(s, x) ==> y in s
    ensures y in s && y != x ==> y in RemoveFirst(s, x)
  {
    RemoveFirstCutsFirst(s, x);
    if x in s {
      var i := FirstIndex(s, x);
      assert s == s[..i] + [x] + s[i + 1..];
    }
  }

  /** Removing what was just appended gives the list back. */
  lemma {:induction false} RemoveFirstOfAppended<T>(s: seq<T>, x: T)
    requires x !in s
    ensures RemoveFirst(s + [x], x) == s
  {
    if s != [] {
      assert (s + [x])[1..] == s[1..] + [x];
      RemoveFirstOfAppended(s[1..], x);
    }
  }

  /** `dict[key] = value` unless `dict.ContainsKey(key)`: a name is
      remembered for a launcher only when none is stored yet. */
  function Remember(m: map<QuickLauncher, Option<string>>, l: QuickLauncher, name: Option<string>): (r: map<QuickLauncher, Option<string>>)
    ensures l in r && r.Keys == m.Keys + {l}
    ensures l in m ==> r[l] == m[l]
    ensures l !in m ==> r[l] == name
    ensures forall k :: k in m && k != l ==> r[k] == m[k]
  {
    if l in m then m else m[l := name]
  }

  // ---------------------------------------------------------------------
  // Profile and shortcut paths

  /** `Path.Combine(appData, "AdiSoft", "AdiQuickLauncher")`. */
  function ProfileFolder(appData: string): string {
    CombineAll([appData, Manufacturer, ProductName])
  }

  /** `$"{launcher.Id}.json"`. */
  function ProfileFileName(id: Guid): string {
    id.text + ".json"
  }

  /** The file `SaveLauncher` writes for a profile. */
  function SavePath(appData: string, id: Guid): string {
    Combine(ProfileFolder(appData), ProfileFileName(id))
  }

  /** The profile path `CreateExecutableAndShortcut` passes to the launch
      program, all four parts combined at once: exactly the file the
      manager saves the profile to. */
  function ShortcutArgument(appData: string, id: Guid): (r: string)
    ensures r == SavePath(appData, id)
  {
    var parts := [appData, Manufacturer, ProductName];
    assert parts + [ProfileFileName(id)] == [appData, Manufacturer, ProductName, ProfileFileName(id)];
    CombineAllSnoc(parts, ProfileFileName(id));
    CombineAll([appData, Manufacturer, ProductName, ProfileFileName(id)])
  }

  /** `Path.Combine(desktop, $"{launcher.Name}.lnk")`. */
  function LinkPath(desktop: string, name: Option<string>): string {
    Combine(desktop, Show(name) + ".lnk")
  }

  /** `GetApplicationInstallPath()`. */
  function InstallPath(baseDirectory: string): string {
    Combine(baseDirectory, "AdiQuickLaunchItem")
  }

  /** The launch program the shortcut starts. */
  function LauncherExe(baseDirectory: string): string {
    Combine(InstallPath(baseDirectory), "AdiQuickLaunch.exe")
  }

  /** The shortcut is a `.lnk` file whatever the launcher is called; a
      launcher name that is a plain file name puts it directly on a desktop
      that is neither a drive nor ends with a separator. */
  lemma LinkPathShape(desktop: string, name: Option<string>)
    ensures GetExtension(LinkPath(desktop, name)) == ".lnk"
    ensures && NoSeparator(Show(name)) && !IsRooted(Show(name))
            && desktop != "" && desktop[|desktop| - 1] != Separator && !(|desktop| == 2 && HasDrive(desktop))
            ==> GetDirectoryName(LinkPath(desktop, name)) == Some(desktop)
  {
    var file := Show(name) + ".lnk";
    ExtensionOfCombine(desktop, file, ".lnk");
    if && NoSeparator(Show(name)) && !IsRooted(Show(name))
       && desktop != "" && desktop[|desktop| - 1] != Separator && !(|desktop| == 2 && HasDrive(desktop)) {
      PlainLinkName(Show(name));
      DirectoryOfCombine(desktop, file);
    }
  }

  /** Whatever the folder, a file ending in `.lnk` or `.exe` keeps that
      extension when combined under it. */
  lemma ExtensionOfCombine(dir: string, file: string, ext: string)
    requires ext == ".lnk" || ext == ".exe"
    requires |file| >= 4 && file[|file| - 4..] == ext
    ensures GetExtension(Combine(dir, file)) == ext
  {
    var r := Combine(dir, file);
    CombineEndsWith(dir, file);
    assert r == r[..|r| - 4] + ext by {
      assert r[|r| - 4..] == file[|file| - 4..];
    }
    KnownExtension(r[..|r| - 4], ext);
  }

  /** A name without separators or a drive colon stays a plain relative
      name with `.lnk` appended. */
  lemma PlainLinkName(name: string)
    requires NoSeparator(name)
    requires !IsRooted(name)
    ensures NoSeparator(name + ".lnk") && !IsRooted(name + ".lnk")
  {
    var file := name + ".lnk";
    forall i | |name| <= i < |file|
      ensures file[i] != Separator
    {
      assert file[i] == ".lnk"[i - |name|];
      assert i - |name| == 0 || i - |name| == 1 || i - |name| == 2 || i - |name| == 3;
    }
    if |name| == 1 {
      assert file[1] == '.';
    }
  }

  /** The install folder is named `AdiQuickLaunchItem`. */
  lemma InstallPathShape(baseDirectory: string)
    ensures GetFileName(InstallPath(baseDirectory)) == "AdiQuickLaunchItem"
  {
    NoSeparatorOfText("AdiQuickLaunchItem");
    FileNameOfCombine(baseDirectory, "AdiQuickLaunchItem");
  }

  /** The launch program's file name is a plain relative name. */
  lemma ExeNameIsPlain()
    ensures NoSeparator("AdiQuickLaunch.exe") && !IsRooted("AdiQuickLaunch.exe")
  {
    NoSeparatorOfText("AdiQuickLaunch.exe");
  }

  /** The launch program is `AdiQuickLaunch.exe` directly inside the install
      folder. */
  lemma LauncherExeShape(baseDirectory: string)
    ensures GetFileName(LauncherExe(baseDirectory)) == "AdiQuickLaunch.exe"
    ensures GetExtension(LauncherExe(baseDirectory)) == ".exe"
    ensures GetDirectoryName(LauncherExe(baseDirectory)) == Some(InstallPath(baseDirectory))
  {
    var dir, exe := InstallPath(baseDirectory), "AdiQuickLaunch.exe";
    InstallPathShape(baseDirectory);
    assert dir[|dir| - 1] == 'm' by {
      assert dir[|dir| - 18..] == "AdiQuickLaunchItem";
    }
    ExeNameIsPlain();
    DirectoryOfCombine(dir, exe);
    FileNameOfCombine(dir, exe);
    ExtensionOfCombine(dir, exe, ".exe");
  }

  /** A non-empty part ends what `Append` makes. */
  lemma AppendEndsWith(acc: string, part: string)
    requires part != ""
    ensures |part| <= |Append(acc, part)|
    ensures Append(acc, part)[|Append(acc, part)| - |part|..] == part
  {
  }

  /** The profile folder is `...\AdiQuickLauncher`, so it is neither empty, a
      drive, nor ends with a separator. */
  lemma ProfileFolderShape(appData: string)
    ensures |ProfileFolder(appData)| >= |ProductName|
    ensures ProfileFolder(appData)[|ProfileFolder(appData)| - |ProductName|..] == ProductName
  {
    var parts := [appData, Manufacturer, ProductName];
    assert LastRootedPart(parts) == 0 by {
      assert parts[..2] == [appData, Manufacturer];
      assert parts[..2][..1] == [appData];
    }
    assert parts[..2] == [appData, Manufacturer];
    AppendEndsWith(JoinParts(parts[..2]), ProductName);
  }

  /** The save path starts with the AppData folder it is built on. */
  lemma SavePathStartsWith(appData: string, id: Guid)
    requires id.Canonical()
    ensures |appData| <= |SavePath(appData, id)| && SavePath(appData, id)[..|appData|] == appData
  {
    var parts := [appData, Manufacturer, ProductName];
    assert LastRootedPart(parts) == 0 by {
      assert parts[..2] == [appData, Manufacturer];
      assert parts[..2][..1] == [appData];
    }
    assert parts[..2] == [appData, Manufacturer];
    assert parts[..2][..1] == [appData];
    var first := JoinParts(parts[..2]);
    JoinPartsOfFew(parts[..2]);
    var folder := ProfileFolder(appData);
    assert folder == Append(first, ProductName);
    var name := ProfileFileName(id);
    ProfileFileNameShape(id);
    assert SavePath(appData, id) == Append(folder, name);
    AppendStartsWith(appData, Manufacturer);
    AppendStartsWith(first, ProductName);
    AppendStartsWith(folder, name);
    assert folder[..|first|][..|appData|] == folder[..|appData|];
    assert Append(folder, name)[..|folder|][..|appData|] == Append(folder, name)[..|appData|];
  }

  /** A save path built from an AppData folder and an id without double
      quotes has none either. */
  lemma SavePathAvoidsQuote(appData: string, id: Guid)
    requires '"' !in appData && '"' !in id.text
    ensures '"' !in SavePath(appData, id)
  {
    var parts := [appData, Manufacturer, ProductName];
    forall i | 0 <= i < |parts|
      ensures '"' !in parts[i]
    {
      assert i == 0 || i == 1 || i == 2;
    }
    CombineAllAvoids(parts, '"');
    assert '"' !in ".json";
    assert '"' !in ProfileFileName(id);
    CombineAvoids(ProfileFolder(appData), ProfileFileName(id), '"');
  }

  /** A path in double quotes, the way the launch window quotes the paths
      it hands to explorer: the argument string a shortcut needs for its
      profile path to reach the launch program whole. */
  function QuotedArgument(path: string): string {
    "\"" + path + "\""
  }

  /** The directory that holds the profiles and the `*.json` files it
      holds. */
  function JsonFiles(d: Disk, folder: string): set<string> {
    set p | p in d.files && GetDirectoryName(p) == Some(folder) && EqualsIgnoreCase(Some(GetExtension(p)), Some(".json"))
  }

  /** A profile with a canonical id is saved as `<id>.json` directly inside
      the profile folder, so the folder's `*.json` listing finds it. */
  lemma SavePathIsListed(d: Disk, appData: string, id: Guid)
    requires id.Canonical()
    ensures GetFileName(SavePath(appData, id)) == ProfileFileName(id)
    ensures GetDirectoryName(SavePath(appData, id)) == Some(ProfileFolder(appData))
    ensures GetExtension(SavePath(appData, id)) == ".json"
    ensures SavePath(appData, id) in d.files ==> SavePath(appData, id) in JsonFiles(d, ProfileFolder(appData))
  {
    SavePathParts(appData, id);
    var prefix := ProfileFolder(appData) + [Separator] + id.text;
    assert SavePath(appData, id) == prefix + ".json";
    KnownExtension(prefix, ".json");
  }

  /** A path ending in `.json`, `.lnk` or `.exe` has that extension. */
  lemma KnownExtension(prefix: string, ext: string)
    requires ext == ".json" || ext == ".lnk" || ext == ".exe"
    ensures GetExtension(prefix + ext) == ext
  {
    forall i | 1 <= i < |ext|
      ensures ext[i] != '.' && ext[i] != Separator
    {
      assert i == 1 || i == 2 || i == 3 || i == 4;
    }
    ExtensionOfSuffix(prefix, ext);
  }

  /** The save path is the profile folder, a separator and `<id>.json`, and
      splits back into those two. */
  lemma SavePathParts(appData: string, id: Guid)
    requires id.Canonical()
    ensures SavePath(appData, id) == ProfileFolder(appData) + [Separator] + ProfileFileName(id)
    ensures GetFileName(SavePath(appData, id)) == ProfileFileName(id)
    ensures GetDirectoryName(SavePath(appData, id)) == Some(ProfileFolder(appData))
  {
    var folder, name := ProfileFolder(appData), ProfileFileName(id);
    ProfileFolderShape(appData);
    assert folder[|folder| - 1] == ProductName[|ProductName| - 1];
    ProfileFileNameShape(id);
    FileNameOfCombine(folder, name);
    DirectoryOfCombine(folder, name);
  }

  /** `<id>.json` for a canonical id is a plain relative file name. */
  lemma ProfileFileNameShape(id: Guid)
    requires id.Canonical()
    ensures ProfileFileName(id) != "" && NoSeparator(ProfileFileName(id)) && !IsRooted(ProfileFileName(id))
  {
    var name := ProfileFileName(id);
    forall i | 0 <= i < |name|
      ensures name[i] != Separator
    {
      if i < 36 {
        assert name[i] == id.text[i];
      } else {
        assert name[i] == ".json"[i - 36];
      }
    }
    assert name[1] == id.text[1];
  }

  /** The link is `<Name>.lnk` on the desktop: a name without separators is
      the link's file name, as the confirmation message shows it. */
  lemma LinkFileName(desktop: string, name: Option<string>)
    requires NoSeparator(Show(name))
    requires !IsRooted(Show(name))
    ensures GetFileName(LinkPath(desktop, name)) == Show(name) + ".lnk"
  {
    PlainLinkName(Show(name));
    FileNameOfCombine(desktop, Show(name) + ".lnk");
  }

  /** A shell shortcut as `CreateShortcut` saves it. */
  datatype Shortcut = Shortcut(
    linkPath: string,
    targetPath: string,
    workingDirectory: Option<string>,
    arguments: string,
    iconLocation: Option<string>)

  /** `CreateShortcut(shortcutPath, targetExe, arguments, iconPath)`: the
      program starts in its own directory, null arguments become empty, and
      the icon is set only for a non-empty icon path. */
  function CreateShortcut(shortcutPath: string, targetExe: string, arguments: Option<string>, iconPath: Option<string>): (r: Shortcut)
    ensures r.linkPath == shortcutPath && r.targetPath == targetExe
    ensures r.workingDirectory == GetDirectoryName(targetExe)
    ensures arguments.Some? ==> r.arguments == arguments.value
    ensures arguments.None? ==> r.arguments == ""
    ensures r.iconLocation.Some? <==> !IsNullOrEmpty(iconPath)
    ensures r.iconLocation.Some? ==> r.iconLocation == iconPath
  {
    Shortcut(shortcutPath, targetExe, GetDirectoryName(targetExe), arguments.GetOr(""),
      if IsNullOrEmpty(iconPath) then None else iconPath)
  }

  // ---------------------------------------------------------------------
  // Saving

  /** `SaveLauncher`: the folder is created and the profile's JSON is
      written to `<id>.json` inside it. */
  function SaveProfile(d: Disk, appData: string, record: LauncherRecord, write: JsonWriter): (r: Disk)
    ensures r.directories == d.directories + {ProfileFolder(appData)}
    ensures SavePath(appData, record.id) in r.files && r.files[SavePath(appData, record.id)] == write(record)
    ensures forall p :: p != SavePath(appData, record.id) ==> (p in r.files <==> p in d.files)
    ensures forall p :: p != SavePath(appData, record.id) && p in d.files ==> r.files[p] == d.files[p]
  {
    WriteAllText(CreateDirectory(d, ProfileFolder(appData)), SavePath(appData, record.id), write(record))
  }

  /** Saving several profiles, first to last. */
  function SaveAll(d: Disk, appData: string, records: seq<LauncherRecord>, write: JsonWriter): Disk {
    if records == [] then d
    else SaveProfile(SaveAll(d, appData, records[..|records| - 1], write), appData, records[|records| - 1], write)
  }

  /** Saving one more profile after the others. */
  lemma SaveAllSnoc(d: Disk, appData: string, records: seq<LauncherRecord>, record: LauncherRecord, write: JsonWriter)
    ensures SaveAll(d, appData, records + [record], write) == SaveProfile(SaveAll(d, appData, records, write), appData, record, write)
  {
    assert (records + [record])[..|records|] == records;
  }

  /** A file that none of the profiles is saved to keeps its contents. */
  lemma {:induction false} SaveAllKeepsOthers(d: Disk, appData: string, records: seq<LauncherRecord>, write: JsonWriter, p: string)
    requires forall k :: 0 <= k < |records| ==> SavePath(appData, records[k].id) != p
    ensures p in SaveAll(d, appData, records, write).files <==> p in d.files
    ensures p in d.files ==> SaveAll(d, appData, records, write).files[p] == d.files[p]
  {
    if records != [] {
      SaveAllKeepsOthers(d, appData, records[..|records| - 1], write, p);
    }
  }

  /** The file of a saved profile holds the JSON of the last record saved
      to it. */
  lemma {:induction false} SaveAllLastWins(d: Disk, appData: string, records: seq<LauncherRecord>, write: JsonWriter, k: nat)
    requires k < |records|
    requires forall j :: k < j < |records| ==> SavePath(appData, records[j].id) != SavePath(appData, records[k].id)
    ensures SavePath(appData, records[k].id) in SaveAll(d, appData, records, write).files
    ensures SaveAll(d, appData, records, write).files[SavePath(appData, records[k].id)] == write(records[k])
  {
    if k < |records| - 1 {
      SaveAllLastWins(d, appData, records[..|records| - 1], write, k);
    }
  }

  /** What closing the window looks at in one launcher: whether it has a
      dirty item, and what it persists as. */
  datatype ProfileState = ProfileState(dirty: bool, record: LauncherRecord)

  /** The state of each launcher, in list order. */
  function States(ls: seq<QuickLauncher>): (r: seq<ProfileState>)
    reads ls, Footprint(ls)
    ensures |r| == |ls|
    ensures forall k :: 0 <= k < |ls| ==> r[k] == ProfileState(ls[k].AnyDirty(), ls[k].Persisted())
  {
    if ls == [] then []
    else
      assert forall i :: i in ls[0].items ==> i in Footprint(ls);
      assert Footprint(ls[1..]) <= Footprint(ls);
      [ProfileState(ls[0].AnyDirty(), ls[0].Persisted())] + States(ls[1..])
  }

  /** The records of the dirty profiles, in order. */
  function DirtyRecords(states: seq<ProfileState>): (r: seq<LauncherRecord>)
    ensures |r| <= |states|
  {
    if states == [] then []
    else
      var last := states[|states| - 1];
      DirtyRecords(states[..|states| - 1]) + if last.dirty then [last.record] else []
  }

  /** Taking one more state adds its record when it is dirty. */
  lemma DirtyRecordsSnoc(states: seq<ProfileState>, k: nat)
    requires k < |states|
    ensures DirtyRecords(states[..k + 1]) == DirtyRecords(states[..k]) + if states[k].dirty then [states[k].record] else []
  {
    assert states[..k + 1][..k] == states[..k];
  }

  /** A profile is among the dirty records exactly when some dirty launcher
      persists as it. */
  lemma {:induction false} DirtyRecordsMembers(states: seq<ProfileState>, r: LauncherRecord)
    ensures r in DirtyRecords(states) <==> exists k :: 0 <= k < |states| && states[k].dirty && states[k].record == r
  {
    if states != [] {
      var init := states[..|states| - 1];
      DirtyRecordsMembers(init, r);
      assert forall k :: 0 <= k < |init| ==> init[k] == states[k];
    }
  }

  /** Every dirty launcher is saved and no clean one: with only clean
      launchers nothing is written at all. */
  lemma {:induction false} NothingDirtyNothingSaved(states: seq<ProfileState>)
    requires forall k :: 0 <= k < |states| ==> !states[k].dirty
    ensures DirtyRecords(states) == []
  {
    if states != [] {
      NothingDirtyNothingSaved(states[..|states| - 1]);
    }
  }

  // ---------------------------------------------------------------------
  // Loading

  /** One profile file as `LoadLaunchers` reads it: nothing when the file
      cannot be read, does not parse, or holds JSON null. */
  function ParsedFile(d: Disk, path: string, parse: JsonParser): (r: Option<LauncherRecord>)
    ensures r.Some? <==> path in d.files && parse(d.files[path]).Parsed?
    ensures r.Some? ==> r.value == parse(d.files[path]).record
  {
    match ReadAllText(d, path)
    case None => None
    case Some(text) =>
      match parse(text)
      case Parsed(record) => Some(record)
      case _ => None
  }

  /** The profiles of the listed files that parse, in listing order. */
  function ParsedFiles(d: Disk, files: seq<string>, parse: JsonParser): (r: seq<LauncherRecord>)
    ensures |r| <= |files|
  {
    if files == [] then []
    else
      var last := ParsedFile(d, files[|files| - 1], parse);
      ParsedFiles(d, files[..|files| - 1], parse) + if last.Some? then [last.value] else []
  }

  /** Reading two listings one after the other reads their concatenation. */
  lemma {:induction false} ParsedFilesAppend(d: Disk, a: seq<string>, b: seq<string>, parse: JsonParser)
    ensures ParsedFiles(d, a + b, parse) == ParsedFiles(d, a, parse) + ParsedFiles(d, b, parse)
    decreases |b|
  {
    if b != [] {
      assert (a + b)[..|a + b| - 1] == a + b[..|b| - 1];
      assert (a + b)[|a + b| - 1] == b[|b| - 1];
      ParsedFilesAppend(d, a, b[..|b| - 1], parse);
    } else {
      assert a + b == a;
    }
  }

  /** A file that does not yield a profile is skipped and does not disturb
      the others. */
  lemma SkipsUnreadable(d: Disk, files: seq<string>, k: nat, parse: JsonParser)
    requires k < |files| && ParsedFile(d, files[k], parse).None?
    ensures ParsedFiles(d, files, parse) == ParsedFiles(d, files[..k] + files[k + 1..], parse)
  {
    assert files == files[..k] + [files[k]] + files[k + 1..];
    ParsedFilesAppend(d, files[..k] + [files[k]], files[k + 1..], parse);
    ParsedFilesAppend(d, files[..k], [files[k]], parse);
    ParsedFilesAppend(d, files[..k], files[k + 1..], parse);
    assert ParsedFiles(d, [files[k]], parse) == [] by {
      assert [files[k]][..0] == [];
    }
  }

  /** Exactly the profiles of listed files that parse are loaded. */
  lemma {:induction false} ParsedFilesMembers(d: Disk, files: seq<string>, parse: JsonParser, r: LauncherRecord)
    ensures r in ParsedFiles(d, files, parse) <==> exists k :: 0 <= k < |files| && ParsedFile(d, files[k], parse) == Some(r)
  {
    if files != [] {
      var init := files[..|files| - 1];
      ParsedFilesMembers(d, init, parse, r);
      assert forall k :: 0 <= k < |init| ==> init[k] == files[k];
    }
  }

  /** Every listed profile parses: one profile per file, in order. */
  lemma {:induction false} ParsedFilesAllGood(d: Disk, files: seq<string>, parse: JsonParser)
    requires forall k :: 0 <= k < |files| ==> ParsedFile(d, files[k], parse).Some?
    ensures |ParsedFiles(d, files, parse)| == |files|
    ensures forall k :: 0 <= k < |files| ==> ParsedFiles(d, files, parse)[k] == ParsedFile(d, files[k], parse).value
  {
    if files != [] {
      ParsedFilesAllGood(d, files[..|files| - 1], parse);
    }
  }

  /** `listing` is what `Directory.GetFiles(folder, "*.json")` returns: the
      folder's JSON files, each once, in the order the system gives. */
  ghost predicate ListsJsonFiles(d: Disk, folder: string, listing: seq<string>) {
    && (forall p :: p in listing <==> p in JsonFiles(d, folder))
    && forall i, j :: 0 <= i < j < |listing| ==> listing[i] != listing[j]
  }

  /** `LoadLaunchers`: nothing when the profile folder is missing, and
      otherwise the profiles of the listed files that parse. */
  function LoadedProfiles(d: Disk, appData: string, listing: seq<string>, parse: JsonParser): (r: seq<LauncherRecord>)
    ensures !DirectoryExists(d, Some(ProfileFolder(appData))) ==> r == []
    ensures DirectoryExists(d, Some(ProfileFolder(appData))) ==> r == ParsedFiles(d, listing, parse)
  {
    if DirectoryExists(d, Some(ProfileFolder(appData))) then ParsedFiles(d, listing, parse) else []
  }

  /** `l` is what the deserialiser makes of `record`: not being edited,
      persisting as the record read back, and dirty exactly when one of its
      items has a name. */
  ghost predicate LoadedAs(l: QuickLauncher, record: LauncherRecord)
    reads l, l.items
  {
    && !l.isEditing
    && l.Persisted() == Materialized(record)
    && (l.AnyDirty() <==> exists i :: 0 <= i < |l.items| && l.items[i].name.Some?)
  }

  /** The loop of `LoadLaunchers()`: one launcher per listed file that reads
      and parses, made by the deserialiser, in listing order. */
  method DeserializeFiles(d: Disk, listing: seq<string>, parse: JsonParser) returns (ls: seq<QuickLauncher>)
    ensures |ls| == |ParsedFiles(d, listing, parse)|
    ensures forall k :: 0 <= k < |ls| ==>
              && fresh(ls[k])
              && (forall i :: 0 <= i < |ls[k].items| ==> fresh(ls[k].items[i]))
              && !ls[k].isEditing
              && ls[k].Persisted() == Materialized(ParsedFiles(d, listing, parse)[k])
              && (ls[k].AnyDirty() <==> exists i :: 0 <= i < |ls[k].items| && ls[k].items[i].name.Some?)
  {
    ls := [];
    ghost var loaded: seq<LauncherRecord> := [];
    for k := 0 to |listing|
      invariant loaded == ParsedFiles(d, listing[..k], parse)
      invariant |ls| == |loaded|
      invariant forall j :: 0 <= j < |ls| ==> fresh(ls[j]) && LoadedAs(ls[j], loaded[j])
      invariant forall j :: 0 <= j < |ls| ==> forall i :: 0 <= i < |ls[j].items| ==> fresh(ls[j].items[i])
    {
      var file := listing[k];
      assert listing[..k + 1][..k] == listing[..k];
      var text := ReadAllText(d, file);
      if text.Some? {
        var result := parse(text.value);
        if result.Parsed? {
          var l := Deserialize(result.record);
          ls := ls + [l];
          loaded := loaded + [result.record];
        }
      }
    }
    assert listing[..|listing|] == listing;
  }

  /** The items `AddItem_Click` makes for the chosen files: one fresh file
      item per file, in order, named after the file and so dirty from the
      start. */
  method NewFileItems(files: seq<string>) returns (added: seq<QuickItem>)
    ensures |added| == |files|
    ensures forall j :: 0 <= j < |files| ==> fresh(added[j]) && MadeForFile(added[j], files[j])
  {
    added := [];
    for k := 0 to |files|
      invariant |added| == k
      invariant forall j :: 0 <= j < k ==> fresh(added[j]) && MadeForFile(added[j], files[j])
    {
      var item := NewFileItem(files[k]);
      added := added + [item];
    }
  }

  /** `new QuickItem { Name = Path.GetFileName(file), IsDirectory = false,
      Path = file }`. */
  method NewFileItem(file: string) returns (item: QuickItem)
    ensures fresh(item) && MadeForFile(item, file)
  {
    item := NewItem(Some(GetFileName(file)), false, Some(file));
  }

  /** `item` is the dirty file item `AddItem_Click` makes for `file`. */
  ghost predicate MadeForFile(item: QuickItem, file: string)
    reads item
  {
    item.Persisted() == ItemRecord(Some(GetFileName(file)), Some(file), false) && item.isDirty
  }

  /** The directory item `AddFolder_Click` makes for `folder`, named after
      the folder's parent path. */
  method NewFolderItem(folder: string) returns (item: QuickItem)
    ensures fresh(item) && MadeForFolder(item, folder)
  {
    item := NewItem(GetDirectoryName(folder), true, Some(folder));
  }

  /** `item` is the directory item `AddFolder_Click` makes for `folder`:
      named `GetDirectoryName(folder)`, and dirty exactly when that name is
      not null. */
  ghost predicate MadeForFolder(item: QuickItem, folder: string)
    reads item
  {
    && item.Persisted() == ItemRecord(GetDirectoryName(folder), Some(folder), true)
    && (item.isDirty <==> GetDirectoryName(folder).Some?)
  }

  // ---------------------------------------------------------------------
  // The window

  /** The keys the rename box reacts to. */
  datatype Key = Enter | Escape | OtherKey

  /** The manager window. The special folders, the install directory and
      the JSON writer and parser are fixed for its lifetime. */
  class ManagerWindow {
    const appData: string
    const desktop: string
    const baseDirectory: string
    const write: JsonWriter
    const parse: JsonParser
    var launchers: seq<QuickLauncher>
    /** `_editOriginals`: the name each launcher had when its rename began. */
    var editOriginals: map<QuickLauncher, Option<string>>
    var disk: Disk
    /** The shortcuts saved so far, oldest first. */
    var shortcuts: seq<Shortcut>

    /** Every launcher with a remembered name is in the list. */
    ghost predicate EditOriginalsListed()
      reads this
    {
      forall l :: l in editOriginals ==> l in launchers
    }

    /** The window opens with the profiles `LoadLaunchers` reads, nothing
        being renamed and no shortcut made. */
    constructor (appData: string, desktop: string, baseDirectory: string, write: JsonWriter, parse: JsonParser,
                 disk: Disk, listing: seq<string>)
      requires ListsJsonFiles(disk, ProfileFolder(appData), listing)
      ensures this.appData == appData && this.desktop == desktop && this.baseDirectory == baseDirectory
      ensures this.write == write && this.parse == parse && this.disk == disk
      ensures editOriginals == map[] && shortcuts == []
      ensures |launchers| == |LoadedProfiles(disk, appData, listing, parse)|
      ensures forall k :: 0 <= k < |launchers| ==>
                fresh(launchers[k]) && LoadedAs(launchers[k], LoadedProfiles(disk, appData, listing, parse)[k])
      ensures EditOriginalsListed()
    {
      this.appData, this.desktop, this.baseDirectory := appData, desktop, baseDirectory;
      this.write, this.parse, this.disk := write, parse, disk;
      editOriginals, shortcuts, launchers := map[], [], [];
      new;
      launchers := LoadLaunchers(listing);
    }

    /** `LoadLaunchers()`: one fresh launcher per loaded profile, in listing
        order; files that cannot be read or parsed are skipped. */
    method LoadLaunchers(listing: seq<string>) returns (ls: seq<QuickLauncher>)
      requires ListsJsonFiles(disk, ProfileFolder(appData), listing)
      ensures |ls| == |LoadedProfiles(disk, appData, listing, parse)|
      ensures forall k :: 0 <= k < |ls| ==>
                && fresh(ls[k])
                && (forall i :: 0 <= i < |ls[k].items| ==> fresh(ls[k].items[i]))
                && !ls[k].isEditing
                && ls[k].Persisted() == Materialized(LoadedProfiles(disk, appData, listing, parse)[k])
                && (ls[k].AnyDirty() <==> exists i :: 0 <= i < |ls[k].items| && ls[k].items[i].name.Some?)
    {
      ls := [];
      if !DirectoryExists(disk, Some(ProfileFolder(appData))) {
        return;
      }
      ls := DeserializeFiles(disk, listing, parse);
    }

    /** `GetUniqueLauncherName()`: the least free `"New Launcher n"` from
        n = count + 1 on, compared ignoring case. The search ends by the
        time n passes twice the count plus one, since each taken candidate
        uses up a different launcher. */
    method GetUniqueLauncherName() returns (name: string)
      ensures IsLeastFreeName(Names(launchers), name)
      ensures forall k :: 0 <= k < |launchers| ==> !EqualsIgnoreCase(launchers[k].name, Some(name))
      ensures exists n: nat :: n <= 2 * |launchers| + 1 && name == CandidateName(n)
    {
      var names := Names(launchers);
      var counter: nat := |launchers| + 1;
      ghost var seen: set<nat> := {};
      ghost var n := counter;
      name := CandidateName(counter);
      counter := counter + 1;
      while Taken(names, name)
        invariant counter == n + 1 && |names| + 1 <= n
        invariant name == CandidateName(n)
        invariant Searched(names, seen, |names| + 1, n)
        invariant |seen| <= |names|
        decreases |names| - |seen|
      {
        seen := SearchStep(names, seen, |names| + 1, n);
        n := counter;
        name := CandidateName(counter);
        counter := counter + 1;
      }
      SearchDone(names, seen, |names| + 1, n);
    }

    /** `AddLauncher_Click`: one new launcher with the unique name and no
        items is appended and put into renaming, with "" remembered as its
        original name. */
    method AddLauncher(id: Guid) returns (launcher: QuickLauncher)
      modifies this`launchers, this`editOriginals
      ensures fresh(launcher)
      ensures launchers == old(launchers) + [launcher]
      ensures launcher.name.Some? && IsLeastFreeName(old(Names(launchers)), launcher.name.value)
      ensures launcher.id == id && launcher.iconPath == None && launcher.items == [] && launcher.isEditing
      ensures editOriginals == old(editOriginals)[launcher := Some("")]
      ensures old(EditOriginalsListed()) ==> EditOriginalsListed()
    {
      var uniqueName := GetUniqueLauncherName();
      launcher := new QuickLauncher(id);
      launcher.SetName(Some(uniqueName));
      launchers := launchers + [launcher];
      editOriginals := editOriginals[launcher := Some("")];
      launcher.SetIsEditing(true);
    }

    /** `EditLauncherName()`: the selected launcher, if any, goes into
        renaming; its current name is remembered unless one already is. */
    method EditLauncherName(selection: QuickLauncher?)
      modifies this`editOriginals, selection
      ensures selection == null ==> editOriginals == old(editOriginals)
      ensures selection != null ==>
                && editOriginals == Remember(old(editOriginals), selection, old(selection.name))
                && selection.isEditing
                && selection.id == old(selection.id) && selection.name == old(selection.name)
                && selection.iconPath == old(selection.iconPath) && selection.items == old(selection.items)
      ensures old(EditOriginalsListed()) && (selection == null || selection in launchers) ==> EditOriginalsListed()
    {
      if selection != null {
        editOriginals := Remember(editOriginals, selection, selection.name);
        selection.SetIsEditing(true);
      }
    }

    /** `EditorTextBox_Loaded`: the launcher's current name is remembered
        unless one already is. */
    method EditorLoaded(launcher: QuickLauncher)
      modifies this`editOriginals
      ensures editOriginals == Remember(old(editOriginals), launcher, launcher.name)
      ensures old(EditOriginalsListed()) && launcher in launchers ==> EditOriginalsListed()
    {
      editOriginals := Remember(editOriginals, launcher, launcher.name);
    }

    /** `EditorTextBox_KeyDown`: Enter commits the typed name, Escape puts
        back the remembered one when there is one; both end the rename and
        forget the original. Other keys are left to the text box. */
    method KeyDown(launcher: QuickLauncher, key: Key) returns (handled: bool)
      modifies this`editOriginals, launcher`name, launcher`isEditing
      ensures handled <==> key != OtherKey
      ensures key == OtherKey ==>
                editOriginals == old(editOriginals) && launcher.name == old(launcher.name) && launcher.isEditing == old(launcher.isEditing)
      ensures key != OtherKey ==> editOriginals == old(editOriginals) - {launcher} && !launcher.isEditing
      ensures key == Enter ==> launcher.name == old(launcher.name)
      ensures key == Escape && launcher in old(editOriginals) ==> launcher.name == old(editOriginals)[launcher]
      ensures key == Escape && launcher !in old(editOriginals) ==> launcher.name == old(launcher.name)
      ensures old(EditOriginalsListed()) ==> EditOriginalsListed()
    {
      handled := false;
      if key == Enter {
        launcher.SetIsEditing(false);
        handled := true;
        editOriginals := editOriginals - {launcher};
      } else if key == Escape {
        if launcher in editOriginals {
          launcher.SetName(editOriginals[launcher]);
        }
        launcher.SetIsEditing(false);
        handled := true;
        editOriginals := editOriginals - {launcher};
      }
    }

    /** `EditorTextBox_LostFocus`: a blank name whose remembered original is
        blank too (an abandoned new launcher) removes the launcher; a blank
        name with another original gets the original back; any other name
        is kept. The rename ends and the original is forgotten. */
    method LostFocus(launcher: QuickLauncher)
      modifies this`launchers, this`editOriginals, launcher`name, launcher`isEditing
      ensures !launcher.isEditing
      ensures editOriginals == old(editOriginals) - {launcher}
      ensures IsNullOrWhiteSpace(old(launcher.name)) && launcher in old(editOriginals) && IsNullOrWhiteSpace(old(editOriginals)[launcher]) ==>
                launchers == RemoveFirst(old(launchers), launcher) && launcher.name == old(launcher.name)
      ensures IsNullOrWhiteSpace(old(launcher.name)) && launcher in old(editOriginals) && !IsNullOrWhiteSpace(old(editOriginals)[launcher]) ==>
                launchers == old(launchers) && launcher.name == old(editOriginals)[launcher]
      ensures !(IsNullOrWhiteSpace(old(launcher.name)) && launcher in old(editOriginals)) ==>
                launchers == old(launchers) && launcher.name == old(launcher.name)
      ensures old(EditOriginalsListed()) ==> EditOriginalsListed()
    {
      if IsNullOrWhiteSpace(launcher.name) {
        if launcher in editOriginals && IsNullOrWhiteSpace(editOriginals[launcher]) {
          launchers := RemoveFirst(launchers, launcher);
          forall l | l in old(launchers) && l != launcher
            ensures l in launchers
          {
            RemoveFirstMembers(old(launchers), launcher, l);
          }
        } else if launcher in editOriginals {
          launcher.SetName(editOriginals[launcher]);
        }
      }
      launcher.SetIsEditing(false);
      editOriginals := editOriginals - {launcher};
    }

    /** `SaveLauncher(launcher)`. */
    method SaveLauncher(launcher: QuickLauncher)
      modifies this`disk
      ensures disk == SaveProfile(old(disk), appData, launcher.Persisted(), write)
    {
      disk := SaveProfile(disk, appData, launcher.Persisted(), write);
    }

    /** `AddItem_Click`: with a launcher selected and the file dialog
        confirmed, one file item per chosen file, named after the file and
        so dirty, is appended in the order chosen and the profile is saved;
        otherwise nothing changes. */
    method AddItems(selection: QuickLauncher?, dialog: Option<seq<string>>)
      modifies this`disk, selection
      ensures selection == null || dialog.None? ==> disk == old(disk)
      ensures selection != null && dialog.None? ==> unchanged(selection)
      ensures selection != null && dialog.Some? ==>
                && selection.id == old(selection.id) && selection.name == old(selection.name)
                && selection.iconPath == old(selection.iconPath) && selection.isEditing == old(selection.isEditing)
                && |selection.items| == |old(selection.items)| + |dialog.value|
                && selection.items[..|old(selection.items)|] == old(selection.items)
                && (forall k :: 0 <= k < |dialog.value| ==>
                      var item := selection.items[|old(selection.items)| + k];
                      && fresh(item)
                      && item.Persisted() == ItemRecord(Some(GetFileName(dialog.value[k])), Some(dialog.value[k]), false)
                      && item.isDirty)
                && disk == SaveProfile(old(disk), appData, selection.Persisted(), write)
    {
      if selection != null && dialog.Some? {
        var added := NewFileItems(dialog.value);
        selection.items := selection.items + added;
        SaveLauncher(selection);
      }
    }

    /** `AddFolder_Click`: with a launcher selected, a confirmed folder is
        appended as a directory item named after the folder's parent path
        (`GetDirectoryName`, as written), and the profile is saved whether
        or not the dialog was confirmed. */
    method AddFolder(selection: QuickLauncher?, dialog: Option<string>)
      modifies this`disk, selection
      ensures selection == null ==> disk == old(disk)
      ensures selection != null ==>
                && selection.id == old(selection.id) && selection.name == old(selection.name)
                && selection.iconPath == old(selection.iconPath) && selection.isEditing == old(selection.isEditing)
                && disk == SaveProfile(old(disk), appData, selection.Persisted(), write)
      ensures selection != null && dialog.None? ==> selection.items == old(selection.items)
      ensures selection != null && dialog.Some? ==>
                && |selection.items| == |old(selection.items)| + 1
                && selection.items[..|old(selection.items)|] == old(selection.items)
                && var item := selection.items[|old(selection.items)|];
                   && fresh(item) && MadeForFolder(item, dialog.value)
    {
      if selection != null {
        if dialog.Some? {
          var item := NewFolderItem(dialog.value);
          selection.items := selection.items + [item];
        }
        SaveLauncher(selection);
      }
    }

    /** `RemoveFolder_Click`: with a launcher and an item selected, the
        item's first occurrence is removed and the profile saved; otherwise
        nothing changes. */
    method RemoveFolder(selection: QuickLauncher?, item: QuickItem?)
      modifies this`disk, selection
      ensures selection == null || item == null ==> disk == old(disk)
      ensures selection != null && item == null ==> unchanged(selection)
      ensures selection != null && item != null ==>
                && selection.id == old(selection.id) && selection.name == old(selection.name)
                && selection.iconPath == old(selection.iconPath) && selection.isEditing == old(selection.isEditing)
                && selection.items == RemoveFirst(old(selection.items), item)
                && disk == SaveProfile(old(disk), appData, selection.Persisted(), write)
    {
      if selection != null && item != null {
        var rest := RemoveFirst(selection.items, item);
        forall k | 0 <= k < |rest|
          ensures rest[k] != null
        {
          RemoveFirstMembers(selection.items, item, rest[k]);
        }
        selection.items := rest;
        SaveLauncher(selection);
      }
    }

    /** `ChangeIcon_Click`: with a launcher selected and a file chosen, the
        file becomes its icon path and the profile is saved. */
    method ChangeIcon(selection: QuickLauncher?, dialog: Option<string>)
      modifies this`disk, selection
      ensures selection == null || dialog.None? ==> disk == old(disk)
      ensures selection != null && dialog.None? ==> unchanged(selection)
      ensures selection != null && dialog.Some? ==>
                && selection.iconPath == Some(dialog.value)
                && selection.id == old(selection.id) && selection.name == old(selection.name)
                && selection.items == old(selection.items) && selection.isEditing == old(selection.isEditing)
                && disk == SaveProfile(old(disk), appData, selection.Persisted(), write)
    {
      if selection != null && dialog.Some? {
        selection.SetIconPath(Some(dialog.value));
        SaveLauncher(selection);
      }
    }

    /** `CreateExecutableAndShortcut`: a desktop shortcut `<Name>.lnk` to the
        installed launch program, whose argument is the profile's save path
        and whose icon is the profile's icon path. */
    method CreateExecutableAndShortcut(launcher: QuickLauncher)
      modifies this`shortcuts
      ensures |shortcuts| == |old(shortcuts)| + 1 && shortcuts[..|old(shortcuts)|] == old(shortcuts)
      ensures shortcuts[|old(shortcuts)|] ==
                CreateShortcut(LinkPath(desktop, launcher.name), LauncherExe(baseDirectory),
                               Some(ShortcutArgument(appData, launcher.id)), launcher.iconPath)
      ensures shortcuts[|old(shortcuts)|].arguments == SavePath(appData, launcher.id)
    {
      var link := LinkPath(desktop, launcher.name);
      var profile := ShortcutArgument(appData, launcher.id);
      shortcuts := shortcuts + [CreateShortcut(link, LauncherExe(baseDirectory), Some(profile), launcher.iconPath)];
    }

    /** `CreateLauncher_Click`: a shortcut for the selected launcher, if
        any. */
    method CreateLauncher(selection: QuickLauncher?)
      modifies this`shortcuts
      ensures selection == null ==> shortcuts == old(shortcuts)
      ensures selection != null ==>
                && |shortcuts| == |old(shortcuts)| + 1 && shortcuts[..|old(shortcuts)|] == old(shortcuts)
                && shortcuts[|old(shortcuts)|] ==
                     CreateShortcut(LinkPath(desktop, selection.name), LauncherExe(baseDirectory),
                                    Some(ShortcutArgument(appData, selection.id)), selection.iconPath)
                && shortcuts[|old(shortcuts)|].arguments == SavePath(appData, selection.id)
    {
      if selection != null {
        CreateExecutableAndShortcut(selection);
      }
    }

    /** `MainWindow_Closing`: every launcher with a dirty item is saved, in
        list order, and no other. The loop only reads the launchers (through
        `AnyDirty()`, which `CheckIsDirty()` is proved to compute); what
        `SaveLauncher` would write is collected in `d` and stored at the
        end. */
    method Closing()
      modifies this`disk
      ensures disk == SaveAll(old(disk), appData, DirtyRecords(old(States(launchers))), write)
    {
      ghost var states := States(launchers);
      var d := disk;
      for k := 0 to |launchers|
        invariant d == SaveAll(old(disk), appData, DirtyRecords(states[..k]), write)
      {
        var l := launchers[k];
        ghost var before := SaveAll(old(disk), appData, DirtyRecords(states[..k]), write);
        assert SaveAll(old(disk), appData, DirtyRecords(states[..k + 1]), write) ==
                 if states[k].dirty then SaveProfile(before, appData, states[k].record, write) else before
        by {
          ClosingStep(old(disk), appData, states, k, write);
        }
        if l.AnyDirty() {
          d := SaveProfile(d, appData, l.Persisted(), write);
        }
      }
      assert states[..|launchers|] == states;
      disk := d;
    }
  }

  /** Closing looks at one more launcher: its profile is saved on top of the
      others exactly when it is dirty. */
  lemma ClosingStep(d: Disk, appData: string, states: seq<ProfileState>, k: nat, write: JsonWriter)
    requires k < |states|
    ensures SaveAll(d, appData, DirtyRecords(states[..k + 1]), write) ==
              if states[k].dirty then SaveProfile(SaveAll(d, appData, DirtyRecords(states[..k]), write), appData, states[k].record, write)
              else SaveAll(d, appData, DirtyRecords(states[..k]), write)
  {
    DirtyRecordsSnoc(states, k);
    if states[k].dirty {
      SaveAllSnoc(d, appData, DirtyRecords(states[..k]), states[k].record, write);
    } else {
      assert DirtyRecords(states[..k + 1]) == DirtyRecords(states[..k]);
    }
  }

  /** Renaming a launcher and pressing Escape leaves its name as it was and
      forgets the rename. */
  method EscapeRestoresName(w: ManagerWindow, l: QuickLauncher, typed: Option<string>)
    requires l !in w.editOriginals
    modifies w`editOriginals, l
    ensures l.name == old(l.name) && !l.isEditing
    ensures w.editOriginals == old(w.editOriginals)
  {
    w.EditLauncherName(l);
    l.SetName(typed);
    var _ := w.KeyDown(l, Escape);
  }

  /** A launcher that is added and then left with a blank name disappears
      again without a trace. */
  method AbandonedLauncherIsRemoved(w: ManagerWindow, id: Guid, typed: Option<string>)
    requires IsNullOrWhiteSpace(typed)
    requires w.EditOriginalsListed()
    modifies w`launchers, w`editOriginals
    ensures w.launchers == old(w.launchers)
    ensures w.editOriginals == old(w.editOriginals)
  {
    var l := w.AddLauncher(id);
    l.SetName(typed);
    w.LostFocus(l);
    RemoveFirstOfAppended(old(w.launchers), l);
  }
}
