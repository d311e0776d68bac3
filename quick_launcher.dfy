/**
 * The launcher profile model shared by the manager and the launch window: a
 * `QuickLauncher` (id, name, icon path, ordered items, editing flag) owning
 * `QuickItem`s (name, path, directory flag, one-way dirty flag and an icon
 * cache), together with the persisted form of both and the JSON
 * deserialiser, modelled as building the objects through their setters.
 */
module QuickLaunchLib {
  import opened Wrappers

  // ---------------------------------------------------------------------
  // Images

  /** An image: one extracted from the shell by the icon helper, or a bitmap
      loaded from a URI. */
  datatype ImageSource = ShellImage(handle: nat) | BitmapImage(uri: string)

  /** `IconHelper.GetIcon(path, isDirectory)`: the shell's icon for a path,
      or null when the shell has none. */
  type IconLookup = (Option<string>, bool) -> Option<ImageSource>

  const FolderFallbackUri: string := "pack://application:,,,/Assets/DefaultFolder.png"
  const FileFallbackUri: string := "pack://application:,,,/Assets/DefaultFile.png"

  /** `GetEmojiFallback(isDirectory)`: the packaged folder picture for a
      directory and the packaged file picture for anything else. */
  function EmojiFallback(isDirectory: bool): (r: ImageSource)
    ensures r.BitmapImage?
    ensures r.uri == FolderFallbackUri <==> isDirectory
    ensures r.uri == FileFallbackUri <==> !isDirectory
  {
    BitmapImage(if isDirectory then FolderFallbackUri else FileFallbackUri)
  }

  // ---------------------------------------------------------------------
  // Persisted form

  /** A `Guid`, by the text `ToString()` gives for it. */
  datatype Guid = Guid(text: string) {

    /** The 36-character "D" format: hex digits and hyphens. */
    predicate Canonical() {
      && |text| == 36
      && forall i :: 0 <= i < |text| ==>
           ('0' <= text[i] <= '9') || ('a' <= text[i] <= 'f') || text[i] == '-'
    }
  }

  /** A `QuickItem` as written to JSON: `IsDirty` and `IconSource` are
      ignored by the serialiser. */
  datatype ItemRecord = ItemRecord(name: Option<string>, path: Option<string>, isDirectory: bool)

  /** A `QuickLauncher` as written to JSON: `IsEditing` is ignored; `Items`
      may be JSON null. */
  datatype LauncherRecord = LauncherRecord(
    id: Guid,
    name: Option<string>,
    iconPath: Option<string>,
    items: Option<seq<ItemRecord>>)

  /** What `JsonSerializer.Deserialize<QuickLauncher>` makes of a text: it
      throws, yields null (the text "null"), or yields a profile. */
  datatype ParseResult = ParseFailed | ParsedNull | Parsed(record: LauncherRecord)

  type JsonParser = string -> ParseResult
  type JsonWriter = LauncherRecord -> string

  // ---------------------------------------------------------------------
  // QuickItem

  class QuickItem {
    var name: Option<string>
    var isDirty: bool
    var path: Option<string>
    var isDirectory: bool
    var iconSource: Option<ImageSource>
    /** How many times the icon helper has been called for this item. */
    ghost var iconLookups: nat

    /** A new item: every field at its default, the name null and clean. */
    constructor ()
      ensures name == None && !isDirty
      ensures path == None && !isDirectory
      ensures iconSource == None && iconLookups == 0
    {
      name, isDirty, path, isDirectory, iconSource := None, false, None, false, None;
      iconLookups := 0;
    }

    /** The `Name` setter: a different value replaces the name and marks the
        item dirty; the current value changes nothing. The dirty flag is
        never cleared. */
    method SetName(value: Option<string>)
      modifies this`name, this`isDirty
      ensures name == value
      ensures old(name) != value ==> isDirty
      ensures old(name) == value ==> isDirty == old(isDirty)
      ensures old(isDirty) ==> isDirty
    {
      if name != value {
        name := value;
        isDirty := true;
      }
    }

    /** The `Path` setter; dirtiness is untouched. */
    method SetPath(value: Option<string>)
      modifies this`path
      ensures path == value
    {
      path := value;
    }

    /** The `IsDirectory` setter; dirtiness is untouched. */
    method SetIsDirectory(value: bool)
      modifies this`isDirectory
      ensures isDirectory == value
    {
      isDirectory := value;
    }

    /** The `IconSource` getter: a cached image is returned as it is, without
        asking the icon helper; otherwise the helper's image, or the fallback
        when it has none, is cached and returned. */
    method GetIconSource(getIcon: IconLookup) returns (r: ImageSource)
      modifies this`iconSource, this`iconLookups
      ensures old(iconSource).Some? ==>
                r == old(iconSource).value && iconSource == old(iconSource) && iconLookups == old(iconLookups)
      ensures old(iconSource).None? ==>
                && r == getIcon(path, isDirectory).GetOr(EmojiFallback(isDirectory))
                && iconSource == Some(r)
                && iconLookups == old(iconLookups) + 1
    {
      if iconSource.Some? {
        return iconSource.value;
      }
      var loadedIcon := getIcon(path, isDirectory);
      iconLookups := iconLookups + 1;
      if loadedIcon.Some? {
        iconSource := loadedIcon;
      } else {
        iconSource := Some(EmojiFallback(isDirectory));
      }
      r := iconSource.value;
    }

    /** The `IconSource` setter: replaces the cache, null included. */
    method SetIconSource(value: Option<ImageSource>)
      modifies this`iconSource
      ensures iconSource == value
    {
      iconSource := value;
    }

    /** The fields the serialiser writes. */
    function Persisted(): ItemRecord
      reads this
    {
      ItemRecord(name, path, isDirectory)
    }

    /** `ToString()`: the item shows as its path, the very path that is
        persisted. */
    function ToString(): (r: Option<string>)
      reads this
      ensures r == Persisted().path
    {
      path
    }
  }

  /** Reading `IconSource` twice asks the icon helper at most once and gives
      the same image both times. */
  method IconIsComputedOnce(item: QuickItem, getIcon: IconLookup) returns (first: ImageSource, second: ImageSource)
    modifies item`iconSource, item`iconLookups
    ensures first == second
    ensures item.iconLookups <= old(item.iconLookups) + 1
    ensures item.iconSource == Some(first)
  {
    first := item.GetIconSource(getIcon);
    second := item.GetIconSource(getIcon);
  }

  /** `new QuickItem { Name = name, IsDirectory = isDirectory, Path = path }`:
      a non-null name makes the fresh item dirty at once. */
  method NewItem(name: Option<string>, isDirectory: bool, path: Option<string>) returns (item: QuickItem)
    ensures fresh(item)
    ensures item.Persisted() == ItemRecord(name, path, isDirectory)
    ensures item.isDirty <==> name.Some?
    ensures item.iconSource == None
  {
    item := new QuickItem();
    item.SetName(name);
    item.SetIsDirectory(isDirectory);
    item.SetPath(path);
  }

  /** The persisted form of a sequence of items, in order. */
  function ItemRecords(xs: seq<QuickItem>): (r: seq<ItemRecord>)
    reads xs
    ensures |r| == |xs|
    ensures forall k :: 0 <= k < |xs| ==> r[k] == xs[k].Persisted()
  {
    if xs == [] then [] else [xs[0].Persisted()] + ItemRecords(xs[1..])
  }

  // ---------------------------------------------------------------------
  // QuickLauncher

  class QuickLauncher {
    var id: Guid
    var name: Option<string>
    var iconPath: Option<string>
    var items: seq<QuickItem>
    var isEditing: bool

    /** A new profile with the given id: no name, no icon, no items, not
        being edited. */
    constructor (id: Guid)
      ensures this.id == id && name == None && iconPath == None
      ensures items == [] && !isEditing
    {
      this.id, name, iconPath, items, isEditing := id, None, None, [], false;
    }

    /** Some item is dirty. */
    predicate AnyDirty()
      reads this, items
    {
      exists k :: 0 <= k < |items| && items[k].isDirty
    }

    /** The `Name` setter: dirtiness is a property of the items alone. */
    method SetName(value: Option<string>)
      modifies this`name
      ensures name == value
      ensures AnyDirty() == old(AnyDirty())
    {
      name := value;
    }

    /** The `IconPath` setter; dirtiness is untouched. */
    method SetIconPath(value: Option<string>)
      modifies this`iconPath
      ensures iconPath == value
      ensures AnyDirty() == old(AnyDirty())
    {
      iconPath := value;
    }

    /** The `IsEditing` setter; dirtiness is untouched. */
    method SetIsEditing(value: bool)
      modifies this`isEditing
      ensures isEditing == value
      ensures AnyDirty() == old(AnyDirty())
    {
      isEditing := value;
    }

    /** `CheckIsDirty()`: true exactly when at least one item is dirty. */
    method CheckIsDirty() returns (dirty: bool)
      ensures dirty <==> exists k :: 0 <= k < |items| && items[k].isDirty
    {
      for k := 0 to |items|
        invariant forall j :: 0 <= j < k ==> !items[j].isDirty
      {
        if items[k].isDirty {
          return true;
        }
      }
      return false;
    }

    /** The fields the serialiser writes. */
    function Persisted(): LauncherRecord
      reads this, items
    {
      LauncherRecord(id, name, iconPath, Some(ItemRecords(items)))
    }
  }

  /** The objects a sequence of launchers and their items occupy. */
  ghost function Footprint(ls: seq<QuickLauncher>): set<object>
    reads ls
  {
    set l, i | l in ls && i in l.items :: i
  }

  // ---------------------------------------------------------------------
  // Deserialisation

  /** The profile a record reads back as: a null `Items` array becomes an
      empty item list. */
  function Materialized(record: LauncherRecord): (r: LauncherRecord)
    ensures r.items.Some?
    ensures r == record <==> record.items.Some?
    ensures r.(items := record.items) == record
  {
    record.(items := Some(record.items.GetOr([])))
  }

  /** The `Items` array of a profile being read: one fresh item per record,
      in order, each made through its setters, so every item whose name is
      not null comes out dirty. */
  method DeserializeItems(records: seq<ItemRecord>) returns (xs: seq<QuickItem>)
    ensures |xs| == |records|
    ensures forall k :: 0 <= k < |xs| ==> fresh(xs[k])
    ensures forall k :: 0 <= k < |xs| ==> xs[k].Persisted() == records[k]
    ensures forall k :: 0 <= k < |xs| ==> (xs[k].isDirty <==> records[k].name.Some?)
  {
    xs := [];
    for k := 0 to |records|
      invariant |xs| == k
      invariant forall j :: 0 <= j < k ==> fresh(xs[j])
      invariant forall j :: 0 <= j < k ==> xs[j].Persisted() == records[j]
      invariant forall j :: 0 <= j < k ==> (xs[j].isDirty <==> records[j].name.Some?)
    {
      var r := records[k];
      var item := new QuickItem();
      item.SetName(r.name);
      item.SetPath(r.path);
      item.SetIsDirectory(r.isDirectory);
      xs := xs + [item];
    }
  }

  /** A whole profile being read: a fresh launcher carrying the record's id,
      name, icon path and items (none when `Items` is null), not being
      edited. */
  method Deserialize(record: LauncherRecord) returns (l: QuickLauncher)
    ensures fresh(l)
    ensures forall k :: 0 <= k < |l.items| ==> fresh(l.items[k])
    ensures l.Persisted() == Materialized(record)
    ensures !l.isEditing
    ensures l.AnyDirty() <==> exists k :: 0 <= k < |l.items| && l.items[k].name.Some?
  {
    var records := record.items.GetOr([]);
    var xs := DeserializeItems(records);
    assert ItemRecords(xs) == records;
    // The launcher's own setters only assign.
    l := new QuickLauncher(record.id);
    l.name, l.iconPath, l.items := record.name, record.iconPath, xs;
  }
}
