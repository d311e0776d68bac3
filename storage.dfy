/**
 * The file system the launcher touches, as a value: the contents of every
 * file by path, and the set of existing directories. `File.Exists`,
 * `Directory.Exists`, `File.ReadAllText`, `File.WriteAllText` and
 * `Directory.CreateDirectory` are functions over it.
 */
module Storage {
  import opened Wrappers

  datatype Disk = Disk(files: map<string, string>, directories: set<string>)

  /** `File.Exists`: false for null and for the empty path. */
  predicate FileExists(d: Disk, path: Option<string>) {
    path.Some? && path.value != "" && path.value in d.files
  }

  /** `Directory.Exists`: false for null and for the empty path. */
  predicate DirectoryExists(d: Disk, path: Option<string>) {
    path.Some? && path.value != "" && path.value in d.directories
  }

  /** `File.ReadAllText`; `None` where the call throws (no such file). */
  function ReadAllText(d: Disk, path: string): Option<string> {
    if path in d.files then Some(d.files[path]) else None
  }

  /** `File.WriteAllText`: creates or overwrites the file. */
  function WriteAllText(d: Disk, path: string, text: string): Disk {
    d.(files := d.files[path := text])
  }

  /** `Directory.CreateDirectory`: a no-op when the directory exists. */
  function CreateDirectory(d: Disk, path: string): Disk {
    d.(directories := d.directories + {path})
  }
}
