/** The part of the file system the crawler sees through `std::fs::read_dir`. */
module Fs {
  import opened Prim

  /** One directory entry, known by its file name. */
  datatype Entry = Entry(name: Bytes)

  /** The `std::io::ErrorKind`s the crawler tells apart. */
  datatype ErrorKind = PermissionDenied | NotFound | Other

  /** What listing one path yields. */
  datatype Listing = Listed(entries: seq<Entry>) | Failed(kind: ErrorKind)

  /** Each listable path with its listing; a path that is not a key (a plain file, a missing
      path) does not list. */
  type FileSystem = map<Bytes, Listing>

  /** `std::fs::read_dir(path)`. */
  function ReadDir(fs: FileSystem, path: Bytes): (r: Listing)
    ensures path !in fs ==> r == Failed(NotFound)
    ensures path in fs ==> r == fs[path]
  {
    if path in fs then fs[path] else Failed(NotFound)
  }

  /** `PathBuf::join` of a single file name, which is what `DirEntry::path` returns for an
      entry listed under `parent`: a separator is added unless `parent` is empty or already
      ends in one. */
  function Join(parent: Bytes, name: Bytes): (p: Bytes)
    ensures |parent| + |name| <= |p| <= |parent| + |name| + 1
  {
    if |parent| == 0 || parent[|parent| - 1] == Slash then parent + name
    else parent + [Slash] + name
  }

  /** The joined path starts with the parent and ends with the name, with at most one
      separator between them. */
  lemma JoinShape(parent: Bytes, name: Bytes)
    ensures parent <= Join(parent, name)
    ensures Join(parent, name)[|Join(parent, name)| - |name|..] == name
    ensures Join(parent, name) == parent + name || Join(parent, name) == parent + [Slash] + name
  {
    var p := Join(parent, name);
    if |parent| == 0 || parent[|parent| - 1] == Slash {
      assert p[|parent|..] == name;
    } else {
      assert p[|parent| + 1..] == name;
    }
  }
}
