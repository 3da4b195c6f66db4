/** `PathPrinter` of src/utils.rs: prints a matched path, absolute or relative to the root. */
module Utils {
  import opened Prim

  /** Rust's `std::io::Error`, the error type of `PathPrinter::new`. */
  datatype IoError = IoError

  /** How many leading bytes of each path to drop before printing (a `usize`). */
  datatype PathPrinter = PathPrinter(relativeLength: nat)

  /** `PathPrinter::new`: the prefix length is the byte length of the root when output is
      relative and 0 otherwise; both branches succeed. */
  function NewPathPrinter(relative: bool, rootDir: Bytes): (r: Result<PathPrinter, IoError>)
    ensures r.Ok?
    ensures relative ==> r.value.relativeLength == |rootDir|
    ensures !relative ==> r.value.relativeLength == 0
  {
    if relative then Ok(PathPrinter(|rootDir|)) else Ok(PathPrinter(0))
  }

  /** The line `print_path` writes for `path`: the path without its first `relativeLength`
      bytes. `None` is the panic of the out-of-range slice. */
  function PrintPath(pp: PathPrinter, path: Bytes): (line: Option<Bytes>)
    ensures line.Some? <==> pp.relativeLength <= |path|
    ensures line.Some? ==> |line.value| == |path| - pp.relativeLength
  {
    if pp.relativeLength <= |path| then Some(path[pp.relativeLength..]) else None
  }

  /** A printed line is what is left of the path after its first `relativeLength` bytes. */
  lemma PrintPathRest(pp: PathPrinter, path: Bytes)
    requires PrintPath(pp, path).Some?
    ensures path == path[..pp.relativeLength] + PrintPath(pp, path).value
  {
  }

  /** `lines` is what printing each of `paths` in turn writes, with no panic. */
  ghost predicate PrintsAs(pp: PathPrinter, paths: seq<Bytes>, lines: seq<Bytes>) {
    |paths| == |lines| && forall k :: 0 <= k < |paths| ==> PrintPath(pp, paths[k]) == Some(lines[k])
  }

  lemma PrintsAsAppend(pp: PathPrinter, p1: seq<Bytes>, l1: seq<Bytes>, p2: seq<Bytes>, l2: seq<Bytes>)
    requires PrintsAs(pp, p1, l1) && PrintsAs(pp, p2, l2)
    ensures PrintsAs(pp, p1 + p2, l1 + l2)
  {
    forall k | 0 <= k < |p1 + p2|
      ensures PrintPath(pp, (p1 + p2)[k]) == Some((l1 + l2)[k])
    {
      if k >= |p1| {
        assert (p1 + p2)[k] == p2[k - |p1|];
      }
    }
  }

  /** Relative output of a path below the root is exactly the part after the root. */
  lemma PrintRelative(rootDir: Bytes, rest: Bytes)
    ensures PrintPath(NewPathPrinter(true, rootDir).value, rootDir + rest) == Some(rest)
  {
    assert (rootDir + rest)[|rootDir|..] == rest;
  }

  /** Absolute output reproduces every path unchanged. */
  lemma {:induction false} PrintsAbsolute(rootDir: Bytes, paths: seq<Bytes>, lines: seq<Bytes>)
    requires PrintsAs(NewPathPrinter(false, rootDir).value, paths, lines)
    ensures lines == paths
  {
    forall k | 0 <= k < |paths| ensures lines[k] == paths[k] {
      assert PrintPath(NewPathPrinter(false, rootDir).value, paths[k]) == Some(lines[k]);
      assert paths[k][0..] == paths[k];
    }
  }
}
