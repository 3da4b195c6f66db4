/** `ConcurrentFileSearch` of src/rcrawl.rs, run by a single worker: the shared queue is a
    field that the worker pops from the front and pushes onto at the back; the match counter,
    the printed lines and the diagnostics are the worker's local state. */
module Rcrawl {
  import opened Prim
  import opened Seqs
  import opened Fs
  import opened Utils
  import opened Matching
  import opened Traversal

  class ConcurrentFileSearch {
    const matchExpr: Bytes
    const rootDir: Bytes
    const maxDepth: u8
    const maxItems: u32
    const relative: bool
    const numThreads: u8
    const regex: bool
    const verbose: bool
    const all: bool

    /** `search_queue`, front first. */
    var searchQueue: seq<DirNode>

    /** `ConcurrentFileSearch::new` (it always returns `Ok`): the queue starts with the root
        alone, at depth 0. */
    constructor (matchExpr: Bytes, rootDir: Bytes, maxDepth: u8, maxItems: u32, relative: bool,
                 numThreads: u8, regex: bool, verbose: bool, all: bool)
      ensures this.matchExpr == matchExpr && this.rootDir == rootDir
      ensures this.maxDepth == maxDepth && this.maxItems == maxItems
      ensures this.relative == relative && this.numThreads == numThreads && this.regex == regex
      ensures this.verbose == verbose && this.all == all
      ensures searchQueue == [DirNode(rootDir, 0)]
    {
      this.matchExpr, this.rootDir, this.maxDepth, this.maxItems := matchExpr, rootDir, maxDepth, maxItems;
      this.relative, this.numThreads, this.regex := relative, numThreads, regex;
      this.verbose, this.all := verbose, all;
      searchQueue := [DirNode(rootDir, 0)];
    }

    /** Every directory at depth 0 to `maxDepth`, in the order one worker lists them. */
    ghost function Bfs(fs: FileSystem): seq<DirNode> {
      Before(fs, all, rootDir, maxDepth + 1)
    }

    /** `search`: build the path printer and the match expression, then run the workers.
        With no thread nothing happens; otherwise one worker does all the work. */
    method Search(fs: FileSystem, isMatch: (Bytes, Bytes) -> bool)
      returns (out: seq<Bytes>, diag: seq<Bytes>, ghost visited: seq<DirNode>)
      requires searchQueue == [DirNode(rootDir, 0)]
      requires NoDepthOverflow(fs, all, rootDir, maxDepth)
      modifies this
      ensures numThreads == 0 ==> out == [] && diag == [] && visited == [] && searchQueue == old(searchQueue)
      ensures visited <= Bfs(fs)
      ensures numThreads > 0 && |out| < maxItems ==> visited == Bfs(fs)
      ensures |out| <= maxItems
      ensures numThreads > 0 ==>
        PrintsAs(NewPathPrinter(relative, rootDir).value,
                 Take(Found(fs, BuildMatchExpr(regex, matchExpr), isMatch, Bfs(fs)), maxItems), out)
      ensures numThreads > 0 ==>
        Take(Found(fs, BuildMatchExpr(regex, matchExpr), isMatch, visited), maxItems)
        == Take(Found(fs, BuildMatchExpr(regex, matchExpr), isMatch, Bfs(fs)), maxItems)
      ensures forall k :: 0 <= k < |visited| ==>
        |Take(Found(fs, BuildMatchExpr(regex, matchExpr), isMatch, visited[..k]), maxItems)| < maxItems
      ensures diag == Diagnostics(fs, verbose, visited)
    {
      var pathPrinter := NewPathPrinter(relative, rootDir).value;
      var expr := BuildMatchExpr(regex, matchExpr);
      out, diag, visited := [], [], [];
      if numThreads > 0 {
        var numItems;
        numItems, out, diag, visited := Worker(fs, isMatch, expr, pathPrinter);
      }
    }

    /** The loop each spawned thread runs, for one thread. It stops once the counter reaches
        `maxItems`, once the queue is empty, or at the first node deeper than `maxDepth` (that
        node is dropped unlisted). The directories it lists are the breadth-first order cut
        short only by the item cap: each was started with fewer than `maxItems` matches
        printed, and what they found already fills the cap if anything does. What it prints is
        the first `maxItems` matches of the whole breadth-first order. */
    method Worker(fs: FileSystem, isMatch: (Bytes, Bytes) -> bool, m: MatchExpr, pp: PathPrinter)
      returns (numItems: u32, out: seq<Bytes>, diag: seq<Bytes>, ghost visited: seq<DirNode>)
      requires searchQueue == [DirNode(rootDir, 0)]
      requires pp.relativeLength <= |rootDir|
      requires NoDepthOverflow(fs, all, rootDir, maxDepth)
      modifies this
      ensures visited <= Bfs(fs)
      ensures numItems < maxItems ==> visited == Bfs(fs)
      ensures numItems == |out| <= maxItems
      ensures PrintsAs(pp, Take(Found(fs, m, isMatch, Bfs(fs)), maxItems), out)
      ensures Take(Found(fs, m, isMatch, visited), maxItems) == Take(Found(fs, m, isMatch, Bfs(fs)), maxItems)
      ensures forall k :: 0 <= k < |visited| ==> |Take(Found(fs, m, isMatch, visited[..k]), maxItems)| < maxItems
      ensures diag == Diagnostics(fs, verbose, visited)
    {
      numItems, out, diag := 0, [], [];
      ghost var printed: seq<Bytes> := [];
      ghost var d: nat, i: nat := 0, 0;
      Start(fs, all, rootDir, maxDepth);
      while numItems < maxItems && searchQueue != []
        invariant Tracked(fs, isMatch, m, pp, d, i, printed, numItems as nat, out, diag)
        invariant searchQueue == QueueAt(fs, all, rootDir, d, i)
        decreases maxDepth + 1 - d, |Level(fs, all, rootDir, d)| - i
      {
        var stop, current, count, lines, ds, paths, d', i' := ListNext(fs, isMatch, m, pp, numItems, d, i, printed, out, diag);
        d, i := d', i';
        numItems, out, diag, printed := count, out + lines, diag + ds, printed + paths;
        if stop {
          // the node was past the depth limit and nothing was listed
          break;
        }
      }
      visited := ListedAt(fs, all, rootDir, d, i);
      Finished(fs, isMatch, m, pp, d, i, printed, numItems as nat, out, diag);
    }

    /** What the record at the worker's last position says about the whole run. */
    lemma Finished(fs: FileSystem, isMatch: (Bytes, Bytes) -> bool, m: MatchExpr, pp: PathPrinter,
                   d: nat, i: nat, printed: seq<Bytes>, numItems: nat, out: seq<Bytes>, diag: seq<Bytes>)
      requires Tracked(fs, isMatch, m, pp, d, i, printed, numItems, out, diag)
      requires d == maxDepth + 1 || QueueAt(fs, all, rootDir, d, i) == [] || numItems >= maxItems as nat
      ensures var visited := ListedAt(fs, all, rootDir, d, i);
        && visited <= Bfs(fs)
        && (numItems < maxItems as nat ==> visited == Bfs(fs))
        && numItems == |out| <= maxItems as nat
        && PrintsAs(pp, Take(Found(fs, m, isMatch, Bfs(fs)), maxItems as nat), out)
        && Take(Found(fs, m, isMatch, visited), maxItems as nat) == Take(Found(fs, m, isMatch, Bfs(fs)), maxItems as nat)
        && ListedBelowCap(fs, m, isMatch, maxItems as nat, visited)
    {
      WorkerOutcome(fs, all, rootDir, maxDepth, m, isMatch, maxItems, printed, d, i);
      BelowCapEvery(fs, m, isMatch, maxItems as nat, ListedAt(fs, all, rootDir, d, i));
    }

    /** What the worker has produced at position `(d, i)`: the first `maxItems` matches of the
        directories listed so far (the ghost `printed`), the counter equal to their number, the
        output lines printing them, and the diagnostics of the listed directories; every
        listed directory was started below the cap. */
    ghost predicate Tracked(fs: FileSystem, isMatch: (Bytes, Bytes) -> bool, m: MatchExpr, pp: PathPrinter,
                            d: nat, i: nat, printed: seq<Bytes>, numItems: nat, out: seq<Bytes>, diag: seq<Bytes>)
    {
      && Position(fs, all, rootDir, maxDepth, d, i)
      && printed == Take(Found(fs, m, isMatch, ListedAt(fs, all, rootDir, d, i)), maxItems)
      && numItems == |printed| && PrintsAs(pp, printed, out)
      && diag == Diagnostics(fs, verbose, ListedAt(fs, all, rootDir, d, i))
      && LastListedBelowCap(fs, m, isMatch, maxItems as nat, ListedAt(fs, all, rootDir, d, i))
    }

    /** Moving to another position with the same directories listed keeps the record, as when
        the worker passes from the end of one level to the start of the next. */
    lemma TrackedMoves(fs: FileSystem, isMatch: (Bytes, Bytes) -> bool, m: MatchExpr, pp: PathPrinter,
                       d: nat, i: nat, e: nat, j: nat, printed: seq<Bytes>, numItems: nat,
                       out: seq<Bytes>, diag: seq<Bytes>)
      requires Tracked(fs, isMatch, m, pp, d, i, printed, numItems, out, diag)
      requires Position(fs, all, rootDir, maxDepth, e, j)
      requires ListedAt(fs, all, rootDir, e, j) == ListedAt(fs, all, rootDir, d, i)
      ensures Tracked(fs, isMatch, m, pp, e, j, printed, numItems, out, diag)
    {
    }

    /** One turn of the worker's loop, with the queue at position `(d, i)` of the breadth-first
        order: pop the front node; past `maxDepth` stop, otherwise list it. Either way `(d', i')`
        is the position after the pop. A node past `maxDepth` is only consumed; listing the
        node adds it to the listed directories, its children to the queue, and its own matches
        and diagnostics to the output. */
    method ListNext(fs: FileSystem, isMatch: (Bytes, Bytes) -> bool, m: MatchExpr, pp: PathPrinter,
                    numItems: u32, ghost d: nat, ghost i: nat,
                    ghost printed: seq<Bytes>, ghost out: seq<Bytes>, ghost diag: seq<Bytes>)
      returns (stop: bool, current: DirNode, count: u32, lines: seq<Bytes>, diagLines: seq<Bytes>,
               ghost paths: seq<Bytes>, ghost d': nat, ghost i': nat)
      requires Tracked(fs, isMatch, m, pp, d, i, printed, numItems as nat, out, diag)
      requires numItems < maxItems
      requires searchQueue == QueueAt(fs, all, rootDir, d, i) && searchQueue != []
      requires pp.relativeLength <= |rootDir|
      requires NoDepthOverflow(fs, all, rootDir, maxDepth)
      modifies this
      ensures Tracked(fs, isMatch, m, pp, d', i', printed + paths, count as nat, out + lines, diag + diagLines)
      ensures current == old(searchQueue)[0] && (stop <==> current.depth > maxDepth as nat)
      ensures stop ==> d' == maxDepth + 1 && i' == 0
      ensures stop ==> count == numItems && lines == [] && diagLines == [] && paths == []
      ensures stop ==> ListedAt(fs, all, rootDir, d', i') == ListedAt(fs, all, rootDir, d, i)
      ensures stop ==> searchQueue == old(searchQueue)[1..]
      ensures !stop ==> ListedAt(fs, all, rootDir, d', i') == ListedAt(fs, all, rootDir, d, i) + [current]
      ensures !stop ==> searchQueue == old(searchQueue)[1..] + Kids(fs, all, current)
      ensures !stop ==> searchQueue == QueueAt(fs, all, rootDir, d', i') && (d' > d || (d' == d && i' > i))
    {
      current, d', i' := PopNode(fs, d, i);
      TrackedMoves(fs, isMatch, m, pp, d, i, d', i', printed, numItems as nat, out, diag);
      count, lines, diagLines, paths := numItems, [], [], [];
      stop := current.depth > maxDepth;
      if stop {
        AppendEmpty(printed);
        AppendEmpty(out);
        AppendEmpty(diag);
        return;
      }
      count, lines, diagLines, paths := ListPopped(fs, isMatch, m, pp, current, numItems, d', i', printed, out, diag);
      i' := i' + 1;
    }

    /** Listing the popped node, the `j`-th node of level `e`, extends the printed matches and
        the diagnostics by its own. */
    method ListPopped(fs: FileSystem, isMatch: (Bytes, Bytes) -> bool, m: MatchExpr, pp: PathPrinter,
                      current: DirNode, numItems: u32, ghost e: nat, ghost j: nat,
                      ghost printed: seq<Bytes>, ghost out: seq<Bytes>, ghost diag: seq<Bytes>)
      returns (count: u32, lines: seq<Bytes>, diagLines: seq<Bytes>, ghost paths: seq<Bytes>)
      requires Tracked(fs, isMatch, m, pp, e, j, printed, numItems as nat, out, diag)
      requires numItems < maxItems
      requires e <= maxDepth && j < |Level(fs, all, rootDir, e)| && current == Level(fs, all, rootDir, e)[j]
      requires pp.relativeLength <= |current.path|
      requires current.depth < U8Max || Kids(fs, all, current) == []
      modifies this
      ensures searchQueue == old(searchQueue) + Kids(fs, all, current)
      ensures ListedAt(fs, all, rootDir, e, j + 1) == ListedAt(fs, all, rootDir, e, j) + [current]
      ensures Tracked(fs, isMatch, m, pp, e, j + 1, printed + paths, count as nat, out + lines, diag + diagLines)
    {
      count, lines, diagLines, paths := ExpandNode(fs, isMatch, m, pp, current, numItems);
      TrackedListing(fs, isMatch, m, pp, e, j, printed, numItems as nat, out, diag, paths, lines, diagLines);
    }

    /** The record after listing the `j`-th node of level `e` below the cap: its capped
        matches, their lines and its diagnostic are added. */
    lemma TrackedListing(fs: FileSystem, isMatch: (Bytes, Bytes) -> bool, m: MatchExpr, pp: PathPrinter,
                         e: nat, j: nat, printed: seq<Bytes>, numItems: nat, out: seq<Bytes>, diag: seq<Bytes>,
                         paths: seq<Bytes>, lines: seq<Bytes>, diagLines: seq<Bytes>)
      requires Tracked(fs, isMatch, m, pp, e, j, printed, numItems, out, diag)
      requires numItems < maxItems as nat
      requires e <= maxDepth && j < |Level(fs, all, rootDir, e)|
      requires paths == Take(Hits(fs, m, isMatch, Level(fs, all, rootDir, e)[j]), maxItems as nat - numItems)
      requires PrintsAs(pp, paths, lines)
      requires diagLines == DeniedAt(fs, verbose, Level(fs, all, rootDir, e)[j])
      ensures ListedAt(fs, all, rootDir, e, j + 1) == ListedAt(fs, all, rootDir, e, j) + [Level(fs, all, rootDir, e)[j]]
      ensures Tracked(fs, isMatch, m, pp, e, j + 1, printed + paths, numItems + |paths|, out + lines, diag + diagLines)
    {
      ListingStep(fs, all, rootDir, m, isMatch, verbose, maxItems as nat, e, j, printed, paths);
      BelowCapSnoc(fs, m, isMatch, maxItems as nat, ListedAt(fs, all, rootDir, e, j), Level(fs, all, rootDir, e)[j]);
      PrintsAsAppend(pp, printed, out, paths, lines);
    }

    /** `search_queue.pop_front()` with the queue at position `(d, i)`: the popped node is the
        `j`-th node of level `e`, where `(e, j)` is `(d, i)` or, when level `d` is used up, the
        first node of the next level. */
    method PopNode(fs: FileSystem, ghost d: nat, ghost i: nat) returns (current: DirNode, ghost e: nat, ghost j: nat)
      requires Position(fs, all, rootDir, maxDepth, d, i)
      requires searchQueue == QueueAt(fs, all, rootDir, d, i) && searchQueue != []
      requires NoDepthOverflow(fs, all, rootDir, maxDepth)
      modifies this
      ensures Position(fs, all, rootDir, maxDepth, e, j) && j < |Level(fs, all, rootDir, e)|
      ensures ListedAt(fs, all, rootDir, e, j) == ListedAt(fs, all, rootDir, d, i)
      ensures (e == d && j == i) || (e == d + 1 && j == 0)
      ensures current == Level(fs, all, rootDir, e)[j] && current.depth as nat == e
      ensures rootDir <= current.path
      ensures e <= maxDepth ==> e < U8Max || Kids(fs, all, current) == []
      ensures searchQueue + Kids(fs, all, current) == QueueAt(fs, all, rootDir, e, j + 1)
      ensures current == old(searchQueue)[0] && searchQueue == old(searchQueue)[1..]
    {
      e, j := NextPosition(fs, all, rootDir, maxDepth, d, i);
      PopFront(fs, all, rootDir, e, j);
      PoppedNode(fs, all, rootDir, maxDepth, e, j);
      current := searchQueue[0];
      searchQueue := searchQueue[1..];
    }

    /** The `for entry in read_dir` loop for one popped node: push the entries the filter lets
        through, at the next depth, and print each matching entry while the counter is below
        `maxItems`. A listing failure pushes and prints nothing; at most it is diagnosed. */
    method ExpandNode(fs: FileSystem, isMatch: (Bytes, Bytes) -> bool, m: MatchExpr, pp: PathPrinter,
                      node: DirNode, numItems: u32)
      returns (count: u32, lines: seq<Bytes>, diagLines: seq<Bytes>, ghost paths: seq<Bytes>)
      requires numItems <= maxItems
      requires pp.relativeLength <= |node.path|
      requires node.depth < U8Max || Kids(fs, all, node) == []
      modifies this
      ensures searchQueue == old(searchQueue) + Kids(fs, all, node)
      ensures paths == Take(Hits(fs, m, isMatch, node), maxItems - numItems)
      ensures count == numItems + |paths| && PrintsAs(pp, paths, lines)
      ensures diagLines == DeniedAt(fs, verbose, node)
      ensures ReadDir(fs, node.path).Failed? ==> searchQueue == old(searchQueue) && count == numItems && lines == []
    {
      count, lines, paths := numItems, [], [];
      diagLines := DeniedAt(fs, verbose, node);
      match ReadDir(fs, node.path)
      case Failed(_) =>
      case Listed(entries) =>
        count, lines, paths := VisitEntries(fs, isMatch, m, pp, node, entries, numItems);
    }

    /** The loop over the entries of a successful listing of `node`. */
    method VisitEntries(ghost fs: FileSystem, isMatch: (Bytes, Bytes) -> bool, m: MatchExpr, pp: PathPrinter,
                        node: DirNode, entries: seq<Entry>, numItems: u32)
      returns (count: u32, lines: seq<Bytes>, ghost paths: seq<Bytes>)
      requires ReadDir(fs, node.path) == Listed(entries)
      requires numItems <= maxItems
      requires pp.relativeLength <= |node.path|
      requires node.depth < U8Max || Kids(fs, all, node) == []
      modifies this
      ensures searchQueue == old(searchQueue) + FlatMap(ChildrenOf(all, node), entries)
      ensures paths == Take(FlatMap(MatchesOf(m, isMatch, node.path), entries), maxItems - numItems)
      ensures count == numItems + |paths| && PrintsAs(pp, paths, lines)
    {
      count, lines, paths := numItems, [], [];
      ghost var room := maxItems - numItems;
      assert entries[..0] == [];
      for j := 0 to |entries|
        invariant searchQueue == old(searchQueue) + FlatMap(ChildrenOf(all, node), entries[..j])
        invariant paths == Take(FlatMap(MatchesOf(m, isMatch, node.path), entries[..j]), room)
        invariant count == numItems + |paths| && PrintsAs(pp, paths, lines)
      {
        EntryStep(fs, all, m, isMatch, node, entries, j, room);
        AppendAssoc(old(searchQueue), FlatMap(ChildrenOf(all, node), entries[..j]), ChildrenOf(all, node)(entries[j]));
        var newCount, newLines, newPaths := VisitEntry(isMatch, m, pp, node, entries[j], count);
        PrintsAsAppend(pp, paths, lines, newPaths, newLines);
        count, lines, paths := newCount, lines + newLines, paths + newPaths;
      }
      assert entries[..|entries|] == entries;
    }

    /** The body of the `for entry in read_dir` loop: push the entry unless the filter skips
        it, then print it if it matches and the counter is below `maxItems`. */
    method VisitEntry(isMatch: (Bytes, Bytes) -> bool, m: MatchExpr, pp: PathPrinter,
                      node: DirNode, entry: Entry, numItems: u32)
      returns (count: u32, lines: seq<Bytes>, ghost paths: seq<Bytes>)
      requires numItems <= maxItems
      requires pp.relativeLength <= |node.path|
      requires Enqueues(all, entry.name) ==> node.depth < U8Max
      modifies this
      ensures searchQueue == old(searchQueue) + ChildrenOf(all, node)(entry)
      ensures paths == Take(MatchesOf(m, isMatch, node.path)(entry), maxItems - numItems)
      ensures count == numItems + |paths| && PrintsAs(pp, paths, lines)
    {
      var path := Join(node.path, entry.name);
      if Enqueues(all, entry.name) {
        var depth: u8 := node.depth + 1;  // the `u8` addition, which must not overflow
        searchQueue := searchQueue + [DirNode(path, depth)];
      }
      count, lines, paths := numItems, [], [];
      var exprMatch := IsMatch(m, isMatch, entry.name);
      if numItems < maxItems && exprMatch {
        var line := PrintPath(pp, path);
        count, lines, paths := numItems + 1, [line.value], [path];
      }
    }
  }
}
