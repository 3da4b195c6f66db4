/** The traversal the worker loop of src/rcrawl.rs performs, stated level by level: which
    directories it lists, in which order, and what it reports and diagnoses for each. */
module Traversal {
  import opened Prim
  import opened Seqs
  import opened Fs
  import opened Matching

  /** `DirNode`: a path waiting to be listed and its distance from the root. The source keeps
      the depth in a `u8`; here it is a `nat` and the `u8` range is a proof obligation where a
      child's depth is computed. */
  datatype DirNode = DirNode(path: Bytes, depth: nat)

  /** The node pushed for entry `e` listed under `parent`. */
  function ChildNode(parent: DirNode, e: Entry): (c: DirNode)
    ensures c.depth == parent.depth + 1
  {
    DirNode(Join(parent.path, e.name), parent.depth + 1)
  }

  function ChildrenOf(all: bool, parent: DirNode): Entry -> seq<DirNode> {
    (e: Entry) => if Enqueues(all, e.name) then [ChildNode(parent, e)] else []
  }

  /** The nodes that listing `n` pushes, in listing order: one per entry the filter lets
      through; none when the listing fails. */
  function Kids(fs: FileSystem, all: bool, n: DirNode): seq<DirNode> {
    match ReadDir(fs, n.path)
    case Listed(entries) => FlatMap(ChildrenOf(all, n), entries)
    case Failed(_) => []
  }

  function KidsOf(fs: FileSystem, all: bool): DirNode -> seq<DirNode> {
    n => Kids(fs, all, n)
  }

  /** The nodes pushed while the nodes of `q` are listed one after another. */
  function Expand(fs: FileSystem, all: bool, q: seq<DirNode>): seq<DirNode> {
    FlatMap(KidsOf(fs, all), q)
  }

  /** The queue contents of breadth-first level `d`: the root alone at level 0, then
      everything level `d - 1` pushes. */
  function Level(fs: FileSystem, all: bool, root: Bytes, d: nat): seq<DirNode> {
    if d == 0 then [DirNode(root, 0)] else Expand(fs, all, Level(fs, all, root, d - 1))
  }

  /** Levels 0 to `d - 1`, in the order a single worker pops them. */
  function Before(fs: FileSystem, all: bool, root: Bytes, d: nat): seq<DirNode> {
    if d == 0 then [] else Before(fs, all, root, d - 1) + Level(fs, all, root, d - 1)
  }

  function MatchesOf(m: MatchExpr, isMatch: (Bytes, Bytes) -> bool, parent: Bytes): Entry -> seq<Bytes> {
    (e: Entry) => if IsMatch(m, isMatch, e.name) then [Join(parent, e.name)] else []
  }

  /** The paths of the entries listed under `n` whose names match, filtered or not. */
  function Hits(fs: FileSystem, m: MatchExpr, isMatch: (Bytes, Bytes) -> bool, n: DirNode): seq<Bytes> {
    match ReadDir(fs, n.path)
    case Listed(entries) => FlatMap(MatchesOf(m, isMatch, n.path), entries)
    case Failed(_) => []
  }

  function HitsOf(fs: FileSystem, m: MatchExpr, isMatch: (Bytes, Bytes) -> bool): DirNode -> seq<Bytes> {
    n => Hits(fs, m, isMatch, n)
  }

  /** Every match found while listing the nodes of `q` in turn. */
  function Found(fs: FileSystem, m: MatchExpr, isMatch: (Bytes, Bytes) -> bool, q: seq<DirNode>): seq<Bytes> {
    FlatMap(HitsOf(fs, m, isMatch), q)
  }

  /** Each node of `q` was listed while fewer than `maxItems` matches had been found before
      it: the worker only pops a node once its loop test `num_items < max_items` passed. */
  ghost predicate ListedBelowCap(fs: FileSystem, m: MatchExpr, isMatch: (Bytes, Bytes) -> bool, maxItems: nat,
                                 q: seq<DirNode>) {
    forall k :: 0 <= k < |q| ==> |Take(Found(fs, m, isMatch, q[..k]), maxItems)| < maxItems
  }

  /** The same for the last node of `q` alone, which is enough since matches only grow. */
  ghost predicate LastListedBelowCap(fs: FileSystem, m: MatchExpr, isMatch: (Bytes, Bytes) -> bool, maxItems: nat,
                                     q: seq<DirNode>) {
    q == [] || |Take(Found(fs, m, isMatch, q[..|q| - 1]), maxItems)| < maxItems
  }

  /** The diagnostic listing `n` writes: its path, exactly when output is verbose and the
      listing was refused for lack of permission. */
  function DeniedAt(fs: FileSystem, verbose: bool, n: DirNode): (diag: seq<Bytes>)
    ensures |diag| <= 1
    ensures diag != [] <==> verbose && ReadDir(fs, n.path) == Failed(PermissionDenied)
    ensures diag != [] ==> diag == [n.path]
  {
    if verbose && ReadDir(fs, n.path) == Failed(PermissionDenied) then [n.path] else []
  }

  function DeniedOf(fs: FileSystem, verbose: bool): DirNode -> seq<Bytes> {
    n => DeniedAt(fs, verbose, n)
  }

  /** The diagnostics written while listing the nodes of `q` in turn. */
  function Diagnostics(fs: FileSystem, verbose: bool, q: seq<DirNode>): seq<Bytes> {
    FlatMap(DeniedOf(fs, verbose), q)
  }

  /** The source adds 1 to a `u8` depth when it pushes a child; this rules out the overflow:
      either depths stop at `maxDepth + 1 <= 255`, or no directory at depth 255 pushes anything. */
  predicate NoDepthOverflow(fs: FileSystem, all: bool, root: Bytes, maxDepth: u8) {
    maxDepth < U8Max || Level(fs, all, root, U8Max + 1) == []
  }

  /** Front to back, depths never decrease and never grow by more than one. */
  ghost predicate Layered(q: seq<DirNode>) {
    forall a, b :: 0 <= a <= b < |q| ==> q[a].depth <= q[b].depth <= q[a].depth + 1
  }

  /** Without the verbose flag nothing is ever written to the diagnostic stream. */
  lemma {:induction false} QuietWithoutVerbose(fs: FileSystem, q: seq<DirNode>)
    ensures Diagnostics(fs, false, q) == []
    decreases |q|
  {
    if q != [] {
      QuietWithoutVerbose(fs, q[..|q| - 1]);
    }
  }

  /** Every pushed child is one level deeper than the node listed and lies below its path. */
  lemma KidsShape(fs: FileSystem, all: bool, n: DirNode)
    ensures forall c :: c in Kids(fs, all, n) ==> c.depth == n.depth + 1 && n.path <= c.path
  {
    match ReadDir(fs, n.path)
    case Listed(entries) =>
      forall k | 0 <= k < |entries|
        ensures forall c :: c in ChildrenOf(all, n)(entries[k]) ==> c.depth == n.depth + 1 && n.path <= c.path
      {
        JoinShape(n.path, entries[k].name);
      }
      FlatMapForall(ChildrenOf(all, n), entries, (c: DirNode) => c.depth == n.depth + 1 && n.path <= c.path);
    case Failed(_) =>
  }

  /** With `all` every entry is pushed; a listing failure pushes nothing. */
  lemma {:induction false} KidsAll(fs: FileSystem, n: DirNode, entries: seq<Entry>)
    requires ReadDir(fs, n.path) == Listed(entries)
    ensures Kids(fs, true, n) == seq(|entries|, k requires 0 <= k < |entries| => ChildNode(n, entries[k]))
  {
    KidsAllPrefix(n, entries, |entries|);
    assert entries[..|entries|] == entries;
  }

  lemma {:induction false} KidsAllPrefix(n: DirNode, entries: seq<Entry>, j: nat)
    requires j <= |entries|
    ensures FlatMap(ChildrenOf(true, n), entries[..j]) == seq(j, k requires 0 <= k < j => ChildNode(n, entries[k]))
  {
    if j > 0 {
      KidsAllPrefix(n, entries, j - 1);
      assert entries[..j][..j - 1] == entries[..j - 1];
    }
  }

  /** Every node of level `d` has depth `d`. */
  lemma {:induction false} LevelDepth(fs: FileSystem, all: bool, root: Bytes, d: nat)
    ensures forall n :: n in Level(fs, all, root, d) ==> n.depth == d
  {
    if d > 0 {
      var prev := Level(fs, all, root, d - 1);
      LevelDepth(fs, all, root, d - 1);
      forall i | 0 <= i < |prev|
        ensures forall c :: c in KidsOf(fs, all)(prev[i]) ==> c.depth == d
      {
        assert prev[i] in prev;
        KidsShape(fs, all, prev[i]);
      }
      FlatMapForall(KidsOf(fs, all), prev, (c: DirNode) => c.depth == d);
    }
  }

  /** Once a level is empty, so is every later one, and no further node is ever listed. */
  lemma {:induction false} EmptyLevelStays(fs: FileSystem, all: bool, root: Bytes, k: nat, j: nat)
    requires k <= j
    requires Level(fs, all, root, k) == []
    ensures Level(fs, all, root, j) == []
    ensures Before(fs, all, root, j) == Before(fs, all, root, k)
    decreases j - k
  {
    if k < j {
      EmptyLevelStays(fs, all, root, k, j - 1);
      assert Expand(fs, all, []) == [];
    }
  }

  /** Earlier levels come first in the breadth-first order. */
  lemma {:induction false} BeforePrefix(fs: FileSystem, all: bool, root: Bytes, d: nat, e: nat)
    requires d <= e
    ensures Before(fs, all, root, d) <= Before(fs, all, root, e)
    decreases e - d
  {
    if d < e {
      BeforePrefix(fs, all, root, d, e - 1);
    }
  }

  /** The children of the `i`-th node of level `d` are part of level `d + 1`; in particular a
      node of an empty next level pushes nothing. */
  lemma KidsInNextLevel(fs: FileSystem, all: bool, root: Bytes, d: nat, i: nat)
    requires i < |Level(fs, all, root, d)|
    ensures Expand(fs, all, Level(fs, all, root, d)[..i + 1]) <= Level(fs, all, root, d + 1)
    ensures |Kids(fs, all, Level(fs, all, root, d)[i])| <= |Level(fs, all, root, d + 1)|
  {
    var level := Level(fs, all, root, d);
    assert level[..i + 1] == level[..i] + [level[i]];
    FlatMapSnoc(KidsOf(fs, all), level[..i], level[i]);
    FlatMapPrefix(KidsOf(fs, all), level[..i + 1], level);
    assert level[..|level|] == level;
  }

  /** The queue of a single worker part-way through level `d` (its unlisted nodes, then what
      the listed ones pushed) holds at most two consecutive depths, shallower first. */
  lemma QueueLayered(fs: FileSystem, all: bool, root: Bytes, d: nat, i: nat)
    requires i <= |Level(fs, all, root, d)|
    ensures Layered(QueueAt(fs, all, root, d, i))
  {
    var level := Level(fs, all, root, d);
    var rest, pushed := level[i..], Expand(fs, all, level[..i]);
    LevelDepth(fs, all, root, d);
    assert forall n :: n in rest ==> n.depth == d by {
      forall n | n in rest ensures n.depth == d {
        assert n in level;
      }
    }
    forall k | 0 <= k < i
      ensures forall c :: c in KidsOf(fs, all)(level[..i][k]) ==> c.depth == d + 1
    {
      assert level[..i][k] in level;
      KidsShape(fs, all, level[..i][k]);
    }
    FlatMapForall(KidsOf(fs, all), level[..i], (c: DirNode) => c.depth == d + 1);
    var q := rest + pushed;
    forall a | 0 <= a < |q| ensures q[a].depth == if a < |rest| then d else d + 1 {
      if a < |rest| {
        assert q[a] in rest;
      } else {
        assert q[a] == pushed[a - |rest|];
        assert q[a] in pushed;
      }
    }
  }

  /** At the start of level `maxDepth + 1` every queued node is deeper than `maxDepth`: a
      worker that stops at the first such node leaves behind only nodes it would skip anyway. */
  lemma StopLeavesOnlyTooDeep(fs: FileSystem, all: bool, root: Bytes, maxDepth: nat)
    ensures forall n :: n in QueueAt(fs, all, root, maxDepth + 1, 0) ==> n.depth > maxDepth
  {
    var level := Level(fs, all, root, maxDepth + 1);
    LevelDepth(fs, all, root, maxDepth + 1);
    assert level[..0] == [] && level[0..] == level;
    assert QueueAt(fs, all, root, maxDepth + 1, 0) == level;
  }

  /** The queue of a single worker after listing the first `i` nodes of level `d`. */
  function QueueAt(fs: FileSystem, all: bool, root: Bytes, d: nat, i: nat): seq<DirNode>
    requires i <= |Level(fs, all, root, d)|
  {
    Level(fs, all, root, d)[i..] + Expand(fs, all, Level(fs, all, root, d)[..i])
  }

  /** The directories listed by then, in order. */
  function ListedAt(fs: FileSystem, all: bool, root: Bytes, d: nat, i: nat): seq<DirNode>
    requires i <= |Level(fs, all, root, d)|
  {
    Before(fs, all, root, d) + Level(fs, all, root, d)[..i]
  }

  /** Having listed all of level `d` is the same as being at the start of level `d + 1`. */
  lemma LevelDone(fs: FileSystem, all: bool, root: Bytes, d: nat)
    ensures QueueAt(fs, all, root, d, |Level(fs, all, root, d)|) == QueueAt(fs, all, root, d + 1, 0)
    ensures ListedAt(fs, all, root, d, |Level(fs, all, root, d)|) == ListedAt(fs, all, root, d + 1, 0)
  {
    var level, next := Level(fs, all, root, d), Level(fs, all, root, d + 1);
    assert next == Expand(fs, all, level);
    assert Expand(fs, all, next[..0]) == [] by {
      assert next[..0] == [];
    }
    assert level[..|level|] == level && level[|level|..] == [] && next[0..] == next;
    assert Before(fs, all, root, d + 1) == Before(fs, all, root, d) + level;
  }

  /** `(d, i)` is a position a single worker reaches: `i` nodes into level `d`, no deeper
      than the start of level `maxDepth + 1`. */
  ghost predicate Position(fs: FileSystem, all: bool, root: Bytes, maxDepth: nat, d: nat, i: nat) {
    d <= maxDepth + 1 && i <= |Level(fs, all, root, d)| && (d == maxDepth + 1 ==> i == 0)
  }

  /** A worker starts at the root, with nothing listed. */
  lemma Start(fs: FileSystem, all: bool, root: Bytes, maxDepth: nat)
    ensures Position(fs, all, root, maxDepth, 0, 0)
    ensures QueueAt(fs, all, root, 0, 0) == [DirNode(root, 0)]
    ensures ListedAt(fs, all, root, 0, 0) == []
  {
    assert Level(fs, all, root, 0)[..0] == [];
  }

  /** The position of the front of a non-empty queue: `(d, i)` itself inside level `d`, or
      the start of level `d + 1` once level `d` is done. */
  lemma NextPosition(fs: FileSystem, all: bool, root: Bytes, maxDepth: nat, d: nat, i: nat)
    returns (d': nat, i': nat)
    requires d <= maxDepth + 1 && i <= |Level(fs, all, root, d)| && (d == maxDepth + 1 ==> i == 0)
    requires QueueAt(fs, all, root, d, i) != []
    ensures d' <= maxDepth + 1 && i' < |Level(fs, all, root, d')|
    ensures QueueAt(fs, all, root, d', i') == QueueAt(fs, all, root, d, i)
    ensures ListedAt(fs, all, root, d', i') == ListedAt(fs, all, root, d, i)
    ensures (d' == d && i' == i) || (d' == d + 1 && i' == 0)
  {
    d', i' := d, i;
    if i == |Level(fs, all, root, d)| {
      LevelDone(fs, all, root, d);
      d', i' := d + 1, 0;
    }
  }

  /** Popping the front of the queue yields the next node of the level, of depth `d`; pushing
      its children leads to the queue after `i + 1` nodes. */
  lemma PopFront(fs: FileSystem, all: bool, root: Bytes, d: nat, i: nat)
    requires i < |Level(fs, all, root, d)|
    ensures QueueAt(fs, all, root, d, i) != []
    ensures QueueAt(fs, all, root, d, i)[0] == Level(fs, all, root, d)[i]
    ensures Level(fs, all, root, d)[i].depth == d
    ensures QueueAt(fs, all, root, d, i)[1..] + Kids(fs, all, Level(fs, all, root, d)[i])
            == QueueAt(fs, all, root, d, i + 1)
  {
    var level := Level(fs, all, root, d);
    LevelDepth(fs, all, root, d);
    assert level[i] in level;
    assert level[i..][0] == level[i] && level[i..][1..] == level[i + 1..];
    PopAppend(level[i..], Expand(fs, all, level[..i]), Kids(fs, all, level[i]));
    ExpandStep(fs, all, level, i);
  }

  lemma ExpandStep(fs: FileSystem, all: bool, q: seq<DirNode>, i: nat)
    requires i < |q|
    ensures Expand(fs, all, q[..i + 1]) == Expand(fs, all, q[..i]) + Kids(fs, all, q[i])
  {
    assert q[..i + 1] == q[..i] + [q[i]];
    FlatMapSnoc(KidsOf(fs, all), q[..i], q[i]);
  }

  /** Listing the popped node extends the listed directories by it. */
  lemma ListedStep(fs: FileSystem, all: bool, root: Bytes, d: nat, i: nat)
    requires i < |Level(fs, all, root, d)|
    ensures ListedAt(fs, all, root, d, i) + [Level(fs, all, root, d)[i]] == ListedAt(fs, all, root, d, i + 1)
  {
    var before, level := Before(fs, all, root, d), Level(fs, all, root, d);
    assert level[..i + 1] == level[..i] + [level[i]];
    assert before + level[..i] + [level[i]] == before + level[..i + 1];
  }

  /** A drained queue means every level up to `maxDepth` has been listed. */
  lemma QueueDrained(fs: FileSystem, all: bool, root: Bytes, maxDepth: nat, d: nat, i: nat)
    requires d <= maxDepth + 1 && i <= |Level(fs, all, root, d)| && (d == maxDepth + 1 ==> i == 0)
    requires QueueAt(fs, all, root, d, i) == []
    ensures ListedAt(fs, all, root, d, i) == Before(fs, all, root, maxDepth + 1)
  {
    var level := Level(fs, all, root, d);
    assert level[i..] == [];
    assert level[..i] == level;
    if d <= maxDepth {
      EmptyLevelStays(fs, all, root, d + 1, maxDepth + 1);
    }
  }

  /** The outcome of a single worker's loop: what it has listed is a prefix of the
      breadth-first order; if it printed fewer than `maxItems` lines it listed all of it; and
      the paths it printed are the first `maxItems` matches of the whole order. */
  lemma WorkerOutcome(fs: FileSystem, all: bool, root: Bytes, maxDepth: nat, m: MatchExpr,
                      isMatch: (Bytes, Bytes) -> bool, maxItems: nat, printed: seq<Bytes>, d: nat, i: nat)
    requires d <= maxDepth + 1 && i <= |Level(fs, all, root, d)| && (d == maxDepth + 1 ==> i == 0)
    requires printed == Take(Found(fs, m, isMatch, ListedAt(fs, all, root, d, i)), maxItems)
    requires d == maxDepth + 1 || QueueAt(fs, all, root, d, i) == [] || |printed| >= maxItems
    ensures ListedAt(fs, all, root, d, i) <= Before(fs, all, root, maxDepth + 1)
    ensures |printed| < maxItems ==> ListedAt(fs, all, root, d, i) == Before(fs, all, root, maxDepth + 1)
    ensures printed == Take(Found(fs, m, isMatch, Before(fs, all, root, maxDepth + 1)), maxItems)
  {
    if |printed| < maxItems {
      if d == maxDepth + 1 {
        PastMaxDepth(fs, all, root, d);
      } else {
        QueueDrained(fs, all, root, maxDepth, d, i);
      }
    }
    var listed, bfs := ListedAt(fs, all, root, d, i), Before(fs, all, root, maxDepth + 1);
    var level := Level(fs, all, root, d);
    if d <= maxDepth {
      assert level == level[..i] + level[i..];
      BeforePrefix(fs, all, root, d + 1, maxDepth + 1);
    } else {
      assert level[..0] == [];
    }
    FlatMapPrefix(HitsOf(fs, m, isMatch), listed, bfs);
    if |printed| == maxItems {
      TakeOfPrefix(Found(fs, m, isMatch, listed), Found(fs, m, isMatch, bfs), maxItems);
    }
  }

  /** One entry of a successful listing extends the pushed nodes by that entry's share and,
      while there is room left, the printed matches by its match; an entry that is pushed
      means the node pushes something. */
  lemma EntryStep(fs: FileSystem, all: bool, m: MatchExpr, isMatch: (Bytes, Bytes) -> bool,
                  node: DirNode, entries: seq<Entry>, j: nat, room: nat)
    requires ReadDir(fs, node.path) == Listed(entries)
    requires j < |entries|
    ensures FlatMap(ChildrenOf(all, node), entries[..j + 1])
            == FlatMap(ChildrenOf(all, node), entries[..j]) + ChildrenOf(all, node)(entries[j])
    ensures var before := Take(FlatMap(MatchesOf(m, isMatch, node.path), entries[..j]), room);
            Take(FlatMap(MatchesOf(m, isMatch, node.path), entries[..j + 1]), room)
            == before + Take(MatchesOf(m, isMatch, node.path)(entries[j]), room - |before|)
    ensures Enqueues(all, entries[j].name) ==> Kids(fs, all, node) != []
  {
    var hits, hit := FlatMap(MatchesOf(m, isMatch, node.path), entries[..j]), MatchesOf(m, isMatch, node.path)(entries[j]);
    assert entries[..j + 1] == entries[..j] + [entries[j]];
    FlatMapSnoc(ChildrenOf(all, node), entries[..j], entries[j]);
    FlatMapSnoc(MatchesOf(m, isMatch, node.path), entries[..j], entries[j]);
    TakeAppend(hits, hit, room);
    FlatMapPrefix(ChildrenOf(all, node), entries[..j + 1], entries);
    assert entries[..|entries|] == entries;
  }

  /** Every node of every level lies below the root. */
  lemma {:induction false} LevelUnderRoot(fs: FileSystem, all: bool, root: Bytes, d: nat)
    ensures forall n :: n in Level(fs, all, root, d) ==> root <= n.path
  {
    if d > 0 {
      var prev := Level(fs, all, root, d - 1);
      LevelUnderRoot(fs, all, root, d - 1);
      forall k | 0 <= k < |prev|
        ensures forall c :: c in KidsOf(fs, all)(prev[k]) ==> root <= c.path
      {
        assert prev[k] in prev;
        KidsShape(fs, all, prev[k]);
      }
      FlatMapForall(KidsOf(fs, all), prev, (c: DirNode) => root <= c.path);
    }
  }

  /** What the worker knows of the node it pops: its depth is the level's, it lies below the
      root, and, if it is listed at all, computing its children's depth cannot overflow. */
  lemma PoppedNode(fs: FileSystem, all: bool, root: Bytes, maxDepth: u8, d: nat, i: nat)
    requires NoDepthOverflow(fs, all, root, maxDepth)
    requires i < |Level(fs, all, root, d)|
    ensures Level(fs, all, root, d)[i].depth == d
    ensures root <= Level(fs, all, root, d)[i].path
    ensures d <= maxDepth ==> d < U8Max || Kids(fs, all, Level(fs, all, root, d)[i]) == []
  {
    var level := Level(fs, all, root, d);
    assert level[i] in level;
    LevelDepth(fs, all, root, d);
    LevelUnderRoot(fs, all, root, d);
    if d == U8Max as nat && d <= maxDepth {
      KidsInNextLevel(fs, all, root, d, i);
    }
  }

  /** Listing the `i`-th node of level `d` extends the listed directories by it, the printed
      paths by its matches (as far as the cap allows) and the diagnostics by its own. */
  lemma ListingStep(fs: FileSystem, all: bool, root: Bytes, m: MatchExpr, isMatch: (Bytes, Bytes) -> bool,
                    verbose: bool, maxItems: nat, d: nat, i: nat, printed: seq<Bytes>, paths: seq<Bytes>)
    requires i < |Level(fs, all, root, d)|
    requires printed == Take(Found(fs, m, isMatch, ListedAt(fs, all, root, d, i)), maxItems)
    requires paths == Take(Hits(fs, m, isMatch, Level(fs, all, root, d)[i]), maxItems - |printed|)
    ensures ListedAt(fs, all, root, d, i) + [Level(fs, all, root, d)[i]] == ListedAt(fs, all, root, d, i + 1)
    ensures printed + paths == Take(Found(fs, m, isMatch, ListedAt(fs, all, root, d, i + 1)), maxItems)
    ensures Diagnostics(fs, verbose, ListedAt(fs, all, root, d, i + 1))
            == Diagnostics(fs, verbose, ListedAt(fs, all, root, d, i)) + DeniedAt(fs, verbose, Level(fs, all, root, d)[i])
  {
    var listed, n := ListedAt(fs, all, root, d, i), Level(fs, all, root, d)[i];
    ListedStep(fs, all, root, d, i);
    FlatMapSnoc(HitsOf(fs, m, isMatch), listed, n);
    FlatMapSnoc(DeniedOf(fs, verbose), listed, n);
    TakeAppend(Found(fs, m, isMatch, listed), Hits(fs, m, isMatch, n), maxItems);
  }

  /** Listing one more node while the matches found so far are below the cap keeps every
      listed node below the cap. */
  lemma BelowCapSnoc(fs: FileSystem, m: MatchExpr, isMatch: (Bytes, Bytes) -> bool, maxItems: nat,
                     q: seq<DirNode>, n: DirNode)
    requires |Take(Found(fs, m, isMatch, q), maxItems)| < maxItems
    ensures LastListedBelowCap(fs, m, isMatch, maxItems, q + [n])
  {
    assert (q + [n])[..|q|] == q;
  }

  /** Below the cap at the last listed node means below it at every listed node. */
  lemma BelowCapEvery(fs: FileSystem, m: MatchExpr, isMatch: (Bytes, Bytes) -> bool, maxItems: nat,
                      q: seq<DirNode>)
    requires LastListedBelowCap(fs, m, isMatch, maxItems, q)
    ensures ListedBelowCap(fs, m, isMatch, maxItems, q)
  {
    forall k | 0 <= k < |q|
      ensures |Take(Found(fs, m, isMatch, q[..k]), maxItems)| < maxItems
    {
      FlatMapPrefix(HitsOf(fs, m, isMatch), q[..k], q[..|q| - 1]);
    }
  }

  /** The item cap fixes what is listed: of the prefixes of one order that were listed below
      the cap, only one either is the whole order or reaches the cap. */
  lemma CapFixesListing(fs: FileSystem, m: MatchExpr, isMatch: (Bytes, Bytes) -> bool, maxItems: nat,
                        order: seq<DirNode>, v: seq<DirNode>, w: seq<DirNode>)
    requires v <= order && w <= order
    requires ListedBelowCap(fs, m, isMatch, maxItems, v) && ListedBelowCap(fs, m, isMatch, maxItems, w)
    requires v == order || |Take(Found(fs, m, isMatch, v), maxItems)| == maxItems
    requires w == order || |Take(Found(fs, m, isMatch, w), maxItems)| == maxItems
    ensures v == w
  {
    var n := if |v| < |w| then |v| else |w|;
    var common := order[..n];
    assert v[..n] == common == w[..n];
    assert |v| < |w| ==> common == v;
    assert |w| < |v| ==> common == w;
  }

  /** Reaching level `maxDepth + 1` means every level up to `maxDepth` has been listed. */
  lemma PastMaxDepth(fs: FileSystem, all: bool, root: Bytes, d: nat)
    ensures ListedAt(fs, all, root, d, 0) == Before(fs, all, root, d)
  {
    assert Level(fs, all, root, d)[..0] == [];
  }
}
