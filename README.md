# rcrawl, one worker, in Dafny

rcrawl is a parallel `find -name`. It starts from a root directory and keeps a FIFO queue of
directory nodes (a path and a `u8` depth). A worker pops the front node and lists it. It pushes
every entry that passes the hidden/"Library" filter onto the back of the queue, one level deeper.
It also tests every entry's name against the match expression, which is either a literal file
name or a user regex with `^` put before it and `$` after it. While the shared counter is below `max_items`, it
prints each matching entry's path, absolute or relative to the root. A worker stops when:

- the counter reaches `max_items`;
- the queue is empty; or
- it pops a node deeper than `max_depth`.

This project models that core with the threads taken out: a single worker, running over a file
system given as a map from path to listing. Eight modules:

- `Prim` — `u8`, `u32`, byte strings, `Option`/`Result`.
- `Seqs` — `FlatMap` and `Take`, with their algebra.
- `Fs` — `read_dir` over the map, and `DirEntry::path` as `Join(parent, name)`.
- `RcrawlConfig` — `Config::from_arg_matches` and its defaults.
- `Matching` — the match expression, the match test and the enqueue filter.
- `Utils` — `PathPrinter`.
- `Traversal` — the reference definition of what one worker does, level by level:
  - `Level(d)` is the queue contents of breadth-first level `d`.
  - `Before(d)` is levels `0..d-1` in pop order.
  - `QueueAt(d, i)` and `ListedAt(d, i)` are the queue and the listed directories after `i`
    nodes of level `d`.
  - `Found` and `Diagnostics` are the matches and the diagnostics of a sequence of listed nodes.
- `Rcrawl` — the class `ConcurrentFileSearch`. Its configuration is `const` fields and its queue
  is a `seq` field. The worker's `while` loop and the `for` loop over a directory's entries are
  imperative methods with loop invariants.

The worker's loop invariant ties the real queue to `QueueAt(d, i)` for a ghost position
`(d, i)`. `(d, i)` also serves as the termination measure: each level is a finite sequence, and
the worker never goes past level `maxDepth + 1`. No acyclicity assumption on the file system is
needed.

The worker's contract is stated against this reference:

- the directories it lists are a prefix of the breadth-first order `Bfs` (levels `0..maxDepth`);
- if it printed fewer than `maxItems` lines, it listed all of `Bfs`;
- it started each directory it listed while the counter was below `maxItems`, so it lists
  nothing once the cap is reached;
- its printed lines are, one by one, the `print_path` output of the first `maxItems` matches of
  `Bfs`;
- the counter equals the number of printed lines;
- its diagnostics are exactly the permission-denied paths among the listed directories, and only
  when output is verbose.

A `u8` depth computed as `current.depth + 1` would overflow past 255. This is a precondition
(`NoDepthOverflow`: `maxDepth < 255`, or breadth-first level 256 is empty). Where the child's
depth is computed, the model checks the `u8` range.

Points where the code's behaviour is easy to misread:

- Popping a node deeper than `max_depth` ends the worker (`break`, src/rcrawl.rs:122) rather
  than skipping that one node. For a single worker the two agree:
  `Traversal.StopLeavesOnlyTooDeep` proves that every node still queued at that point is too
  deep as well.
- Entries are tested for a match when their directory is listed (src/rcrawl.rs:136-144), and a
  directory at depth `max_depth` is still listed (src/rcrawl.rs:122). So matches at depth
  `max_depth + 1` are reported: with `max_depth = 1`, an entry `root/a/b` is found.
- Only the loop test (src/rcrawl.rs:114) compares the counter with `max_items` before a node is
  popped. Once the cap is reached the worker lists nothing more and writes no further
  diagnostic; the entry loop of a directory already being listed still runs to its end,
  pushing children but printing nothing.
- A failure to read one entry, or a non-UTF-8 name, panics the worker (`unwrap`,
  src/rcrawl.rs:127-129). The model has neither (see Left out).
- src/main.rs declares no `root_directory`, `regex`, `verbose` or `all` argument, so through the
  shipped command line these always take their defaults. `FromArgMatches` models
  `from_arg_matches` for any argument set.

## Model

| member | source | states |
|---|---|---|
| RcrawlConfig.FromArgMatches | src/rcrawl.rs:31-53 | `--single` forces `maxItems = 1` whatever `max_items` says; otherwise a given value is kept. Absent options default to `maxDepth = 255`, `maxItems = u32::MAX`, `numThreads = 16`. Absent strings become empty. Flags are copied. |
| Matching.AnchoredPattern | src/rcrawl.rs:97-99 | the compiled pattern is `^`, then the user expression, then `$`: two bytes longer, first byte `^`, last byte `$`, and the user expression in between |
| Matching.BuildMatchExpr | src/rcrawl.rs:96-103 | the expression is a regex exactly when `regex` is set. A regex carries the anchored pattern; a literal carries the query unchanged. |
| Matching.IsMatch | src/rcrawl.rs:137-140 | a literal matches a name iff they are equal byte for byte; a regex matches iff the engine accepts the name under its pattern |
| Matching.LiteralMatchIff | src/rcrawl.rs:137-138 | in literal mode an entry matches iff its name equals `match_expr` |
| Matching.RegexMatchAnchored | src/rcrawl.rs:96-100 | in regex mode the engine is asked about exactly `"^" + match_expr + "$"` |
| Matching.Enqueues | src/rcrawl.rs:130 | with `all` every entry is pushed. Without it, a name starting with `.` is not pushed, `Library` is not pushed, and any other name is pushed (both directions). |
| Utils.NewPathPrinter | src/utils.rs:8-14 | never returns an error. `relativeLength` is the root's byte length when relative, and 0 otherwise. |
| Utils.PrintPath | src/utils.rs:16-18 | on byte strings, printing succeeds iff `relativeLength` is at most the path's length (the slice is out of range otherwise), and the line is `relativeLength` bytes shorter than the path |
| Utils.PrintPathRest | src/utils.rs:17 | the path is its first `relativeLength` bytes followed by the printed line |
| Utils.PrintRelative | src/utils.rs:9-17 | relative output of `root ++ rest` is exactly `rest` |
| Utils.PrintsAbsolute | src/utils.rs:13-17 | with `relative == false` every printed line equals its path unchanged |
| Fs.JoinShape | src/rcrawl.rs:132 | an entry's path starts with its directory's path and ends with its name, with at most one separator added between them |
| Traversal.ChildNode | src/rcrawl.rs:131-134 | a pushed child's depth is its parent's depth + 1 |
| Traversal.KidsShape | src/rcrawl.rs:131-134 | every node pushed while listing `n` is at depth `n.depth + 1` and its path extends `n`'s path |
| Traversal.KidsAll | src/rcrawl.rs:130-134 | with `all`, listing a directory pushes one child per entry, in listing order |
| Traversal.LevelDepth | src/rcrawl.rs:131-134 | every node of breadth-first level `d` has depth `d` |
| Traversal.LevelUnderRoot | src/rcrawl.rs:131-134 | every queued node's path extends the root path, so relative printing never panics |
| Traversal.QueueLayered | src/rcrawl.rs:120-134 | every queue a single worker passes through (`QueueAt(d, i)`, see `Worker`) has nondecreasing depths, front to back, spanning at most two consecutive values |
| Traversal.StopLeavesOnlyTooDeep | src/rcrawl.rs:122 | at the start of level `maxDepth + 1` every queued node is deeper than `maxDepth`, so stopping there drops nothing a per-node skip would have listed |
| Traversal.DeniedAt | src/rcrawl.rs:147-151 | a listing writes a diagnostic iff output is verbose and the listing failed with PermissionDenied; the diagnostic names the node's path |
| Traversal.QuietWithoutVerbose | src/rcrawl.rs:147-151 | without `verbose`, no diagnostic is ever written, whatever is listed |
| Traversal.Start | src/rcrawl.rs:82-86 | the initial queue, the root alone at depth 0, is the queue at the start of level 0, with nothing listed |
| Traversal.NextPosition | src/rcrawl.rs:114-120 | the front of a non-empty queue is the next node of the current level, or the first node of the next level once the current level is done; the queue and the listed directories are unchanged |
| Traversal.PopFront | src/rcrawl.rs:120-134 | the popped front is node `i` of level `d`, at depth `d`. The rest of the queue plus that node's children is the queue after `i + 1` nodes. |
| Traversal.EntryStep | src/rcrawl.rs:126-145 | one entry extends the pushed nodes by its own child, if any, and the printed matches by its own match while room is left. An entry that is pushed means its directory pushes something. |
| Traversal.ListingStep | src/rcrawl.rs:123-151 | listing node `i` of level `d` appends it to the listed directories, its matches (cut at the cap) to the printed paths, and its diagnostic to the diagnostics |
| Traversal.PoppedNode | src/rcrawl.rs:133 | a popped node has its level's depth and lies below the root. Under `NoDepthOverflow`, a listed node either has depth below 255 or pushes nothing, so `depth + 1` fits a `u8`. |
| Traversal.QueueDrained | src/rcrawl.rs:114 | an empty queue means every level up to `maxDepth` has been listed |
| Traversal.BelowCapSnoc | src/rcrawl.rs:114-120 | a node popped while the matches so far are below the cap is listed below the cap |
| Traversal.BelowCapEvery | src/rcrawl.rs:114 | if the last listed node was started below the cap, so was every listed node, since the matches found only grow |
| Traversal.CapFixesListing | src/rcrawl.rs:114 | two prefixes of one order, each listed below the cap and each either the whole order or filling the cap, are the same: what is listed is fixed by the cap |
| Traversal.WorkerOutcome | src/rcrawl.rs:114-153 | when the loop ends, the listed directories are a prefix of `Bfs`, and all of it if the cap was not reached. The printed paths are the first `maxItems` matches of `Bfs`. |
| Rcrawl.ConcurrentFileSearch.constructor | src/rcrawl.rs:81-88 | keeps every setting. The queue holds exactly one node: the root at depth 0. |
| Rcrawl.ConcurrentFileSearch.Search | src/rcrawl.rs:92-160 | builds the printer and the match expression. With no thread nothing happens. Otherwise it lists a prefix of `Bfs`, every directory of it started below the cap, all of it unless the cap was reached, and the listed ones already yield the printed matches. It prints at most `maxItems` lines: the `print_path` lines of the first `maxItems` matches of `Bfs`. Diagnostics are those of the listed directories. |
| Rcrawl.ConcurrentFileSearch.Worker | src/rcrawl.rs:113-154 | the loop: the counter always equals the number of printed lines and is at most `maxItems`. The lines print the first `maxItems` matches of `Bfs`. The listed directories are a prefix of `Bfs`, each started with the counter below `maxItems`, all of `Bfs` if the counter stayed below the cap, and their matches already fill what was printed; with `CapFixesListing` this fixes which directories are listed. Diagnostics are those of the listed directories. |
| Rcrawl.ConcurrentFileSearch.Finished | src/rcrawl.rs:114-153 | at any exit of the loop (cap reached, queue empty, or past `maxDepth`) the record gives `Worker`'s outcome |
| Rcrawl.ConcurrentFileSearch.ListNext | src/rcrawl.rs:115-152 | one turn, entered with the counter below the cap: pop the front, then stop iff it is deeper than `maxDepth`. On stop the node is only consumed: nothing is listed, printed, counted or diagnosed, and the worker is at level `maxDepth + 1`. Otherwise the node is appended to the listed directories, its children to the queue, which is the next reference queue, and the position strictly advances. The printed paths, the counter, the output and the diagnostics track the listed directories. |
| Rcrawl.ConcurrentFileSearch.PopNode | src/rcrawl.rs:115-121 | the pop takes the queue's front, the next node of the breadth-first order, and removes only it |
| Rcrawl.ConcurrentFileSearch.ListPopped | src/rcrawl.rs:123-152 | listing the popped node pushes exactly its children at the back, appends it to the listed directories, extends the printed paths by its matches up to the cap, and extends the diagnostics by its own |
| Rcrawl.ConcurrentFileSearch.TrackedListing | src/rcrawl.rs:123-152 | a node listed below the cap adds itself to the listed directories, its capped matches and their lines to the output, and its diagnostic to the diagnostics |
| Rcrawl.ConcurrentFileSearch.ExpandNode | src/rcrawl.rs:123-152 | pushes exactly the node's filtered children at the back, prints its matches up to the remaining room, and raises the counter once per printed line. A listing error changes nothing but the diagnostics. |
| Rcrawl.ConcurrentFileSearch.VisitEntries | src/rcrawl.rs:125-146 | the `for` loop over a listing: the pushed nodes and the printed paths are those of all entries in order, the latter cut at the remaining room |
| Rcrawl.ConcurrentFileSearch.VisitEntry | src/rcrawl.rs:127-144 | one entry: pushed (one level deeper) iff the filter admits it. Printed and counted iff it matches and the counter is below `maxItems`, a decision the filter does not affect. |

## Left out

- Threads. `thread::spawn`, `join`, `Arc`/`Mutex` and the spawning loop (src/rcrawl.rs:105-159)
  are not modelled. With `num_threads > 0` one worker does all the work. Each lock in the source
  guards one queue or counter operation, so a single worker sees the same per-operation
  behaviour. Interleavings of several workers are not modelled.
- Search: its contract describes the run of one worker. With several workers the order of
  output lines, and which worker lists what, are not modelled.
- Worker: the layered shape of the queue (depths nondecreasing, spanning two values) is not
  among its ensures. It is `Traversal.QueueLayered`, about `QueueAt(d, i)`, which the loop
  invariant equates with the queue.
- The second emptiness test inside the loop (src/rcrawl.rs:117-119) is not modelled. It cannot
  fire for a single worker, because the loop condition has just checked the queue.
- `run` (src/rcrawl.rs:163-167) and `std::fs::canonicalize` are not modelled: they depend on the
  real file system. The root is taken as given.
- `std::fs::read_dir` is a lookup in a map from path to listing. An entry is known by its name;
  its path is `Join(parent, name)`.
- Per-entry errors and the `unwrap` panics are not modelled: `entry.unwrap()`, and the
  `to_str().unwrap()` calls on non-UTF-8 names (src/rcrawl.rs:127-129, 139; src/utils.rs:17).
  Names are byte strings. `PathPrinter::new`'s `unwrap_or_default` on a non-UTF-8 root is not
  modelled either.
- PrintPath: paths are byte strings, so the panic of `&str[n..]` when byte `n` is not on a
  UTF-8 character boundary (src/utils.rs:17) is not modelled. The worker never meets it, since
  every printed path extends the root (`Traversal.LevelUnderRoot`, `Fs.JoinShape`) and the cut
  is at the root's length.
- The regex engine is an uninterpreted parameter `isMatch(pattern, name)`, and `Regex::new` is
  assumed to succeed.
- Output. `println!` appends a line to the output sequence. `eprintln!` appends the denied path
  to the diagnostic sequence; its message text is not modelled.
- Depth overflow. The `u8` overflow of `current.depth + 1` (a panic in debug builds) is excluded
  by the precondition `NoDepthOverflow`; that behaviour is not modelled.
- src/main.rs (the clap definitions, `u8_validator`/`u32_validator` and the error print) is not
  part of this model. `ArgMatches` holds the option values already parsed.
