/** `Config::from_arg_matches` of src/rcrawl.rs: the run's settings with their defaults. */
module RcrawlConfig {
  import opened Prim

  const DefaultMaxDepth: u8 := 255
  const DefaultMaxItems: u32 := U32Max
  const DefaultNumThreads: u8 := 16

  /** What the command line holds once clap has checked it: `is_present` flags and the
      `value_of` options, already parsed (the validators guarantee the parse succeeds). */
  datatype ArgMatches = ArgMatches(
    single: bool,
    relative: bool,
    regex: bool,
    verbose: bool,
    all: bool,
    maxDepth: Option<u8>,
    maxItems: Option<u32>,
    threads: Option<u8>,
    filename: Option<Bytes>,
    rootDirectory: Option<Bytes>)

  datatype Config = Config(
    verbose: bool,
    relative: bool,
    all: bool,
    maxItems: u32,
    maxDepth: u8,
    rootDir: Bytes,
    matchExpr: Bytes,
    regex: bool,
    numThreads: u8)

  /** An option's value when it was given, the default otherwise. */
  function ValueOr<T>(o: Option<T>, default: T): (v: T)
    ensures o.Some? ==> v == o.value
    ensures o.None? ==> v == default
  {
    match o
    case Some(x) => x
    case None => default
  }

  function FromArgMatches(a: ArgMatches): (c: Config)
    // --single wins over --max_items
    ensures a.single ==> c.maxItems == 1
    ensures !a.single && a.maxItems.Some? ==> c.maxItems == a.maxItems.value
    ensures !a.single && a.maxItems.None? ==> c.maxItems == U32Max
    ensures a.maxDepth.Some? ==> c.maxDepth == a.maxDepth.value
    ensures a.maxDepth.None? ==> c.maxDepth == 255
    ensures a.threads.Some? ==> c.numThreads == a.threads.value
    ensures a.threads.None? ==> c.numThreads == 16
    // absent strings become the empty string (`unwrap_or_default`)
    ensures c.matchExpr == (if a.filename.Some? then a.filename.value else [])
    ensures c.rootDir == (if a.rootDirectory.Some? then a.rootDirectory.value else [])
    ensures c.relative == a.relative && c.regex == a.regex
    ensures c.verbose == a.verbose && c.all == a.all
  {
    var maxDepth := ValueOr(a.maxDepth, DefaultMaxDepth);
    var matchExpr := ValueOr(a.filename, []);
    var rootDir := ValueOr(a.rootDirectory, []);
    var maxItems := if a.single then 1 else ValueOr(a.maxItems, DefaultMaxItems);
    var numThreads := ValueOr(a.threads, DefaultNumThreads);
    Config(a.verbose, a.relative, a.all, maxItems, maxDepth, rootDir, matchExpr, a.regex, numThreads)
  }
}
