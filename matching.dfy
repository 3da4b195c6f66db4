/** The two per-entry tests of the worker loop in src/rcrawl.rs: which entries are searched
    further (the hidden/"Library" filter) and which are reported (the match expression). */
module Matching {
  import opened Prim

  /** `MatchExpr`: a literal file name, or a regular expression kept as its source text. */
  datatype MatchExpr = Literal(name: Bytes) | Regex(pattern: Bytes)

  /** The user pattern with `^` put before it and `$` after it. The regex itself is not
      interpreted, so this anchors the whole name only when the pattern has no top-level
      alternation (`^a|b$` also matches `xb`). */
  function AnchoredPattern(expr: Bytes): (p: Bytes)
    ensures |p| == |expr| + 2
    ensures p[0] == Caret && p[|p| - 1] == Dollar
    ensures p[1..|p| - 1] == expr
  {
    var s := [Caret];
    var s := s + expr;
    s + [Dollar]
  }

  /** The match expression `search` builds before spawning workers. */
  function BuildMatchExpr(regex: bool, expr: Bytes): (m: MatchExpr)
    ensures m.Regex? <==> regex
    ensures !regex ==> m.name == expr
    ensures regex ==> m.pattern == AnchoredPattern(expr)
  {
    if regex then Regex(AnchoredPattern(expr)) else Literal(expr)
  }

  /** Whether an entry name is reported. `isMatch(pattern, text)` stands for the regex
      engine's `Regex::new(pattern).is_match(text)`. */
  function IsMatch(m: MatchExpr, isMatch: (Bytes, Bytes) -> bool, name: Bytes): (b: bool)
    ensures m.Literal? ==> (b <==> name == m.name)
    ensures m.Regex? ==> b == isMatch(m.pattern, name)
  {
    match m
    case Literal(s) => s == name
    case Regex(r) => isMatch(r, name)
  }

  /** In literal mode an entry matches exactly when its name is the query, byte for byte. */
  lemma LiteralMatchIff(expr: Bytes, isMatch: (Bytes, Bytes) -> bool, name: Bytes)
    ensures IsMatch(BuildMatchExpr(false, expr), isMatch, name) <==> name == expr
  {
  }

  /** In regex mode the engine is always asked about the anchored form of the query. */
  lemma RegexMatchAnchored(expr: Bytes, isMatch: (Bytes, Bytes) -> bool, name: Bytes)
    ensures IsMatch(BuildMatchExpr(true, expr), isMatch, name) == isMatch([Caret] + expr + [Dollar], name)
  {
  }

  /** Whether an entry is pushed onto the queue: always with `all`, otherwise only when its
      name neither starts with "." nor is "Library". */
  predicate Enqueues(all: bool, name: Bytes)
    ensures all ==> Enqueues(all, name)
    ensures !all && |name| > 0 && name[0] == Dot ==> !Enqueues(all, name)
    ensures !all && name == Library ==> !Enqueues(all, name)
    ensures !all && (|name| == 0 || name[0] != Dot) && name != Library ==> Enqueues(all, name)
  {
    all || (!([Dot] <= name) && name != Library)
  }
}
