/**
 * The rule matcher: the three kinds of rule compiled from the rule file, what
 * each says about the string leaves its path selects from an event, and the
 * per-feed "any rule matches" decision.
 *
 * The JSONPath library is not modelled: a `PathEngine` supplies whether a path
 * text parses and the (possibly empty) list of values a parsed path selects.
 */
module Matchers {
  import opened Wrappers
  import opened Strings
  import opened Json
  import Config

  /** The JSONPath capability the matchers are built on. */
  datatype PathEngine = PathEngine(parses: string -> bool, query: (string, Json) -> seq<Json>)

  /** A compiled rule; its path text is one the engine parses. */
  datatype Matcher =
    | EqualsMatcher(expected: string, path: string)
    | PrefixMatcher(prefix: string, path: string)
    | SequenceMatcher(values: seq<string>, path: string)

  /** The compiled rules of one feed, in rule-file order. */
  datatype FeedMatcher = FeedMatcher(feed: string, matchers: seq<Matcher>)

  // ------------------------------------------------------------ leaves

  /**
   * The lower-cased text of every string among the selected values, in order;
   * values that are not strings are dropped.
   */
  function StringLeaves(nodes: seq<Json>): (leaves: seq<string>)
    ensures |leaves| <= |nodes|
    ensures forall s :: s in leaves <==>
      exists i :: 0 <= i < |nodes| && nodes[i].Str? && Lower(nodes[i].s) == s
  {
    if nodes == [] then []
    else
      var rest := StringLeaves(nodes[1..]);
      assert forall i :: 0 < i < |nodes| ==> nodes[i] == nodes[1..][i - 1];
      if nodes[0].Str? then [Lower(nodes[0].s)] + rest else rest
  }

  // ------------------------------------------------------------ the three kinds

  /**
   * Equals: some selected string, lower-cased, is exactly `expected`.  Only the
   * selected text is lower-cased, never `expected`.
   */
  function EqualsMatches(expected: string, nodes: seq<Json>): (r: bool)
    ensures r <==> exists i :: 0 <= i < |nodes| && nodes[i].Str? && Lower(nodes[i].s) == expected
  {
    expected in StringLeaves(nodes)
  }

  /** Prefix: some selected string, lower-cased, starts with `prefix`. */
  function PrefixMatches(prefix: string, nodes: seq<Json>): (r: bool)
    ensures r <==> exists i :: 0 <= i < |nodes| && nodes[i].Str? && IsPrefix(prefix, Lower(nodes[i].s))
  {
    var leaves := StringLeaves(nodes);
    assert forall i :: 0 <= i < |nodes| && nodes[i].Str? ==> Lower(nodes[i].s) in leaves;
    exists leaf :: leaf in leaves && IsPrefix(prefix, leaf)
  }

  /**
   * Sequence, for one leaf: the list is non-empty, every value occurs in the
   * leaf, and the first occurrence of each starts strictly after the first
   * occurrence of the one before it.  Gaps are allowed.
   */
  predicate SequenceAccepts(leaf: string, expected: seq<string>) {
    && |expected| > 0
    && (forall k :: 0 <= k < |expected| ==> Find(leaf, expected[k]).Some?)
    && (forall k :: 0 < k < |expected| ==> Find(leaf, expected[k - 1]).value < Find(leaf, expected[k]).value)
  }

  /**
   * The sequence matcher's scan of one leaf: walk the expected values keeping
   * the start of the last one found (-1 before the first); stop at the first
   * value that is missing or does not start later.
   */
  method ScanLeaf(leaf: string, expected: seq<string>) returns (r: bool)
    ensures r == SequenceAccepts(leaf, expected)
  {
    var lastFound: int := -1;
    var foundIndex := 0;
    for index := 0 to |expected|
      invariant index == 0 ==> lastFound == -1
      invariant index > 0 ==> foundIndex == index - 1 && Find(leaf, expected[index - 1]).Some?
      invariant index > 0 ==> lastFound == Find(leaf, expected[index - 1]).value
      invariant forall k :: 0 <= k < index ==> Find(leaf, expected[k]).Some?
      invariant forall k :: 0 < k < index ==> Find(leaf, expected[k - 1]).value < Find(leaf, expected[k]).value
    {
      var currentFound := Find(leaf, expected[index]);
      if currentFound.Some? && currentFound.value > lastFound {
        lastFound := currentFound.value;
        foundIndex := index;
      } else {
        return false;
      }
    }
    return lastFound != -1 && foundIndex == |expected| - 1;
  }

  /** `SequenceMatcher::matches`: some selected string leaf passes the scan. */
  method SequenceMatches(expected: seq<string>, nodes: seq<Json>) returns (r: bool)
    ensures r <==> exists i :: 0 <= i < |nodes| && nodes[i].Str? && SequenceAccepts(Lower(nodes[i].s), expected)
    ensures |expected| == 0 ==> !r
  {
    var stringNodes := StringLeaves(nodes);
    for j := 0 to |stringNodes|
      invariant forall i :: 0 <= i < j ==> !SequenceAccepts(stringNodes[i], expected)
    {
      var accepted := ScanLeaf(stringNodes[j], expected);
      if accepted {
        assert stringNodes[j] in stringNodes;
        return true;
      }
    }
    assert forall i :: 0 <= i < |nodes| && nodes[i].Str? ==> Lower(nodes[i].s) in stringNodes;
    return false;
  }

  // ------------------------------------------------------------ one rule, one feed

  /** What a compiled rule says about an event. */
  predicate Holds(engine: PathEngine, m: Matcher, value: Json) {
    var nodes := engine.query(m.path, value);
    match m
    case EqualsMatcher(expected, _) => EqualsMatches(expected, nodes)
    case PrefixMatcher(prefix, _) => PrefixMatches(prefix, nodes)
    case SequenceMatcher(expected, _) =>
      exists i :: 0 <= i < |nodes| && nodes[i].Str? && SequenceAccepts(Lower(nodes[i].s), expected)
  }

  /** Evaluates one rule against an event. */
  method MatcherMatches(engine: PathEngine, m: Matcher, value: Json) returns (r: bool)
    ensures r == Holds(engine, m, value)
  {
    var nodes := engine.query(m.path, value);
    match m
    case EqualsMatcher(expected, _) => r := EqualsMatches(expected, nodes);
    case PrefixMatcher(prefix, _) => r := PrefixMatches(prefix, nodes);
    case SequenceMatcher(expected, _) => r := SequenceMatches(expected, nodes);
  }

  /** A feed matches an event when any of its rules does. */
  predicate FeedMatches(engine: PathEngine, f: FeedMatcher, value: Json) {
    exists k :: 0 <= k < |f.matchers| && Holds(engine, f.matchers[k], value)
  }

  /** `FeedMatcher::matches`: the rules in order, stopping at the first that holds. */
  method FeedMatcherMatches(engine: PathEngine, f: FeedMatcher, value: Json) returns (r: bool)
    ensures r == FeedMatches(engine, f, value)
    ensures |f.matchers| == 0 ==> !r
  {
    for k := 0 to |f.matchers|
      invariant forall i :: 0 <= i < k ==> !Holds(engine, f.matchers[i], value)
    {
      var holds := MatcherMatches(engine, f.matchers[k], value);
      if holds {
        return true;
      }
    }
    return false;
  }

  // ------------------------------------------------------------ lemmas

  /** An expected value holding an upper-case letter never equals a lower-cased leaf. */
  lemma {:induction false} EqualsUpperNeverMatches(expected: string, nodes: seq<Json>, k: nat)
    requires k < |expected| && IsUpper(expected[k])
    ensures !EqualsMatches(expected, nodes)
  {
  }

  /** When the path selects no string at all (or nothing), no rule holds. */
  lemma {:induction false} NoStringNoMatch(engine: PathEngine, m: Matcher, value: Json)
    requires forall node :: node in engine.query(m.path, value) ==> !node.Str?
    ensures !Holds(engine, m, value)
  {
    var nodes := engine.query(m.path, value);
    assert forall i :: 0 <= i < |nodes| ==> nodes[i] in nodes;
  }

  /** A value that does not occur in the leaf rejects it, whatever else is in the list. */
  lemma {:induction false} MissingValueRejects(leaf: string, expected: seq<string>, k: nat)
    requires k < |expected| && Find(leaf, expected[k]).None?
    ensures !SequenceAccepts(leaf, expected)
  {
  }

  /** Acceptance is strict ordering of first occurrences: swapping two values with distinct first occurrences flips it. */
  lemma {:induction false} SequenceOrderMatters(leaf: string, a: string, b: string)
    requires SequenceAccepts(leaf, [a, b])
    ensures !SequenceAccepts(leaf, [b, a])
  {
    assert [a, b][0] == a && [a, b][1] == b;
    assert [b, a][0] == b && [b, a][1] == a;
  }

  // ------------------------------------------------------------ compiling the rule file

  /** The compiled rule keeps the configured kind, path and values. */
  predicate SameRule(cm: Config.Matcher, m: Matcher) {
    match cm
    case Equal(p, v) => m == EqualsMatcher(v, p)
    case Prefix(p, v) => m == PrefixMatcher(v, p)
    case Sequence(p, vs) => m == SequenceMatcher(vs, p)
  }

  /**
   * The `new` constructors of the three matchers: the path must parse;
   * otherwise the rule fails with "cannot parse path".
   */
  function New(engine: PathEngine, cm: Config.Matcher): (r: Result<Matcher, string>)
    ensures r.Success? <==> engine.parses(Config.PathOf(cm))
    ensures r.Success? ==> SameRule(cm, r.value)
    ensures r.Failure? ==> r.error == "cannot parse path"
  {
    if !engine.parses(Config.PathOf(cm)) then Failure("cannot parse path")
    else
      match cm
      case Equal(p, v) => Success(EqualsMatcher(v, p))
      case Prefix(p, v) => Success(PrefixMatcher(v, p))
      case Sequence(p, vs) => Success(SequenceMatcher(vs, p))
  }

  /** Every path of every rule of every feed parses. */
  predicate AllPathsParse(engine: PathEngine, feeds: seq<Config.Feed>) {
    forall i, j :: 0 <= i < |feeds| && 0 <= j < |feeds[i].matchers| ==>
      engine.parses(Config.PathOf(feeds[i].matchers[j]))
  }

  /** One feed matcher per feed, in order, holding that feed's rules compiled in order. */
  predicate Compiled(engine: PathEngine, feeds: seq<Config.Feed>, fms: seq<FeedMatcher>) {
    && |fms| == |feeds|
    && forall i :: 0 <= i < |feeds| ==>
         && fms[i].feed == feeds[i].uri
         && |fms[i].matchers| == |feeds[i].matchers|
         && forall j :: 0 <= j < |feeds[i].matchers| ==>
              New(engine, feeds[i].matchers[j]) == Success(fms[i].matchers[j])
  }

  /** `FeedMatchers::from_config`: any path that does not parse fails the whole construction. */
  method FromConfig(engine: PathEngine, configFeeds: Config.Feeds) returns (r: Result<seq<FeedMatcher>, string>)
    ensures r.Success? <==> AllPathsParse(engine, configFeeds.feeds)
    ensures r.Success? ==> Compiled(engine, configFeeds.feeds, r.value)
  {
    var feeds := configFeeds.feeds;
    var feedMatchers: seq<FeedMatcher> := [];
    for i := 0 to |feeds|
      invariant AllPathsParse(engine, feeds[..i])
      invariant Compiled(engine, feeds[..i], feedMatchers)
    {
      var feed := feeds[i].uri;
      var matchers: seq<Matcher> := [];
      for j := 0 to |feeds[i].matchers|
        invariant |matchers| == j
        invariant forall k :: 0 <= k < j ==> New(engine, feeds[i].matchers[k]) == Success(matchers[k])
      {
        var m := New(engine, feeds[i].matchers[j]);
        if m.Failure? {
          return Failure(m.error);
        }
        matchers := matchers + [m.value];
      }
      feedMatchers := feedMatchers + [FeedMatcher(feed, matchers)];
      assert feeds[..i + 1] == feeds[..i] + [feeds[i]];
    }
    assert feeds[..|feeds|] == feeds;
    return Success(feedMatchers);
  }
}
