/**
 * Configuration values: the matcher rules of a feed and the small parsers that
 * turn environment strings into a port, a list of certificate bundle paths and
 * task switches.
 */
module Config {
  import opened Wrappers
  import opened Ints
  import opened Strings

  /** One rule of a feed, exactly one of the three kinds the rule file can name. */
  datatype Matcher =
    | Equal(path: string, value: string)
    | Prefix(path: string, value: string)
    | Sequence(path: string, values: seq<string>)

  /** A feed as the rule file describes it. */
  datatype Feed = Feed(uri: string, name: string, description: string,
                       allow: set<string>, deny: string, matchers: seq<Matcher>)

  datatype Feeds = Feeds(feeds: seq<Feed>)

  /** The path text of a rule, whatever its kind. */
  function PathOf(m: Matcher): string {
    match m
    case Equal(p, _) => p
    case Prefix(p, _) => p
    case Sequence(p, _) => p
  }

  /**
   * The HTTP port: the empty string means 80; anything else must be a `u16` as
   * Rust parses it.
   */
  function ParseHttpPort(value: string): (r: Result<u16, string>)
    ensures value == "" ==> r == Success(80)
    ensures value != "" ==> (r.Success? <==> ParseUnsigned(value, TWO_16).Some?)
    ensures value != "" && r.Success? ==> r.value == ParseUnsigned(value, TWO_16).value
  {
    if value == [] then Success(80)
    else
      match ParseUnsigned(value, TWO_16)
      case Some(port) => Success(port)
      case None => Failure("parsing PORT into u16 failed")
  }

  /** Every port number is accepted in its decimal spelling, and nothing past 65535. */
  lemma {:induction false} HttpPortRoundTrip(n: nat)
    ensures ParseHttpPort(NatToString(n)) == (if n < TWO_16 then Success(n) else Failure("parsing PORT into u16 failed"))
  {
    ParseFormat(n, TWO_16);
  }

  /** The non-empty `;`-separated pieces of `value`, in order. */
  function NonEmpty(parts: seq<string>): (r: seq<string>)
    ensures forall i :: 0 <= i < |r| ==> r[i] != [] && r[i] in parts
    ensures forall p :: p in r <==> p in parts && p != []
    ensures |r| <= |parts|
  {
    if parts == [] then []
    else if parts[0] == [] then NonEmpty(parts[1..])
    else [parts[0]] + NonEmpty(parts[1..])
  }

  /** The certificate bundle list: split on `;`, drop empty pieces, keep order; never fails. */
  function ParseCertificateBundles(value: string): (r: seq<string>)
    ensures forall i :: 0 <= i < |r| ==> r[i] != [] && ';' !in r[i]
    ensures forall p :: p in r <==> p in Split(value, ';') && p != []
  {
    NonEmpty(Split(value, ';'))
  }

  /** Dropping empty pieces keeps the order: it works piece by piece. */
  lemma {:induction false} NonEmptyConcat(a: seq<string>, b: seq<string>)
    ensures NonEmpty(a + b) == NonEmpty(a) + NonEmpty(b)
    decreases |a|
  {
    if a != [] {
      assert (a + b)[0] == a[0];
      assert (a + b)[1..] == a[1..] + b;
      NonEmptyConcat(a[1..], b);
    } else {
      assert a + b == b;
    }
  }

  /** A value without `;` names one bundle, or none when it is empty. */
  lemma CertificateBundlesOfPiece(a: string)
    requires ';' !in a
    ensures ParseCertificateBundles(a) == (if a == [] then [] else [a])
  {
    SplitOfJoin([a], ';');
    assert Join([a], ';') == a;
    assert [a][1..] == [];
  }

  /**
   * The bundles of `a;b` are the bundles of `a` followed by those of `b`;
   * with the case above this fixes the list for every value, in order.
   */
  lemma CertificateBundlesConcat(a: string, b: string)
    ensures ParseCertificateBundles(a + ";" + b) == ParseCertificateBundles(a) + ParseCertificateBundles(b)
  {
    SplitConcat(a, b, ';');
    assert a + ";" + b == a + [';'] + b;
    NonEmptyConcat(Split(a, ';'), Split(b, ';'));
  }

  /** A list of non-empty, `;`-free paths survives joining with `;` and parsing. */
  lemma {:induction false} CertificateBundlesRoundTrip(paths: seq<string>)
    requires |paths| >= 1 && NoneContains(paths, ';')
    requires forall i :: 0 <= i < |paths| ==> paths[i] != []
    ensures ParseCertificateBundles(Join(paths, ';')) == paths
  {
    SplitOfJoin(paths, ';');
    NonEmptyKeeps(paths);
  }

  lemma {:induction false} NonEmptyKeeps(parts: seq<string>)
    requires forall i :: 0 <= i < |parts| ==> parts[i] != []
    ensures NonEmpty(parts) == parts
  {
    if parts != [] {
      NonEmptyKeeps(parts[1..]);
    }
  }

  /** Empty pieces, including those of the empty string, contribute nothing. */
  lemma {:induction false} CertificateBundlesSkipEmpty(a: string, b: string)
    requires a != [] && b != [] && ';' !in a && ';' !in b
    ensures ParseCertificateBundles(";" + a + ";;" + b + ";") == [a, b]
  {
    var parts := ["", a, "", b, ""];
    assert Join(parts[4..], ';') == "" by { assert parts[4..] == [""]; }
    assert Join(parts[3..], ';') == b + ";" by { assert parts[3..][1..] == parts[4..]; }
    assert Join(parts[2..], ';') == ";" + b + ";" by { assert parts[2..][1..] == parts[3..]; }
    assert Join(parts[1..], ';') == a + ";;" + b + ";" by { assert parts[1..][1..] == parts[2..]; }
    assert Join(parts, ';') == ";" + a + ";;" + b + ";";
    SplitOfJoin(parts, ';');
    assert NonEmpty(parts[4..]) == [] by { assert parts[4..][1..] == []; }
    assert NonEmpty(parts[3..]) == [b] by { assert parts[3..][1..] == parts[4..]; }
    assert NonEmpty(parts[2..]) == [b] by { assert parts[2..][1..] == parts[3..]; }
    assert NonEmpty(parts[1..]) == [a, b] by { assert parts[1..][1..] == parts[2..]; }
  }

  /** A task switch: exactly `true` or `false`, as Rust's `bool` parser accepts them. */
  function ParseTaskEnable(value: string): (r: Result<bool, string>)
    ensures r.Success? <==> value == "true" || value == "false"
    ensures r.Success? ==> (r.value <==> value == "true")
  {
    if value == "true" then Success(true)
    else if value == "false" then Success(false)
    else Failure("parsing task enable into bool failed")
  }

  /** `default_env`: the variable's value when it is set, the default otherwise. */
  function DefaultEnv(env: map<string, string>, name: string, default: string): (r: string)
    ensures name in env ==> r == env[name]
    ensures name !in env ==> r == default
  {
    if name in env then env[name] else default
  }
}
