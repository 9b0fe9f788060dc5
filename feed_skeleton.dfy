/**
 * `app.bsky.feed.getFeedSkeleton`: the service-token checks (a JWS in compact
 * serialization, section 7.1 of RFC 7515, with ES256K as section 3 of RFC 8812
 * names it and the registered claims of section 4.1 of RFC 7519), the
 * `"{time_us},{cid}"` page cursor, and the allow/deny/unknown-feed decision.
 *
 * base64url decoding and JSON parsing of the token segments are not modelled:
 * a `TokenCodec` supplies them.  The wall clock is a parameter.
 */
module FeedSkeleton {
  import opened Wrappers
  import opened Ints
  import opened Strings
  import opened Storage
  import opened Crypto

  // ------------------------------------------------------------ the token

  /** Why a token is refused. */
  datatype AuthError =
    | MissingAuthorization
    | MissingClaims
    | MissingSignature
    | InvalidToken
    | BadHeader
    | BadClaims
    | UnsupportedAlgorithm
    | InvalidResource
    | InvalidAudience
    | TokenExpired
    | IssuedInFuture
    | VerificationMethodNotFound
    | InvalidSignature
    | Invalid(error: CryptoError)

  /**
   * `split_token`: exactly three `.`-separated segments, in order.  `split`
   * always yields a first segment, so a missing header cannot happen.
   */
  function SplitToken(token: string): (r: Result<(string, string, string), AuthError>)
    ensures r.Success? <==> |Split(token, '.')| == 3
    ensures r.Success? ==> r.value == (Split(token, '.')[0], Split(token, '.')[1], Split(token, '.')[2])
    ensures r.Success? ==> token == r.value.0 + "." + r.value.1 + "." + r.value.2
    ensures r.Success? ==> '.' !in r.value.0 && '.' !in r.value.1 && '.' !in r.value.2
  {
    var parts := Split(token, '.');
    if |parts| < 2 then Failure(MissingClaims)
    else if |parts| < 3 then Failure(MissingSignature)
    else if |parts| > 3 then Failure(InvalidToken)
    else
      assert parts[1..][1..] == [parts[2]];
      Success((parts[0], parts[1], parts[2]))
  }

  /** Three segments without a `.` are split back out of the token they make. */
  lemma {:induction false} SplitTokenOfSegments(header: string, claims: string, signature: string)
    requires '.' !in header && '.' !in claims && '.' !in signature
    ensures SplitToken(header + "." + claims + "." + signature) == Success((header, claims, signature))
  {
    var parts := [header, claims, signature];
    assert parts[1..] == [claims, signature];
    assert parts[1..][1..] == [signature];
    assert Join([signature], '.') == signature;
    assert Join([claims, signature], '.') == claims + "." + signature;
    assert Join(parts, '.') == header + "." + (claims + "." + signature);
    assert header + "." + (claims + "." + signature) == header + "." + claims + "." + signature;
    SplitOfJoin(parts, '.');
  }

  const BEARER: string := "Bearer "

  /** `strip_prefix("Bearer ")` on the Authorization header, when there is one. */
  function BearerToken(authorization: Option<string>): (r: Option<string>)
    ensures r.Some? <==> authorization.Some? && IsPrefix(BEARER, authorization.value)
    ensures r.Some? ==> authorization.value == BEARER + r.value
  {
    if authorization.Some? && IsPrefix(BEARER, authorization.value) then
      assert authorization.value == BEARER + authorization.value[|BEARER|..];
      Some(authorization.value[|BEARER|..])
    else None
  }

  /** `timestamp() as i32`: the seconds since the epoch, truncated to 32 bits two's complement. */
  function WrapI32(t: int): (r: i32)
    ensures (r - t) % TWO_32 == 0
    ensures -0x8000_0000 <= t < 0x8000_0000 ==> r == t
  {
    var m := (t + 0x8000_0000) % TWO_32;
    m - 0x8000_0000
  }

  const LXM: string := "app.bsky.feed.getFeedSkeleton"

  /**
   * The header and claim checks, in the source's order: the algorithm, the
   * lexicon method, the audience, then expiry and issue time against `now`
   * with strict comparisons.
   */
  function ClaimsCheck(header: JwtHeader, claims: JwtClaims, externalBase: string, now: i32): (r: Outcome<AuthError>)
    ensures r.Pass? <==>
      && header.alg == "ES256K"
      && claims.lxm == LXM
      && claims.aud == "did:web:" + externalBase
      && claims.exp >= now
      && claims.iat <= now
    ensures header.alg != "ES256K" ==> r == Fail(UnsupportedAlgorithm)
  {
    if header.alg != "ES256K" then Fail(UnsupportedAlgorithm)
    else if claims.lxm != LXM then Fail(InvalidResource)
    else if claims.aud != "did:web:" + externalBase then Fail(InvalidAudience)
    else if claims.exp < now then Fail(TokenExpired)
    else if claims.iat > now then Fail(IssuedInFuture)
    else Pass
  }

  /** base64url decoding plus JSON parsing of the header and claims, and decoding of the signature. */
  datatype TokenCodec = TokenCodec(
    header: string -> Option<JwtHeader>,
    claims: string -> Option<JwtClaims>,
    signature: string -> Option<seq<byte>>)

  /**
   * `did_from_jwt`: the issuer of a bearer token that passes every check and
   * whose signature over `header.claims` verifies with the issuer's cached key.
   */
  function DidFromJwt(codec: TokenCodec, verifier: Verifier, cache: map<string, CacheEntry>,
                      externalBase: string, authorization: Option<string>, clock: int): (r: Result<string, AuthError>)
    ensures authorization.None? || !IsPrefix(BEARER, authorization.value) ==> r == Failure(MissingAuthorization)
    ensures r.Success? ==> r.value in cache
  {
    match BearerToken(authorization)
    case None => Failure(MissingAuthorization)
    case Some(jwt) =>
      match SplitToken(jwt)
      case Failure(e) => Failure(e)
      case Success((headerPart, claimsPart, signaturePart)) =>
        match codec.header(headerPart)
        case None => Failure(BadHeader)
        case Some(header) =>
          match codec.claims(claimsPart)
          case None => Failure(BadClaims)
          case Some(claims) =>
            match ClaimsCheck(header, claims, externalBase, WrapI32(clock))
            case Fail(e) => Failure(e)
            case Pass =>
              match CachedKey(cache, claims.iss)
              case None => Failure(VerificationMethodNotFound)
              case Some(multibase) =>
                match codec.signature(signaturePart)
                case None => Failure(InvalidSignature)
                case Some(signature) =>
                  match Validate(verifier, multibase, signature, headerPart + "." + claimsPart)
                  case Fail(e) => Failure(Invalid(e))
                  case Pass => Success(claims.iss)
  }

  /** A "Bearer " value that splits into three segments is the prefix followed by the segments joined with dots. */
  lemma {:induction false} SegmentsOfBearer(authorization: Option<string>)
    requires BearerToken(authorization).Some? && SplitToken(BearerToken(authorization).value).Success?
    ensures var segments := SplitToken(BearerToken(authorization).value).value;
      authorization == Some(BEARER + segments.0 + "." + segments.1 + "." + segments.2)
  {
    var jwt := BearerToken(authorization).value;
    var segments := SplitToken(jwt).value;
    assert jwt == segments.0 + "." + segments.1 + "." + segments.2;
    PrefixOfSegments(segments.0, segments.1, segments.2);
  }

  /** Prefixing "Bearer " to the joined segments is prefixing it to the first. */
  lemma PrefixOfSegments(header: string, claims: string, signature: string)
    ensures BEARER + (header + "." + claims + "." + signature) == BEARER + header + "." + claims + "." + signature
  {
  }

  /**
   * An accepted token is a "Bearer " value made of three segments that
   * decode, pass the claim checks and carry a signature over `header.claims`
   * that verifies with the issuer's cached key; the result is that issuer.
   */
  lemma {:induction false} TokenSound(codec: TokenCodec, verifier: Verifier, cache: map<string, CacheEntry>,
                                      externalBase: string, authorization: Option<string>, clock: int)
    requires DidFromJwt(codec, verifier, cache, externalBase, authorization, clock).Success?
    ensures var did := DidFromJwt(codec, verifier, cache, externalBase, authorization, clock).value;
      exists header, claims, signature ::
        && authorization == Some(BEARER + header + "." + claims + "." + signature)
        && codec.header(header).Some? && codec.claims(claims).Some? && codec.signature(signature).Some?
        && did == codec.claims(claims).value.iss
        && ClaimsCheck(codec.header(header).value, codec.claims(claims).value, externalBase, WrapI32(clock)).Pass?
        && did in cache
        && Validate(verifier, cache[did].multikey, codec.signature(signature).value, header + "." + claims).Pass?
  {
    var segments := SplitToken(BearerToken(authorization).value).value;
    var header, claims, signature := segments.0, segments.1, segments.2;
    SegmentsOfBearer(authorization);
    var did := codec.claims(claims).value.iss;
    assert codec.header(header).Some? && codec.claims(claims).Some? && codec.signature(signature).Some?;
    assert ClaimsCheck(codec.header(header).value, codec.claims(claims).value, externalBase, WrapI32(clock)).Pass?;
    assert did in cache;
    assert Validate(verifier, cache[did].multikey, codec.signature(signature).value, header + "." + claims).Pass?;
  }

  /** Conversely, a well-formed bearer token that passes every check is accepted as its issuer. */
  lemma {:induction false} TokenAccepted(codec: TokenCodec, verifier: Verifier, cache: map<string, CacheEntry>,
                                         externalBase: string, header: string, claims: string, signature: string, clock: int)
    requires '.' !in header && '.' !in claims && '.' !in signature
    requires codec.header(header).Some? && codec.claims(claims).Some? && codec.signature(signature).Some?
    requires ClaimsCheck(codec.header(header).value, codec.claims(claims).value, externalBase, WrapI32(clock)).Pass?
    requires codec.claims(claims).value.iss in cache
    requires Validate(verifier, cache[codec.claims(claims).value.iss].multikey, codec.signature(signature).value, header + "." + claims).Pass?
    ensures DidFromJwt(codec, verifier, cache, externalBase, Some(BEARER + header + "." + claims + "." + signature), clock)
         == Success(codec.claims(claims).value.iss)
  {
    var token := header + "." + claims + "." + signature;
    assert BEARER + header + "." + claims + "." + signature == BEARER + token;
    assert (BEARER + token)[..|BEARER|] == BEARER;
    assert (BEARER + token)[|BEARER|..] == token;
    SplitTokenOfSegments(header, claims, signature);
  }

  // ------------------------------------------------------------ the cursor

  /** The cursor handed out for a row: its time in decimal, a comma, its cid. */
  function FormatCursor(c: FeedContent): (s: string)
    ensures var n := |s| - |c.cid| - 1;
      && 1 <= n < |s| && s[n] == ','
      && AllDigits(s[..n]) && DecimalValue(s[..n]) == TimeUs(c)
      && s[n + 1..] == c.cid
  {
    var time := NatToString(TimeUs(c));
    var s := time + "," + c.cid;
    assert s[..|time|] == time && s[|time| + 1..] == c.cid;
    s
  }

  /**
   * `parse_cursor`: exactly two comma-separated parts, the first a u64; the
   * time is split into its two stored halves.
   */
  function ParseCursor(value: Option<string>): (r: Option<Cursor>)
    ensures r.Some? <==> value.Some? && |Split(value.value, ',')| == 2 && ParseUnsigned(Split(value.value, ',')[0], TWO_64).Some?
    ensures r.Some? ==>
      && r.value.timeUs == ParseUnsigned(Split(value.value, ',')[0], TWO_64).value
      && r.value.indexedAt == r.value.timeUs / TWO_32
      && r.value.indexedAtMore == r.value.timeUs % TWO_32
      && r.value.cid == Split(value.value, ',')[1]
  {
    if value.None? then None
    else
      var parts := Split(value.value, ',');
      if |parts| != 2 then None
      else
        match ParseUnsigned(parts[0], TWO_64)
        case None => None
        case Some(t) =>
          var halves := SplitU64(t);
          Some(Cursor(t, halves.0, halves.1, parts[1]))
  }

  /** Decimal digits hold no comma. */
  lemma {:induction false} DigitsHaveNoComma(s: string)
    requires AllDigits(s)
    ensures ',' !in s
  {
    forall i | 0 <= i < |s|
      ensures s[i] != ','
    {
      assert IsDigit(s[i]);
    }
  }

  /** A time and a cid without a comma come back out of the cursor made from them. */
  lemma {:induction false} CursorRoundTrip(t: u64, cid: string)
    requires ',' !in cid
    ensures ParseCursor(Some(NatToString(t) + "," + cid)) == Some(Cursor(t, t / TWO_32, t % TWO_32, cid))
  {
    DigitsHaveNoComma(NatToString(t));
    SplitTwo(NatToString(t), cid, ',');
    ParseFormat(t, TWO_64);
  }

  /** The cursor formatted from a row parses to that row's position in the page order. */
  lemma {:induction false} FormattedCursorParses(c: FeedContent)
    requires ',' !in c.cid
    ensures ParseCursor(Some(FormatCursor(c))) == Some(CursorAt(c))
  {
    CursorRoundTrip(TimeUs(c), c.cid);
  }

  // ------------------------------------------------------------ the handler

  /** What the server keeps for a feed: the deny post and the allowed DIDs. */
  datatype FeedControl = FeedControl(deny: string, allowed: set<string>)

  datatype WebContext = WebContext(externalBase: string, feeds: map<string, FeedControl>)

  datatype FeedParams = FeedParams(feed: Option<string>, limit: Option<u16>, cursor: Option<string>)

  datatype FeedItemsView = FeedItemsView(cursor: Option<string>, feed: seq<string>)

  /**
   * The outcomes: a skeleton, the 400 `UnknownFeed` error, a 500 for a
   * missing `feed` parameter, or a request that ends in a panic.
   */
  datatype Response = Items(view: FeedItemsView) | UnknownFeed | InternalError | Aborted

  /** The skeleton of a page: its URIs in order and, when it is not empty, the cursor of its last row. */
  function PageView(page: seq<FeedContent>): (view: FeedItemsView)
    ensures |view.feed| == |page|
    ensures forall i :: 0 <= i < |page| ==> view.feed[i] == page[i].uri
    ensures view.cursor.Some? <==> |page| > 0
    ensures |page| > 0 ==> view.cursor == Some(FormatCursor(page[|page| - 1]))
  {
    FeedItemsView(if page == [] then None else Some(FormatCursor(page[|page| - 1])),
                  seq(|page|, i requires 0 <= i < |page| => page[i].uri))
  }

  /** The answer to a reader who is not allowed: the deny post alone, without a cursor. */
  function Denied(control: FeedControl): (r: Response)
    ensures r.Items? && r.view.cursor.None? && r.view.feed == [control.deny]
  {
    Items(FeedItemsView(None, [control.deny]))
  }

  /** The page the parameters ask for. */
  function Serve(table: seq<Row>, feed: string, params: FeedParams): (r: Response)
    ensures r.Items?
    ensures |r.view.feed| <= PageLimit(params.limit)
    ensures r.view.cursor.Some? <==> r.view.feed != []
  {
    Items(PageView(Paginate(table, feed, params.limit, ParseCursor(params.cursor))))
  }

  /**
   * A feed with an allow set: a token whose key is shorter than its
   * multicodec prefix ends the request; any other refusal, or an issuer
   * outside the set, gets the deny post; an allowed issuer gets the page.
   */
  function Restricted(context: WebContext, table: seq<Row>, cache: map<string, CacheEntry>,
                      codec: TokenCodec, verifier: Verifier, control: FeedControl, feed: string, params: FeedParams,
                      authorization: Option<string>, clock: int): (r: Response)
    ensures var did := DidFromJwt(codec, verifier, cache, context.externalBase, authorization, clock);
      did.Success? && did.value in control.allowed ==> r == Serve(table, feed, params)
    ensures var did := DidFromJwt(codec, verifier, cache, context.externalBase, authorization, clock);
      (did.Success? && did.value !in control.allowed) || (did.Failure? && did.error != Invalid(ShortKey)) ==> r == Denied(control)
    ensures r == Aborted <==> DidFromJwt(codec, verifier, cache, context.externalBase, authorization, clock) == Failure(Invalid(ShortKey))
    ensures var did := DidFromJwt(codec, verifier, cache, context.externalBase, authorization, clock);
      r.Items? && r.view.feed != [control.deny] ==> did.Success? && did.value in control.allowed
  {
    match DidFromJwt(codec, verifier, cache, context.externalBase, authorization, clock)
    case Failure(Invalid(ShortKey)) => Aborted
    case Failure(_) => Denied(control)
    case Success(did) => if did !in control.allowed then Denied(control) else Serve(table, feed, params)
  }

  /** `handle_get_feed_skeleton`. */
  function HandleGetFeedSkeleton(context: WebContext, table: seq<Row>, cache: map<string, CacheEntry>,
                                 codec: TokenCodec, verifier: Verifier, params: FeedParams,
                                 authorization: Option<string>, clock: int): (r: Response)
    ensures params.feed.None? <==> r == InternalError
    ensures params.feed.Some? && params.feed.value !in context.feeds <==> r == UnknownFeed
  {
    if params.feed.None? then InternalError
    else
      var feed := params.feed.value;
      if feed !in context.feeds then UnknownFeed
      else
        var control := context.feeds[feed];
        if |control.allowed| > 0 then Restricted(context, table, cache, codec, verifier, control, feed, params, authorization, clock)
        else Serve(table, feed, params)
  }

  /** A feed with an empty allow set serves its page whatever the Authorization header and the clock. */
  lemma {:induction false} OpenFeedIgnoresToken(context: WebContext, table: seq<Row>, cache: map<string, CacheEntry>,
                                                codec: TokenCodec, verifier: Verifier, feed: string,
                                                limit: Option<u16>, cursor: Option<string>,
                                                authorization: Option<string>, clock: int)
    requires feed in context.feeds && context.feeds[feed].allowed == {}
    ensures HandleGetFeedSkeleton(context, table, cache, codec, verifier, FeedParams(Some(feed), limit, cursor), authorization, clock)
         == Serve(table, feed, FeedParams(Some(feed), limit, cursor))
  {
  }

  /**
   * A restricted feed answers with the deny post when the token is refused
   * for any reason but a too-short key, or when its issuer is not allowed;
   * it serves the page only to an allowed issuer.
   */
  lemma {:induction false} RestrictedFeedDecision(context: WebContext, table: seq<Row>, cache: map<string, CacheEntry>,
                                                  codec: TokenCodec, verifier: Verifier, params: FeedParams,
                                                  authorization: Option<string>, clock: int)
    requires params.feed.Some? && params.feed.value in context.feeds
    requires context.feeds[params.feed.value].allowed != {}
    ensures var control := context.feeds[params.feed.value];
      var did := DidFromJwt(codec, verifier, cache, context.externalBase, authorization, clock);
      var r := HandleGetFeedSkeleton(context, table, cache, codec, verifier, params, authorization, clock);
      && (did.Success? && did.value in control.allowed ==> r == Serve(table, params.feed.value, params))
      && (did.Success? && did.value !in control.allowed ==> r == Denied(control))
      && (did.Failure? && did.error != Invalid(ShortKey) ==> r == Denied(control))
      && (did == Failure(Invalid(ShortKey)) ==> r == Aborted)
      && (r.Items? && r.view.feed != [control.deny] ==> did.Success? && did.value in control.allowed)
  {
    var control := context.feeds[params.feed.value];
    assert |control.allowed| > 0 by {
      var d :| d in control.allowed;
    }
  }

  /** The cursor of a page that is not empty is formatted from its last row. */
  lemma {:induction false} PageCursorOfLast(rows: seq<Row>)
    requires rows != []
    ensures PageView(Contents(rows)).cursor == Some(FormatCursor(rows[|rows| - 1].content))
  {
    assert Contents(rows)[|rows| - 1] == rows[|rows| - 1].content;
  }

  /** Every row of a non-empty first page is a stored row of the feed. */
  lemma {:induction false} FirstPageRowsStored(table: seq<Row>, feed: string, limit: Option<u16>)
    requires Filter(FeedIs(feed), table) != []
    ensures var all := SortDesc(Filter(FeedIs(feed), table));
      var n := Min(PageLimit(limit), |all|);
      && 1 <= n <= |all|
      && all[n - 1] in table
  {
    var feedRows := Filter(FeedIs(feed), table);
    var all := SortDesc(feedRows);
    var n := Min(PageLimit(limit), |all|);
    SortDescSortedPermutation(feedRows);
    assert all[n - 1] in multiset(feedRows) by {
      assert all[n - 1] in multiset(all);
    }
    assert all[n - 1] in feedRows;
  }

  /** No row of `rows` has a comma in its cid, so every cursor formatted from one of them parses back. */
  predicate CidsCommaFree(rows: seq<Row>) {
    rows == [] || (',' !in rows[0].content.cid && CidsCommaFree(rows[1..]))
  }

  lemma {:induction false} CommaFreeRow(rows: seq<Row>, r: Row)
    requires CidsCommaFree(rows) && r in rows
    ensures ',' !in r.content.cid
  {
    if rows[0] != r {
      assert r in rows[1..];
      CommaFreeRow(rows[1..], r);
    }
  }

  /**
   * When no stored cid holds a comma, the cursor handed out with a non-empty
   * first page parses back to the key of that page's last row.
   */
  lemma {:induction false} FirstCursorParses(table: seq<Row>, feed: string, limit: Option<u16>)
    requires Filter(FeedIs(feed), table) != []
    requires CidsCommaFree(table)
    ensures var all := SortDesc(Filter(FeedIs(feed), table));
      var n := Min(PageLimit(limit), |all|);
      && 1 <= n <= |all|
      && ParseCursor(Some(FormatCursor(all[n - 1].content))) == Some(CursorAt(all[n - 1].content))
  {
    var all := SortDesc(Filter(FeedIs(feed), table));
    var n := Min(PageLimit(limit), |all|);
    FirstPageRowsStored(table, feed, limit);
    CommaFreeRow(table, all[n - 1]);
    FormattedCursorParses(all[n - 1].content);
  }

  /** With no cursor, `Serve` gives the first rows of the feed in page order. */
  lemma {:induction false} ServeFirstPage(table: seq<Row>, feed: string, limit: Option<u16>)
    ensures var all := SortDesc(Filter(FeedIs(feed), table));
      Serve(table, feed, FeedParams(Some(feed), limit, None)) == Items(PageView(Contents(all[..Min(PageLimit(limit), |all|)])))
  {
    PaginateFirstPage(table, feed, limit);
  }

  /**
   * Paging through an open feed with the cursors the handler hands out: the
   * first request gets the first rows of the feed in page order, and its
   * cursor is that of the last of them.
   */
  lemma {:induction false} FirstResponse(context: WebContext, table: seq<Row>, cache: map<string, CacheEntry>,
                                         codec: TokenCodec, verifier: Verifier, feed: string,
                                         limit: Option<u16>, authorization: Option<string>, clock: int)
    requires feed in context.feeds && context.feeds[feed].allowed == {}
    requires Filter(FeedIs(feed), table) != []
    ensures var all := SortDesc(Filter(FeedIs(feed), table));
      var n := Min(PageLimit(limit), |all|);
      var first := HandleGetFeedSkeleton(context, table, cache, codec, verifier, FeedParams(Some(feed), limit, None), authorization, clock);
      && 1 <= n <= |all|
      && first == Items(PageView(Contents(all[..n])))
      && first.view.cursor == Some(FormatCursor(all[n - 1].content))
  {
    FirstServed(table, feed, limit);
    OpenFeedIgnoresToken(context, table, cache, codec, verifier, feed, limit, None, authorization, clock);
  }

  /** The first page served for a feed with rows, and the cursor it hands out. */
  lemma {:induction false} FirstServed(table: seq<Row>, feed: string, limit: Option<u16>)
    requires Filter(FeedIs(feed), table) != []
    ensures var all := SortDesc(Filter(FeedIs(feed), table));
      var n := Min(PageLimit(limit), |all|);
      var first := Serve(table, feed, FeedParams(Some(feed), limit, None));
      && 1 <= n <= |all|
      && first == Items(PageView(Contents(all[..n])))
      && first.view.cursor == Some(FormatCursor(all[n - 1].content))
  {
    var all := SortDesc(Filter(FeedIs(feed), table));
    var n := Min(PageLimit(limit), |all|);
    ServeFirstPage(table, feed, limit);
    PageCursorOfLast(all[..n]);
    assert all[..n][n - 1] == all[n - 1];
  }

  /**
   * A later request: with the cursor handed out for the `n`-th row of the
   * feed in page order, `Serve` gives exactly the next rows after that row,
   * provided no two rows of the feed share a key and that row's cid holds no
   * comma.  `FirstResponse` hands out such a cursor for the last row of the
   * first page, and `OpenFeedIgnoresToken` shows the handler answers an open
   * feed with `Serve`.
   */
  lemma {:induction false} ServeAfterCursor(table: seq<Row>, feed: string, limit: Option<u16>, n: nat)
    requires 1 <= n <= |SortDesc(Filter(FeedIs(feed), table))|
    requires KeysDistinct(SortDesc(Filter(FeedIs(feed), table)))
    requires ',' !in SortDesc(Filter(FeedIs(feed), table))[n - 1].content.cid
    ensures var all := SortDesc(Filter(FeedIs(feed), table));
      Serve(table, feed, FeedParams(Some(feed), limit, Some(FormatCursor(all[n - 1].content))))
        == Items(PageView(Contents(all[n..][..Min(PageLimit(limit), |all| - n)])))
  {
    var all := SortDesc(Filter(FeedIs(feed), table));
    var params := FeedParams(Some(feed), limit, Some(FormatCursor(all[n - 1].content)));
    assert ParseCursor(params.cursor) == Some(CursorAt(all[n - 1].content)) by {
      FormattedCursorParses(all[n - 1].content);
    }
    assert Paginate(table, feed, limit, Some(CursorAt(all[n - 1].content)))
        == Contents(all[n..][..Min(PageLimit(limit), |all| - n)]) by {
      PaginateNextPage(table, feed, limit, n);
    }
  }
}
