# Supercell feed generator, modelled in Dafny

Supercell is a Bluesky feed generator. A background consumer reads the
Jetstream firehose. It decodes each zstd-compressed event and tests every
commit event against the rules of each configured feed. These rules are
`equal`, `prefix` and `sequence` tests on JSONPath-selected strings,
lower-cased. The strong reference of each matching post goes into a
`feed_content` table. A second background task refreshes the signing keys of
the DIDs allowed on restricted feeds. The HTTP endpoint
`app.bsky.feed.getFeedSkeleton` serves pages of a feed newest first, with a
`"{time_us},{cid}"` cursor. A restricted feed answers only a service token
(an ES256K JWT) whose issuer is on its allow list. Anyone else gets the
feed's "deny" post.

The model has one Dafny module per source file, plus four support modules:

| file | module | models |
|---|---|---|
| `matcher.dfy` | `Matchers` | `src/matcher.rs`: the three matchers, the per-feed "any rule holds" test and `from_config` |
| `storage.dfy` | `Storage` | `src/storage.rs`: the three tables as a `Store` class with the SQL statements as functions over them |
| `consumer.dfy` | `Consumer` | `src/consumer.rs`: event decoding, the strong reference of a post, the time watermark, the store-the-matches step and the consumer loop |
| `feed_skeleton.dfy` | `FeedSkeleton` | `src/http/handle_get_feed_skeleton.rs`: token splitting and claim checks, `did_from_jwt`, the cursor, and the handler's decision |
| `crypto.dfy` | `Crypto` | `src/crypto.rs`: the multicodec dispatch of `validate` |
| `vmc.dfy` | `Vmc` | `src/vmc.rs`: the resolver URL, the key a DID document yields, and one refresh cycle |
| `config.dfy` | `Config` | `src/config.rs`: the port, certificate-bundle and task-enable parsers, and the rule-file types |
| `ints.dfy`, `strings.dfy`, `json.dfy`, `wrappers.dfy` | `Ints`, `Strings`, `Json`, `Wrappers` | fixed-width integers and big-endian bytes; Rust's `split`, `find`, `parse::<uN>`, ASCII lower-casing and byte-wise string order; JSON values; `Option`/`Result` |

Foreign code is passed in as function values:
- The JSONPath engine (`PathEngine`).
- zstd, the JSON parser and `serde_json::to_value` (`Codec`).
- base64url and JSON decoding of a token (`TokenCodec`).
- Multibase decoding and ECDSA (`Verifier`).
- The HTTP fetch of a DID document (`Resolver`).

Clocks and the firehose become parameters. These are `now`, `clock`, and a
sequence of `Wakeup`s for the consumer loop.

The database is the `Store` class. `feed_content` is a `seq<Row>`, and
`consumer_control` and `verification_method_cache` are maps. Its methods
change those fields in place. Each method is proved equal to a specification
function on the old table: `Upsert`, `Truncate`, `Paginate` or `Sweep`. The
properties of the table are then proved about those functions. The page
query is `SortDesc(Filter(Selects(feed, cursor), table))` cut to the limit.
`SortDesc` is a stable insertion sort by the row value
`(indexed_at, indexed_at_more, cid)`. It is proved sorted and a permutation,
and proved to commute with filtering.

Where the specification and the code disagree, the model follows the code:
- **Pruning keeps no fixed number of rows.** `feed_content_truncate` takes
  the row at `OFFSET 501` of the feed's order by event time
  (`indexed_at DESC, indexed_at_more DESC`), which is the 502nd newest event.
  It then deletes every row of the feed whose `updated_at` is strictly before
  that row's `updated_at`. So the survivors are the feed's rows written no
  earlier than its 502nd-newest row by event time. That row itself survives,
  so 502 or more rows can stay. Fewer than 501 can stay when that row was
  written late, because `updated_at` is the write time and not the event
  time. In the model this row is `all[RETAINED]` with `RETAINED = 501`.
- **A short key aborts instead of being denied.** Token failures are meant to
  surface as the deny post. But `validate` slices `[..2]` out of the decoded
  key, and that panics when the key is shorter than two bytes. The model
  gives that case its own error (`ShortKey`). The handler turns it into an
  aborted request (`Aborted`), not the deny post.

## Model

| member | source | states |
|---|---|---|
| Matchers.StringLeaves | src/matcher.rs:72-83 | the leaves kept are exactly the lower-cased string nodes; non-string nodes are dropped |
| Matchers.EqualsMatches | src/matcher.rs:71-86 | holds iff some selected string node, lower-cased, equals the expected value |
| Matchers.PrefixMatches | src/matcher.rs:105-122 | holds iff some selected string node, lower-cased, starts with the prefix |
| Matchers.ScanLeaf | src/matcher.rs:155-176 | the scan with `last_found` and `found_index` accepts a leaf iff every expected value occurs in it, each first occurring strictly after the previous one, and the list is non-empty |
| Matchers.SequenceMatches | src/matcher.rs:141-180 | true iff some lower-cased string node is accepted by the scan; an empty expected list never matches |
| Matchers.MatcherMatches | src/matcher.rs:6-8 | each rule kind is evaluated by its own test on the nodes its path selects |
| Matchers.FeedMatcherMatches | src/matcher.rs:49-52 | the loop over the rules returns true iff some rule holds; a feed without rules matches nothing |
| Matchers.EqualsUpperNeverMatches | src/matcher.rs:74-85 | an expected value with an upper-case letter can never equal a lower-cased node |
| Matchers.NoStringNoMatch | src/matcher.rs:74-83 | when the path selects no string node, no rule of any kind holds |
| Matchers.MissingValueRejects | src/matcher.rs:160-171 | a leaf that lacks any one expected value is rejected by the sequence scan |
| Matchers.SequenceOrderMatters | src/matcher.rs:159-176 | a leaf accepted for `[a, b]` is not accepted for `[b, a]` |
| Matchers.New | src/matcher.rs:61-67 | building a rule succeeds iff its path parses; it then keeps the rule's value(s) and path; otherwise the error is "cannot parse path" |
| Matchers.FromConfig | src/matcher.rs:18-46 | succeeds iff every path of every feed parses; the result then has one feed matcher per feed, in order, with its uri and its rules compiled in order |
| Storage.NewFeedContent | src/storage.rs:23-46 | a new content keeps feed, uri and cid |
| Storage.TimeUs | src/storage.rs:47-60 | the time read back has the stored halves as its quotient and remainder by 2^32 |
| Storage.TimeUsOfNew | src/storage.rs:23-60 | the time a content was built with is the time it reads back |
| Storage.NewOrdersByTime | src/storage.rs:47-60 | ordering by `(indexed_at, indexed_at_more)` is ordering by the 64-bit time |
| Storage.KeyLtIrreflexive | src/storage.rs:95 | the row-value `<` is irreflexive |
| Storage.KeyLtTransitive | src/storage.rs:95 | the row-value `<` is transitive |
| Storage.KeyLtTotal | src/storage.rs:95 | two distinct row values are ordered one way or the other |
| Storage.Filter | src/storage.rs:95 | a WHERE clause keeps exactly the rows of the table that satisfy it, and no more rows than the table has |
| Storage.SortDesc | src/storage.rs:106 | the sorted list has as many rows as the input (its order and its rows are the next row) |
| Storage.SortDescSortedPermutation | src/storage.rs:106 | `ORDER BY indexed_at DESC, indexed_at_more DESC, cid DESC` yields a descending list with the same rows, counted with multiplicity |
| Storage.SortFilterCommute | src/storage.rs:94-113 | sorting then filtering is filtering then sorting |
| Storage.PageLimit | src/storage.rs:92 | the page size is the limit clamped to 1..100: 20 when absent, 1 for a limit of 0, 100 above 100, the limit itself in between |
| Storage.Paginate | src/storage.rs:84-118 | a page has as many items as the smaller of the clamped limit and the number of selected rows, so never more than the clamped limit |
| Storage.PaginateSelects | src/storage.rs:84-118 | a page's items are all of the feed, all stored, all below the cursor when one is given, in descending key order |
| Storage.SelectsWithoutCursor | src/storage.rs:105-113 | without a cursor the query selects exactly the feed's rows |
| Storage.SelectsWithCursor | src/storage.rs:94-104 | with a cursor the query selects the feed's rows below the cursor's row value |
| Storage.BelowBoundary | src/storage.rs:95 | in a sorted list with distinct keys, the rows below the n-th row's key are exactly the rows after it |
| Storage.PaginateFirstPage | src/storage.rs:105-113 | the first page is the first `limit` rows of the feed in page order |
| Storage.RowsAfterCursor | src/storage.rs:94-104 | with the cursor of the n-th row of the feed, the query yields exactly the rows after it |
| Storage.PaginateNextPage | src/storage.rs:94-104 | the page after the n-th row is the next `limit` rows of the feed: nothing is skipped or repeated |
| Storage.CursorAt | src/storage.rs:96-100 | the cursor of a content carries that content's row value |
| Storage.Upsert | src/storage.rs:64-82 | after `INSERT OR REPLACE` the table holds the new row, last, and every old row of another post or feed, and nothing else; it grows by at most one row |
| Storage.UpsertStores | src/storage.rs:64-82 | the upsert keeps one row per (feed, uri), and the row for the new content is the new one |
| Storage.UpsertOtherFeeds | src/storage.rs:64-82 | an upsert leaves the rows of every other feed as they were |
| Storage.FilterKeepsUnique | src/storage.rs:71 | removing rows keeps one row per (feed, uri) |
| Storage.Truncate | src/storage.rs:189-207 | a feed with at most 501 rows is left as it is; otherwise rows are only removed, and no row of another feed is |
| Storage.TruncateCut | src/storage.rs:189-207 | with more than 501 rows, the 502nd newest row survives, and a row survives iff it is of another feed or was written no earlier than that row |
| Storage.TruncateOtherFeeds | src/storage.rs:198 | truncating one feed leaves every other feed's rows in place and in order |
| Storage.Checkpoint | src/storage.rs:140-153 | the checkpoint is present iff the source has a row whose text parses as a u64, and it is that number |
| Storage.CheckpointLastWriteWins | src/storage.rs:120-153 | a checkpoint written in decimal reads back as the same number |
| Storage.CachedKey | src/storage.rs:175-187 | a key is found iff the DID is cached, and it is the cached key |
| Storage.CachedKeyAfterInsert | src/storage.rs:155-187 | after a key is stored for a DID, that DID reads back the key and every other DID reads what it read before |
| Storage.Sweep | src/vmc.rs:86 | the cleanup keeps exactly the unexpired entries, unchanged |
| Storage.Store.FeedContentInsert | src/storage.rs:64-82 | the table becomes the upsert of the old table; the other tables are unchanged |
| Storage.Store.FeedContentPaginate | src/storage.rs:84-118 | returns the page of the current table: at most the limit, all of the feed |
| Storage.Store.FeedContentTruncate | src/storage.rs:189-207 | the table becomes the truncation of the old table; the other tables are unchanged |
| Storage.Store.ConsumerControlInsert | src/storage.rs:120-138 | the source's row is replaced by the new time and stamp; nothing else changes |
| Storage.Store.ConsumerControlGet | src/storage.rs:140-153 | returns the parsed checkpoint of the source |
| Storage.Store.VerificationMethodInsert | src/storage.rs:155-173 | the DID's cache row is replaced by the new key and stamp; nothing else changes |
| Storage.Store.VerificationMethodGet | src/storage.rs:175-187 | returns the cached key of the DID, if any |
| Storage.Store.VerificationMethodCleanup | src/vmc.rs:86 | the cache becomes its sweep; the other tables are unchanged |
| Consumer.ToPostStrongRef | src/consumer.rs:280-292 | a strong reference exists iff the commit is a create, and it is `at://{did}/{collection}/{rkey}` with the record's cid |
| Consumer.StrongRefUriSplits | src/consumer.rs:288 | the URI splits back into the DID, collection and record key when none holds a `/` |
| Consumer.Decode | src/consumer.rs:117-148 | an event comes only from a binary frame that decompresses within `MAX_MESSAGE_SIZE + 1` bytes and parses; conversely such a frame yields exactly what the parser gives; an error, a non-binary frame, a failed decompression or an oversized payload yields none |
| Consumer.Step | src/consumer.rs:110-171 | one stream item never touches the checkpoints and never lowers the watermark |
| Consumer.Flush | src/consumer.rs:106-108 | a timer flush changes only the host's checkpoint row: every other source's row, the watermark and the feed table stay as they were |
| Consumer.Run | src/consumer.rs:99-174 | a run never ends below its starting watermark; cancellation, the end of the stream or no wake-up at all leaves the state as it was |
| Consumer.MaxTimeBounds | src/consumer.rs:150 | the running maximum is at least its start and every event time, and equals one of them |
| Consumer.RunWatermark | src/consumer.rs:99-174 | after any run the watermark is the running maximum of its start and the time of every decoded event, commit or not |
| Consumer.WatermarkNeverDecreases | src/consumer.rs:150 | the watermark never decreases and ends at least at every decoded event's time |
| Consumer.SkippedFrameChangesNothing | src/consumer.rs:117-147 | an error, a non-binary frame or an undecodable payload changes neither watermark nor tables |
| Consumer.NonCommitOnlyMovesWatermark | src/consumer.rs:150-154 | a non-commit event raises the watermark and writes nothing |
| Consumer.InsertMatches | src/consumer.rs:163-171 | without a strong reference (an update or a delete) the table is unchanged whatever matches; each feed adds at most one row |
| Consumer.InsertMatchesStep | src/consumer.rs:163-171 | trying one more feed adds its row, replacing that feed's old row for the post, iff the feed matches |
| Consumer.MatchingFeedsStored | src/consumer.rs:163-171 | every feed that matches a created post ends up holding that post's row |
| Consumer.OnlyMatchesStored | src/consumer.rs:163-171 | every row after the step was already stored or is the post's row for a feed that matches |
| Consumer.FlushCheckpoint | src/consumer.rs:106-108 | a timer flush makes the checkpoint read back as the current watermark |
| Consumer.FlushBeforeAnyEventWritesZero | src/consumer.rs:99-107 | the watermark restarts at 0, so a flush before any event overwrites the resumed checkpoint with 0 |
| Consumer.StoreMatches | src/consumer.rs:163-171 | the loop over the feeds leaves the table equal to the inserts of every matching feed, in order |
| Consumer.HandleFrame | src/consumer.rs:115-171 | handling one item leaves the watermark and the tables as `Step` specifies and the key cache unchanged |
| Consumer.RunBackground | src/consumer.rs:53-179 | subscribes to posts from the stored checkpoint, then leaves the watermark and the tables as the run over the wake-ups specifies |
| FeedSkeleton.SplitToken | src/http/handle_get_feed_skeleton.rs:123-134 | succeeds iff the token has exactly three `.`-separated parts; the parts joined with dots give the token back |
| FeedSkeleton.SplitTokenOfSegments | src/http/handle_get_feed_skeleton.rs:123-134 | three dot-free segments are split back out of the token they form |
| FeedSkeleton.BearerToken | src/http/handle_get_feed_skeleton.rs:141-147 | a token exists iff the header starts with "Bearer ", and the header is that prefix followed by the token |
| FeedSkeleton.WrapI32 | src/http/handle_get_feed_skeleton.rs:163-164 | `as i32` agrees with the time modulo 2^32 and is the identity in range |
| FeedSkeleton.ClaimsCheck | src/http/handle_get_feed_skeleton.rs:166-180 | passes iff alg is ES256K, lxm is getFeedSkeleton, aud is `did:web:{external_base}`, `exp >= now` and `iat <= now` |
| FeedSkeleton.SegmentsOfBearer | src/http/handle_get_feed_skeleton.rs:141-148 | an Authorization value that gets past the split is "Bearer " and three dot-joined segments |
| FeedSkeleton.TokenSound | src/http/handle_get_feed_skeleton.rs:136-198 | an accepted token has three decodable segments, passes the claim checks, its issuer is cached, and the signature over `header.claims` verifies with that key; the result is the issuer |
| FeedSkeleton.TokenAccepted | src/http/handle_get_feed_skeleton.rs:136-198 | conversely, every well-formed token meeting those conditions is accepted as its issuer |
| FeedSkeleton.DidFromJwt | src/http/handle_get_feed_skeleton.rs:136-198 | without a "Bearer " Authorization value the result is the missing-authorization error; an accepted issuer always has a cached key |
| FeedSkeleton.ParseCursor | src/http/handle_get_feed_skeleton.rs:200-228 | a cursor parses iff it has exactly two comma parts and the first is a u64; the time is split into its high and low 32 bits |
| FeedSkeleton.CursorRoundTrip | src/http/handle_get_feed_skeleton.rs:200-228 | a formatted `"{time},{cid}"` with a comma-free cid parses back to that time, its halves and that cid |
| FeedSkeleton.FormatCursor | src/http/handle_get_feed_skeleton.rs:104-107 | the cursor is the decimal digits of the row's 64-bit time, one comma, then the cid |
| FeedSkeleton.FormattedCursorParses | src/http/handle_get_feed_skeleton.rs:104-108 | the cursor handed out for a content parses back to that content's row value |
| FeedSkeleton.PageView | src/http/handle_get_feed_skeleton.rs:104-120 | one post per page item in order, and a cursor iff the page is non-empty, formatted from its last item |
| FeedSkeleton.Denied | src/http/handle_get_feed_skeleton.rs:73-79 | the deny response lists exactly the feed's deny post and carries no cursor |
| FeedSkeleton.Serve | src/http/handle_get_feed_skeleton.rs:95-120 | a served response lists as many posts as the smaller of the clamped limit and the rows the parsed cursor selects, never more than the clamped limit, with a cursor iff it lists any |
| FeedSkeleton.Restricted | src/http/handle_get_feed_skeleton.rs:61-93 | an allowed issuer gets the page; an issuer outside the set, or a refused token other than a short key, gets the deny post; the request aborts iff the key is too short; any listing but the deny post implies an allowed issuer |
| FeedSkeleton.HandleGetFeedSkeleton | src/http/handle_get_feed_skeleton.rs:37-121 | a missing feed parameter is an internal error, and an unknown feed the UnknownFeed response, in both directions |
| FeedSkeleton.OpenFeedIgnoresToken | src/http/handle_get_feed_skeleton.rs:61-103 | a feed with an empty allow set serves its page whatever the Authorization header |
| FeedSkeleton.RestrictedFeedDecision | src/http/handle_get_feed_skeleton.rs:61-93 | on a restricted feed an allowed issuer gets the page; a refused token or an issuer outside the set gets the deny post; a short key aborts; anything but the deny post implies an allowed issuer |
| FeedSkeleton.PageCursorOfLast | src/http/handle_get_feed_skeleton.rs:104-108 | the cursor of a non-empty page is formatted from its last row |
| FeedSkeleton.FirstPageRowsStored | src/http/handle_get_feed_skeleton.rs:95-108 | the last row of a non-empty first page is a stored row |
| FeedSkeleton.FirstCursorParses | src/http/handle_get_feed_skeleton.rs:104-108 | the cursor of a first page parses back to its last row's row value when stored cids hold no comma |
| FeedSkeleton.ServeFirstPage | src/http/handle_get_feed_skeleton.rs:95-120 | without a cursor the response is the first `limit` rows of the feed in page order |
| FeedSkeleton.FirstResponse | src/http/handle_get_feed_skeleton.rs:37-121 | a first request on an open feed gets the first rows in page order, with the last one's cursor |
| FeedSkeleton.ServeAfterCursor | src/http/handle_get_feed_skeleton.rs:95-120 | the cursor handed out for the n-th row of the feed gets the next `limit` rows after it: nothing skipped, nothing repeated |
| Crypto.CurveForPrefix | src/crypto.rs:21-31 | `e7 01` selects secp256k1 and `80 24` selects P-256, and nothing else does |
| Crypto.PrefixIsMulticodec | src/crypto.rs:21-31 | the two prefixes are the unsigned-varint multicodecs 0xe7 and 0x1200 |
| Crypto.Validate | src/crypto.rs:19-43 | passes iff the key decodes, is at least 2 bytes, has a known prefix, and the signature and key parse and verify; a decoded key under 2 bytes is the short-key error |
| Crypto.Secp256k1Dispatch | src/crypto.rs:23-29 | a secp256k1 key is checked with secp256k1 on the bytes after the prefix |
| Crypto.P256Dispatch | src/crypto.rs:31-37 | a P-256 key is checked with P-256 on the bytes after the prefix |
| Crypto.UnknownPrefixFails | src/crypto.rs:38-41 | any other prefix fails, naming the two bytes |
| Vmc.ResolverUrl | src/vmc.rs:91-95 | a `did:web:` DID is looked up at its host's `/.well-known/did.json`, any other at `https://{plc_hostname}/{did}` |
| Vmc.WebDidIgnoresPlc | src/vmc.rs:91-92 | a `did:web:` URL does not depend on the PLC host |
| Vmc.PlcUrlEndsWithDid | src/vmc.rs:93-94 | a PLC URL is the host prefix followed by the whole DID |
| Vmc.KeyOf | src/vmc.rs:106-115 | a key is found iff the document names the same DID and lists a method, and it is the first method's key; otherwise DID mismatch or no key |
| Vmc.PlcQuery | src/vmc.rs:90-116 | a key is found iff the document fetched from the DID's URL names that DID and lists a method, and it is the first method's key; a failed fetch is `FetchFailed` |
| Vmc.Refreshed | src/vmc.rs:75-84 | after a cycle the cache holds the old entries plus every queried DID that resolved; each resolved DID holds its new key stamped with the cycle's time, and every other entry is as it was |
| Vmc.ResolvedDidStored | src/vmc.rs:75-84 | a DID whose document resolves gets its first key, stamped with the cycle's time |
| Vmc.FailedDidUnchanged | src/vmc.rs:76-80 | a DID whose query fails keeps its old entry, or stays absent |
| Vmc.RefreshedStep | src/vmc.rs:75-84 | querying one more DID writes its key iff the query succeeds, whatever the order |
| Vmc.RefreshCycle | src/vmc.rs:74-88 | the loop over the DIDs and the cleanup leave the cache as the sweep of the refreshed cache; the other tables are unchanged |
| Config.ParseHttpPort | src/config.rs:125-136 | the empty string is port 80; otherwise the port is the u16 the text parses to, and the parse fails otherwise |
| Config.HttpPortRoundTrip | src/config.rs:125-136 | a decimal number parses to itself iff it is below 65536 |
| Config.NonEmpty | src/config.rs:150-156 | a piece is kept iff it is one of the original pieces and is non-empty |
| Config.NonEmptyConcat | src/config.rs:150-156 | dropping empty pieces works piece by piece, so the kept pieces stay in their original order |
| Config.ParseCertificateBundles | src/config.rs:144-160 | every bundle path is non-empty and free of `;`, and a text is a bundle path iff it is a non-empty `;`-separated piece of the value |
| Config.CertificateBundlesOfPiece | src/config.rs:144-160 | a value without `;` is one bundle path, or none when it is empty |
| Config.CertificateBundlesConcat | src/config.rs:144-160 | the bundle paths of `a;b` are those of `a` followed by those of `b`, which fixes the list of every value in order |
| Config.CertificateBundlesRoundTrip | src/config.rs:144-160 | non-empty, `;`-free paths joined with `;` parse back to the same list |
| Config.CertificateBundlesSkipEmpty | src/config.rs:148-157 | leading, doubled and trailing `;` add no empty paths |
| Config.ParseTaskEnable | src/config.rs:174-182 | exactly "true" and "false" parse, to the matching flag |
| Config.DefaultEnv | src/config.rs:114-116 | a set variable's value, otherwise the default |
| Strings.Lower | src/matcher.rs:78 | lower-casing keeps the length, maps each character, and leaves no upper-case ASCII letter |
| Strings.Find | src/matcher.rs:160 | `find` returns the first position where the needle occurs, or none when it occurs nowhere |
| Strings.Split | src/http/handle_get_feed_skeleton.rs:203 | `split` yields at least one separator-free part, and the parts joined give the text back |
| Strings.SplitOfJoin | src/http/handle_get_feed_skeleton.rs:124-133 | separator-free parts joined with the separator split back into the same parts |
| Strings.SplitConcat | src/config.rs:150-156 | splitting at one more separator splits each side on its own |
| Strings.SplitTwo | src/http/handle_get_feed_skeleton.rs:203-206 | two separator-free parts joined by one separator split into exactly two |
| Strings.NatToString | src/consumer.rs:107 | the decimal text is digits only, has no leading zero, and denotes the number |
| Strings.ParseUnsigned | src/http/handle_get_feed_skeleton.rs:208 | a parsed number is below the type's bound and the text starts with a digit or `+` |
| Strings.ParseUnsignedSpellings | src/http/handle_get_feed_skeleton.rs:208 | a text parses to n iff n is below the bound and the text is an optional `+`, any number of `0`s, then the shortest decimal spelling of n |
| Strings.ParsedIsSpelling | src/http/handle_get_feed_skeleton.rs:208 | every accepted text is an optional `+`, leading zeros and the shortest spelling of its value |
| Strings.SpellingIsParsed | src/http/handle_get_feed_skeleton.rs:208 | every such spelling of a value below the bound is accepted as that value |
| Strings.ParseFormat | src/storage.rs:152 | a number's decimal text parses back to it iff it is in range |
| Strings.ParseRejectsSigns | src/http/handle_get_feed_skeleton.rs:208-211 | text starting with `-` never parses as unsigned |
| Strings.StrLtIrreflexive | src/storage.rs:95 | the byte-wise cid order is irreflexive |
| Strings.StrLtTransitive | src/storage.rs:95 | the byte-wise cid order is transitive |
| Strings.StrLtTotal | src/storage.rs:95 | two distinct cids are ordered one way or the other |
| Strings.StrLtAsymmetric | src/storage.rs:95 | the byte-wise cid order is asymmetric |
| Ints.SplitU64 | src/http/handle_get_feed_skeleton.rs:214-226 | the two halves are the quotient and remainder by 2^32 |
| Ints.JoinU64 | src/storage.rs:47-60 | joining the halves is `high * 2^32 + low` |
| Ints.U32RoundTrip | src/storage.rs:48-59 | a u32 read back from its big-endian bytes is itself |
| Ints.HighBytesAreQuotient | src/http/handle_get_feed_skeleton.rs:214-220 | the first four big-endian bytes of a u64 are its quotient by 2^32 |
| Ints.LowBytesAreRemainder | src/http/handle_get_feed_skeleton.rs:221-226 | the last four big-endian bytes of a u64 are its remainder by 2^32 |
| Ints.U64JoinOfSplit | src/storage.rs:47-60 | splitting a time and joining the halves gives it back |
| Ints.U64SplitOfJoin | src/http/handle_get_feed_skeleton.rs:214-226 | joining two halves and splitting gives them back |
| Ints.SplitPreservesOrder | src/storage.rs:95 | comparing times is comparing their halves lexicographically |

## Left out

- Networking, timers and cancellation are not modelled. This covers the WebSocket connection, the `options_update` send, the 120-second flush timer and the cancellation token. The consumer loop is given these as a sequence of `Wakeup`s. Nothing models the time between wake-ups, and nothing models the reset of the timer.
- `VerificationMethodCacheTask::run_background` (src/vmc.rs:49-72) is left out. It is a timer loop around `main`. `Vmc.RefreshCycle` models one `main`.
- Store failures and transactions are not modelled, because the in-memory tables never fail. This covers the `?` on store calls that ends the consumer loop, and the `?` that ends a refresh cycle at src/vmc.rs:83 and src/vmc.rs:86.
- The JSON parser, JSONPath, zstd, serde, base64url, multibase and ECDSA are foreign libraries. They are function-valued parameters. Only their success or failure and the values they yield are modelled.
- The `#[cfg(debug_assertions)]` print of an unparseable payload and all logging are left out.
- The HTTP query extraction, the status codes and the JSON body of responses are left out. The handler returns a `Response` datatype.
- `Config::new`, `require_env`, `optional_env`, `version` and the YAML read of the rule file are left out. These are environment and file I/O. `DefaultEnv` models the defaulting on a map.
- Strings.Lower: only ASCII letters are lower-cased. Rust's `to_lowercase` is full Unicode.
- Matchers.ScanLeaf: the `find` index is a character index compared as an unbounded integer. The source compares a byte index cast with `as i32`, which wraps for leaves over 2^31 bytes.
- Storage.SortDesc: rows with equal row values keep their table order. This stands for whatever order the engine returns them in.
- Storage.SortDesc: its own contract states only the length. That the result is descending and a permutation is `SortDescSortedPermutation`; keeping those out of the contract keeps every proof that mentions a page small.
- Consumer.Step: its own contract states only that the checkpoints are untouched and the watermark does not fall. What each kind of item does is `SkippedFrameChangesNothing`, `NonCommitOnlyMovesWatermark`, `InsertMatches` and `RunWatermark`; keeping it out of the contract keeps the proof of the loop small.
- Consumer.Flush: its own contract does not name the value written for the host. `FlushCheckpoint` proves it reads back as the watermark.
- Storage.Truncate: the SQL orders only by `(indexed_at, indexed_at_more)`, so rows with equal times may come in any order. The model orders them by cid, descending, which is one of the orders the engine may use.
- Storage.Upsert: the table's primary key is not visible to the model. The conflict key of `INSERT OR REPLACE` is taken to be `(feed_id, uri)`.
- Storage.Sweep: the definition of `verification_method_cleanup` is not part of this model. Its expiry rule is a parameter `expired`.
- Vmc.RefreshCycle: one `now` is used for the whole cycle. The DIDs are visited in an arbitrary order, standing for `HashSet` iteration. `Vmc.RefreshedStep` shows that the order does not change the result.
- Storage.PaginateNextPage: requires that the feed's rows have distinct row values. With a repeated `(time, cid)`, the rows equal to the cursor are skipped.
- FeedSkeleton.ServeAfterCursor: requires distinct row values, for the same reason. It also requires that row's cid to hold no comma, for the reason given for `FirstCursorParses`.
- FeedSkeleton.FirstCursorParses: requires comma-free stored cids. A cid holding a comma yields a cursor that does not parse, and the next request then gets the first page again.
- FeedSkeleton.FirstResponse: the handler-level statement for a later page is not one lemma. It is `OpenFeedIgnoresToken` composed with `ServeAfterCursor`, applied to the cursor `FirstResponse` hands out.
- FeedSkeleton.Restricted: the panic of `validate` on a key shorter than two bytes is modelled as the `Aborted` response, not as a process-level panic.
- Other files of the repository are not part of this model. These are the binary's wiring, the other HTTP handlers, the web context and the error type.
