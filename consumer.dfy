/**
 * The Jetstream consumer: the event it reads, the strong reference it stores
 * for a created post, and the background loop that advances the time
 * watermark, matches commit events against every feed, stores the matches
 * and periodically writes the watermark as the resume checkpoint.
 *
 * The socket, the timer and the cancellation token become a sequence of
 * wake-ups the loop is given; zstd, the JSON parser and `to_value` become the
 * partial functions of a `Codec`.
 */
module Consumer {
  import opened Wrappers
  import opened Ints
  import opened Strings
  import opened Json
  import opened Matchers
  import opened Storage

  /** `MAX_MESSAGE_SIZE`: the largest message asked of Jetstream. */
  const MAX_MESSAGE_SIZE: nat := 25000

  /** The collection the consumer subscribes to. */
  const POST_COLLECTION: string := "app.bsky.feed.post"

  // ------------------------------------------------------------ events

  datatype CommitOp =
    | Create(rev: string, collection: string, rkey: string, record: Json, cid: string)
    | Update(rev: string, collection: string, rkey: string, record: Json, cid: string)
    | Delete(rev: string, collection: string, rkey: string)

  datatype Event = Event(did: string, kind: string, timeUs: u64, commit: Option<CommitOp>)

  /** The `options_update` message sent once connected. */
  datatype SubscriberSourcedMessage = OptionsUpdate(
    wantedCollections: seq<string>, wantedDids: seq<string>,
    maxMessageSizeBytes: u64, cursor: Option<u64>)

  /**
   * `to_post_strong_ref`: the `at://` URI and cid of a created record; an
   * update, a delete or an event without a commit has none.
   */
  function ToPostStrongRef(event: Event): (r: Option<(string, string)>)
    ensures r.Some? <==> event.commit.Some? && event.commit.value.Create?
    ensures r.Some? ==>
      var op := event.commit.value;
      r.value == ("at://" + event.did + "/" + op.collection + "/" + op.rkey, op.cid)
  {
    match event.commit
    case Some(Create(_, collection, rkey, _, cid)) =>
      Some(("at://" + event.did + "/" + collection + "/" + rkey, cid))
    case _ => None
  }

  /**
   * The URI of a strong reference splits back into its DID, collection and
   * record key when none of them holds a `/`: distinct records get distinct URIs.
   */
  lemma {:induction false} StrongRefUriSplits(event: Event)
    requires event.commit.Some? && event.commit.value.Create?
    requires '/' !in event.did && '/' !in event.commit.value.collection && '/' !in event.commit.value.rkey
    ensures var op := event.commit.value;
      Split(ToPostStrongRef(event).value.0, '/') == ["at:", "", event.did, op.collection, op.rkey]
  {
    var op := event.commit.value;
    var parts := ["at:", "", event.did, op.collection, op.rkey];
    assert parts[1..] == ["", event.did, op.collection, op.rkey];
    assert parts[2..] == [event.did, op.collection, op.rkey];
    assert parts[3..] == [op.collection, op.rkey];
    assert parts[4..] == [op.rkey];
    assert Join(parts[3..], '/') == op.collection + "/" + op.rkey;
    assert Join(parts[2..], '/') == event.did + "/" + op.collection + "/" + op.rkey;
    assert Join(parts, '/') == "at://" + event.did + "/" + op.collection + "/" + op.rkey;
    assert NoneContains(parts, '/');
    SplitOfJoin(parts, '/');
  }

  // ------------------------------------------------------------ frames

  /** What the socket yields: an error, a frame that is not binary, or a binary payload. */
  datatype Frame = Failed | NonBinary | Binary(payload: seq<byte>)

  /** Why the loop wakes up: cancellation, the flush timer, or the socket (None once closed). */
  datatype Wakeup = Cancelled | Timer(now: int) | Next(item: Option<Frame>, now: int)

  /** The foreign decoders: zstd with the Jetstream dictionary, the JSON parser and `to_value`. */
  datatype Codec = Codec(
    decompress: seq<byte> -> Option<seq<byte>>,
    parse: seq<byte> -> Option<Event>,
    toValue: Event -> Option<Json>)

  /**
   * The event a frame carries, if any: errors and non-binary frames carry
   * none, and neither does a payload that does not decompress within
   * `MAX_MESSAGE_SIZE + 1` bytes or does not parse.
   */
  function Decode(codec: Codec, frame: Frame): (r: Option<Event>)
    ensures !frame.Binary? ==> r.None?
    ensures r.Some? ==> exists d :: codec.decompress(frame.payload) == Some(d) && |d| <= MAX_MESSAGE_SIZE + 1 && codec.parse(d) == r
    ensures frame.Binary? && codec.decompress(frame.payload).None? ==> r.None?
    ensures frame.Binary? && codec.decompress(frame.payload).Some? && |codec.decompress(frame.payload).value| > MAX_MESSAGE_SIZE + 1 ==> r.None?
    ensures frame.Binary? && codec.decompress(frame.payload).Some? && |codec.decompress(frame.payload).value| <= MAX_MESSAGE_SIZE + 1
      ==> r == codec.parse(codec.decompress(frame.payload).value)
  {
    match frame
    case Binary(payload) =>
      (match codec.decompress(payload)
       case Some(decoded) => if |decoded| > MAX_MESSAGE_SIZE + 1 then None else codec.parse(decoded)
       case None => None)
    case _ => None
  }

  // ------------------------------------------------------------ the specification of one run

  /** What the loop has changed so far: the watermark and the two tables it writes. */
  datatype ConsumerState = ConsumerState(watermark: u64, table: seq<Row>, control: map<string, ControlRow>)

  function Max(a: u64, b: u64): (m: u64)
    ensures m >= a && m >= b && (m == a || m == b)
  {
    if a >= b then a else b
  }

  /**
   * The rows stored for a commit event after the first `|feedMatchers|` feeds
   * were tried: each feed that matches upserts the event's strong reference.
   */
  function InsertMatches(engine: PathEngine, feedMatchers: seq<FeedMatcher>, value: Json,
                         event: Event, table: seq<Row>, now: int): (r: seq<Row>)
    ensures ToPostStrongRef(event).None? ==> r == table
    ensures |r| <= |table| + |feedMatchers|
    decreases |feedMatchers|
  {
    if feedMatchers == [] then table
    else
      var last := feedMatchers[|feedMatchers| - 1];
      var before := InsertMatches(engine, feedMatchers[..|feedMatchers| - 1], value, event, table, now);
      var strongRef := ToPostStrongRef(event);
      if FeedMatches(engine, last, value) && strongRef.Some? then
        Upsert(before, NewFeedContent(last.feed, strongRef.value.0, event.timeUs, strongRef.value.1), now)
      else before
  }

  /** One socket item that is not the end of the stream. */
  function Step(engine: PathEngine, feedMatchers: seq<FeedMatcher>, codec: Codec,
                state: ConsumerState, frame: Frame, now: int): (next: ConsumerState)
    ensures next.control == state.control
    ensures next.watermark >= state.watermark
  {
    match Decode(codec, frame)
    case None => state
    case Some(event) =>
      var watermark := Max(state.watermark, event.timeUs);
      if event.kind != "commit" then state.(watermark := watermark)
      else
        match codec.toValue(event)
        case None => state.(watermark := watermark)
        case Some(value) =>
          state.(watermark := watermark, table := InsertMatches(engine, feedMatchers, value, event, state.table, now))
  }

  /** The timer: the watermark, in decimal, becomes the checkpoint of the Jetstream host. */
  function Flush(hostname: string, state: ConsumerState, now: int): (next: ConsumerState)
    ensures forall source :: source != hostname ==>
      (source in next.control <==> source in state.control)
      && (source in next.control ==> next.control[source] == state.control[source])
    ensures next.watermark == state.watermark && next.table == state.table
  {
    state.(control := state.control[hostname := ControlRow(NatToString(state.watermark), now)])
  }

  /** The loop over the wake-ups, until cancellation, the end of the stream or the last wake-up. */
  function Run(engine: PathEngine, feedMatchers: seq<FeedMatcher>, codec: Codec, hostname: string,
               state: ConsumerState, wakeups: seq<Wakeup>): (final: ConsumerState)
    ensures final.watermark >= state.watermark
    ensures wakeups == [] || wakeups[0].Cancelled? || (wakeups[0].Next? && wakeups[0].item.None?) ==> final == state
    decreases |wakeups|
  {
    if wakeups == [] then state
    else
      match wakeups[0]
      case Cancelled => state
      case Timer(now) => Run(engine, feedMatchers, codec, hostname, Flush(hostname, state, now), wakeups[1..])
      case Next(None, _) => state
      case Next(Some(frame), now) =>
        Run(engine, feedMatchers, codec, hostname, Step(engine, feedMatchers, codec, state, frame, now), wakeups[1..])
  }

  // ------------------------------------------------------------ properties of a run

  /** The events decoded before the run stops, in order. */
  function Events(codec: Codec, wakeups: seq<Wakeup>): seq<Event>
    decreases |wakeups|
  {
    if wakeups == [] then []
    else
      match wakeups[0]
      case Cancelled => []
      case Timer(_) => Events(codec, wakeups[1..])
      case Next(None, _) => []
      case Next(Some(frame), _) =>
        (match Decode(codec, frame) case Some(e) => [e] case None => []) + Events(codec, wakeups[1..])
  }

  /** The running maximum of `w` and the events' times. */
  function MaxTime(w: u64, events: seq<Event>): u64
    decreases |events|
  {
    if events == [] then w else MaxTime(Max(w, events[0].timeUs), events[1..])
  }

  /** The running maximum is the largest of its start and the times, and is one of them. */
  lemma {:induction false} MaxTimeBounds(w: u64, events: seq<Event>)
    ensures MaxTime(w, events) >= w
    ensures forall i :: 0 <= i < |events| ==> events[i].timeUs <= MaxTime(w, events)
    ensures MaxTime(w, events) == w || exists i :: 0 <= i < |events| && MaxTime(w, events) == events[i].timeUs
    decreases |events|
  {
    if events != [] {
      var rest := events[1..];
      MaxTimeBounds(Max(w, events[0].timeUs), rest);
      forall i | 1 <= i < |events|
        ensures events[i].timeUs <= MaxTime(w, events)
      {
        assert events[i] == rest[i - 1];
      }
      if MaxTime(w, events) != Max(w, events[0].timeUs) {
        var j :| 0 <= j < |rest| && MaxTime(w, events) == rest[j].timeUs;
        assert events[j + 1] == rest[j];
      }
    }
  }

  /**
   * The watermark after a run is the running maximum of its start and the time
   * of every event decoded, of whatever kind, and nothing else moves it.
   */
  lemma {:induction false} RunWatermark(engine: PathEngine, feedMatchers: seq<FeedMatcher>, codec: Codec,
                                        hostname: string, state: ConsumerState, wakeups: seq<Wakeup>)
    ensures Run(engine, feedMatchers, codec, hostname, state, wakeups).watermark
         == MaxTime(state.watermark, Events(codec, wakeups))
    decreases |wakeups|
  {
    if wakeups != [] {
      match wakeups[0]
      case Cancelled =>
      case Timer(now) =>
        RunWatermark(engine, feedMatchers, codec, hostname, Flush(hostname, state, now), wakeups[1..]);
      case Next(None, _) =>
      case Next(Some(frame), now) =>
        var next := Step(engine, feedMatchers, codec, state, frame, now);
        RunWatermark(engine, feedMatchers, codec, hostname, next, wakeups[1..]);
        var rest := Events(codec, wakeups[1..]);
        if Decode(codec, frame).Some? {
          var e := Decode(codec, frame).value;
          assert next.watermark == Max(state.watermark, e.timeUs);
          assert Events(codec, wakeups) == [e] + rest;
          assert ([e] + rest)[1..] == rest;
          assert MaxTime(state.watermark, [e] + rest) == MaxTime(Max(state.watermark, e.timeUs), rest);
        } else {
          assert next == state;
          assert Events(codec, wakeups) == [] + rest;
          assert [] + rest == rest;
        }
    }
  }

  /** The watermark never decreases, and after a run it is at least every decoded event's time. */
  lemma {:induction false} WatermarkNeverDecreases(engine: PathEngine, feedMatchers: seq<FeedMatcher>, codec: Codec,
                                                   hostname: string, state: ConsumerState, wakeups: seq<Wakeup>)
    ensures var final := Run(engine, feedMatchers, codec, hostname, state, wakeups);
      && final.watermark >= state.watermark
      && forall e :: e in Events(codec, wakeups) ==> e.timeUs <= final.watermark
  {
    RunWatermark(engine, feedMatchers, codec, hostname, state, wakeups);
    MaxTimeBounds(state.watermark, Events(codec, wakeups));
  }

  /** An error, a non-binary frame or a payload that does not decode changes nothing. */
  lemma {:induction false} SkippedFrameChangesNothing(engine: PathEngine, feedMatchers: seq<FeedMatcher>, codec: Codec,
                                                      state: ConsumerState, frame: Frame, now: int)
    requires Decode(codec, frame).None?
    ensures Step(engine, feedMatchers, codec, state, frame, now) == state
  {
  }

  /** An event that is not a commit moves the watermark and writes nothing. */
  lemma {:induction false} NonCommitOnlyMovesWatermark(engine: PathEngine, feedMatchers: seq<FeedMatcher>, codec: Codec,
                                                       state: ConsumerState, frame: Frame, now: int)
    requires Decode(codec, frame).Some? && Decode(codec, frame).value.kind != "commit"
    ensures var next := Step(engine, feedMatchers, codec, state, frame, now);
      && next.watermark == Max(state.watermark, Decode(codec, frame).value.timeUs)
      && next.table == state.table
      && next.control == state.control
  {
  }

  /** The row an event stores for a feed. */
  function StoredRow(feed: string, event: Event, now: int): Row
    requires ToPostStrongRef(event).Some?
  {
    var strongRef := ToPostStrongRef(event).value;
    Row(NewFeedContent(feed, strongRef.0, event.timeUs, strongRef.1), now)
  }

  /** One more matcher: its feed's row is upserted when it matches, and nothing happens otherwise. */
  lemma {:induction false} InsertMatchesStep(engine: PathEngine, feedMatchers: seq<FeedMatcher>, value: Json,
                                             event: Event, table: seq<Row>, now: int)
    requires ToPostStrongRef(event).Some? && feedMatchers != []
    ensures var n := |feedMatchers| - 1;
      var before := InsertMatches(engine, feedMatchers[..n], value, event, table, now);
      var added := StoredRow(feedMatchers[n].feed, event, now);
      forall r :: r in InsertMatches(engine, feedMatchers, value, event, table, now) <==>
        if FeedMatches(engine, feedMatchers[n], value)
        then r == added || (r in before && !SameEntry(r.content, added.content))
        else r in before
  {
    var n := |feedMatchers| - 1;
    var before := InsertMatches(engine, feedMatchers[..n], value, event, table, now);
    var added := StoredRow(feedMatchers[n].feed, event, now);
    if FeedMatches(engine, feedMatchers[n], value) {
      assert InsertMatches(engine, feedMatchers, value, event, table, now) == Upsert(before, added.content, now);
    }
  }

  /** For a created record, every matching feed ends up holding the record's URI, cid and time. */
  lemma {:induction false} MatchingFeedsStored(engine: PathEngine, feedMatchers: seq<FeedMatcher>, value: Json,
                                               event: Event, table: seq<Row>, now: int)
    requires ToPostStrongRef(event).Some?
    ensures var result := InsertMatches(engine, feedMatchers, value, event, table, now);
      forall k :: 0 <= k < |feedMatchers| && FeedMatches(engine, feedMatchers[k], value) ==>
        StoredRow(feedMatchers[k].feed, event, now) in result
    decreases |feedMatchers|
  {
    if feedMatchers != [] {
      var n := |feedMatchers| - 1;
      var init := feedMatchers[..n];
      MatchingFeedsStored(engine, init, value, event, table, now);
      InsertMatchesStep(engine, feedMatchers, value, event, table, now);
      var before := InsertMatches(engine, init, value, event, table, now);
      var result := InsertMatches(engine, feedMatchers, value, event, table, now);
      var added := StoredRow(feedMatchers[n].feed, event, now);
      forall k | 0 <= k < |feedMatchers| && FeedMatches(engine, feedMatchers[k], value)
        ensures StoredRow(feedMatchers[k].feed, event, now) in result
      {
        var stored := StoredRow(feedMatchers[k].feed, event, now);
        if k < n {
          assert init[k] == feedMatchers[k];
          assert stored in before;
          if FeedMatches(engine, feedMatchers[n], value) && SameEntry(stored.content, added.content) {
            assert stored == added;
          }
        }
      }
    }
  }

  /** Every row stored for a created record is one that was there before or the row of a matching feed. */
  lemma {:induction false} OnlyMatchesStored(engine: PathEngine, feedMatchers: seq<FeedMatcher>, value: Json,
                                             event: Event, table: seq<Row>, now: int)
    requires ToPostStrongRef(event).Some?
    ensures forall r :: r in InsertMatches(engine, feedMatchers, value, event, table, now) ==>
      (r in table ||
       exists k :: 0 <= k < |feedMatchers| && FeedMatches(engine, feedMatchers[k], value) &&
                   r == StoredRow(feedMatchers[k].feed, event, now))
    decreases |feedMatchers|
  {
    if feedMatchers != [] {
      var n := |feedMatchers| - 1;
      var init := feedMatchers[..n];
      OnlyMatchesStored(engine, init, value, event, table, now);
      InsertMatchesStep(engine, feedMatchers, value, event, table, now);
      var before := InsertMatches(engine, init, value, event, table, now);
      var result := InsertMatches(engine, feedMatchers, value, event, table, now);
      forall r | r in result
        ensures r in table || exists k :: 0 <= k < |feedMatchers| && FeedMatches(engine, feedMatchers[k], value) &&
                                       r == StoredRow(feedMatchers[k].feed, event, now)
      {
        if r in before && r !in table {
          var k :| 0 <= k < n && FeedMatches(engine, init[k], value) && r == StoredRow(init[k].feed, event, now);
          assert init[k] == feedMatchers[k];
        }
      }
    }
  }

  /** A flush makes the checkpoint read back as the current watermark. */
  lemma {:induction false} FlushCheckpoint(hostname: string, state: ConsumerState, now: int)
    ensures Checkpoint(Flush(hostname, state, now).control, hostname) == Some(state.watermark)
  {
    CheckpointLastWriteWins(state.control, hostname, state.watermark, now);
  }

  /**
   * The watermark starts at 0 whatever checkpoint the run resumed from, so a
   * flush before any event is decoded writes 0 over it.
   */
  lemma {:induction false} FlushBeforeAnyEventWritesZero(engine: PathEngine, feedMatchers: seq<FeedMatcher>, codec: Codec,
                                                         hostname: string, table: seq<Row>,
                                                         control: map<string, ControlRow>, now: int)
    ensures Checkpoint(Run(engine, feedMatchers, codec, hostname, ConsumerState(0, table, control), [Timer(now)]).control, hostname) == Some(0)
  {
    var state := ConsumerState(0, table, control);
    assert [Timer(now)][1..] == [];
    FlushCheckpoint(hostname, state, now);
  }

  // ------------------------------------------------------------ the loop

  /** The matching step of a commit event: every feed that matches stores the strong reference. */
  method StoreMatches(store: Store, engine: PathEngine, feedMatchers: seq<FeedMatcher>, value: Json, event: Event, now: int)
    requires store.Valid()
    modifies store
    ensures store.Valid()
    ensures store.feedContent == InsertMatches(engine, feedMatchers, value, event, old(store.feedContent), now)
    ensures store.consumerControl == old(store.consumerControl)
    ensures store.verificationMethodCache == old(store.verificationMethodCache)
  {
    for k := 0 to |feedMatchers|
      invariant store.Valid()
      invariant store.consumerControl == old(store.consumerControl)
      invariant store.verificationMethodCache == old(store.verificationMethodCache)
      invariant store.feedContent == InsertMatches(engine, feedMatchers[..k], value, event, old(store.feedContent), now)
    {
      assert feedMatchers[..k + 1][..k] == feedMatchers[..k];
      var matches := FeedMatcherMatches(engine, feedMatchers[k], value);
      if matches {
        var strongRef := ToPostStrongRef(event);
        if strongRef.Some? {
          var (uri, cid) := strongRef.value;
          var feedContent := NewFeedContent(feedMatchers[k].feed, uri, event.timeUs, cid);
          store.FeedContentInsert(feedContent, now);
        }
      }
    }
    assert feedMatchers[..|feedMatchers|] == feedMatchers;
  }

  /** One binary item of the stream: decode it, raise the watermark, store what a commit matches. */
  method HandleFrame(store: Store, engine: PathEngine, feedMatchers: seq<FeedMatcher>, codec: Codec,
                     timeUsec: u64, frame: Frame, now: int) returns (next: u64)
    requires store.Valid()
    modifies store
    ensures store.Valid()
    ensures ConsumerState(next, store.feedContent, store.consumerControl)
         == Step(engine, feedMatchers, codec, ConsumerState(timeUsec, old(store.feedContent), old(store.consumerControl)), frame, now)
    ensures store.verificationMethodCache == old(store.verificationMethodCache)
  {
    next := timeUsec;
    var event := Decode(codec, frame);
    if event.Some? {
      var e := event.value;
      next := Max(timeUsec, e.timeUs);
      if e.kind == "commit" {
        var eventValue := codec.toValue(e);
        if eventValue.Some? {
          StoreMatches(store, engine, feedMatchers, eventValue.value, e, now);
        }
      }
    }
  }

  /**
   * `ConsumerTask::run_background` after the connection is made: reads the
   * checkpoint, subscribes from it, then runs from a watermark of 0.
   */
  method RunBackground(store: Store, engine: PathEngine, feedMatchers: seq<FeedMatcher>, codec: Codec,
                       hostname: string, wakeups: seq<Wakeup>)
    returns (update: SubscriberSourcedMessage, watermark: u64)
    requires store.Valid()
    modifies store
    ensures store.Valid()
    ensures update == OptionsUpdate([POST_COLLECTION], [], MAX_MESSAGE_SIZE, Checkpoint(old(store.consumerControl), hostname))
    ensures var final := Run(engine, feedMatchers, codec, hostname,
                             ConsumerState(0, old(store.feedContent), old(store.consumerControl)), wakeups);
      && watermark == final.watermark
      && store.feedContent == final.table
      && store.consumerControl == final.control
    ensures store.verificationMethodCache == old(store.verificationMethodCache)
  {
    var lastTimeUs := store.ConsumerControlGet(hostname);
    update := OptionsUpdate([POST_COLLECTION], [], MAX_MESSAGE_SIZE, lastTimeUs);
    var timeUsec: u64 := 0;
    ghost var final := Run(engine, feedMatchers, codec, hostname,
                           ConsumerState(0, store.feedContent, store.consumerControl), wakeups);
    var i := 0;
    while i < |wakeups|
      invariant 0 <= i <= |wakeups|
      decreases |wakeups| - i
      invariant store.Valid()
      invariant store.verificationMethodCache == old(store.verificationMethodCache)
      invariant final == Run(engine, feedMatchers, codec, hostname,
                             ConsumerState(timeUsec, store.feedContent, store.consumerControl), wakeups[i..])
    {
      assert wakeups[i..][1..] == wakeups[i + 1..];
      ghost var state := ConsumerState(timeUsec, store.feedContent, store.consumerControl);
      match wakeups[i] {
      case Cancelled =>
        break;
      case Timer(now) =>
        assert final == Run(engine, feedMatchers, codec, hostname, Flush(hostname, state, now), wakeups[i + 1..]);
        store.ConsumerControlInsert(hostname, NatToString(timeUsec), now);
        assert ConsumerState(timeUsec, store.feedContent, store.consumerControl) == Flush(hostname, state, now);
      case Next(None, _) =>
        break;
      case Next(Some(frame), now) =>
        assert final == Run(engine, feedMatchers, codec, hostname, Step(engine, feedMatchers, codec, state, frame, now), wakeups[i + 1..]);
        timeUsec := HandleFrame(store, engine, feedMatchers, codec, timeUsec, frame, now);
      }
      i := i + 1;
    }
    watermark := timeUsec;
  }
}
