/**
 * The three tables of the store, kept in memory: `feed_content` as a sequence
 * of rows (its order stands for the engine's order among rows the SQL leaves
 * unordered), `consumer_control` and `verification_method_cache` as maps keyed
 * by their primary key.  The SQL statements become functions over the tables;
 * the `Store` class holds the tables and changes them in place.
 */
module Storage {
  import opened Wrappers
  import opened Ints
  import opened Strings

  // ------------------------------------------------------------ rows

  /** A stored post reference; its time is kept as two u32 columns. */
  datatype FeedContent = FeedContent(feedId: string, uri: string, indexedAt: u32, indexedAtMore: u32, cid: string)

  /** A `feed_content` row: the content and the moment it was written. */
  datatype Row = Row(content: FeedContent, updatedAt: int)

  /** The row value `(indexed_at, indexed_at_more, cid)` the pages are ordered by. */
  datatype Key = Key(indexedAt: u32, indexedAtMore: u32, cid: string)

  /** A page cursor: the time it was written with, its two halves and the cid. */
  datatype Cursor = Cursor(timeUs: u64, indexedAt: u32, indexedAtMore: u32, cid: string)

  /** `FeedContent::new`: the time goes in as the two halves of its big-endian bytes. */
  function NewFeedContent(feedId: string, uri: string, timeUs: u64, cid: string): (c: FeedContent)
    ensures c.feedId == feedId && c.uri == uri && c.cid == cid
  {
    var halves := SplitU64(timeUs);
    FeedContent(feedId, uri, halves.0, halves.1, cid)
  }

  /** `FeedContent::time_us`: the two halves read back as one big-endian u64. */
  function TimeUs(c: FeedContent): (t: u64)
    ensures t / TWO_32 == c.indexedAt && t % TWO_32 == c.indexedAtMore
  {
    var t := JoinU64(c.indexedAt, c.indexedAtMore);
    U64SplitOfJoin(c.indexedAt, c.indexedAtMore);
    t
  }

  /** Every u64 time, 0 and 2^64-1 included, survives `new` and `time_us`. */
  lemma {:induction false} TimeUsOfNew(feedId: string, uri: string, t: u64, cid: string)
    ensures TimeUs(NewFeedContent(feedId, uri, t, cid)) == t
  {
    U64JoinOfSplit(t);
  }

  /** The stored halves order contents exactly as their times are ordered. */
  lemma {:induction false} NewOrdersByTime(a: FeedContent, b: FeedContent)
    ensures TimeUs(a) < TimeUs(b) <==>
      (a.indexedAt < b.indexedAt || (a.indexedAt == b.indexedAt && a.indexedAtMore < b.indexedAtMore))
  {
    SplitPreservesOrder(TimeUs(a), TimeUs(b));
  }

  function RowKey(r: Row): Key {
    Key(r.content.indexedAt, r.content.indexedAtMore, r.content.cid)
  }

  function CursorKey(c: Cursor): Key {
    Key(c.indexedAt, c.indexedAtMore, c.cid)
  }

  function ContentKey(c: FeedContent): Key {
    Key(c.indexedAt, c.indexedAtMore, c.cid)
  }

  // ------------------------------------------------------------ row-value order

  /** SQLite's row-value `<`: lexicographic, the cid compared byte-wise. */
  predicate KeyLt(a: Key, b: Key) {
    || a.indexedAt < b.indexedAt
    || (a.indexedAt == b.indexedAt && a.indexedAtMore < b.indexedAtMore)
    || (a.indexedAt == b.indexedAt && a.indexedAtMore == b.indexedAtMore && StrLt(a.cid, b.cid))
  }

  lemma {:induction false} KeyLtIrreflexive(a: Key)
    ensures !KeyLt(a, a)
  {
    StrLtIrreflexive(a.cid);
  }

  lemma {:induction false} KeyLtTransitive(a: Key, b: Key, c: Key)
    requires KeyLt(a, b) && KeyLt(b, c)
    ensures KeyLt(a, c)
  {
    if a.indexedAt == b.indexedAt == c.indexedAt && a.indexedAtMore == b.indexedAtMore == c.indexedAtMore {
      StrLtTransitive(a.cid, b.cid, c.cid);
    }
  }

  lemma {:induction false} KeyLtTotal(a: Key, b: Key)
    requires a != b
    ensures KeyLt(a, b) || KeyLt(b, a)
  {
    if a.indexedAt == b.indexedAt && a.indexedAtMore == b.indexedAtMore {
      StrLtTotal(a.cid, b.cid);
    }
  }

  /** A key not above `a` is below everything `a` is below. */
  lemma {:induction false} KeyLeLt(a: Key, b: Key, c: Key)
    requires !KeyLt(a, b) && KeyLt(a, c)
    ensures KeyLt(b, c)
  {
    if a != b {
      KeyLtTotal(a, b);
      KeyLtTransitive(b, a, c);
    }
  }

  // ------------------------------------------------------------ WHERE

  /** The rows that satisfy `p`, in table order. */
  function Filter(p: Row -> bool, s: seq<Row>): (r: seq<Row>)
    ensures |r| <= |s|
    ensures forall x {:trigger x in r} :: x in r <==> x in s && p(x)
  {
    if s == [] then []
    else
      assert s == [s[0]] + s[1..];
      (if p(s[0]) then [s[0]] else []) + Filter(p, s[1..])
  }

  lemma {:induction false} FilterConcat(p: Row -> bool, a: seq<Row>, b: seq<Row>)
    ensures Filter(p, a + b) == Filter(p, a) + Filter(p, b)
  {
    if a == [] {
      assert a + b == b;
    } else {
      var head := if p(a[0]) then [a[0]] else [];
      assert (a + b)[0] == a[0];
      assert (a + b)[1..] == a[1..] + b;
      FilterConcat(p, a[1..], b);
      assert Filter(p, a + b) == head + (Filter(p, a[1..]) + Filter(p, b));
      assert Filter(p, a) == head + Filter(p, a[1..]);
    }
  }

  /** Filtering one more row of a prefix appends that row when it is kept. */
  lemma {:induction false} FilterPrefixStep(p: Row -> bool, s: seq<Row>, i: nat)
    requires i < |s|
    ensures Filter(p, s[..i + 1]) == Filter(p, s[..i]) + (if p(s[i]) then [s[i]] else [])
  {
    FilterConcat(p, s[..i], [s[i]]);
    assert s[..i + 1] == s[..i] + [s[i]];
    assert [s[i]][1..] == [];
  }

  lemma {:induction false} FilterAll(p: Row -> bool, s: seq<Row>)
    requires forall x :: x in s ==> p(x)
    ensures Filter(p, s) == s
  {
    if s != [] {
      assert forall x :: x in s[1..] ==> x in s;
      FilterAll(p, s[1..]);
    }
  }

  lemma {:induction false} FilterNone(p: Row -> bool, s: seq<Row>)
    requires forall x :: x in s ==> !p(x)
    ensures Filter(p, s) == []
  {
    if s != [] {
      assert forall x :: x in s[1..] ==> x in s;
      FilterNone(p, s[1..]);
    }
  }

  /** Two conditions that agree on the rows select the same rows. */
  lemma {:induction false} FilterAgree(p: Row -> bool, q: Row -> bool, s: seq<Row>)
    requires forall x :: x in s ==> p(x) == q(x)
    ensures Filter(p, s) == Filter(q, s)
  {
    if s != [] {
      assert forall x :: x in s[1..] ==> x in s;
      FilterAgree(p, q, s[1..]);
    }
  }

  /** Filtering twice is filtering once by both conditions. */
  lemma {:induction false} FilterFilter(p: Row -> bool, q: Row -> bool, pq: Row -> bool, s: seq<Row>)
    requires forall x :: pq(x) == (p(x) && q(x))
    ensures Filter(p, Filter(q, s)) == Filter(pq, s)
  {
    if s != [] {
      assert s == [s[0]] + s[1..];
      FilterConcat(p, if q(s[0]) then [s[0]] else [], Filter(q, s[1..]));
      FilterFilter(p, q, pq, s[1..]);
      if q(s[0]) {
        assert Filter(p, [s[0]]) == (if p(s[0]) then [s[0]] else []) by {
          assert [s[0]][1..] == [];
        }
      }
    }
  }

  // ------------------------------------------------------------ ORDER BY ... DESC

  /** Descending by key: no row is below a later one. */
  predicate SortedDesc(s: seq<Row>) {
    forall i, j :: 0 <= i < j < |s| ==> !KeyLt(RowKey(s[i]), RowKey(s[j]))
  }

  /** Where `r` goes in a descending list: after every row it is not above. */
  function InsertPoint(r: Row, s: seq<Row>): (k: nat)
    ensures k <= |s|
    ensures forall i :: 0 <= i < k ==> !KeyLt(RowKey(s[i]), RowKey(r))
    ensures k < |s| ==> KeyLt(RowKey(s[k]), RowKey(r))
  {
    if s == [] then 0
    else if KeyLt(RowKey(s[0]), RowKey(r)) then 0
    else 1 + InsertPoint(r, s[1..])
  }

  function InsertDesc(r: Row, s: seq<Row>): seq<Row> {
    var k := InsertPoint(r, s);
    s[..k] + [r] + s[k..]
  }

  /**
   * The descending order the pages use.  Rows with equal keys keep their table
   * order, standing for the order the engine happens to return them in.
   */
  function SortDesc(s: seq<Row>): (sorted: seq<Row>)
    ensures |sorted| == |s|
  {
    if s == [] then []
    else InsertDesc(s[|s| - 1], SortDesc(s[..|s| - 1]))
  }

  /** Every row after the insertion point is below the inserted row. */
  lemma {:induction false} TailBelow(r: Row, s: seq<Row>)
    requires SortedDesc(s)
    ensures forall j :: InsertPoint(r, s) <= j < |s| ==> KeyLt(RowKey(s[j]), RowKey(r))
  {
    var k := InsertPoint(r, s);
    forall j | k <= j < |s|
      ensures KeyLt(RowKey(s[j]), RowKey(r))
    {
      if j > k {
        KeyLeLt(RowKey(s[k]), RowKey(s[j]), RowKey(r));
      }
    }
  }

  /** Where each row of `InsertDesc(r, s)` comes from. */
  lemma {:induction false} InsertDescAt(r: Row, s: seq<Row>, x: nat)
    requires x <= |s|
    ensures var k := InsertPoint(r, s);
      |InsertDesc(r, s)| == |s| + 1
      && InsertDesc(r, s)[x] == if x < k then s[x] else if x == k then r else s[x - 1]
  {
  }

  lemma {:induction false} InsertKeepsSorted(r: Row, s: seq<Row>)
    requires SortedDesc(s)
    ensures SortedDesc(InsertDesc(r, s))
  {
    var k := InsertPoint(r, s);
    var t := InsertDesc(r, s);
    TailBelow(r, s);
    InsertDescAt(r, s, 0);
    forall i, j | 0 <= i < j < |t|
      ensures !KeyLt(RowKey(t[i]), RowKey(t[j]))
    {
      InsertDescAt(r, s, i);
      InsertDescAt(r, s, j);
      if i == k {
        if KeyLt(RowKey(r), RowKey(s[j - 1])) {
          KeyLtTransitive(RowKey(s[j - 1]), RowKey(r), RowKey(s[j - 1]));
          KeyLtIrreflexive(RowKey(s[j - 1]));
        }
      }
    }
  }

  lemma {:induction false} InsertPermutes(r: Row, s: seq<Row>)
    ensures multiset(InsertDesc(r, s)) == multiset(s) + multiset{r}
  {
    var k := InsertPoint(r, s);
    assert s == s[..k] + s[k..];
  }

  lemma {:induction false} MultisetOfLast(s: seq<Row>)
    requires s != []
    ensures multiset(s) == multiset(s[..|s| - 1]) + multiset{s[|s| - 1]}
  {
    assert s == s[..|s| - 1] + [s[|s| - 1]];
  }

  lemma {:induction false} SortDescSortedPermutation(s: seq<Row>)
    ensures SortedDesc(SortDesc(s))
    ensures multiset(SortDesc(s)) == multiset(s)
    decreases |s|
  {
    if s != [] {
      var init := s[..|s| - 1];
      var last := s[|s| - 1];
      assert SortDesc(s) == InsertDesc(last, SortDesc(init));
      SortDescSortedPermutation(init);
      InsertKeepsSorted(last, SortDesc(init));
      assert multiset(SortDesc(s)) == multiset(SortDesc(init)) + multiset{last} by {
        InsertPermutes(last, SortDesc(init));
      }
      MultisetOfLast(s);
    }
  }

  /** Inserting before the first row that is below `r`, after rows that are not. */
  lemma {:induction false} InsertBetween(r: Row, a: seq<Row>, b: seq<Row>)
    requires forall x :: x in a ==> !KeyLt(RowKey(x), RowKey(r))
    requires b != [] ==> KeyLt(RowKey(b[0]), RowKey(r))
    ensures InsertPoint(r, a + b) == |a|
  {
    if a != [] {
      assert a[0] in a;
      assert (a + b)[1..] == a[1..] + b;
      assert forall x :: x in a[1..] ==> x in a;
      InsertBetween(r, a[1..], b);
    } else {
      assert a + b == b;
    }
  }

  /** Filtering distributes over the three pieces of an insertion. */
  lemma {:induction false} FilterThree(p: Row -> bool, a: seq<Row>, x: Row, b: seq<Row>)
    ensures Filter(p, a + [x] + b) == Filter(p, a) + (if p(x) then [x] else []) + Filter(p, b)
  {
    FilterConcat(p, a + [x], b);
    FilterConcat(p, a, [x]);
    assert Filter(p, [x]) == (if p(x) then [x] else []) by {
      assert [x][1..] == [];
    }
  }

  /** The rows kept from before the insertion point are not below the inserted row. */
  lemma {:induction false} KeptHeadNotBelow(p: Row -> bool, x: Row, sorted: seq<Row>)
    ensures forall y :: y in Filter(p, sorted[..InsertPoint(x, sorted)]) ==> !KeyLt(RowKey(y), RowKey(x))
  {
    var k := InsertPoint(x, sorted);
    forall y | y in Filter(p, sorted[..k])
      ensures !KeyLt(RowKey(y), RowKey(x))
    {
      var i :| 0 <= i < k && sorted[..k][i] == y;
    }
  }

  /** The rows kept from the insertion point on are below the inserted row. */
  lemma {:induction false} KeptTailBelow(p: Row -> bool, x: Row, sorted: seq<Row>)
    requires SortedDesc(sorted)
    ensures forall y :: y in Filter(p, sorted[InsertPoint(x, sorted)..]) ==> KeyLt(RowKey(y), RowKey(x))
  {
    var k := InsertPoint(x, sorted);
    TailBelow(x, sorted);
    forall y | y in Filter(p, sorted[k..])
      ensures KeyLt(RowKey(y), RowKey(x))
    {
      var j :| 0 <= j < |sorted| - k && sorted[k..][j] == y;
      assert sorted[k + j] == y;
    }
  }

  /** Inserting into the filtered list lands just after the kept rows before the insertion point. */
  lemma {:induction false} FilterInsertPoint(p: Row -> bool, x: Row, sorted: seq<Row>)
    requires SortedDesc(sorted)
    ensures InsertPoint(x, Filter(p, sorted)) == |Filter(p, sorted[..InsertPoint(x, sorted)])|
  {
    var k := InsertPoint(x, sorted);
    var a, b := Filter(p, sorted[..k]), Filter(p, sorted[k..]);
    assert sorted == sorted[..k] + sorted[k..];
    FilterConcat(p, sorted[..k], sorted[k..]);
    KeptHeadNotBelow(p, x, sorted);
    KeptTailBelow(p, x, sorted);
    if b != [] {
      assert b[0] in b;
    }
    InsertBetween(x, a, b);
  }

  /** Filtering a descending list with a row inserted is inserting into the filtered list. */
  lemma {:induction false} FilterInsert(p: Row -> bool, x: Row, sorted: seq<Row>)
    requires SortedDesc(sorted)
    ensures Filter(p, InsertDesc(x, sorted)) == if p(x) then InsertDesc(x, Filter(p, sorted)) else Filter(p, sorted)
  {
    var k := InsertPoint(x, sorted);
    var a, b := Filter(p, sorted[..k]), Filter(p, sorted[k..]);
    assert sorted == sorted[..k] + sorted[k..];
    FilterConcat(p, sorted[..k], sorted[k..]);
    FilterThree(p, sorted[..k], x, sorted[k..]);
    if p(x) {
      FilterInsertPoint(p, x, sorted);
      assert (a + b)[..|a|] == a && (a + b)[|a|..] == b;
    } else {
      assert a + [] == a;
    }
  }

  /** Sorting then filtering is filtering then sorting: the sort is stable. */
  lemma {:induction false} SortFilterCommute(p: Row -> bool, s: seq<Row>)
    ensures SortDesc(Filter(p, s)) == Filter(p, SortDesc(s))
    decreases |s|
  {
    if s != [] {
      var init, x := s[..|s| - 1], s[|s| - 1];
      assert s == init + [x];
      FilterConcat(p, init, [x]);
      assert Filter(p, [x]) == (if p(x) then [x] else []) by {
        assert [x][1..] == [];
      }
      SortFilterCommute(p, init);
      SortDescSortedPermutation(init);
      FilterInsert(p, x, SortDesc(init));
      assert SortDesc(s) == InsertDesc(x, SortDesc(init));
      if p(x) {
        var f := Filter(p, init) + [x];
        assert Filter(p, s) == f;
        assert f[..|f| - 1] == Filter(p, init);
        assert SortDesc(f) == InsertDesc(x, SortDesc(Filter(p, init)));
      } else {
        assert Filter(p, s) == Filter(p, init) + [];
        assert Filter(p, s) == Filter(p, init);
      }
    }
  }

  // ------------------------------------------------------------ feed_content_paginate

  /** `limit.unwrap_or(20).clamp(1, 100)`. */
  function PageLimit(limit: Option<u16>): (n: nat)
    ensures 1 <= n <= 100
    ensures limit.None? ==> n == 20
    ensures limit.Some? && 1 <= limit.value <= 100 ==> n == limit.value
    ensures limit.Some? && limit.value > 100 ==> n == 100
    ensures limit == Some(0) ==> n == 1
    ensures limit == Some(0) ==> n == 1
  {
    var requested := if limit.Some? then limit.value else 20;
    if requested < 1 then 1 else if requested > 100 then 100 else requested
  }

  function Min(a: nat, b: nat): nat { if a < b then a else b }

  /** `WHERE feed_id = ?`. */
  function FeedIs(feedId: string): Row -> bool {
    (r: Row) => r.content.feedId == feedId
  }

  function NotFeed(feedId: string): Row -> bool {
    (r: Row) => r.content.feedId != feedId
  }

  /** `(indexed_at, indexed_at_more, cid) < (?, ?, ?)`. */
  function Below(k: Key): Row -> bool {
    (r: Row) => KeyLt(RowKey(r), k)
  }

  /** The WHERE clause of the page query, with or without a cursor. */
  function Selects(feedId: string, cursor: Option<Cursor>): Row -> bool {
    (r: Row) => r.content.feedId == feedId && (cursor.None? || KeyLt(RowKey(r), CursorKey(cursor.value)))
  }

  function Contents(rows: seq<Row>): (contents: seq<FeedContent>)
    ensures |contents| == |rows|
    ensures forall i :: 0 <= i < |rows| ==> contents[i] == rows[i].content
  {
    seq(|rows|, i requires 0 <= i < |rows| => rows[i].content)
  }

  /**
   * `feed_content_paginate`: the feed's rows (below the cursor, when there is
   * one) in descending key order, cut to the clamped limit.
   */
  function Paginate(table: seq<Row>, feedId: string, limit: Option<u16>, cursor: Option<Cursor>): (page: seq<FeedContent>)
    ensures |page| == Min(PageLimit(limit), |Filter(Selects(feedId, cursor), table)|)
    ensures |page| <= PageLimit(limit)
  {
    var sorted := SortDesc(Filter(Selects(feedId, cursor), table));
    Contents(sorted[..Min(PageLimit(limit), |sorted|)])
  }

  /**
   * A page holds only the feed's stored contents, below the cursor, in
   * descending key order, and as many as the limit allows.
   */
  lemma {:induction false} PaginateSelects(table: seq<Row>, feedId: string, limit: Option<u16>, cursor: Option<Cursor>)
    ensures var page := Paginate(table, feedId, limit, cursor);
      && (forall i :: 0 <= i < |page| ==> page[i].feedId == feedId)
      && (forall i :: 0 <= i < |page| ==> exists r :: r in table && r.content == page[i])
      && (cursor.Some? ==> forall i :: 0 <= i < |page| ==> KeyLt(ContentKey(page[i]), CursorKey(cursor.value)))
      && (forall i, j :: 0 <= i < j < |page| ==> !KeyLt(ContentKey(page[i]), ContentKey(page[j])))
  {
    var selected := Filter(Selects(feedId, cursor), table);
    var sorted := SortDesc(selected);
    SortDescSortedPermutation(selected);
    var page := Paginate(table, feedId, limit, cursor);
    forall i | 0 <= i < |page|
      ensures sorted[i] in selected && page[i] == sorted[i].content
    {
      SortedRowSelected(selected, i);
    }
  }

  lemma {:induction false} SortedRowSelected(s: seq<Row>, i: nat)
    requires i < |SortDesc(s)|
    ensures SortDesc(s)[i] in s
  {
    SortDescSortedPermutation(s);
    assert SortDesc(s)[i] in multiset(SortDesc(s));
  }

  /** The cursor the handler hands out for a row: its time and its cid. */
  function CursorAt(c: FeedContent): (cursor: Cursor)
    ensures CursorKey(cursor) == ContentKey(c)
  {
    Cursor(TimeUs(c), c.indexedAt, c.indexedAtMore, c.cid)
  }

  /** No two rows share a key. */
  predicate KeysDistinct(s: seq<Row>) {
    forall i, j :: 0 <= i < j < |s| ==> RowKey(s[i]) != RowKey(s[j])
  }

  /** Filtering a list is filtering its two halves. */
  lemma {:induction false} FilterSplit(p: Row -> bool, s: seq<Row>, n: nat)
    requires n <= |s|
    ensures Filter(p, s) == Filter(p, s[..n]) + Filter(p, s[n..])
  {
    assert s == s[..n] + s[n..];
    FilterConcat(p, s[..n], s[n..]);
  }

  /** In a descending list, no row up to the `n`-th is below it. */
  lemma {:induction false} NoneBelowBefore(all: seq<Row>, n: nat)
    requires SortedDesc(all) && 1 <= n <= |all|
    ensures Filter(Below(RowKey(all[n - 1])), all[..n]) == []
  {
    var c := RowKey(all[n - 1]);
    forall x | x in all[..n]
      ensures !Below(c)(x)
    {
      var i :| 0 <= i < n && all[..n][i] == x;
      assert all[i] == x;
      KeyLtIrreflexive(c);
    }
    FilterNone(Below(c), all[..n]);
  }

  /** In a descending list of distinct keys, every row after the `n`-th is below it. */
  lemma {:induction false} AllBelowAfter(all: seq<Row>, n: nat)
    requires SortedDesc(all) && KeysDistinct(all) && 1 <= n <= |all|
    ensures Filter(Below(RowKey(all[n - 1])), all[n..]) == all[n..]
  {
    var c := RowKey(all[n - 1]);
    forall x | x in all[n..]
      ensures Below(c)(x)
    {
      var j :| 0 <= j < |all| - n && all[n..][j] == x;
      assert all[n + j] == x;
      KeyLtTotal(RowKey(x), c);
    }
    FilterAll(Below(c), all[n..]);
  }

  /** In a descending list of distinct keys, the rows below the `n`-th are those after it. */
  lemma {:induction false} BelowBoundary(all: seq<Row>, n: nat)
    requires SortedDesc(all) && KeysDistinct(all) && 1 <= n <= |all|
    ensures Filter(Below(RowKey(all[n - 1])), all) == all[n..]
  {
    var below := Below(RowKey(all[n - 1]));
    assert Filter(below, all[..n]) == [] by {
      NoneBelowBefore(all, n);
    }
    assert Filter(below, all[n..]) == all[n..] by {
      AllBelowAfter(all, n);
    }
    assert Filter(below, all) == [] + all[n..] by {
      FilterSplit(below, all, n);
    }
    assert [] + all[n..] == all[n..];
  }

  /** Without a cursor the page query selects exactly the feed's rows. */
  lemma {:induction false} SelectsWithoutCursor(table: seq<Row>, feedId: string)
    ensures Filter(Selects(feedId, None), table) == Filter(FeedIs(feedId), table)
  {
    FilterAgree(Selects(feedId, None), FeedIs(feedId), table);
  }

  /** With a cursor the page query selects the feed's rows below the cursor. */
  lemma {:induction false} SelectsWithCursor(table: seq<Row>, feedId: string, cursor: Cursor)
    ensures Filter(Selects(feedId, Some(cursor)), table) == Filter(Below(CursorKey(cursor)), Filter(FeedIs(feedId), table))
  {
    FilterFilter(Below(CursorKey(cursor)), FeedIs(feedId), Selects(feedId, Some(cursor)), table);
  }

  /** Without a cursor, a page is the head of the feed's rows in descending key order. */
  lemma {:induction false} PaginateFirstPage(table: seq<Row>, feedId: string, limit: Option<u16>)
    ensures var all := SortDesc(Filter(FeedIs(feedId), table));
      Paginate(table, feedId, limit, None) == Contents(all[..Min(PageLimit(limit), |all|)])
  {
    SelectsWithoutCursor(table, feedId);
  }

  /** With the cursor of the `n`-th row the query selects, in order, exactly the rows after it. */
  lemma {:induction false} RowsAfterCursor(table: seq<Row>, feedId: string, n: nat)
    requires var all := SortDesc(Filter(FeedIs(feedId), table)); 1 <= n <= |all| && KeysDistinct(all)
    ensures var all := SortDesc(Filter(FeedIs(feedId), table));
      SortDesc(Filter(Selects(feedId, Some(CursorAt(all[n - 1].content))), table)) == all[n..]
  {
    var feedRows := Filter(FeedIs(feedId), table);
    var all := SortDesc(feedRows);
    var cursor := CursorAt(all[n - 1].content);
    var c := RowKey(all[n - 1]);
    assert CursorKey(cursor) == c;
    SelectsWithCursor(table, feedId, cursor);
    SortDescSortedPermutation(feedRows);
    SortFilterCommute(Below(c), feedRows);
    BelowBoundary(all, n);
  }

  /**
   * Paging through a feed: feeding back the `n`-th row of the feed (in
   * descending key order) as the cursor gives the rows right after it, so no
   * row is repeated or skipped, provided no two of the feed's rows share
   * `(indexed_at, indexed_at_more, cid)`.  `PaginateFirstPage` gives the
   * first page.
   */
  lemma {:induction false} PaginateNextPage(table: seq<Row>, feedId: string, limit: Option<u16>, n: nat)
    requires var all := SortDesc(Filter(FeedIs(feedId), table)); 1 <= n <= |all| && KeysDistinct(all)
    ensures var all := SortDesc(Filter(FeedIs(feedId), table));
      Paginate(table, feedId, limit, Some(CursorAt(all[n - 1].content)))
        == Contents(all[n..][..Min(PageLimit(limit), |all| - n)])
  {
    var all := SortDesc(Filter(FeedIs(feedId), table));
    var sorted := SortDesc(Filter(Selects(feedId, Some(CursorAt(all[n - 1].content))), table));
    assert sorted == all[n..] by {
      RowsAfterCursor(table, feedId, n);
    }
    assert Paginate(table, feedId, limit, Some(CursorAt(all[n - 1].content))) == Contents(sorted[..Min(PageLimit(limit), |sorted|)]);
  }

  // ------------------------------------------------------------ feed_content_insert

  /** Rows for the same post in the same feed: the conflict key of the table. */
  predicate SameEntry(a: FeedContent, b: FeedContent) {
    a.feedId == b.feedId && a.uri == b.uri
  }

  function OtherEntry(c: FeedContent): Row -> bool {
    (r: Row) => !SameEntry(r.content, c)
  }

  /** At most one row per `(feed_id, uri)`. */
  predicate UniqueEntries(table: seq<Row>) {
    forall i, j :: 0 <= i < j < |table| ==> !SameEntry(table[i].content, table[j].content)
  }

  /** `INSERT OR REPLACE`: the old row for the same post and feed goes, the new one is stamped `now`. */
  function Upsert(table: seq<Row>, c: FeedContent, now: int): (r: seq<Row>)
    ensures |r| >= 1 && r[|r| - 1] == Row(c, now)
    ensures forall x :: x in r <==> x == Row(c, now) || (x in table && !SameEntry(x.content, c))
    ensures |r| <= |table| + 1
  {
    var kept := Filter(OtherEntry(c), table);
    assert forall x :: x in kept + [Row(c, now)] <==> x in kept || x == Row(c, now);
    kept + [Row(c, now)]
  }

  lemma {:induction false} FilterKeepsUnique(p: Row -> bool, s: seq<Row>)
    requires UniqueEntries(s)
    ensures UniqueEntries(Filter(p, s))
  {
    if s != [] {
      assert s == [s[0]] + s[1..];
      assert UniqueEntries(s[1..]) by {
        forall i, j | 0 <= i < j < |s[1..]|
          ensures !SameEntry(s[1..][i].content, s[1..][j].content)
        {
          assert s[1..][i] == s[i + 1] && s[1..][j] == s[j + 1];
        }
      }
      FilterKeepsUnique(p, s[1..]);
      var rest := Filter(p, s[1..]);
      forall y | y in rest
        ensures !SameEntry(s[0].content, y.content)
      {
        var j :| 0 <= j < |s[1..]| && s[1..][j] == y;
        assert s[j + 1] == y;
      }
    }
  }

  /**
   * After an insert the new row is the one row stored for its post and feed,
   * every other row is kept, and the table still has one row per post and feed.
   */
  lemma {:induction false} UpsertStores(table: seq<Row>, c: FeedContent, now: int)
    requires UniqueEntries(table)
    ensures var t := Upsert(table, c, now);
      && UniqueEntries(t)
      && (forall r :: r in t && SameEntry(r.content, c) ==> r == Row(c, now))
  {
    var kept := Filter(OtherEntry(c), table);
    FilterKeepsUnique(OtherEntry(c), table);
    var t := kept + [Row(c, now)];
    forall i, j | 0 <= i < j < |t|
      ensures !SameEntry(t[i].content, t[j].content)
    {
      if j == |kept| {
        assert t[i] in kept;
      }
    }
  }

  /** An insert leaves the rows of every other feed as they were. */
  lemma {:induction false} UpsertOtherFeeds(table: seq<Row>, c: FeedContent, now: int)
    ensures Filter(NotFeed(c.feedId), Upsert(table, c, now)) == Filter(NotFeed(c.feedId), table)
  {
    FilterConcat(NotFeed(c.feedId), Filter(OtherEntry(c), table), [Row(c, now)]);
    assert Filter(NotFeed(c.feedId), [Row(c, now)]) == [] by {
      assert [Row(c, now)][1..] == [];
    }
    FilterFilter(NotFeed(c.feedId), OtherEntry(c), NotFeed(c.feedId), table);
  }

  // ------------------------------------------------------------ feed_content_truncate

  /**
   * `OFFSET 501`: the position, in the feed's order by event time, of the row
   * whose write time marks the cut.  It is not a count of rows kept: rows
   * written no earlier than that row survive, however many they are.
   */
  const RETAINED: nat := 501

  function Survives(feedId: string, mark: int): Row -> bool {
    (r: Row) => !(r.content.feedId == feedId && r.updatedAt < mark)
  }

  /**
   * `feed_content_truncate`: when the feed has a row at offset 501 of its
   * time-descending order, every row of the feed written before that row is
   * deleted; otherwise nothing is.
   */
  function Truncate(table: seq<Row>, feedId: string): (r: seq<Row>)
    ensures |Filter(FeedIs(feedId), table)| <= RETAINED ==> r == table
    ensures forall x :: x in r ==> x in table
    ensures forall x :: x in table && x.content.feedId != feedId ==> x in r
    ensures |r| <= |table|
  {
    var all := SortDesc(Filter(FeedIs(feedId), table));
    if |all| <= RETAINED then table
    else Filter(Survives(feedId, all[RETAINED].updatedAt), table)
  }

  /**
   * Past 501 rows, exactly the feed's rows written before the marked row go:
   * the marked row itself stays, and so does every row of another feed.
   */
  lemma {:induction false} TruncateCut(table: seq<Row>, feedId: string)
    requires |Filter(FeedIs(feedId), table)| > RETAINED
    ensures var all := SortDesc(Filter(FeedIs(feedId), table));
      var mark := all[RETAINED];
      && mark in Truncate(table, feedId)
      && mark.content.feedId == feedId
      && (forall r :: r in Truncate(table, feedId) <==>
            r in table && (r.content.feedId != feedId || r.updatedAt >= mark.updatedAt))
  {
    var feedRows := Filter(FeedIs(feedId), table);
    SortDescSortedPermutation(feedRows);
    assert |SortDesc(feedRows)| == |multiset(SortDesc(feedRows))| == |multiset(feedRows)| == |feedRows|;
    var mark := SortDesc(feedRows)[RETAINED];
    assert mark in multiset(SortDesc(feedRows));
    assert mark in feedRows;
  }

  /** Truncating one feed leaves the rows of every other feed as they were. */
  lemma {:induction false} TruncateOtherFeeds(table: seq<Row>, feedId: string)
    ensures Filter(NotFeed(feedId), Truncate(table, feedId)) == Filter(NotFeed(feedId), table)
  {
    var all := SortDesc(Filter(FeedIs(feedId), table));
    if |all| > RETAINED {
      var survives := Survives(feedId, all[RETAINED].updatedAt);
      FilterFilter(NotFeed(feedId), survives, NotFeed(feedId), table);
    }
  }

  // ------------------------------------------------------------ consumer_control, verification_method_cache

  /** A `consumer_control` row: the checkpoint text and when it was written. */
  datatype ControlRow = ControlRow(timeUs: string, updatedAt: int)

  /** A `verification_method_cache` row: the key and when it was written. */
  datatype CacheEntry = CacheEntry(multikey: string, updatedAt: int)

  /** `consumer_control_get`: the stored text read as a u64, or None when absent or unreadable. */
  function Checkpoint(control: map<string, ControlRow>, source: string): (r: Option<u64>)
    ensures r.Some? <==> source in control && ParseUnsigned(control[source].timeUs, TWO_64).Some?
    ensures r.Some? ==> ParseUnsigned(control[source].timeUs, TWO_64) == Some(r.value)
  {
    if source !in control then None
    else
      match ParseUnsigned(control[source].timeUs, TWO_64)
      case Some(t) => Some(t)
      case None => None
  }

  /** A checkpoint written as a decimal u64 is read back as that u64, whatever was there before. */
  lemma {:induction false} CheckpointLastWriteWins(control: map<string, ControlRow>, source: string, t: u64, now: int)
    ensures Checkpoint(control[source := ControlRow(NatToString(t), now)], source) == Some(t)
  {
    ParseFormat(t, TWO_64);
  }

  /** `verification_method_get`. */
  function CachedKey(cache: map<string, CacheEntry>, did: string): (r: Option<string>)
    ensures r.Some? <==> did in cache
    ensures r.Some? ==> r.value == cache[did].multikey
  {
    if did in cache then Some(cache[did].multikey) else None
  }

  /** After storing a key for a DID, that DID reads back the key and every other DID reads what it did before. */
  lemma {:induction false} CachedKeyAfterInsert(cache: map<string, CacheEntry>, did: string, multikey: string, now: int, other: string)
    ensures CachedKey(cache[did := CacheEntry(multikey, now)], other)
         == if other == did then Some(multikey) else CachedKey(cache, other)
  {
  }

  /**
   * The cache cleanup the refresh cycle ends with.  Its expiry rule is not
   * part of this model: `expired` stands for it.
   */
  function Sweep(cache: map<string, CacheEntry>, expired: (string, CacheEntry) -> bool): (r: map<string, CacheEntry>)
    ensures forall did :: did in r <==> did in cache && !expired(did, cache[did])
    ensures forall did :: did in r ==> r[did] == cache[did]
  {
    map did | did in cache && !expired(did, cache[did]) :: cache[did]
  }

  // ------------------------------------------------------------ the store

  /** The three tables, changed in place by the insert, truncate and cleanup statements. */
  class Store {
    var feedContent: seq<Row>
    var consumerControl: map<string, ControlRow>
    var verificationMethodCache: map<string, CacheEntry>

    /** The conflict key of `feed_content` holds. */
    ghost predicate Valid()
      reads this
    {
      UniqueEntries(feedContent)
    }

    constructor()
      ensures Valid()
      ensures feedContent == [] && consumerControl == map[] && verificationMethodCache == map[]
    {
      feedContent := [];
      consumerControl := map[];
      verificationMethodCache := map[];
    }

    /** `feed_content_insert`, stamped with `now`. */
    method FeedContentInsert(c: FeedContent, now: int)
      requires Valid()
      modifies this
      ensures Valid()
      ensures feedContent == Upsert(old(feedContent), c, now)
      ensures consumerControl == old(consumerControl)
      ensures verificationMethodCache == old(verificationMethodCache)
    {
      var rows := feedContent;
      var kept: seq<Row> := [];
      for i := 0 to |rows|
        invariant kept == Filter(OtherEntry(c), rows[..i])
        invariant unchanged(this)
      {
        FilterPrefixStep(OtherEntry(c), rows, i);
        if !SameEntry(rows[i].content, c) {
          kept := kept + [rows[i]];
        }
      }
      assert rows[..|rows|] == rows;
      UpsertStores(rows, c, now);
      feedContent := kept + [Row(c, now)];
    }

    /** `feed_content_paginate`: reads the table and changes nothing. */
    method FeedContentPaginate(feedId: string, limit: Option<u16>, cursor: Option<Cursor>) returns (page: seq<FeedContent>)
      ensures page == Paginate(feedContent, feedId, limit, cursor)
      ensures |page| <= PageLimit(limit)
      ensures forall i :: 0 <= i < |page| ==> page[i].feedId == feedId
    {
      PaginateSelects(feedContent, feedId, limit, cursor);
      page := Paginate(feedContent, feedId, limit, cursor);
    }

    /** `feed_content_truncate`: finds the mark row, then deletes the feed's older rows. */
    method FeedContentTruncate(feedId: string)
      requires Valid()
      modifies this
      ensures Valid()
      ensures feedContent == Truncate(old(feedContent), feedId)
      ensures consumerControl == old(consumerControl)
      ensures verificationMethodCache == old(verificationMethodCache)
    {
      var rows := feedContent;
      var all := SortDesc(Filter(FeedIs(feedId), rows));
      if |all| > RETAINED {
        var mark := all[RETAINED].updatedAt;
        var kept: seq<Row> := [];
        for i := 0 to |rows|
          invariant kept == Filter(Survives(feedId, mark), rows[..i])
          invariant unchanged(this)
        {
          FilterPrefixStep(Survives(feedId, mark), rows, i);
          if rows[i].content.feedId != feedId || rows[i].updatedAt >= mark {
            kept := kept + [rows[i]];
          }
        }
        assert rows[..|rows|] == rows;
        FilterKeepsUnique(Survives(feedId, mark), rows);
        feedContent := kept;
      }
    }

    /** `consumer_control_insert`: the last write for a source wins. */
    method ConsumerControlInsert(source: string, timeUs: string, now: int)
      modifies this
      ensures consumerControl == old(consumerControl)[source := ControlRow(timeUs, now)]
      ensures feedContent == old(feedContent)
      ensures verificationMethodCache == old(verificationMethodCache)
    {
      consumerControl := consumerControl[source := ControlRow(timeUs, now)];
    }

    /** `consumer_control_get`. */
    method ConsumerControlGet(source: string) returns (r: Option<u64>)
      ensures r == Checkpoint(consumerControl, source)
      ensures r.Some? ==> source in consumerControl
    {
      r := None;
      if source in consumerControl {
        var parsed := ParseUnsigned(consumerControl[source].timeUs, TWO_64);
        if parsed.Some? {
          r := Some(parsed.value);
        }
      }
    }

    /** `verifcation_method_insert`: the last write for a DID wins. */
    method VerificationMethodInsert(did: string, multikey: string, now: int)
      modifies this
      ensures verificationMethodCache == old(verificationMethodCache)[did := CacheEntry(multikey, now)]
      ensures feedContent == old(feedContent)
      ensures consumerControl == old(consumerControl)
    {
      verificationMethodCache := verificationMethodCache[did := CacheEntry(multikey, now)];
    }

    /** `verification_method_get`. */
    method VerificationMethodGet(did: string) returns (r: Option<string>)
      ensures r == CachedKey(verificationMethodCache, did)
    {
      r := if did in verificationMethodCache then Some(verificationMethodCache[did].multikey) else None;
    }

    /** The cache cleanup, with its expiry rule given as `expired`. */
    method VerificationMethodCleanup(expired: (string, CacheEntry) -> bool)
      modifies this
      ensures verificationMethodCache == Sweep(old(verificationMethodCache), expired)
      ensures feedContent == old(feedContent)
      ensures consumerControl == old(consumerControl)
    {
      verificationMethodCache := Sweep(verificationMethodCache, expired);
    }
  }
}
