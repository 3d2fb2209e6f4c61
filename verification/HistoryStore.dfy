/** The table of stored minutes and its paged range query. */
module HistoryStore {
  import opened Wrappers
  import opened HistoryModel
  import opened Aggregation

  const MAX_SPAN := 30 * 24 * 60 * 60
  const MAX_ROWS := 43_201
  const PAGE_ROWS := 256

  type int64 = n: int | -0x8000_0000_0000_0000 <= n <= 0x7FFF_FFFF_FFFF_FFFF

  /** Payloads are stored as text. */
  type Table = map<BucketKey, string>

  datatype Codec = Codec(encode: MinutePayload -> Option<string>, decode: string -> Option<MinutePayload>) {
    ghost predicate RoundTrips() {
      forall payload :: encode(payload).Some? ==> decode(encode(payload).value) == Some(payload)
    }
  }

  datatype QueryError =
    | InvalidRange(fromUnix: int64, toUnix: int64)
    | PageFailed
    | Cancelled
    | Undecodable(minuteUnix: int)

  datatype Row = Row(minuteUnix: int, payload: string)

  /** What the surroundings contribute: whether page n can be read, and what the n-th look at the context finds. */
  datatype World = World(pageFails: nat -> bool, cancelled: nat -> bool)

  predicate IsValidRange(fromUnix: int64, toUnix: int64) {
    fromUnix <= toUnix <= fromUnix + MAX_SPAN
  }

  /** The stored minutes of a server within a range, ascending. */
  function Minutes(t: Table, serverId: int, fromUnix: int, toUnix: int): seq<int>
    decreases toUnix - fromUnix
  {
    if fromUnix > toUnix then []
    else
      (if BucketKey(serverId, fromUnix) in t then [fromUnix] else []) + Minutes(t, serverId, fromUnix + 1, toUnix)
  }

  lemma {:induction false} ListedExactly(t: Table, serverId: int, fromUnix: int, toUnix: int, m: int)
    ensures m in Minutes(t, serverId, fromUnix, toUnix) <==> fromUnix <= m <= toUnix && BucketKey(serverId, m) in t
    decreases toUnix - fromUnix
  {
    if fromUnix <= toUnix {
      ListedExactly(t, serverId, fromUnix + 1, toUnix, m);
    }
  }

  lemma {:induction false} MinutesAscend(t: Table, serverId: int, fromUnix: int, toUnix: int)
    ensures Ascends(Minutes(t, serverId, fromUnix, toUnix))
    ensures forall i | 0 <= i < |Minutes(t, serverId, fromUnix, toUnix)| ::
      fromUnix <= Minutes(t, serverId, fromUnix, toUnix)[i]
    decreases toUnix - fromUnix
  {
    if fromUnix <= toUnix {
      MinutesAscend(t, serverId, fromUnix + 1, toUnix);
    }
  }

  /** The stored minutes of a server within a range are listed, each once, in ascending order. */
  lemma MinutesExactly(t: Table, serverId: int, fromUnix: int, toUnix: int)
    ensures forall m :: m in Minutes(t, serverId, fromUnix, toUnix)
                        <==> fromUnix <= m <= toUnix && BucketKey(serverId, m) in t
    ensures Ascends(Minutes(t, serverId, fromUnix, toUnix))
  {
    forall m
      ensures m in Minutes(t, serverId, fromUnix, toUnix) <==> fromUnix <= m <= toUnix && BucketKey(serverId, m) in t
    {
      ListedExactly(t, serverId, fromUnix, toUnix, m);
    }
    MinutesAscend(t, serverId, fromUnix, toUnix);
  }

  ghost predicate Ascends(minutes: seq<int>) {
    forall i, j | 0 <= i < j < |minutes| :: minutes[i] < minutes[j]
  }

  function Capped<T>(s: seq<T>, cap: nat): seq<T> {
    if |s| <= cap then s else s[..cap]
  }

  /** The first rows of a range, as the database returns them. */
  function Page(t: Table, serverId: int, fromUnix: int, toUnix: int, limit: nat): (page: seq<Row>)
    ensures |page| == |Capped(Minutes(t, serverId, fromUnix, toUnix), limit)|
  {
    MinutesExactly(t, serverId, fromUnix, toUnix);
    var minutes := Capped(Minutes(t, serverId, fromUnix, toUnix), limit);
    assert forall i | 0 <= i < |minutes| :: minutes[i] in Minutes(t, serverId, fromUnix, toUnix);
    seq(|minutes|, i requires 0 <= i < |minutes| => Row(minutes[i], t[BucketKey(serverId, minutes[i])]))
  }

  ghost predicate IsStored(t: Table, codec: Codec, serverId: int, record: MinuteRecord) {
    var key := BucketKey(serverId, record.minuteUnix);
    record.serverId == serverId && key in t && codec.decode(t[key]) == Some(record.payload)
  }

  /** The decoded rows of some minutes, in their order. */
  ghost predicate AreRows(t: Table, codec: Codec, serverId: int, minutes: seq<int>, records: seq<MinuteRecord>) {
    && |records| == |minutes|
    && forall i | 0 <= i < |records| :: records[i].minuteUnix == minutes[i] && IsStored(t, codec, serverId, records[i])
  }

  /** After a prefix of the minutes come the minutes past its last. */
  lemma {:induction false} MinutesPast(t: Table, serverId: int, fromUnix: int, toUnix: int, k: nat)
    requires 0 < k <= |Minutes(t, serverId, fromUnix, toUnix)|
    ensures Minutes(t, serverId, fromUnix, toUnix)[k..]
            == Minutes(t, serverId, Minutes(t, serverId, fromUnix, toUnix)[k - 1] + 1, toUnix)
    decreases toUnix - fromUnix
  {
    var minutes, rest := Minutes(t, serverId, fromUnix, toUnix), Minutes(t, serverId, fromUnix + 1, toUnix);
    if BucketKey(serverId, fromUnix) in t {
      assert minutes == [fromUnix] + rest;
      assert minutes[k..] == rest[k - 1..];
      if k > 1 {
        MinutesPast(t, serverId, fromUnix + 1, toUnix, k - 1);
      } else {
        assert rest[0..] == rest;
      }
    } else {
      assert minutes == rest;
      MinutesPast(t, serverId, fromUnix + 1, toUnix, k);
    }
  }

  /** Rows at whole minutes of a range of at most thirty days number at most 43,201. */
  lemma AlignedMinutesFit(t: Table, serverId: int, fromUnix: int64, toUnix: int64)
    requires IsValidRange(fromUnix, toUnix)
    requires forall m | BucketKey(serverId, m) in t :: m % 60 == 0
    ensures |Minutes(t, serverId, fromUnix, toUnix)| <= MAX_ROWS
  {
    var minutes := Minutes(t, serverId, fromUnix, toUnix);
    MinutesExactly(t, serverId, fromUnix, toUnix);
    if minutes != [] {
      forall i | 0 <= i < |minutes| ensures minutes[i] % 60 == 0 {
        assert minutes[i] in minutes;
        assert BucketKey(serverId, minutes[i]) in t;
      }
      AlignedSpread(minutes, |minutes| - 1);
      assert minutes[0] in minutes && minutes[|minutes| - 1] in minutes;
    }
  }

  lemma {:induction false} AlignedSpread(minutes: seq<int>, n: nat)
    requires Ascends(minutes) && n < |minutes| && forall i | 0 <= i < |minutes| :: minutes[i] % 60 == 0
    ensures minutes[n] >= minutes[0] + 60 * n
  {
    if n > 0 {
      AlignedSpread(minutes, n - 1);
      assert minutes[n - 1] < minutes[n];
      NextMultiple(minutes[n - 1], minutes[n]);
    }
  }

  lemma NextMultiple(a: int, b: int)
    requires a < b && a % 60 == 0 && b % 60 == 0
    ensures b >= a + 60
  {
    assert (b - a) % 60 == 0;
  }

  /** The query's range check, in 64-bit arithmetic that does not overflow. */
  predicate IsRejected(fromUnix: int64, toUnix: int64) {
    fromUnix > toUnix ||
    (fromUnix <= 0x7FFF_FFFF_FFFF_FFFF - MAX_SPAN && toUnix > Plus(fromUnix, MAX_SPAN))
  }

  function Plus(a: int64, b: int64): (sum: int64)
    requires -0x8000_0000_0000_0000 <= a + b <= 0x7FFF_FFFF_FFFF_FFFF
    ensures sum == a + b
  {
    a + b
  }

  /** Exactly the reversed and the over-long ranges are rejected. */
  lemma RejectsExactly(fromUnix: int64, toUnix: int64)
    ensures IsRejected(fromUnix, toUnix) <==> toUnix < fromUnix || toUnix > fromUnix + 2_592_000
    ensures IsRejected(fromUnix, toUnix) <==> !IsValidRange(fromUnix, toUnix)
  {
    if fromUnix > 0x7FFF_FFFF_FFFF_FFFF - MAX_SPAN {
      assert toUnix <= 0x7FFF_FFFF_FFFF_FFFF < fromUnix + MAX_SPAN;
    }
  }

  // Paging

  function Decoded(codec: Codec, serverId: int, row: Row): Option<MinuteRecord> {
    var payload := codec.decode(row.payload);
    if payload.None? then None else Some(MinuteRecord(serverId, row.minuteUnix, payload.value))
  }

  ghost predicate AreDecoded(codec: Codec, serverId: int, rows: seq<Row>, records: seq<MinuteRecord>) {
    |records| == |rows| && forall i | 0 <= i < |rows| :: Some(records[i]) == Decoded(codec, serverId, rows[i])
  }

  /** No page fails, the context is never done, every payload ever stored for the server can be decoded. */
  ghost predicate IsCalm(world: World, tables: nat -> Table, codec: Codec, serverId: int) {
    && (forall n: nat :: !world.pageFails(n) && !world.cancelled(n))
    && forall n: nat, m | BucketKey(serverId, m) in tables(n) :: codec.decode(tables(n)[BucketKey(serverId, m)]).Some?
  }

  /** The rows of one page, decoded one by one with two looks at the context each. */
  method DecodePage(codec: Codec, serverId: int, page: seq<Row>, world: World, looked: nat)
    returns (result: Result<seq<MinuteRecord>, QueryError>, looks: nat)
    ensures result.Success? ==> AreDecoded(codec, serverId, page, result.value)
    ensures (forall n: nat :: !world.cancelled(n))
            && (forall i | 0 <= i < |page| :: codec.decode(page[i].payload).Some?)
      ==> result.Success?
    ensures result.Failure? ==> !result.error.InvalidRange?
  {
    looks := looked;
    var records := [];
    for i := 0 to |page|
      invariant AreDecoded(codec, serverId, page[..i], records)
    {
      if world.cancelled(looks) {
        return Failure(Cancelled), looks;
      }
      var payload := codec.decode(page[i].payload);
      if payload.None? {
        return Failure(Undecodable(page[i].minuteUnix)), looks;
      }
      if world.cancelled(looks + 1) {
        return Failure(Cancelled), looks;
      }
      looks := looks + 2;
      records := records + [MinuteRecord(serverId, page[i].minuteUnix, payload.value)];
      assert page[..i + 1] == page[..i] + [page[i]];
    }
    assert page[..|page|] == page;
    result := Success(records);
  }

  /** Records at ascending minutes of a range, each stored at the time of some page. */
  ghost predicate IsSound(tables: nat -> Table, codec: Codec, serverId: int, fromUnix: int, toUnix: int,
                          records: seq<MinuteRecord>) {
    && (forall i | 0 <= i < |records| ::
          fromUnix <= records[i].minuteUnix <= toUnix && WasStored(tables, codec, serverId, records[i]))
    && (forall i, j | 0 <= i < j < |records| :: records[i].minuteUnix < records[j].minuteUnix)
  }

  ghost predicate WasStored(tables: nat -> Table, codec: Codec, serverId: int, record: MinuteRecord) {
    exists n: nat :: IsStored(tables(n), codec, serverId, record)
  }

  lemma PageIsStored(t: Table, codec: Codec, serverId: int, fromUnix: int, toUnix: int, limit: nat,
                     records: seq<MinuteRecord>)
    requires AreDecoded(codec, serverId, Page(t, serverId, fromUnix, toUnix, limit), records)
    ensures AreRows(t, codec, serverId, Capped(Minutes(t, serverId, fromUnix, toUnix), limit), records)
    ensures forall i | 0 <= i < |records| :: fromUnix <= records[i].minuteUnix <= toUnix
    ensures forall i, j | 0 <= i < j < |records| :: records[i].minuteUnix < records[j].minuteUnix
  {
    MinutesExactly(t, serverId, fromUnix, toUnix);
    var minutes := Minutes(t, serverId, fromUnix, toUnix);
    forall i | 0 <= i < |records|
      ensures records[i].minuteUnix == minutes[i] && IsStored(t, codec, serverId, records[i])
      ensures fromUnix <= minutes[i] <= toUnix
    {
      assert minutes[i] in minutes;
    }
  }

  lemma SoundGrows(tables: nat -> Table, codec: Codec, serverId: int, fromUnix: int, toUnix: int,
                   records: seq<MinuteRecord>, n: nat, start: int, limit: nat, more: seq<MinuteRecord>)
    requires IsSound(tables, codec, serverId, fromUnix, toUnix, records)
    requires start == if records == [] then fromUnix else records[|records| - 1].minuteUnix + 1
    requires AreDecoded(codec, serverId, Page(tables(n), serverId, start, toUnix, limit), more)
    ensures IsSound(tables, codec, serverId, fromUnix, toUnix, records + more)
  {
    PageIsStored(tables(n), codec, serverId, start, toUnix, limit, more);
    var all := records + more;
    forall i | 0 <= i < |all|
      ensures fromUnix <= all[i].minuteUnix <= toUnix && WasStored(tables, codec, serverId, all[i])
    {
      if i >= |records| {
        assert IsStored(tables(n), codec, serverId, more[i - |records|]);
      }
    }
  }

  /** The records are the first rows of the range, as a single table holds them. */
  ghost predicate AreFirst(t: Table, codec: Codec, serverId: int, fromUnix: int, toUnix: int,
                           records: seq<MinuteRecord>) {
    var minutes := Minutes(t, serverId, fromUnix, toUnix);
    |records| <= |minutes| && AreRows(t, codec, serverId, minutes[..|records|], records)
  }

  lemma RowsJoin(t: Table, codec: Codec, serverId: int, a: seq<int>, b: seq<int>,
                 first: seq<MinuteRecord>, more: seq<MinuteRecord>)
    requires AreRows(t, codec, serverId, a, first) && AreRows(t, codec, serverId, b, more)
    ensures AreRows(t, codec, serverId, a + b, first + more)
  {
  }

  /** The page after some first records starts where they end. */
  lemma PageFollows(t: Table, codec: Codec, serverId: int, fromUnix: int, toUnix: int, records: seq<MinuteRecord>,
                    start: int)
    requires AreFirst(t, codec, serverId, fromUnix, toUnix, records)
    requires start == if records == [] then fromUnix else records[|records| - 1].minuteUnix + 1
    ensures Minutes(t, serverId, start, toUnix) == Minutes(t, serverId, fromUnix, toUnix)[|records|..]
  {
    var minutes, k := Minutes(t, serverId, fromUnix, toUnix), |records|;
    if k > 0 {
      assert records[k - 1].minuteUnix == minutes[..k][k - 1];
      MinutesPast(t, serverId, fromUnix, toUnix, k);
    }
  }

  lemma CappedJoin(minutes: seq<int>, k: nat, limit: nat)
    requires k <= |minutes|
    ensures
      var more := Capped(minutes[k..], limit);
      && k + |more| <= |minutes| && minutes[..k + |more|] == minutes[..k] + more
      && (|more| < limit ==> k + |more| == |minutes|)
  {
  }

  lemma FirstGrow(t: Table, codec: Codec, serverId: int, fromUnix: int, toUnix: int, records: seq<MinuteRecord>,
                  start: int, limit: nat, more: seq<MinuteRecord>)
    requires AreFirst(t, codec, serverId, fromUnix, toUnix, records)
    requires start == if records == [] then fromUnix else records[|records| - 1].minuteUnix + 1
    requires AreDecoded(codec, serverId, Page(t, serverId, start, toUnix, limit), more)
    ensures AreFirst(t, codec, serverId, fromUnix, toUnix, records + more)
    ensures |more| < limit ==> |records + more| == |Minutes(t, serverId, fromUnix, toUnix)|
  {
    var minutes, k := Minutes(t, serverId, fromUnix, toUnix), |records|;
    PageFollows(t, codec, serverId, fromUnix, toUnix, records, start);
    PageIsStored(t, codec, serverId, start, toUnix, limit, more);
    CappedJoin(minutes, k, limit);
    RowsJoin(t, codec, serverId, minutes[..k], Capped(minutes[k..], limit), records, more);
  }

  lemma CalmPage(world: World, tables: nat -> Table, codec: Codec, serverId: int, n: nat, start: int, toUnix: int,
                 limit: nat)
    ensures IsCalm(world, tables, codec, serverId) ==>
      var page := Page(tables(n), serverId, start, toUnix, limit);
      forall i | 0 <= i < |page| :: codec.decode(page[i].payload).Some?
  {
    var page := Page(tables(n), serverId, start, toUnix, limit);
    MinutesExactly(tables(n), serverId, start, toUnix);
    var minutes := Minutes(tables(n), serverId, start, toUnix);
    assert forall i | 0 <= i < |page| ::
        minutes[i] in minutes && page[i].payload == tables(n)[BucketKey(serverId, minutes[i])];
  }

  /** One page: read, decoded, and the context looked at once more. */
  method NextPage(tables: nat -> Table, codec: Codec, serverId: int, start: int, toUnix: int, limit: nat,
                  world: World, pages: nat, looked: nat)
    returns (result: Result<seq<MinuteRecord>, QueryError>, looks: nat)
    ensures result.Success? ==>
      AreDecoded(codec, serverId, Page(tables(pages), serverId, start, toUnix, limit), result.value)
    ensures IsCalm(world, tables, codec, serverId) ==> result.Success?
    ensures result.Failure? ==> !result.error.InvalidRange?
  {
    if world.pageFails(pages) {
      return Failure(PageFailed), looked;
    }
    var page := Page(tables(pages), serverId, start, toUnix, limit);
    CalmPage(world, tables, codec, serverId, pages, start, toUnix, limit);
    result, looks := DecodePage(codec, serverId, page, world, looked);
    if result.Failure? {
      return;
    }
    if world.cancelled(looks) {
      return Failure(Cancelled), looks;
    }
    looks := looks + 1;
  }

  /** The table is the same at every page. */
  ghost predicate IsSteady(tables: nat -> Table) {
    forall n: nat :: tables(n) == tables(0)
  }

  /** Sound so far and, if nothing happens to the table, the first rows of the range. */
  ghost predicate IsProgress(tables: nat -> Table, codec: Codec, serverId: int, fromUnix: int, toUnix: int,
                             records: seq<MinuteRecord>) {
    && IsSound(tables, codec, serverId, fromUnix, toUnix, records)
    && (IsSteady(tables) ==> AreFirst(tables(0), codec, serverId, fromUnix, toUnix, records))
  }

  /** The one-shot query, capped. */
  ghost predicate IsOneShot(t: Table, codec: Codec, serverId: int, fromUnix: int, toUnix: int,
                            records: seq<MinuteRecord>) {
    AreRows(t, codec, serverId, Capped(Minutes(t, serverId, fromUnix, toUnix), MAX_ROWS), records)
  }

  /**
   The one-shot query, row by row: the stored minutes of the range, ascending and decoded, all of them unless there are
   43,201, and then all up to the last one returned.
   */
  lemma OneShotExactly(t: Table, codec: Codec, serverId: int, fromUnix: int, toUnix: int, records: seq<MinuteRecord>,
                       m: int)
    requires IsOneShot(t, codec, serverId, fromUnix, toUnix, records)
    ensures |records| <= 43_201
    ensures forall i | 0 <= i < |records| ::
      && records[i].serverId == serverId && fromUnix <= records[i].minuteUnix <= toUnix
      && BucketKey(serverId, records[i].minuteUnix) in t
      && codec.decode(t[BucketKey(serverId, records[i].minuteUnix)]) == Some(records[i].payload)
    ensures forall i, j | 0 <= i < j < |records| :: records[i].minuteUnix < records[j].minuteUnix
    ensures
      && fromUnix <= m <= toUnix && BucketKey(serverId, m) in t
      && (|records| < 43_201 || m <= records[43_200].minuteUnix)
      ==> exists i :: 0 <= i < |records| && records[i].minuteUnix == m
  {
    var minutes := Minutes(t, serverId, fromUnix, toUnix);
    MinutesExactly(t, serverId, fromUnix, toUnix);
    assert forall i | 0 <= i < |records| :: records[i].minuteUnix == minutes[i] && minutes[i] in minutes;
    if m in minutes && (|records| < 43_201 || m <= records[43_200].minuteUnix) {
      var j :| 0 <= j < |minutes| && minutes[j] == m;
      assert j < |records|;
    }
  }

  lemma PageIsProgress(tables: nat -> Table, codec: Codec, serverId: int, fromUnix: int, toUnix: int,
                       records: seq<MinuteRecord>, n: nat, start: int, limit: nat, more: seq<MinuteRecord>)
    requires IsProgress(tables, codec, serverId, fromUnix, toUnix, records)
    requires start == if records == [] then fromUnix else records[|records| - 1].minuteUnix + 1
    requires AreDecoded(codec, serverId, Page(tables(n), serverId, start, toUnix, limit), more)
    requires |records| + limit <= MAX_ROWS
    ensures |more| <= limit && IsProgress(tables, codec, serverId, fromUnix, toUnix, records + more)
    ensures IsSteady(tables) && (|more| < limit || |records + more| == MAX_ROWS) ==>
      IsOneShot(tables(0), codec, serverId, fromUnix, toUnix, records + more)
  {
    SoundGrows(tables, codec, serverId, fromUnix, toUnix, records, n, start, limit, more);
    if IsSteady(tables) {
      FirstGrow(tables(0), codec, serverId, fromUnix, toUnix, records, start, limit, more);
      var minutes := Minutes(tables(0), serverId, fromUnix, toUnix);
      if |more| < limit || |records + more| == MAX_ROWS {
        assert minutes[..|records + more|] == Capped(minutes, MAX_ROWS);
      }
    }
  }

  /**
   The paged query. Whatever happens to the table between pages, what it returns ascends and was stored; if nothing
   does, the pages add up to the one-shot query.
   */
  method Query(tables: nat -> Table, codec: Codec, serverId: int, fromUnix: int64, toUnix: int64, world: World)
    returns (result: Result<seq<MinuteRecord>, QueryError>)
    ensures result == Failure(InvalidRange(fromUnix, toUnix)) <==> !IsValidRange(fromUnix, toUnix)
    ensures IsValidRange(fromUnix, toUnix) && IsCalm(world, tables, codec, serverId) ==> result.Success?
    ensures result.Success? ==>
      |result.value| <= MAX_ROWS && IsSound(tables, codec, serverId, fromUnix, toUnix, result.value)
    ensures result.Success? && IsSteady(tables) ==>
      IsOneShot(tables(0), codec, serverId, fromUnix, toUnix, result.value)
  {
    RejectsExactly(fromUnix, toUnix);
    if IsRejected(fromUnix, toUnix) {
      return Failure(InvalidRange(fromUnix, toUnix));
    }
    var records: seq<MinuteRecord> := [];
    var afterUnix, hasAfter := 0, false;
    var pages, looks: nat := 0, 0;
    while |records| < MAX_ROWS
      invariant |records| < MAX_ROWS && hasAfter == (records != [])
      invariant hasAfter ==> afterUnix == records[|records| - 1].minuteUnix
      invariant IsProgress(tables, codec, serverId, fromUnix, toUnix, records)
      decreases MAX_ROWS - |records|
    {
      var pageLimit := if PAGE_ROWS < MAX_ROWS - |records| then PAGE_ROWS else MAX_ROWS - |records|;
      var start := if hasAfter then afterUnix + 1 else fromUnix;
      var page, looked := NextPage(tables, codec, serverId, start, toUnix, pageLimit, world, pages, looks);
      looks := looked;
      if page.Failure? {
        return page;
      }
      PageIsProgress(tables, codec, serverId, fromUnix, toUnix, records, pages, start, pageLimit, page.value);
      records := records + page.value;
      if |page.value| < pageLimit || |records| == MAX_ROWS {
        return Success(records);
      }
      afterUnix := page.value[|page.value| - 1].minuteUnix;
      hasAfter := true;
      pages := pages + 1;
    }
    return Success(records);
  }

  // Writing

  function Upserted(t: Table, record: MinuteRecord, payload: string): Table {
    t[BucketKey(record.serverId, record.minuteUnix) := payload]
  }

  function Expired(t: Table, cutoffUnix: int): Table {
    map key | key in t && key.minuteUnix >= cutoffUnix :: t[key]
  }

  class Store {
    const codec: Codec
    var rows: Table
    /** The registered servers; rows may refer to no other. */
    var servers: set<int>

    /** A minute is stored, in the place of what was stored for it before, or nothing changes. */
    method UpsertMinute(record: MinuteRecord, fails: bool) returns (ok: bool)
      modifies this`rows
      ensures ok <==> codec.encode(record.payload).Some? && record.serverId in servers && !fails
      ensures rows == if ok then Upserted(old(rows), record, codec.encode(record.payload).value) else old(rows)
      ensures ok ==>
        rows == old(rows)[BucketKey(record.serverId, record.minuteUnix) := codec.encode(record.payload).value]
    {
      var payload := codec.encode(record.payload);
      if payload.None? || record.serverId !in servers || fails {
        return false;
      }
      rows := rows[BucketKey(record.serverId, record.minuteUnix) := payload.value];
      return true;
    }

    /** The rows before the cutoff go, and are counted unless that fails. */
    method DeleteBefore(cutoffUnix: int, m: Mutation) returns (deleted: Option<nat>)
      modifies this`rows
      ensures rows == if m == Refused then old(rows) else Expired(old(rows), cutoffUnix)
      ensures forall key ::
        && (key in rows <==> key in old(rows) && (m == Refused || key.minuteUnix >= cutoffUnix))
        && (key in rows ==> rows[key] == old(rows)[key])
      ensures deleted == if m == Done then Some(|old(rows)| - |rows|) else None
    {
      if m == Refused {
        return None;
      }
      var before := rows;
      rows := map key | key in rows && key.minuteUnix >= cutoffUnix :: rows[key];
      ExpiredIsSmaller(before, cutoffUnix);
      if m == DoneButFailed {
        return None;
      }
      return Some(|before| - |rows|);
    }
  }

  lemma ExpiredIsSmaller(t: Table, cutoffUnix: int)
    ensures |Expired(t, cutoffUnix)| <= |t|
  {
    var left := Expired(t, cutoffUnix);
    assert left.Keys <= t.Keys;
    assert |left| == |left.Keys| && |t| == |t.Keys| && t.Keys == left.Keys + (t.Keys - left.Keys);
  }

  /** What was stored is what a query of its minute returns, and the other minutes of the range are as before. */
  lemma StoredIsReturned(t: Table, codec: Codec, record: MinuteRecord, fromUnix: int, toUnix: int,
                         records: seq<MinuteRecord>)
    requires codec.RoundTrips() && codec.encode(record.payload).Some?
    requires fromUnix <= record.minuteUnix <= toUnix
    requires
      var next := Upserted(t, record, codec.encode(record.payload).value);
      AreRows(next, codec, record.serverId, Minutes(next, record.serverId, fromUnix, toUnix), records)
    ensures record in records
    ensures forall r | r in records && r.minuteUnix != record.minuteUnix :: IsStored(t, codec, record.serverId, r)
  {
    var next := Upserted(t, record, codec.encode(record.payload).value);
    var minutes := Minutes(next, record.serverId, fromUnix, toUnix);
    MinutesExactly(next, record.serverId, fromUnix, toUnix);
    assert record.minuteUnix in minutes;
    var i :| 0 <= i < |minutes| && minutes[i] == record.minuteUnix;
    assert IsStored(next, codec, record.serverId, records[i]);
    assert records[i] == record;
    forall r | r in records && r.minuteUnix != record.minuteUnix
      ensures IsStored(t, codec, record.serverId, r)
    {
      assert IsStored(next, codec, record.serverId, r);
    }
  }

  /** After expiry a query returns what it did before of the minutes from the cutoff on. */
  lemma {:induction false} ExpiryTrims(t: Table, cutoffUnix: int, serverId: int, fromUnix: int, toUnix: int)
    ensures Minutes(Expired(t, cutoffUnix), serverId, fromUnix, toUnix)
            == Minutes(t, serverId, if fromUnix < cutoffUnix then cutoffUnix else fromUnix, toUnix)
    decreases toUnix - fromUnix
  {
    if fromUnix <= toUnix {
      ExpiryTrims(t, cutoffUnix, serverId, fromUnix + 1, toUnix);
    }
  }

  /** Minute-aligned rows are returned in full: the cap never cuts a valid query of them short. */
  lemma AlignedIsNeverCapped(t: Table, serverId: int, fromUnix: int64, toUnix: int64)
    requires IsValidRange(fromUnix, toUnix) && forall m | BucketKey(serverId, m) in t :: m % 60 == 0
    ensures Capped(Minutes(t, serverId, fromUnix, toUnix), MAX_ROWS) == Minutes(t, serverId, fromUnix, toUnix)
  {
    AlignedMinutesFit(t, serverId, fromUnix, toUnix);
  }
}
