/** convertFlappingRows: how the end of a flapping period finds the row of its start. */
module Flapping {
  import opened Wrappers
  import opened Paging
  import EventTime

  const FLAPPING_START: nat := 1000
  const FLAPPING_END: nat := 1001

  /** A row of icinga_flappinghistory joined with icinga_objects. time is None if event_time is NULL. */
  datatype Flapping = Flapping(objectId: nat, eventType: nat, time: Option<int>, usec: nat)

  type FlappingRow = Row<Flapping>

  /** Milliseconds of the zero time.Time, which is what an absent time converts to. */
  const ZERO_TIME_MS: int := -62135596800000

  /** convertTime, followed by UnixMilli. */
  function MilliOf(t: EventTime.Time): int {
    if t.ts == 0 && t.usec == 0 then ZERO_TIME_MS else t.ts * 1000 + t.usec / 1000
  }

  /** The hashed parts of flapping_history.id. Hashes are taken to be injective, so the parts stand for the hash. The
      environment is the same for all rows. */
  datatype FlappingId = FlappingId(name: string, startMs: int)

  datatype FlappingHistory =
    | FlappingStart(id: FlappingId, startMs: int)
    | FlappingEnd(id: FlappingId, startMs: int, endMs: int)

  datatype HistoryFlapping = HistoryFlapping(
    isEnd: bool, flappingHistoryId: FlappingId, startMs: int, endMs: Option<int>)

  datatype Output = Output(inserts: seq<FlappingHistory>, upserts: seq<FlappingHistory>, history: seq<HistoryFlapping>)

  /* ---------- Specification, row by row ---------- */

  function OwnTime(row: FlappingRow): EventTime.Time
    requires row.value.time.Some?
  {
    EventTime.Time(row.value.time.value, row.value.usec)
  }

  /** The start of the flapping period that a row belongs to: its own time, or for an end the cached one. */
  function StartOf(row: FlappingRow, cache: map<nat, EventTime.Time>): Option<int> {
    if row.value.time.None? then None
    else if row.value.eventType != FLAPPING_END then Some(MilliOf(OwnTime(row)))
    else if row.id in cache then Some(MilliOf(cache[row.id]))
    else None
  }

  function IdOf(row: FlappingRow, names: map<nat, string>, startMs: int): FlappingId
    requires row.value.objectId in names
  {
    FlappingId(names[row.value.objectId], startMs)
  }

  function Convert(row: FlappingRow, names: map<nat, string>, cache: map<nat, EventTime.Time>): Output
    requires row.value.objectId in names
  {
    match StartOf(row, cache)
    case None => Output([], [], [])
    case Some(start) =>
      var id := IdOf(row, names, start);
      if row.value.eventType == FLAPPING_END then
        var end := MilliOf(OwnTime(row));
        Output([], [FlappingEnd(id, start, end)], [HistoryFlapping(true, id, start, Some(end))])
      else
        Output([FlappingStart(id, start)], [], [HistoryFlapping(false, id, start, None)])
  }

  function ConvertAll(rows: seq<FlappingRow>, names: map<nat, string>, cache: map<nat, EventTime.Time>): Output
    requires forall r <- rows :: r.value.objectId in names
  {
    if rows == [] then Output([], [], [])
    else
      var init, last := ConvertAll(rows[..|rows| - 1], names, cache), Convert(rows[|rows| - 1], names, cache);
      Output(init.inserts + last.inserts, init.upserts + last.upserts, init.history + last.history)
  }

  /** The cached rows that convertFlappingRows selects: those with an ID between the first and the last of the page. */
  function CachedById(rows: seq<FlappingRow>, cache: map<nat, EventTime.Time>): map<nat, EventTime.Time>
    requires rows != []
  {
    map id | id in cache && rows[0].id <= id <= rows[|rows| - 1].id :: cache[id]
  }

  /** The conversion loop. Output and checkpoint are those of the rows, one by one, with the whole cache. */
  method ConvertFlappingRows(
    rows: seq<FlappingRow>, names: map<nat, string>, cache: map<nat, EventTime.Time>)
    returns (out: Output, checkpoint: Option<nat>)
    requires InOrder(rows, false) && forall r <- rows :: r.value.objectId in names
    ensures out == ConvertAll(rows, names, cache)
    ensures checkpoint == if rows == [] then None else Some(rows[|rows| - 1].id)
  {
    var inserts: seq<FlappingHistory>, upserts: seq<FlappingHistory> := [], [];
    var history: seq<HistoryFlapping> := [];
    checkpoint := None;
    if |rows| < 1 {
      return Output([], [], []), checkpoint;
    }
    var cachedById := CachedById(rows, cache);
    for i := 0 to |rows|
      invariant Output(inserts, upserts, history) == ConvertAll(rows[..i], names, cache)
      invariant i > 0 ==> checkpoint == Some(rows[i - 1].id)
    {
      var row := rows[i];
      checkpoint := Some(row.id);
      assert rows[..i + 1][..i] == rows[..i];
      PageKeepsEntry(rows, cache, i);
      if row.value.time.None? {
        continue;
      }
      var ts := MilliOf(OwnTime(row));
      var start := ts;
      if row.value.eventType == FLAPPING_END {
        if row.id !in cachedById {
          continue;
        }
        start := MilliOf(cachedById[row.id]);
      }
      var id := IdOf(row, names, start);
      if row.value.eventType == FLAPPING_END {
        upserts := upserts + [FlappingEnd(id, start, ts)];
        history := history + [HistoryFlapping(true, id, start, Some(ts))];
      } else {
        inserts := inserts + [FlappingStart(id, start)];
        history := history + [HistoryFlapping(false, id, start, None)];
      }
    }
    assert rows[..|rows|] == rows;
    out := Output(inserts, upserts, history);
  }

  /** Selecting by the ID range of the page loses no entry of the page's rows. */
  lemma PageKeepsEntry(rows: seq<FlappingRow>, cache: map<nat, EventTime.Time>, i: nat)
    requires InOrder(rows, false) && i < |rows|
    ensures rows[i].id in CachedById(rows, cache) <==> rows[i].id in cache
    ensures rows[i].id in cache ==> CachedById(rows, cache)[rows[i].id] == cache[rows[i].id]
  {
    assert i > 0 ==> Beyond(rows[i].id, rows[0].id, false);
    assert i < |rows| - 1 ==> Beyond(rows[|rows| - 1].id, rows[i].id, false);
  }

  /* ---------- Pairing ---------- */

  /** What the cache filler reads from the same table. */
  function CacheRow(row: FlappingRow): EventTime.EventRow
    requires row.value.time.Some?
  {
    Row(row.id, EventTime.Event(row.value.objectId, OwnTime(row), row.value.eventType != FLAPPING_END))
  }

  function CacheRows(rows: seq<FlappingRow>): (s: seq<EventTime.EventRow>)
    requires forall r <- rows :: r.value.time.Some?
    ensures |s| == |rows| && forall i :: 0 <= i < |rows| ==> s[i] == CacheRow(rows[i])
  {
    if rows == [] then [] else [CacheRow(rows[0])] + CacheRows(rows[1..])
  }

  /** The source table: times are set and events are starts or ends. */
  ghost predicate IsSource(rows: seq<FlappingRow>, names: map<nat, string>) {
    && InOrder(rows, false)
    && forall r <- rows ::
         r.id > 0 && r.value.time.Some? && r.value.objectId in names
         && (r.value.eventType == FLAPPING_START || r.value.eventType == FLAPPING_END)
  }

  lemma CacheRowsAreSource(rows: seq<FlappingRow>, names: map<nat, string>)
    requires IsSource(rows, names)
    ensures EventTime.IsSource(CacheRows(rows))
  {
    var s := CacheRows(rows);
    forall i, j | 0 <= i < j < |s| ensures Beyond(s[j].id, s[i].id, false) {
      assert Beyond(rows[j].id, rows[i].id, false);
    }
  }

  /** The end in row k belongs to the start in row j: it is the next event of the same object. */
  ghost predicate EndsPeriod(rows: seq<FlappingRow>, j: nat, k: nat)
    requires k < |rows|
  {
    && j < k
    && rows[k].value.eventType == FLAPPING_END && rows[j].value.eventType == FLAPPING_START
    && rows[j].value.objectId == rows[k].value.objectId
    && forall i :: j < i < k ==> rows[i].value.objectId != rows[k].value.objectId
  }

  lemma PeriodsArePairs(rows: seq<FlappingRow>, names: map<nat, string>, j: nat, k: nat)
    requires IsSource(rows, names) && k < |rows|
    ensures EndsPeriod(rows, j, k) <==> EventTime.Paired(CacheRows(rows), j, k)
  {
    var s := CacheRows(rows);
    assert forall i :: 0 <= i < |rows| ==> s[i].value.objectId == rows[i].value.objectId;
    if j < k {
      assert rows[j] in rows && rows[k] in rows;
    }
  }

  /** The cache that an uninterrupted pass over the source table leaves. */
  function PassCache(rows: seq<FlappingRow>): map<nat, EventTime.Time>
    requires forall r <- rows :: r.value.time.Some?
  {
    EventTime.Finish(EventTime.FoldFrom(EventTime.EMPTY, CacheRows(rows))).endStart
  }

  lemma PassCacheIsPairing(rows: seq<FlappingRow>, names: map<nat, string>)
    requires IsSource(rows, names)
    ensures EventTime.IsCacheOf(CacheRows(rows), PassCache(rows))
  {
    CacheRowsAreSource(rows, names);
    EventTime.CacheIsPairing(CacheRows(rows));
    assert CacheRows(rows)[..|rows|] == CacheRows(rows);
  }

  lemma PairedEndIsCached(rows: seq<FlappingRow>, names: map<nat, string>, j: nat, k: nat)
    requires IsSource(rows, names) && k < |rows| && EndsPeriod(rows, j, k)
    ensures rows[k].id in PassCache(rows) && PassCache(rows)[rows[k].id] == OwnTime(rows[j])
  {
    PassCacheIsPairing(rows, names);
    PeriodsArePairs(rows, names, j, k);
  }

  /** The time of a row in milliseconds. */
  ghost predicate IsMillis(row: FlappingRow, ms: int)
    requires row.value.time.Some?
  {
    ms == if row.value.time.value == 0 && row.value.usec == 0 then -62135596800000
          else row.value.time.value * 1000 + row.value.usec / 1000
  }

  /** A start yields an insert and a history event with its object and its own time. */
  lemma StartIsConverted(rows: seq<FlappingRow>, names: map<nat, string>, j: nat) returns (startMs: int)
    requires IsSource(rows, names) && j < |rows| && rows[j].value.eventType == FLAPPING_START
    ensures IsMillis(rows[j], startMs)
    ensures
      var id := FlappingId(names[rows[j].value.objectId], startMs);
      Convert(rows[j], names, PassCache(rows))
      == Output([FlappingStart(id, startMs)], [], [HistoryFlapping(false, id, startMs, None)])
  {
    startMs := MilliOf(OwnTime(rows[j]));
  }

  /** With the cache of an uninterrupted pass, an end event whose directly preceding event of the same object is a
      start yields exactly one upsert and one history event, with its own time as the end, and with the ID and the time
      of that start. */
  lemma PairedEndFindsStart(rows: seq<FlappingRow>, names: map<nat, string>, j: nat, k: nat)
    returns (startMs: int, endMs: int)
    requires IsSource(rows, names) && k < |rows| && EndsPeriod(rows, j, k)
    ensures IsMillis(rows[j], startMs) && IsMillis(rows[k], endMs)
    ensures
      var id := FlappingId(names[rows[j].value.objectId], startMs);
      && Convert(rows[j], names, PassCache(rows))
         == Output([FlappingStart(id, startMs)], [], [HistoryFlapping(false, id, startMs, None)])
      && Convert(rows[k], names, PassCache(rows))
         == Output([], [FlappingEnd(id, startMs, endMs)], [HistoryFlapping(true, id, startMs, Some(endMs))])
  {
    PairedEndIsCached(rows, names, j, k);
    startMs, endMs := MilliOf(OwnTime(rows[j])), MilliOf(OwnTime(rows[k]));
  }

  /** Two rows write to the same row of flapping_history exactly if they are of the same object, by its name, and of
      periods that start in the same millisecond. */
  lemma SameIdIffSamePeriod(
    names: map<nat, string>, cache: map<nat, EventTime.Time>, a: FlappingRow, b: FlappingRow)
    requires a.value.objectId in names && b.value.objectId in names
    requires Convert(a, names, cache).history != [] && Convert(b, names, cache).history != []
    ensures
      var x, y := Convert(a, names, cache).history[0], Convert(b, names, cache).history[0];
      x.flappingHistoryId == y.flappingHistoryId
      <==> names[a.value.objectId] == names[b.value.objectId] && x.startMs == y.startMs
  {
  }

  lemma OnlyPairedEndsAreCached(rows: seq<FlappingRow>, names: map<nat, string>, k: nat) returns (j: nat)
    requires IsSource(rows, names) && k < |rows| && rows[k].id in PassCache(rows)
    ensures EndsPeriod(rows, j, k)
  {
    var s, cache := CacheRows(rows), PassCache(rows);
    CacheRowsAreSource(rows, names);
    PassCacheIsPairing(rows, names);
    var l;
    j, l := EventTime.EntryIsPaired(s, cache, rows[k].id);
    EventTime.SameId(s, k, l);
    PeriodsArePairs(rows, names, j, k);
  }

  /** An end event is converted if and only if the directly preceding event of its object is a start. */
  lemma EndIsSkippedIffUnpaired(rows: seq<FlappingRow>, names: map<nat, string>, k: nat)
    requires IsSource(rows, names) && k < |rows| && rows[k].value.eventType == FLAPPING_END
    ensures Convert(rows[k], names, PassCache(rows)) == Output([], [], [])
       <==> forall j: nat :: !EndsPeriod(rows, j, k)
  {
    if rows[k].id in PassCache(rows) {
      var j := OnlyPairedEndsAreCached(rows, names, k);
    }
    if j: nat :| EndsPeriod(rows, j, k) {
      var _, _ := PairedEndFindsStart(rows, names, j, k);
    }
  }
}
