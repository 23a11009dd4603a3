/**
 The connector boundary: cursors, records, and the pure half of `BaseConnector.run`.
 */
module Connectors {
  import opened Options

  const CURSOR_VERSION := 1

  /** Resume state. Event times are integers in the source's finest unit. */
  datatype Cursor = Cursor(version: int, watermark: Option<int>, pageToken: Option<string>,
                           checkpoint: map<string, string>) {
    predicate IsEmpty() { watermark.None? && pageToken.None? && checkpoint == map[] }

    predicate IsReadable() { version == CURSOR_VERSION }
  }

  const FRESH := Cursor(CURSOR_VERSION, None, None, map[])

  /** A dedup key; the two layers have disjoint prefixes in the source. */
  datatype Key = Identity(id: int) | Content(hash: int)

  /** What `normalize` does with a record: a signal with its keys, a drop, or `NormalizationError`. */
  datatype Mapping = Mapped(identity: int, content: Option<int>) | Dropped | Unmappable

  /** One provider payload: its native id, its event time, and its fate in `normalize`. */
  datatype Record = Record(native: int, time: int, mapping: Mapping)

  datatype FetchPage = FetchPage(records: seq<Record>, cursor: Cursor)

  /** The keys `_is_duplicate` looks at. */
  function Keys(r: Record): set<Key>
  {
    match r.mapping
    case Mapped(id, Some(hash)) => {Identity(id), Content(hash)}
    case Mapped(id, None) => {Identity(id)}
    case _ => {}
  }

  // ------------------------------------------------------------- watermarks

  /** `r` happened after `mark`; everything is after no mark. */
  predicate After(mark: Option<int>, r: Record) { mark.None? || r.time > mark.value }

  /** `r` lies at or below `mark`; nothing lies below no mark. */
  predicate UpTo(mark: Option<int>, r: Record) { mark.Some? && r.time <= mark.value }

  /** `high` is no step back from `low`. No mark is the lowest. */
  predicate NotBehind(high: Option<int>, low: Option<int>)
  {
    low.None? || (high.Some? && high.value >= low.value)
  }

  /** `_watermark_floor`. */
  function WatermarkFloor(cursor: Cursor): Option<int>
  {
    if cursor.IsReadable() then cursor.watermark else None
  }

  /** `_guard_watermark`. */
  function GuardWatermark(cursor: Cursor, floor: Option<int>): Cursor
  {
    if floor.None? then cursor
    else if cursor.watermark.Some? && cursor.watermark.value >= floor.value then cursor
    else cursor.(watermark := floor)
  }

  /** `_effective_start`. */
  function EffectiveStart(cursor: Cursor, overlap: nat): Cursor
  {
    if cursor.IsEmpty() || !cursor.IsReadable() then FRESH
    else if cursor.watermark.None? then cursor
    else cursor.(watermark := Some(cursor.watermark.value - overlap))
  }

  /** `_advances`. */
  predicate Advances(candidate: Cursor, committed: Cursor)
  {
    if committed.watermark.None? then true
    else if candidate.watermark.None? then false
    else candidate.watermark.value >= committed.watermark.value
  }

  /** The guard raises a watermark to the floor and touches nothing else; `_advances` compares watermarks. */
  lemma GuardIsMaximum(cursor: Cursor, floor: Option<int>)
    ensures var g := GuardWatermark(cursor, floor);
            && NotBehind(g.watermark, floor) && NotBehind(g.watermark, cursor.watermark)
            && (g.watermark == cursor.watermark || g.watermark == floor)
            && g == cursor.(watermark := g.watermark)
    ensures forall committed: Cursor ::
              Advances(cursor, committed) <==> NotBehind(cursor.watermark, committed.watermark)
  {
  }
}
