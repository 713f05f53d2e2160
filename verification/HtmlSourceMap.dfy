// Sparse decoded-byte origins of text and attribute values (html_source_map.rs).

module HtmlSourceMap {
  import opened Common

  const LF: Byte := 10
  const CR: Byte := 13
  const AMPERSAND: Byte := 38
  const QUOTE: Byte := 34
  const APOSTROPHE: Byte := 39

  datatype Breakpoint = Breakpoint(decoded: nat, source: nat, aligned: bool)

  datatype Span = Span(start: nat, end: nat)

  /** The bytes `[start, end)` of a buffer, if they all exist. */
  function Slice(source: seq<Byte>, start: nat, end: nat): Option<seq<Byte>> {
    if start <= end <= |source| then Some(source[start..end]) else None
  }

  function SliceOrEmpty(source: seq<Byte>, start: nat, end: nat): seq<Byte> {
    if start <= end <= |source| then source[start..end] else []
  }

  predicate ByteAt(source: seq<Byte>, i: nat, b: Byte) {
    i < |source| && source[i] == b
  }

  // ----- lookups -----

  ghost predicate Sorted(breaks: seq<Breakpoint>) {
    forall i, j :: 0 <= i < j < |breaks| ==> breaks[i].decoded <= breaks[j].decoded
  }

  /** How many breakpoints lie at or before a decoded offset, in a sorted table. */
  function PartitionPoint(breaks: seq<Breakpoint>, decoded: nat): (n: nat)
    ensures n <= |breaks|
    ensures Sorted(breaks) ==> forall i :: 0 <= i < |breaks| ==> (breaks[i].decoded <= decoded <==> i < n)
  {
    if |breaks| == 0 then 0
    else if breaks[|breaks| - 1].decoded <= decoded then |breaks|
    else PartitionPoint(breaks[..|breaks| - 1], decoded)
  }

  datatype Origin = Origin(source: nat, aligned: bool)

  function From(point: Breakpoint, decoded: nat): Origin
    requires point.decoded <= decoded
  {
    Origin(if point.aligned then point.source + decoded - point.decoded else point.source, point.aligned)
  }

  /** Where a decoded byte comes from, before clamping. */
  function Raw(start: nat, breaks: seq<Breakpoint>, decoded: nat): Origin {
    if |breaks| == 0 then Origin(start + decoded, true)
    else if breaks[|breaks| - 1].decoded <= decoded then From(breaks[|breaks| - 1], decoded)
    else Raw(start, breaks[..|breaks| - 1], decoded)
  }

  datatype SourceMap = SourceMap(span: Span, breaks: seq<Breakpoint>) {
    /** The last point at or before an offset decides; the answer is clamped to the span. */
    function SourceOffset(decoded: nat): (offset: nat)
      ensures span.start <= offset && (span.start < span.end ==> offset < span.end)
    {
      var index := PartitionPoint(breaks, decoded);
      var offset :=
        if index > 0 && breaks[index - 1].aligned && breaks[index - 1].decoded <= decoded
        then breaks[index - 1].source + decoded - breaks[index - 1].decoded
        else if index > 0 then breaks[index - 1].source
        else span.start + decoded;
      var top := Max(if span.end > 0 then span.end - 1 else 0, span.start);
      Min(Max(offset, span.start), top)
    }

    /** The alignment flag of the last point at or before an offset. */
    predicate IsAligned(decoded: nat) {
      var index := PartitionPoint(breaks, decoded);
      index > 0 ==> breaks[index - 1].aligned
    }
  }

  lemma {:induction false} LookupIsRaw(map': SourceMap, decoded: nat)
    ensures map'.IsAligned(decoded) == Raw(map'.span.start, map'.breaks, decoded).aligned
    ensures map'.SourceOffset(decoded)
         == Min(Max(Raw(map'.span.start, map'.breaks, decoded).source, map'.span.start),
                Max(if map'.span.end > 0 then map'.span.end - 1 else 0, map'.span.start))
    decreases |map'.breaks|
  {
    var n := |map'.breaks|;
    if n > 0 && map'.breaks[n - 1].decoded > decoded {
      var shorter := SourceMap(map'.span, map'.breaks[..n - 1]);
      LookupIsRaw(shorter, decoded);
      var index := PartitionPoint(shorter.breaks, decoded);
      if index > 0 { assert shorter.breaks[index - 1] == map'.breaks[index - 1]; }
    }
  }

  // ----- what a finished map promises -----

  /** A source byte stands for a decoded byte: equal, or the CR of a newline. */
  predicate Stands(source: seq<Byte>, at: nat, b: Byte) {
    at < |source| && (source[at] == b || (source[at] == CR && b == LF))
  }

  /** Every aligned decoded byte stands at its source offset, inside the span. */
  ghost predicate Faithful(map': SourceMap, source: seq<Byte>, value: seq<Byte>) {
    forall d :: 0 <= d < |value| && map'.IsAligned(d) ==>
      && map'.span.start <= map'.SourceOffset(d) < map'.span.end <= |source|
      && Stands(source, map'.SourceOffset(d), value[d])
  }

  ghost predicate Monotone(map': SourceMap) {
    forall d, e :: 0 <= d <= e ==> map'.SourceOffset(d) <= map'.SourceOffset(e)
  }

  // ----- one buffer -----

  ghost predicate WithinDecoded(breaks: seq<Breakpoint>, decoded: nat) {
    forall i :: 0 <= i < |breaks| ==> breaks[i].decoded <= decoded
  }

  /** Recorded bytes keep their origins in order; the next byte comes from `end`. */
  ghost predicate Tracks(start: nat, breaks: seq<Breakpoint>, end: nat, consumedEnd: nat, source: seq<Byte>,
                         text: seq<Byte>)
  {
    var decoded := |text|;
    && Sorted(breaks) && WithinDecoded(breaks, decoded)
    && Raw(start, breaks, decoded) == Origin(end, true)
    && (decoded == 0 ==> breaks == [] && start == end)
    && (decoded > 0 ==> end <= |source| && consumedEnd <= |source|)
    && (start <= end || end >= |source|)
    && (forall d :: 0 <= d < decoded ==> Good(start, breaks, d, consumedEnd, source, text[d]))
    && (forall d, e :: 0 <= d <= e < decoded ==> Raw(start, breaks, d).source <= Raw(start, breaks, e).source)
    && (forall d :: 0 <= d < decoded ==> Raw(start, breaks, d).source <= end)
  }

  ghost predicate Good(start: nat, breaks: seq<Breakpoint>, d: nat, consumedEnd: nat, source: seq<Byte>, b: Byte) {
    Raw(start, breaks, d).aligned ==>
      && start <= Raw(start, breaks, d).source < consumedEnd
      && Stands(source, Raw(start, breaks, d).source, b)
  }

  // ----- aligning literal chunks -----

  /** The source bytes that a value's bytes from `index` take, from `cursor` on. */
  function Consume(raw: seq<Byte>, cursor: nat, value: seq<Byte>, index: nat): Option<nat>
    requires index <= |value|
    decreases |value| - index
  {
    if index == |value| then Some(cursor)
    else if ByteAt(raw, cursor, value[index]) then Consume(raw, cursor + 1, value, index + 1)
    else if ByteAt(raw, cursor, CR) && value[index] == LF then
      Consume(raw, if ByteAt(raw, cursor + 1, LF) then cursor + 2 else cursor + 1, value, index + 1)
    else None
  }

  /** Lookups after `decoded`, when an aligned run from `start` is followed by `points`. */
  ghost function RunRaw(start: nat, decoded: nat, points: seq<Breakpoint>, d: nat): Origin
    requires decoded <= d
  {
    if |points| == 0 then Origin(start + d - decoded, true)
    else if points[|points| - 1].decoded <= d then From(points[|points| - 1], d)
    else RunRaw(start, decoded, points[..|points| - 1], d)
  }

  ghost predicate PointsIn(points: seq<Breakpoint>, low: nat, high: nat) {
    Sorted(points) && forall i :: 0 <= i < |points| ==> low < points[i].decoded <= high
  }

  /** Where the byte after a decoded byte is read: a CRLF decoded as LF takes two bytes. */
  function NextByte(source: seq<Byte>, at: nat, b: Byte): nat {
    if !ByteAt(source, at, b) && ByteAt(source, at + 1, LF) then at + 2 else at + 1
  }

  /** Byte `k` of the value is read right after the byte before it. */
  ghost predicate Succeeds(source: seq<Byte>, value: seq<Byte>, at: seq<nat>, k: nat)
    requires 0 < k < |at| <= |value|
  {
    at[k] == NextByte(source, at[k - 1], value[k - 1])
  }

  /** Byte `k` of the value stands at `at[k]` of the raw bytes, read from 0 on one after another. */
  ghost predicate StandAt(raw: seq<Byte>, value: seq<Byte>, at: seq<nat>, cursor: nat) {
    && |at| <= |value|
    && cursor == (if |at| == 0 then 0 else NextByte(raw, at[|at| - 1], value[|at| - 1]))
    && (|at| > 0 ==> at[0] == 0)
    && (forall k :: 0 < k < |at| ==> Succeeds(raw, value, at, k))
    && (forall k :: 0 <= k < |at| ==> at[k] < cursor && Stands(raw, at[k], value[k]))
    && (forall j, k :: 0 <= j < k < |at| ==> at[j] < at[k])
  }

  lemma RunPush(start: nat, decoded: nat, points: seq<Breakpoint>, p: Breakpoint, d: nat)
    requires decoded <= d
    ensures RunRaw(start, decoded, points + [p], d) ==
            if p.decoded <= d then From(p, d) else RunRaw(start, decoded, points, d)
  {
  }

  /** The points answer the run's bytes so far, and the next byte at `cursor`. */
  ghost predicate Follows(start: nat, decoded: nat, points: seq<Breakpoint>, at: seq<nat>, cursor: nat) {
    && PointsIn(points, decoded, decoded + |at|)
    && (forall d :: decoded <= d < decoded + |at| ==>
          RunRaw(start, decoded, points, d) == Origin(start + at[d - decoded], true))
    && RunRaw(start, decoded, points, decoded + |at|) == Origin(start + cursor, true)
  }

  lemma FollowsByte(start: nat, decoded: nat, points: seq<Breakpoint>, at: seq<nat>, cursor: nat)
    requires Follows(start, decoded, points, at, cursor)
    ensures Follows(start, decoded, points, at + [cursor], cursor + 1)
  {
  }

  /** After a skipped LF, a new point moves the run on. */
  lemma FollowsPoint(start: nat, decoded: nat, points: seq<Breakpoint>, at: seq<nat>, cursor: nat, next: nat)
    requires |at| > 0 && Follows(start, decoded, points, at, cursor)
    requires PointsIn(points, decoded, decoded + |at| - 1)
    ensures Follows(start, decoded, points + [Breakpoint(decoded + |at|, start + next, true)], at, next)
  {
    var p := Breakpoint(decoded + |at|, start + next, true);
    forall d | decoded <= d < decoded + |at|
      ensures RunRaw(start, decoded, points + [p], d) == RunRaw(start, decoded, points, d)
    {
      RunPush(start, decoded, points, p, d);
    }
    RunPush(start, decoded, points, p, decoded + |at|);
  }

  lemma StandsNext(raw: seq<Byte>, value: seq<Byte>, at: seq<nat>, cursor: nat, next: nat)
    requires StandAt(raw, value, at, cursor) && |at| < |value| && Stands(raw, cursor, value[|at|])
    requires next == NextByte(raw, cursor, value[|at|])
    ensures StandAt(raw, value, at + [cursor], next)
  {
    assert forall k :: 0 < k < |at| ==> Succeeds(raw, value, at, k) ==> Succeeds(raw, value, at + [cursor], k);
  }

  datatype Alignment = Alignment(length: nat, points: seq<Breakpoint>)

  /** Read the raw bytes beside the value, skipping only a newline's CR; None where they part. */
  method Align(raw: seq<Byte>, value: seq<Byte>, start: nat, decoded: nat)
    returns (r: Option<Alignment>, ghost at: seq<nat>)
    ensures (if r.Some? then Some(r.value.length) else None) == Consume(raw, 0, value, 0)
    ensures r.Some? ==>
              && |at| == |value| && StandAt(raw, value, at, r.value.length) && r.value.length <= |raw|
              && Follows(start, decoded, r.value.points, at, r.value.length)
  {
    var cursor := 0;
    var points: seq<Breakpoint> := [];
    at := [];
    var index := 0;
    assert Follows(start, decoded, points, at, cursor) && StandAt(raw, value, at, cursor);
    hide Follows, StandAt, PointsIn;
    while index < |value|
      invariant index == |at| <= |value| && cursor <= |raw|
      invariant StandAt(raw, value, at, cursor) && Follows(start, decoded, points, at, cursor)
      invariant Consume(raw, 0, value, 0) == Consume(raw, cursor, value, index)
    {
      var byte := value[index];
      FollowsByte(start, decoded, points, at, cursor);
      FollowsIn(start, decoded, points, at, cursor);
      ghost var before := at;
      at := at + [cursor];
      if ByteAt(raw, cursor, byte) {
        StandsNext(raw, value, before, cursor, cursor + 1);
        cursor := cursor + 1;
      } else if ByteAt(raw, cursor, CR) && byte == LF {
        cursor := cursor + 1;
        if ByteAt(raw, cursor, LF) {
          StandsNext(raw, value, before, cursor - 1, cursor + 1);
          FollowsPoint(start, decoded, points, at, cursor, cursor + 1);
          cursor := cursor + 1;
          points := points + [Breakpoint(decoded + index + 1, start + cursor, true)];
        } else {
          StandsNext(raw, value, before, cursor - 1, cursor);
        }
      } else {
        return None, at;
      }
      index := index + 1;
    }
    r := Some(Alignment(cursor, points));
  }

  lemma FollowsIn(start: nat, decoded: nat, points: seq<Breakpoint>, at: seq<nat>, cursor: nat)
    requires Follows(start, decoded, points, at, cursor)
    ensures PointsIn(points, decoded, decoded + |at|)
  {
  }

  // ----- growing the table -----

  lemma RawPush(start: nat, breaks: seq<Breakpoint>, p: Breakpoint, d: nat)
    ensures Raw(start, breaks + [p], d) == if p.decoded <= d then From(p, d) else Raw(start, breaks, d)
  {
  }

  /** Appending an aligned run's points leaves earlier lookups and adds the run's. */
  lemma {:induction false} RawExtend(start: nat, breaks: seq<Breakpoint>, from: nat, decoded: nat,
                                     points: seq<Breakpoint>, high: nat, d: nat)
    requires PointsIn(points, decoded, high)
    requires decoded <= d ==> Raw(start, breaks, d) == Origin(from + d - decoded, true)
    ensures d < decoded ==> Raw(start, breaks + points, d) == Raw(start, breaks, d)
    ensures decoded <= d ==> Raw(start, breaks + points, d) == RunRaw(from, decoded, points, d)
    decreases |points|
  {
    if |points| == 0 {
      assert breaks + points == breaks;
    } else {
      var last := points[|points| - 1];
      var init := points[..|points| - 1];
      assert breaks + points == (breaks + init) + [last];
      RawPush(start, breaks + init, last, d);
      RawExtend(start, breaks, from, decoded, init, high, d);
    }
  }

  lemma SortedExtend(breaks: seq<Breakpoint>, points: seq<Breakpoint>, low: nat, high: nat)
    requires Sorted(breaks) && WithinDecoded(breaks, low) && PointsIn(points, low, high) && low <= high
    ensures Sorted(breaks + points) && WithinDecoded(breaks + points, high)
  {
  }

  // ----- one more chunk -----

  /** A chunk's lookups: its own origins, then the next byte at `end`; earlier bytes as before. */
  ghost predicate Chunk(start: nat, breaks: seq<Breakpoint>, grown: seq<Breakpoint>, decoded: nat,
                        origins: seq<Origin>, end: nat)
  {
    && Sorted(grown) && WithinDecoded(grown, decoded + |origins|)
    && (forall d :: 0 <= d < decoded ==> Raw(start, grown, d) == Raw(start, breaks, d))
    && (forall d :: decoded <= d < decoded + |origins| ==> Raw(start, grown, d) == origins[d - decoded])
    && Raw(start, grown, decoded + |origins|) == Origin(end, true)
  }

  /** The same, before the next byte has its origin. */
  ghost predicate Located(start: nat, breaks: seq<Breakpoint>, grown: seq<Breakpoint>, decoded: nat,
                          origins: seq<Origin>)
  {
    && Sorted(grown) && WithinDecoded(grown, decoded + |origins|)
    && (forall d :: 0 <= d < decoded ==> Raw(start, grown, d) == Raw(start, breaks, d))
    && (forall d :: decoded <= d < decoded + |origins| ==> Raw(start, grown, d) == origins[d - decoded])
  }

  /** A chunk's origins go forward from `low` to `end`; aligned ones stand for its bytes. */
  ghost predicate Forward(origins: seq<Origin>, low: nat, end: nat, source: seq<Byte>, value: seq<Byte>) {
    && |origins| == |value|
    && (forall k :: 0 <= k < |origins| ==> low <= origins[k].source <= end)
    && (forall j, k :: 0 <= j <= k < |origins| ==> origins[j].source <= origins[k].source)
    && (forall k :: 0 <= k < |origins| && origins[k].aligned ==>
          origins[k].source < end && Stands(source, origins[k].source, value[k]))
  }

  lemma TracksChunk(start: nat, breaks: seq<Breakpoint>, end: nat, consumedEnd: nat, source: seq<Byte>,
                    text: seq<Byte>, grown: seq<Breakpoint>, value: seq<Byte>, origins: seq<Origin>, low: nat,
                      end': nat, consumedEnd': nat)
    requires Tracks(start, breaks, end, consumedEnd, source, text) && |value| > 0
    requires Chunk(start, breaks, grown, |text|, origins, end') && Forward(origins, low, end', source, value)
    requires |text| > 0 ==> end <= low
    requires (exists k :: 0 <= k < |origins| && origins[k].aligned) ==> start <= low
    requires low <= end' <= consumedEnd' <= |source|
    requires start <= end' || end' >= |source|
    requires |text| > 0 ==> consumedEnd <= consumedEnd'
    ensures Tracks(start, grown, end', consumedEnd', source, text + value)
  {
  }

  /** The point that a call of `point` adds, if any, leaves earlier lookups alone. */
  lemma PointLookups(start: nat, breaks: seq<Breakpoint>, p: Breakpoint)
    requires Sorted(breaks) && WithinDecoded(breaks, p.decoded)
    ensures Sorted(breaks + [p]) && WithinDecoded(breaks + [p], p.decoded)
    ensures forall d :: 0 <= d < p.decoded ==> Raw(start, breaks + [p], d) == Raw(start, breaks, d)
    ensures forall d :: p.decoded <= d ==> Raw(start, breaks + [p], d) == From(p, d)
  {
  }

  /** From the last breakpoint on, lookups only depend on it. */
  lemma Beyond(start: nat, breaks: seq<Breakpoint>, decoded: nat)
    requires WithinDecoded(breaks, decoded)
    ensures forall d :: decoded <= d ==>
              Raw(start, breaks, d) == if |breaks| == 0 then Origin(start + d, true) else From(breaks[|breaks| - 1], d)
  {
  }

  ghost function Sources(origins: seq<Origin>): (at: seq<nat>)
    ensures |at| == |origins|
    ensures forall k :: 0 <= k < |at| ==> at[k] == origins[k].source
  {
    seq(|origins|, k requires 0 <= k < |origins| => origins[k].source)
  }

  /** An aligned chunk's bytes are read from `from` on, one after another; others stay where it begins. */
  ghost predicate ByteByByte(source: seq<Byte>, value: seq<Byte>, origins: seq<Origin>, from: nat, stop: nat,
                             aligned: bool)
  {
    && |origins| == |value|
    && (forall k :: 0 <= k < |origins| ==> origins[k].aligned == aligned)
    && (aligned && |origins| > 0 ==> origins[0].source == from)
    && (aligned ==> forall k :: 0 < k < |origins| ==> Succeeds(source, value, Sources(origins), k))
    && (!aligned ==> forall k :: 0 <= k < |origins| ==> origins[k].source == Min(from, stop))
  }

  /** Where the source bytes of a chunk end. */
  function ChunkEnd(source: seq<Byte>, start: nat, value: seq<Byte>, position: nat, consumed: nat): nat {
    var stop := Min(Max(position, start), |source|);
    var run := Consume(SliceOrEmpty(source, start, consumed), 0, value, 0);
    if SliceOrEmpty(source, start, stop) != value && ChunkAligned(source, start, value, position, consumed)
    then start + run.value
    else stop
  }

  /** Where a chunk begins: after the LF of a CRLF whose CR came before. */
  function ChunkStart(source: seq<Byte>, end: nat): nat {
    if ByteAt(source, end, LF) && end > 0 && ByteAt(source, end - 1, CR) then end + 1 else end
  }

  /** Whether a chunk keeps its source bytes: literal, or literal up to newlines and
      not a character reference that the tokenizer has read further. */
  predicate ChunkAligned(source: seq<Byte>, start: nat, value: seq<Byte>, position: nat, consumed: nat) {
    var stop := Min(Max(position, start), |source|);
    var run := Consume(SliceOrEmpty(source, start, consumed), 0, value, 0);
    || SliceOrEmpty(source, start, stop) == value
    || (run.Some? && (!ByteAt(source, start, AMPERSAND) || start + run.value >= stop))
  }

  ghost function LiteralOrigins(from: nat, count: nat): (origins: seq<Origin>)
    ensures |origins| == count
  {
    seq(count, k requires 0 <= k < count => Origin(from + k, true))
  }

  ghost function RunOrigins(from: nat, at: seq<nat>): (origins: seq<Origin>)
    ensures |origins| == |at|
  {
    seq(|at|, k requires 0 <= k < |at| => Origin(from + at[k], true))
  }

  /** Recording a chunk keeps every recorded byte's origin. */
  lemma RecordTracks(start: nat, breaks: seq<Breakpoint>, end: nat, consumedEnd: nat, source: seq<Byte>,
                     text: seq<Byte>, grown: seq<Breakpoint>, value: seq<Byte>, origins: seq<Origin>, from: nat,
                       stop: nat, position: nat, aligned: bool)
    requires Tracks(start, breaks, end, consumedEnd, source, text) && |value| > 0 && from == ChunkStart(source, end)
    requires Chunk(start, breaks, grown, |text|, origins, stop) &&
             Forward(origins, Min(from, stop), stop, source, value)
    requires stop <= |source| && (from <= |source| ==> from <= stop) && (from > |source| ==> stop == |source|)
    requires ByteByByte(source, value, origins, from, stop, aligned) && (aligned ==> from < stop)
    ensures Tracks(start, grown, stop, Min(Max(Max(consumedEnd, position), stop), |source|), source, text + value)
  {
    hide Chunk, Forward, Good, Raw;
    TracksChunk(start, breaks, end, consumedEnd, source, text, grown, value, origins, Min(from, stop), stop,
                Min(Max(Max(consumedEnd, position), stop), |source|));
  }

  lemma TracksSorted(start: nat, breaks: seq<Breakpoint>, end: nat, consumedEnd: nat, source: seq<Byte>,
                     text: seq<Byte>)
    requires Tracks(start, breaks, end, consumedEnd, source, text)
    ensures Sorted(breaks) && WithinDecoded(breaks, |text|)
  {
  }

  /** What recording a chunk does to the table: the chunk's bytes get their origins, from where it begins. */
  ghost predicate Records(source: seq<Byte>, value: seq<Byte>, position: nat, consumed: nat, start: nat,
                          before: seq<Breakpoint>, end: nat, decoded: nat, after: seq<Breakpoint>, next: nat,
                          origins: seq<Origin>)
  {
    var from := ChunkStart(source, end);
    && Chunk(start, before, after, decoded, origins, next)
    && ByteByByte(source, value, origins, from, next, ChunkAligned(source, from, value, position, consumed))
    && next == ChunkEnd(source, from, value, position, consumed)
  }

  // ----- literal text -----

  /** Where byte `d` of a text is read that the source holds from `from` on: one source byte after another, and a
      CR LF pair for one newline. */
  ghost function Place(source: seq<Byte>, from: nat, text: seq<Byte>, d: nat): (p: nat)
    requires d <= |text|
    ensures p >= from
  {
    if d == 0 then from
    else
      var p := Place(source, from, text, d - 1);
      if text[d - 1] == 10 && p + 1 < |source| && source[p] == 13 && source[p + 1] == 10 then p + 2 else p + 1
  }

  ghost predicate HeldAt(source: seq<Byte>, p: nat, b: Byte) {
    p < |source| && (source[p] == b || (source[p] == 13 && b == 10))
  }

  /** The source holds byte `d` of the text at its place, before the consumed mark. */
  ghost predicate HeldBefore(source: seq<Byte>, from: nat, text: seq<Byte>, d: nat, consumed: nat)
    requires d < |text|
  {
    Place(source, from, text, d) < consumed && HeldAt(source, Place(source, from, text, d), text[d])
  }

  /** Where byte `i` is an ampersand, the source is read no further than byte `last`. */
  ghost predicate AmpersandRead(source: seq<Byte>, from: nat, text: seq<Byte>, i: nat, last: nat, position: nat)
    requires i < |text| && last < |text|
  {
    ByteAt(source, Place(source, from, text, i), 38) ==> position <= Place(source, from, text, last) + 1
  }

  /** The source holds the chunk, before the consumed mark, right after the text before it. A chunk that begins with
      an ampersand is read no further than that. */
  ghost predicate LiteralChunk(source: seq<Byte>, start: nat, text: seq<Byte>, value: seq<Byte>, position: nat,
                               consumed: nat)
    requires |value| > 0
  {
    var (from, all) := (ChunkStart(source, start), text + value);
    && consumed <= |source| && 13 !in value
    && (forall d :: |text| <= d < |all| ==> HeldBefore(source, from, all, d, consumed))
    && AmpersandRead(source, from, all, |text|, |text| + |value| - 1, position)
  }

  /** Every byte of the text so far is aligned with its own source byte, and the next one comes right after. */
  ghost predicate Literal(source: seq<Byte>, start: nat, breaks: seq<Breakpoint>, end: nat, text: seq<Byte>) {
    var from := ChunkStart(source, start);
    && 13 !in text
    && (forall d :: 0 <= d < |text| ==> LiteralAt(source, start, breaks, text, d))
    && ChunkStart(source, end) == Place(source, from, text, |text|)
  }

  ghost predicate LiteralAt(source: seq<Byte>, start: nat, breaks: seq<Breakpoint>, text: seq<Byte>, d: nat)
    requires d < |text|
  {
    var p := Place(source, ChunkStart(source, start), text, d);
    HeldAt(source, p, text[d]) && Raw(start, breaks, d) == Origin(p, true)
  }

  lemma {:induction false} PlaceThen(source: seq<Byte>, from: nat, text: seq<Byte>, value: seq<Byte>, d: nat)
    requires d <= |text| + |value|
    ensures d <= |text| ==> Place(source, from, text + value, d) == Place(source, from, text, d)
    ensures d >= |text| ==>
              Place(source, from, text + value, d) ==
              Place(source, Place(source, from, text, |text|), value, d - |text|)
    decreases d
  {
    if d > 0 { PlaceThen(source, from, text, value, d - 1); }
  }

  /** The value as the source holds it from `from` on. */
  ghost predicate Holds(source: seq<Byte>, from: nat, value: seq<Byte>, consumed: nat) {
    && consumed <= |source| && 13 !in value
    && forall k :: 0 <= k < |value| ==> HeldBefore(source, from, value, k, consumed)
  }

  /** Where reading a held value stops: past its last newline's LF only when that is consumed too. */
  ghost function HeldEnd(source: seq<Byte>, from: nat, value: seq<Byte>, consumed: nat): nat
    requires |value| > 0
  {
    var p := Place(source, from, value, |value| - 1);
    if value[|value| - 1] == 10 && p + 1 < consumed <= |source| && source[p] == 13 && source[p + 1] == 10 then p + 2
    else p + 1
  }

  lemma ConsumeStep(raw: seq<Byte>, cursor: nat, value: seq<Byte>, k: nat, next: nat)
    requires k < |value|
    requires if ByteAt(raw, cursor, value[k]) then next == cursor + 1
             else ByteAt(raw, cursor, CR) && value[k] == LF &&
                  next == if ByteAt(raw, cursor + 1, LF) then cursor + 2 else cursor + 1
    ensures Consume(raw, cursor, value, k) == Consume(raw, next, value, k + 1)
    ensures k + 1 == |value| ==> Consume(raw, cursor, value, k) == Some(next)
  {
  }

  lemma PlaceStep(source: seq<Byte>, from: nat, text: seq<Byte>, d: nat)
    requires d < |text|
    ensures
      var p := Place(source, from, text, d);
      Place(source, from, text, d + 1) ==
      if text[d] == 10 && p + 1 < |source| && source[p] == 13 && source[p + 1] == 10 then p + 2 else p + 1
  {
  }

  /** One held byte in the slice up to the consumed mark. */
  lemma SliceByte(source: seq<Byte>, from: nat, consumed: nat, p: nat, b: Byte)
    requires from <= p < consumed <= |source| && HeldAt(source, p, b) && b != 13
    ensures
      var (raw, at) := (SliceOrEmpty(source, from, consumed), p - from);
      && (ByteAt(raw, at, b) <==> source[p] == b)
      && (source[p] != b ==> ByteAt(raw, at, CR) && b == LF)
      && (ByteAt(raw, at + 1, LF) <==> p + 1 < consumed && source[p + 1] == 10)
  {
    assert SliceOrEmpty(source, from, consumed)[p - from] == source[p];
  }

  lemma {:induction false} ConsumeHeld(source: seq<Byte>, from: nat, value: seq<Byte>, consumed: nat, k: nat)
    requires Holds(source, from, value, consumed) && k < |value|
    ensures Consume(SliceOrEmpty(source, from, consumed), Place(source, from, value, k) - from, value, k) ==
            Some(HeldEnd(source, from, value, consumed) - from)
    decreases |value| - k
  {
    hide Consume, Place, ByteAt, HeldAt;
    var (raw, p) := (SliceOrEmpty(source, from, consumed), Place(source, from, value, k));
    assert HeldBefore(source, from, value, k, consumed);
    SliceByte(source, from, consumed, p, value[k]);
    PlaceStep(source, from, value, k);
    if k + 1 < |value| {
      ConsumeHeld(source, from, value, consumed, k + 1);
      assert HeldBefore(source, from, value, k + 1, consumed);
      ConsumeStep(raw, p - from, value, k, Place(source, from, value, k + 1) - from);
    } else {
      ConsumeStep(raw, p - from, value, k, HeldEnd(source, from, value, consumed) - from);
    }
  }

  lemma {:induction false} PlainPlaces(source: seq<Byte>, from: nat, value: seq<Byte>, stop: nat, k: nat)
    requires SliceOrEmpty(source, from, stop) == value && 13 !in value && k <= |value|
    ensures Place(source, from, value, k) == from + k
  {
    if k > 0 {
      PlainPlaces(source, from, value, stop, k - 1);
      LiteralByte(source, value, from, stop, k - 1);
    }
  }

  /** Bytes read one after another are read at their places. */
  lemma {:induction false} OriginsHeld(source: seq<Byte>, from: nat, value: seq<Byte>, consumed: nat,
                                       origins: seq<Origin>, end: nat, k: nat)
    requires Holds(source, from, value, consumed) && ByteByByte(source, value, origins, from, end, true)
    requires k < |value|
    ensures origins[k] == Origin(Place(source, from, value, k), true)
  {
    if k > 0 {
      OriginsHeld(source, from, value, consumed, origins, end, k - 1);
      assert HeldBefore(source, from, value, k - 1, consumed);
      assert Succeeds(source, value, Sources(origins), k);
    }
  }

  /** The next chunk begins right after the held value, whether or not the LF of its last newline was consumed. */
  lemma EndHeld(source: seq<Byte>, from: nat, value: seq<Byte>, position: nat, consumed: nat)
    requires |value| > 0 && Holds(source, from, value, consumed)
    requires ByteAt(source, from, 38) ==> position <= Place(source, from, value, |value| - 1) + 1
    ensures ChunkAligned(source, from, value, position, consumed)
    ensures ChunkStart(source, ChunkEnd(source, from, value, position, consumed)) ==
            Place(source, from, value, |value|)
  {
    hide Consume, Place, HeldAt, ByteAt;
    var stop := Min(Max(position, from), |source|);
    ConsumeHeld(source, from, value, consumed, 0);
    PlaceStart(source, from, value);
    assert HeldBefore(source, from, value, |value| - 1, consumed);
    assert HeldBefore(source, from, value, 0, consumed);
    if SliceOrEmpty(source, from, stop) == value {
      EndPlain(source, from, value, stop);
    } else {
      EndRun(source, from, value, consumed);
    }
  }

  lemma EndPlain(source: seq<Byte>, from: nat, value: seq<Byte>, stop: nat)
    requires |value| > 0 && SliceOrEmpty(source, from, stop) == value && 13 !in value
    ensures ChunkStart(source, stop) == Place(source, from, value, |value|)
  {
    PlainPlaces(source, from, value, stop, |value|);
    LiteralByte(source, value, from, stop, |value| - 1);
    assert source[stop - 1] == value[|value| - 1];
  }

  lemma EndRun(source: seq<Byte>, from: nat, value: seq<Byte>, consumed: nat)
    requires |value| > 0 && consumed <= |source| && value[|value| - 1] != 13
    requires HeldAt(source, Place(source, from, value, |value| - 1), value[|value| - 1])
    ensures ChunkStart(source, HeldEnd(source, from, value, consumed)) == Place(source, from, value, |value|)
  {
    hide Place;
    PlaceStep(source, from, value, |value| - 1);
  }

  lemma PlaceStart(source: seq<Byte>, from: nat, value: seq<Byte>)
    ensures Place(source, from, value, 0) == from
  {
  }

  /** A held chunk that follows a literal text makes a longer literal text. */
  lemma LiteralGrows(source: seq<Byte>, start: nat, before: seq<Breakpoint>, end: nat, text: seq<Byte>,
                     value: seq<Byte>, position: nat, consumed: nat, grown: seq<Breakpoint>, next: nat,
                     origins: seq<Origin>)
    requires |value| > 0 && Literal(source, start, before, end, text)
    requires LiteralChunk(source, start, text, value, position, consumed)
    requires Records(source, value, position, consumed, start, before, end, |text|, grown, next, origins)
    ensures Literal(source, start, grown, next, text + value)
  {
    hide Place, Raw, HeldAt, Consume, ChunkEnd, ChunkAligned, ChunkStart, Sorted, WithinDecoded;
    var (first, from, all) := (ChunkStart(source, start), ChunkStart(source, end), text + value);
    forall d: nat | d <= |all|
      ensures d <= |text| ==> Place(source, first, all, d) == Place(source, first, text, d)
      ensures d >= |text| ==> Place(source, first, all, d) == Place(source, from, value, d - |text|)
    {
      PlaceThen(source, first, text, value, d);
    }
    HoldsChunk(source, start, text, value, position, consumed, from);
    EndHeld(source, from, value, position, consumed);
    forall d | 0 <= d < |all|
      ensures LiteralAt(source, start, grown, all, d)
    {
      if d < |text| {
        assert LiteralAt(source, start, before, text, d);
      } else {
        OriginsHeld(source, from, value, consumed, origins, ChunkEnd(source, from, value, position, consumed),
                    d - |text|);
        assert HeldBefore(source, from, value, d - |text|, consumed);
      }
    }
  }

  lemma HoldsChunk(source: seq<Byte>, start: nat, text: seq<Byte>, value: seq<Byte>, position: nat, consumed: nat,
                   from: nat)
    requires |value| > 0 && LiteralChunk(source, start, text, value, position, consumed)
    requires from == Place(source, ChunkStart(source, start), text, |text|)
    ensures Holds(source, from, value, consumed)
    ensures ByteAt(source, from, 38) ==> position <= Place(source, from, value, |value| - 1) + 1
  {
    hide Place, HeldAt, LiteralChunk, ByteAt;
    forall k | 0 <= k < |value|
      ensures HeldBefore(source, from, value, k, consumed)
    {
      ChunkByte(source, start, text, value, position, consumed, from, k);
    }
    ChunkAmpersand(source, start, text, value, position, consumed, from);
  }

  lemma ChunkAmpersand(source: seq<Byte>, start: nat, text: seq<Byte>, value: seq<Byte>, position: nat,
                       consumed: nat, from: nat)
    requires |value| > 0 && LiteralChunk(source, start, text, value, position, consumed)
    requires from == Place(source, ChunkStart(source, start), text, |text|)
    ensures consumed <= |source| && 13 !in value
    ensures ByteAt(source, from, 38) ==> position <= Place(source, from, value, |value| - 1) + 1
  {
    hide Place, HeldBefore, AmpersandRead, ByteAt, ChunkStart;
    AmpersandThen(source, ChunkStart(source, start), text, value, position);
  }

  lemma AmpersandThen(source: seq<Byte>, first: nat, text: seq<Byte>, value: seq<Byte>, position: nat)
    requires |value| > 0 && AmpersandRead(source, first, text + value, |text|, |text| + |value| - 1, position)
    ensures
      var from := Place(source, first, text, |text|);
      ByteAt(source, from, 38) ==> position <= Place(source, from, value, |value| - 1) + 1
  {
    hide Place, ByteAt;
    PlaceThen(source, first, text, value, |text|);
    PlaceThen(source, first, text, value, |text| + |value| - 1);
  }

  lemma ChunkByte(source: seq<Byte>, start: nat, text: seq<Byte>, value: seq<Byte>, position: nat, consumed: nat,
                  from: nat, k: nat)
    requires k < |value| && LiteralChunk(source, start, text, value, position, consumed)
    requires from == Place(source, ChunkStart(source, start), text, |text|)
    ensures
      var p := Place(source, from, value, k);
      && p == Place(source, ChunkStart(source, start), text + value, |text| + k)
      && p < consumed <= |source| && HeldAt(source, p, value[k])
  {
    hide Place, HeldAt;
    PlaceThen(source, ChunkStart(source, start), text, value, |text| + k);
    assert HeldBefore(source, ChunkStart(source, start), text + value, |text| + k, consumed);
    assert (text + value)[|text| + k] == value[k];
  }

  class Buffer {
    var start: nat
    /** Where the next chunk's bytes begin; the tokenizer's position may be ahead of it. */
    var end: nat
    /** No byte recorded so far comes from beyond this source position. */
    var consumedEnd: nat
    var decoded: nat
    var breaks: seq<Breakpoint>
    /** The value's bytes so far. */
    ghost var text: seq<Byte>
    /** Every chunk so far was held by the source where it was recorded. */
    ghost var literal: bool

    ghost predicate Valid(source: seq<Byte>)
      reads this
    {
      && decoded == |text| && Tracks(start, breaks, end, consumedEnd, source, text)
      && (text == [] ==> literal) && (literal ==> Literal(source, start, breaks, end, text))
    }

    constructor ()
      ensures forall source :: Valid(source)
      ensures text == []
    {
      start, end, consumedEnd, decoded, breaks, text, literal := 0, 0, 0, 0, [], [], true;
    }

    /** Start a value only when no earlier chunk is buffered. */
    method Begin(source: seq<Byte>, position: nat)
      requires Valid(source)
      modifies this
      ensures Valid(source) && text == old(text) && literal == old(literal)
      ensures text == [] ==> start == end == consumedEnd == position && breaks == []
      ensures text != [] ==>
                start == old(start) && end == old(end) && consumedEnd == old(consumedEnd) && breaks == old(breaks)
    {
      if decoded == 0 {
        start := position;
        end := position;
        consumedEnd := position;
      }
    }

    /** Lookups from `at` on come from `source`; a point that changes nothing is not stored. */
    method Point(at: nat, source: nat, aligned: bool)
      requires Sorted(breaks) && WithinDecoded(breaks, at)
      modifies this`breaks
      ensures Sorted(breaks) && WithinDecoded(breaks, at)
      ensures forall d :: 0 <= d < at ==> Raw(start, breaks, d) == Raw(start, old(breaks), d)
      ensures forall d :: at <= d ==> Raw(start, breaks, d) == From(Breakpoint(at, source, aligned), d)
    {
      var offset := start + at;
      if |breaks| > 0 {
        var last := breaks[|breaks| - 1];
        offset := if last.aligned then last.source + at - last.decoded else last.source;
      }
      if offset != source || (|breaks| > 0 && breaks[|breaks| - 1].aligned != aligned) || !aligned {
        PointLookups(start, breaks, Breakpoint(at, source, aligned));
        breaks := breaks + [Breakpoint(at, source, aligned)];
      } else {
        Beyond(start, breaks, at);
      }
    }

    /** Record one emitted chunk that the tokenizer has read up to `position`. */
    method Record(source: seq<Byte>, value: seq<Byte>, position: nat, consumed: nat)
      returns (ghost origins: seq<Origin>)
      requires Valid(source)
      modifies this
      ensures Valid(source) && text == old(text) + value && start == old(start)
      ensures value == [] ==> breaks == old(breaks) && end == old(end) && consumedEnd == old(consumedEnd)
      ensures value != [] ==>
                Records(source, value, position, consumed, start, old(breaks), old(end), old(decoded), breaks, end,
                        origins)
      ensures literal ==
              (old(literal) && (value == [] || LiteralChunk(source, start, old(text), value, position, consumed)))
    {
      hide Raw, Consume, Tracks, Forward, Located, Chunk, ByteByByte, ChunkAligned, ChunkEnd, Literal, LiteralChunk;
      origins := [];
      if |value| == 0 {
        assert text + value == text;
        return;
      }
      var from := end;
      if ByteAt(source, from, LF) && from > 0 && ByteAt(source, from - 1, CR) {
        from := from + 1;
      }
      ghost var before, reached := breaks, consumedEnd;
      TracksSorted(start, breaks, end, consumedEnd, source, text);
      var stop;
      stop, origins := Locate(source, value, from, position, consumed);
      ghost var located := breaks;
      Commit(source, value, position, stop, before, origins);
      RecordTracks(start, before, old(end), reached, source, old(text), breaks, value, origins, from, stop, position,
                   ChunkAligned(source, from, value, position, consumed));
      literal := literal && LiteralChunk(source, start, old(text), value, position, consumed);
      if literal {
        LiteralGrows(source, start, before, old(end), old(text), value, position, consumed, breaks, end, origins);
      }
    }

    /** Give the chunk's bytes their origins; the source bytes end at `stop`. */
    method Locate(source: seq<Byte>, value: seq<Byte>, from: nat, position: nat, consumed: nat)
      returns (stop: nat, ghost origins: seq<Origin>)
      requires Sorted(breaks) && WithinDecoded(breaks, decoded) && |value| > 0
      modifies this`breaks
      ensures Located(start, old(breaks), breaks, decoded, origins)
      ensures |origins| == |value| && Forward(origins, Min(from, stop), stop, source, value)
      ensures ByteByByte(source, value, origins, from, stop, ChunkAligned(source, from, value, position, consumed))
      ensures ChunkAligned(source, from, value, position, consumed) ==> from < stop
      ensures stop == ChunkEnd(source, from, value, position, consumed)
      ensures stop <= |source| && (from <= |source| ==> from <= stop) && (from > |source| ==> stop == |source|)
    {
      hide Raw, Follows, StandAt, Forward, Consume, ByteByByte;
      stop := Min(Max(position, from), |source|);
      var run, at := Align(SliceOrEmpty(source, from, consumed), value, from, decoded);
      ghost var before := breaks;
      if SliceOrEmpty(source, from, stop) == value {
        Point(decoded, from, true);
        origins := LiteralOrigins(from, |value|);
        LiteralForward(source, value, from, stop);
      } else if run.Some? && (!ByteAt(source, from, AMPERSAND) || run.value.length >= stop - from) {
        RunForward(source, value, from, consumed, at, run.value.length);
        stop := from + run.value.length;
        Point(decoded, from, true);
        origins := RunOrigins(from, at);
        RunLookups(start, breaks, from, decoded, run.value.points, at, run.value.length);
        breaks := breaks + run.value.points;
      } else {
        Point(decoded, Min(from, stop), false);
        origins := seq(|value|, k => Origin(Min(from, stop), false));
        StuckForward(source, value, from, stop);
      }
    }

    /** Count the chunk, move on, and let the next byte come from `stop`. */
    method Commit(source: seq<Byte>, value: seq<Byte>, position: nat, stop: nat,
                  ghost before: seq<Breakpoint>, ghost origins: seq<Origin>)
      requires decoded == |text| && |origins| == |value|
      requires Located(start, before, breaks, decoded, origins)
      modifies this
      ensures text == old(text) + value && decoded == |text| && start == old(start) && literal == old(literal)
      ensures end == stop && consumedEnd == Min(Max(Max(old(consumedEnd), position), stop), |source|)
      ensures Chunk(start, before, breaks, old(decoded), origins, stop)
    {
      hide Raw;
      decoded := decoded + |value|;
      text := text + value;
      end := stop;
      consumedEnd := Min(Max(Max(consumedEnd, position), stop), |source|);
      Point(decoded, stop, true);
    }

    /** The value's map, whose table is dropped when the source holds the value as it is. */
    method Finish(source: seq<Byte>, value: seq<Byte>) returns (map': SourceMap)
      requires Valid(source) && value == text
      modifies this
      ensures Valid(source) && text == []
      ensures map'.span == Span(old(start), old(consumedEnd))
      ensures Faithful(map', source, value) && Monotone(map') && Sorted(map'.breaks)
      ensures Slice(source, old(start), old(consumedEnd)) == Some(value) ==> map'.breaks == []
      ensures Slice(source, old(start), old(consumedEnd)) != Some(value) ==> map'.breaks == old(breaks)
      ensures old(literal) ==> OwnBytes(map', source, old(start), value)
    {
      var span := Span(start, consumedEnd);
      var plain := Slice(source, span.start, span.end) == Some(value);
      if plain {
        map' := SourceMap(span, []);
        PlainFaithful(span, source, value);
        if literal { PlainOwn(span, source, breaks, end, value); }
      } else {
        map' := SourceMap(span, breaks);
        TracksFaithful(map', end, source, value);
        TracksMonotone(map', end, source, value);
        if literal { LiteralOwn(map', end, source, value); }
      }
      start, end, consumedEnd, decoded, breaks, text, literal := 0, 0, 0, 0, [], [], true;
    }
  }

  lemma PlainHeld(source: seq<Byte>, start: nat, value: seq<Byte>, consumed: nat, k: nat)
    requires k < |value| && 13 !in value && SliceOrEmpty(source, start, start + |value|) == value
    requires start + |value| <= consumed
    ensures HeldBefore(source, start, value, k, consumed) && Place(source, start, value, k) == start + k
  {
    PlainPlaces(source, start, value, start + |value|, k);
    LiteralByte(source, value, start, start + |value|, k);
  }

  lemma PlainAmpersand(source: seq<Byte>, start: nat, value: seq<Byte>, position: nat, consumed: nat)
    requires |value| > 0 && 13 !in value && SliceOrEmpty(source, start, start + |value|) == value
    requires ByteAt(source, start, 38) ==> position <= start + |value|
    ensures AmpersandRead(source, start, value, 0, |value| - 1, position)
  {
    hide Place, ByteAt;
    PlainPlaces(source, start, value, start + |value|, 0);
    PlainPlaces(source, start, value, start + |value|, |value| - 1);
  }

  /** A first chunk that is the source's own bytes, without CR, is literal. */
  lemma PlainIsLiteral(source: seq<Byte>, start: nat, value: seq<Byte>, position: nat, consumed: nat)
    requires |value| > 0 && ChunkStart(source, start) == start && 13 !in value
    requires SliceOrEmpty(source, start, start + |value|) == value && start + |value| <= consumed <= |source|
    requires ByteAt(source, start, 38) ==> position <= start + |value|
    ensures LiteralChunk(source, start, [], value, position, consumed)
  {
    hide Place, HeldBefore, AmpersandRead, ByteAt, ChunkStart;
    assert [] + value == value;
    PlainAmpersand(source, start, value, position, consumed);
    forall k | 0 <= k < |value|
      ensures HeldBefore(source, start, value, k, consumed)
    {
      PlainHeld(source, start, value, consumed, k);
    }
  }

  /** Every byte of the value is aligned and comes from its own source byte. */
  ghost predicate OwnBytes(map': SourceMap, source: seq<Byte>, start: nat, value: seq<Byte>) {
    forall d :: 0 <= d < |value| ==>
      && map'.IsAligned(d)
      && map'.SourceOffset(d) == Place(source, ChunkStart(source, start), value, d)
  }

  lemma LiteralOwn(map': SourceMap, end: nat, source: seq<Byte>, text: seq<Byte>)
    requires Tracks(map'.span.start, map'.breaks, end, map'.span.end, source, text)
    requires Literal(source, map'.span.start, map'.breaks, end, text)
    ensures OwnBytes(map', source, map'.span.start, text)
  {
    hide Raw, PartitionPoint, Place, ChunkStart;
    forall d | 0 <= d < |text|
      ensures map'.IsAligned(d)
      ensures map'.SourceOffset(d) == Place(source, ChunkStart(source, map'.span.start), text, d)
    {
      LookupIsRaw(map', d);
      assert LiteralAt(source, map'.span.start, map'.breaks, text, d);
      assert Good(map'.span.start, map'.breaks, d, map'.span.end, source, text[d]);
    }
  }

  lemma {:induction false} PlaceAdvances(source: seq<Byte>, from: nat, text: seq<Byte>, d: nat)
    requires d <= |text|
    ensures Place(source, from, text, d) >= from + d
  {
    if d > 0 { PlaceAdvances(source, from, text, d - 1); }
  }

  /** A value that the source holds as it is needs no table. */
  lemma PlainOwn(span: Span, source: seq<Byte>, breaks: seq<Breakpoint>, end: nat, text: seq<Byte>)
    requires Slice(source, span.start, span.end) == Some(text)
    requires Tracks(span.start, breaks, end, span.end, source, text)
    requires Literal(source, span.start, breaks, end, text)
    ensures OwnBytes(SourceMap(span, []), source, span.start, text)
  {
    hide Raw, Place;
    var last := |text| - 1;
    if last >= 0 {
      assert LiteralAt(source, span.start, breaks, text, last);
      assert Good(span.start, breaks, last, span.end, source, text[last]);
      PlaceAdvances(source, ChunkStart(source, span.start), text, last);
    }
    forall d | 0 <= d < |text|
      ensures Place(source, ChunkStart(source, span.start), text, d) == span.start + d
    {
      PlainPlaces(source, span.start, text, span.end, d);
    }
  }

  lemma PlainFaithful(span: Span, source: seq<Byte>, value: seq<Byte>)
    requires Slice(source, span.start, span.end) == Some(value)
    ensures Faithful(SourceMap(span, []), source, value) && Monotone(SourceMap(span, []))
  {
  }

  lemma TracksFaithful(map': SourceMap, end: nat, source: seq<Byte>, text: seq<Byte>)
    requires Tracks(map'.span.start, map'.breaks, end, map'.span.end, source, text)
    ensures Faithful(map', source, text)
  {
    hide Raw, PartitionPoint;
    forall d | 0 <= d < |text| && map'.IsAligned(d)
      ensures map'.span.start <= map'.SourceOffset(d) < map'.span.end <= |source|
      ensures Stands(source, map'.SourceOffset(d), text[d])
    {
      LookupIsRaw(map', d);
      assert Good(map'.span.start, map'.breaks, d, map'.span.end, source, text[d]);
    }
  }

  lemma TracksMonotone(map': SourceMap, end: nat, source: seq<Byte>, text: seq<Byte>)
    requires Tracks(map'.span.start, map'.breaks, end, map'.span.end, source, text)
    ensures Monotone(map')
  {
    forall d, e | 0 <= d <= e
      ensures map'.SourceOffset(d) <= map'.SourceOffset(e)
    {
      LookupIsRaw(map', d);
      LookupIsRaw(map', e);
      Beyond(map'.span.start, map'.breaks, |text|);
    }
  }

  lemma LiteralByte(source: seq<Byte>, value: seq<Byte>, from: nat, stop: nat, k: nat)
    requires SliceOrEmpty(source, from, stop) == value && k < |value|
    ensures ByteAt(source, from + k, value[k])
  {
    assert source[from..stop][k] == source[from + k];
  }

  lemma LiteralForward(source: seq<Byte>, value: seq<Byte>, from: nat, stop: nat)
    requires |value| > 0 && SliceOrEmpty(source, from, stop) == value
    ensures stop == from + |value| <= |source|
    ensures Forward(LiteralOrigins(from, |value|), from, stop, source, value)
    ensures ByteByByte(source, value, LiteralOrigins(from, |value|), from, stop, true)
  {
    hide ByteAt;
    forall k | 0 <= k < |value|
      ensures ByteAt(source, from + k, value[k])
    {
      LiteralByte(source, value, from, stop, k);
    }
    forall k | 0 < k < |value|
      ensures Succeeds(source, value, Sources(LiteralOrigins(from, |value|)), k)
    {
      assert ByteAt(source, from + (k - 1), value[k - 1]);
    }
  }

  lemma StuckForward(source: seq<Byte>, value: seq<Byte>, from: nat, stop: nat)
    ensures Forward(seq(|value|, k => Origin(Min(from, stop), false)), Min(from, stop), stop, source, value)
    ensures ByteByByte(source, value, seq(|value|, k => Origin(Min(from, stop), false)), from, stop, false)
  {
  }

  lemma RunForward(source: seq<Byte>, value: seq<Byte>, from: nat, consumed: nat, at: seq<nat>, length: nat)
    requires |value| > 0 && |at| == |value| && length <= |SliceOrEmpty(source, from, consumed)|
    requires StandAt(SliceOrEmpty(source, from, consumed), value, at, length)
    ensures 0 < length && from + length <= |source|
    ensures Forward(RunOrigins(from, at), from, from + length, source, value)
    ensures ByteByByte(source, value, RunOrigins(from, at), from, from + length, true)
  {
    hide Succeeds, NextByte, Stands;
    assert at[0] < length;
    forall k | 0 <= k < |at|
      ensures Stands(source, from + at[k], value[k])
    {
      StandsInSlice(source, from, consumed, at[k], value[k]);
    }
    forall k | 0 < k < |at|
      ensures Succeeds(source, value, Sources(RunOrigins(from, at)), k)
    {
      SucceedsInSlice(source, value, from, consumed, at, k);
    }
  }

  lemma StandsInSlice(source: seq<Byte>, from: nat, consumed: nat, at: nat, b: Byte)
    requires Stands(SliceOrEmpty(source, from, consumed), at, b)
    ensures Stands(source, from + at, b)
  {
  }

  lemma SucceedsInSlice(source: seq<Byte>, value: seq<Byte>, from: nat, consumed: nat, at: seq<nat>, k: nat)
    requires 0 < k < |at| <= |value| && Succeeds(SliceOrEmpty(source, from, consumed), value, at, k)
    requires at[k - 1] < at[k] < |SliceOrEmpty(source, from, consumed)|
    ensures Succeeds(source, value, Sources(RunOrigins(from, at)), k)
  {
  }

  lemma RunLookups(start: nat, breaks: seq<Breakpoint>, from: nat, decoded: nat, points: seq<Breakpoint>,
                   at: seq<nat>, length: nat)
    requires Follows(from, decoded, points, at, length)
    requires Sorted(breaks) && WithinDecoded(breaks, decoded)
    requires forall d :: decoded <= d ==> Raw(start, breaks, d) == Origin(from + d - decoded, true)
    ensures Sorted(breaks + points) && WithinDecoded(breaks + points, decoded + |at|)
    ensures forall d :: 0 <= d < decoded ==> Raw(start, breaks + points, d) == Raw(start, breaks, d)
    ensures forall d :: decoded <= d < decoded + |at| ==>
              Raw(start, breaks + points, d) == Origin(from + at[d - decoded], true)
  {
    SortedExtend(breaks, points, decoded, decoded + |at|);
    forall d: nat
      ensures d < decoded ==> Raw(start, breaks + points, d) == Raw(start, breaks, d)
      ensures decoded <= d ==> Raw(start, breaks + points, d) == RunRaw(from, decoded, points, d)
    {
      RawExtend(start, breaks, from, decoded, points, decoded + |at|, d);
    }
  }

  /** One position serves the text buffer and the attribute buffer. */
  class Recorder {
    const source: seq<Byte>
    var position: nat
    var consumed: nat
    const text: Buffer
    const attribute: Buffer

    ghost predicate Valid()
      reads this, text, attribute
    {
      text != attribute && text.Valid(source) && attribute.Valid(source)
    }

    constructor (source: seq<Byte>, offset: nat)
      ensures Valid() && this.source == source && position == offset && consumed == offset
      ensures text.text == [] && attribute.text == []
      ensures fresh(text) && fresh(attribute)
    {
      this.source := source;
      position, consumed := offset, offset;
      text := new Buffer();
      attribute := new Buffer();
    }

    /** A rewind moves the position only; the consumed mark stays. */
    method MovePosition(offset: int)
      modifies this
      ensures position == SaturatingAdd(old(position), offset)
      ensures consumed == Min(Max(old(consumed), position), |source|)
    {
      position := SaturatingAdd(position, offset);
      consumed := Min(Max(consumed, position), |source|);
    }

    /** An empty text buffer begins at the position; a filled one goes on. */
    method InitString()
      requires Valid()
      modifies text
      ensures Valid() && text.text == old(text.text) && text.literal == old(text.literal)
      ensures text.text == [] ==> text.start == text.end == text.consumedEnd == position && text.breaks == []
      ensures text.text != [] ==>
                && text.start == old(text.start) && text.end == old(text.end)
                && text.consumedEnd == old(text.consumedEnd) && text.breaks == old(text.breaks)
    {
      text.Begin(source, position);
    }

    /** An attribute value begins at the position after a quote, otherwise one byte before it. */
    method InitAttributeValue()
      requires Valid()
      modifies attribute
      ensures Valid() && attribute.text == old(attribute.text) && attribute.literal == old(attribute.literal)
      ensures attribute.text == [] ==>
                && attribute.start == attribute.end == attribute.consumedEnd && attribute.breaks == []
                && attribute.start ==
                   if 0 < position <= |source| && source[position - 1] in {0x22, 0x27} then position
                   else if position > 0 then position - 1
                   else 0
      ensures attribute.text != [] ==>
                && attribute.start == old(attribute.start) && attribute.end == old(attribute.end)
                && attribute.consumedEnd == old(attribute.consumedEnd) && attribute.breaks == old(attribute.breaks)
    {
      attribute.Begin(source, AttributeStart(source, position));
    }

    /** The tokenizer's callback for text: one chunk, perhaps empty. */
    method EmitString(value: seq<Byte>) returns (ghost origins: seq<Origin>)
      requires Valid()
      modifies text
      ensures Valid() && text.text == old(text.text) + value && text.start == old(text.start)
      ensures value == [] ==>
                && text.breaks == old(text.breaks) && text.end == old(text.end)
                && text.consumedEnd == old(text.consumedEnd)
      ensures value != [] ==>
                Records(source, value, position, consumed, text.start, old(text.breaks), old(text.end),
                        |old(text.text)|, text.breaks, text.end, origins)
      ensures text.literal ==
              (old(text.literal) &&
               (value == [] || LiteralChunk(source, text.start, old(text.text), value, position, consumed)))
    {
      origins := text.Record(source, value, position, consumed);
    }

    /** The tokenizer's callback for a piece of an attribute value. */
    method PushAttributeValue(value: seq<Byte>) returns (ghost origins: seq<Origin>)
      requires Valid()
      modifies attribute
      ensures Valid() && attribute.text == old(attribute.text) + value && attribute.start == old(attribute.start)
      ensures value == [] ==>
                && attribute.breaks == old(attribute.breaks) && attribute.end == old(attribute.end)
                && attribute.consumedEnd == old(attribute.consumedEnd)
      ensures value != [] ==>
                Records(source, value, position, consumed, attribute.start, old(attribute.breaks), old(attribute.end),
                        |old(attribute.text)|, attribute.breaks, attribute.end, origins)
      ensures attribute.literal ==
              (old(attribute.literal) &&
               (value == [] || LiteralChunk(source, attribute.start, old(attribute.text), value, position, consumed)))
    {
      origins := attribute.Record(source, value, position, consumed);
    }

    /** Finish the text map; its value is the chunks' concatenation. */
    method Text(value: seq<Byte>) returns (map': SourceMap)
      requires Valid() && value == text.text
      modifies text
      ensures Valid() && text.text == []
      ensures Faithful(map', source, value) && Monotone(map')
      ensures old(text.literal) ==> OwnBytes(map', source, old(text.start), value)
    {
      map' := text.Finish(source, value);
    }

    /** Finish the current attribute value's map. */
    method Attribute(value: seq<Byte>) returns (map': SourceMap)
      requires Valid() && value == attribute.text
      modifies attribute
      ensures Valid() && attribute.text == []
      ensures Faithful(map', source, value) && Monotone(map')
      ensures old(attribute.literal) ==> OwnBytes(map', source, old(attribute.start), value)
    {
      map' := attribute.Finish(source, value);
    }
  }

  function AttributeStart(source: seq<Byte>, position: nat): nat {
    if position > 0 && (ByteAt(source, position - 1, APOSTROPHE) || ByteAt(source, position - 1, QUOTE)) then position
    else if position > 0 then position - 1
    else 0
  }
}
