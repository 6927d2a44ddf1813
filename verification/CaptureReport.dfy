/** The decoder's report on a pair of captures: the octets between frames, the totals over them, the
  * packet summary and the list of errors. */
module CaptureReport {
  import opened Octets
  import opened SpacePackets
  import opened FrameDecoder

  /** b"sitting well" */
  const TC_FILL_PATTERN: seq<byte> := [115, 105, 116, 116, 105, 110, 103, 32, 119, 101, 108, 108]

  /** Octets outside every frame; atEnd marks the run after the last frame (telemetry only). */
  datatype Segment = Segment(offset: nat, bytes: nat, fillOk: bool, atEnd: bool)

  function Repeated(pattern: seq<byte>, times: nat): seq<byte> {
    if times == 0 then [] else pattern + Repeated(pattern, times - 1)
  }

  /** The data is the pattern, a whole number of times over. */
  predicate IsRepeatedPattern(data: seq<byte>, pattern: seq<byte>)
    requires pattern != []
  {
    data == [] || (pattern <= data && IsRepeatedPattern(data[|pattern|..], pattern))
  }

  lemma {:induction false} RepeatedIsPattern(pattern: seq<byte>, times: nat)
    requires pattern != []
    ensures IsRepeatedPattern(Repeated(pattern, times), pattern)
    ensures |Repeated(pattern, times)| == times * |pattern|
  {
    if times > 0 {
      RepeatedIsPattern(pattern, times - 1);
      assert Repeated(pattern, times)[|pattern|..] == Repeated(pattern, times - 1);
      assert times * |pattern| == (times - 1) * |pattern| + |pattern|;
    }
  }

  lemma {:induction false} PatternIsRepeated(data: seq<byte>, pattern: seq<byte>) returns (times: nat)
    requires pattern != [] && IsRepeatedPattern(data, pattern)
    ensures data == Repeated(pattern, times)
    decreases data
  {
    if data == [] {
      times := 0;
    } else {
      var rest := PatternIsRepeated(data[|pattern|..], pattern);
      times := rest + 1;
      assert data == pattern + data[|pattern|..];
    }
  }

  /** The test as the decoder writes it: a multiple of the pattern's length, equal to so many copies. */
  lemma RepeatedPatternTest(data: seq<byte>, pattern: seq<byte>)
    requires pattern != []
    ensures IsRepeatedPattern(data, pattern)
       <==> |data| % |pattern| == 0 && data == Repeated(pattern, |data| / |pattern|)
  {
    if IsRepeatedPattern(data, pattern) {
      PatternLength(data, pattern);
    } else {
      QuotientNatural(|data|, |pattern|);
      NoCopies(data, pattern, |data| / |pattern|);
    }
  }

  lemma QuotientNatural(n: nat, p: nat)
    requires p > 0
    ensures n / p >= 0
  {
  }

  lemma NoCopies(data: seq<byte>, pattern: seq<byte>, times: nat)
    requires pattern != [] && !IsRepeatedPattern(data, pattern)
    ensures data != Repeated(pattern, times)
  {
    RepeatedIsPattern(pattern, times);
  }

  lemma PatternLength(data: seq<byte>, pattern: seq<byte>)
    requires pattern != [] && IsRepeatedPattern(data, pattern)
    ensures |data| % |pattern| == 0 && data == Repeated(pattern, |data| / |pattern|)
  {
    var times := PatternIsRepeated(data, pattern);
    RepeatedIsPattern(pattern, times);
    MultipleDivides(times, |pattern|);
  }

  lemma MultipleDivides(k: nat, p: nat)
    requires p > 0
    ensures k * p % p == 0 && k * p / p == k
  {
    var q, r := k * p / p, k * p % p;
    assert (k - q) * p == r;
    assert k - q >= 1 ==> (k - q) * p >= p;
    assert k - q <= -1 ==> (k - q) * p <= -1 * p;
  }

  /** data[lo:hi], cut off at the end of the data. */
  function Slice(data: seq<byte>, lo: nat, hi: nat): seq<byte> {
    var end := if hi < |data| then hi else |data|;
    if lo < end then data[lo..end] else []
  }

  /** How a run of octets outside the frames is reported: where, how long, whether it is fill. */
  type Marker = (nat, nat, bool) -> Segment

  function MarkerFor(data: seq<byte>, pattern: seq<byte>): Marker
    requires pattern != []
  {
    (lo: nat, hi: nat, atEnd: bool) =>
      var segment := Slice(data, lo, hi);
      Segment(lo, |segment|, IsRepeatedPattern(segment, pattern), atEnd)
  }

  /** A marker reports a run inside the capture with its offset and length. */
  ghost predicate Measures(mark: Marker, length: nat) {
    forall lo: nat, hi: nat, atEnd :: lo <= hi <= length ==>
      mark(lo, hi, atEnd).offset == lo && mark(lo, hi, atEnd).bytes == hi - lo
  }

  lemma MarkerMeasures(data: seq<byte>, pattern: seq<byte>)
    requires pattern != []
    ensures Measures(MarkerFor(data, pattern), |data|)
  {
  }

  /** The frames ordered by offset, equal offsets in their original order. */
  function SortedByOffset(frames: seq<Frame>): (r: seq<Frame>) {
    if frames == [] then [] else InsertByOffset(frames[0], SortedByOffset(frames[1..]))
  }

  function InsertByOffset(f: Frame, frames: seq<Frame>): seq<Frame> {
    if frames == [] || f.offset <= frames[0].offset then [f] + frames
    else [frames[0]] + InsertByOffset(f, frames[1..])
  }

  function Segments(mark: Marker, length: nat, frames: seq<Frame>, previousEnd: nat): (segments: seq<Segment>) {
    if frames == [] then
      if previousEnd < length then [mark(previousEnd, length, true)] else []
    else
      var rest := Segments(mark, length, frames[1..], frames[0].offset + frames[0].bytes);
      if frames[0].offset > previousEnd then [mark(previousEnd, frames[0].offset, false)] + rest else rest
  }

  lemma SegmentsNext(mark: Marker, length: nat, left: seq<Frame>, previousEnd: nat, segments: seq<Segment>)
    requires left != []
    ensures var f := left[0];
            var now := if f.offset > previousEnd then segments + [mark(previousEnd, f.offset, false)] else segments;
            After(mark, length, left[1..], f.offset + f.bytes, now) == After(mark, length, left, previousEnd, segments)
  {
  }

  lemma SegmentsEnd(mark: Marker, length: nat, previousEnd: nat, segments: seq<Segment>)
    ensures After(mark, length, [], previousEnd, segments)
         == if previousEnd < length then segments + [mark(previousEnd, length, true)] else segments
  {
  }

  /** The segments found so far and those still to come. */
  function After(mark: Marker, length: nat, left: seq<Frame>, previousEnd: nat, segments: seq<Segment>): seq<Segment> {
    segments + Segments(mark, length, left, previousEnd)
  }

  lemma AfterNothing(mark: Marker, length: nat, frames: seq<Frame>)
    ensures After(mark, length, frames, 0, []) == Segments(mark, length, frames, 0)
  {
  }

  /** The walk over the ordered frames. */
  method WalkGaps(mark: Marker, length: nat, ordered: seq<Frame>) returns (segments: seq<Segment>)
    ensures segments == Segments(mark, length, ordered, 0)
  {
    AfterNothing(mark, length, ordered);
    hide After;
    segments := [];
    var previousEnd: nat := 0;
    var left := ordered;
    while left != []
      invariant After(mark, length, left, previousEnd, segments) == Segments(mark, length, ordered, 0)
      decreases left
    {
      var offset, end := left[0].offset, left[0].offset + left[0].bytes;
      SegmentsNext(mark, length, left, previousEnd, segments);
      if offset > previousEnd {
        segments := segments + [mark(previousEnd, offset, false)];
      }
      previousEnd := end;
      left := left[1..];
    }
    SegmentsEnd(mark, length, previousEnd, segments);
    if previousEnd < length {
      segments := segments + [mark(previousEnd, length, true)];
    }
  }

  method NonFrameSegments(data: seq<byte>, pattern: seq<byte>, frames: seq<Frame>) returns (segments: seq<Segment>)
    requires pattern != []
    ensures segments == Segments(MarkerFor(data, pattern), |data|, SortedByOffset(frames), 0)
  {
    segments := WalkGaps(MarkerFor(data, pattern), |data|, SortedByOffset(frames));
  }

  // ---- frames and segments tile the capture ----

  /** Frames in order, apart from one another, inside [start, end). */
  ghost predicate LaidOut(frames: seq<Frame>, start: nat, end: nat) {
    if frames == [] then start <= end
    else start <= frames[0].offset && 0 < frames[0].bytes
         && LaidOut(frames[1..], frames[0].offset + frames[0].bytes, end)
  }

  lemma {:induction false} TcLaidOut(data: seq<byte>, scid: int, vcid: int, o: nat)
    requires o <= |data|
    ensures LaidOut(TcFrames(data, scid, vcid, o), o, |data|)
    decreases |data| - o
  {
    hide U16, Packets;
    if o + TC_HEADER_SIZE + TRAILER_SIZE <= |data| {
      if TcAcceptable(data, scid, vcid, o) {
        var next := o + TcLength(data, o);
        TcLaidOut(data, scid, vcid, next);
        assert TcFrames(data, scid, vcid, o)[1..] == TcFrames(data, scid, vcid, next);
      } else {
        TcLaidOut(data, scid, vcid, o + 1);
        LaidOutEarlier(TcFrames(data, scid, vcid, o + 1), o, o + 1, |data|);
      }
    }
  }

  lemma {:induction false} TmLaidOut(data: seq<byte>, scid: int, vcid: int, frameSize: nat, o: nat)
    requires frameSize >= TM_HEADER_SIZE + TRAILER_SIZE
    requires o <= |data|
    ensures LaidOut(TmFrames(data, scid, vcid, frameSize, o), o, |data|)
    decreases |data| - o
  {
    if o + frameSize <= |data| {
      if TmAcceptable(data, scid, vcid, frameSize, o) {
        TmLaidOut(data, scid, vcid, frameSize, o + frameSize);
        assert TmFrames(data, scid, vcid, frameSize, o)[1..] == TmFrames(data, scid, vcid, frameSize, o + frameSize);
      } else {
        TmLaidOut(data, scid, vcid, frameSize, o + 1);
        LaidOutEarlier(TmFrames(data, scid, vcid, frameSize, o + 1), o, o + 1, |data|);
      }
    }
  }

  lemma LaidOutEarlier(frames: seq<Frame>, early: nat, late: nat, end: nat)
    requires early <= late && LaidOut(frames, late, end)
    ensures LaidOut(frames, early, end)
  {
  }

  lemma {:induction false} SortingKeepsLaidOut(frames: seq<Frame>, start: nat, end: nat)
    requires LaidOut(frames, start, end)
    ensures SortedByOffset(frames) == frames
  {
    if frames != [] {
      SortingKeepsLaidOut(frames[1..], frames[0].offset + frames[0].bytes, end);
      assert frames == [frames[0]] + frames[1..];
    }
  }

  predicate Holds(offset: nat, bytes: nat, x: nat) {
    offset <= x < offset + bytes
  }

  /** How many frames, or segments, an octet position lies in. */
  function FrameHits(frames: seq<Frame>, x: nat): nat {
    if frames == [] then 0
    else (if Holds(frames[0].offset, frames[0].bytes, x) then 1 else 0) + FrameHits(frames[1..], x)
  }

  function SegmentHits(segments: seq<Segment>, x: nat): nat {
    if segments == [] then 0
    else (if Holds(segments[0].offset, segments[0].bytes, x) then 1 else 0) + SegmentHits(segments[1..], x)
  }

  function FrameBytes(frames: seq<Frame>): nat {
    if frames == [] then 0 else frames[0].bytes + FrameBytes(frames[1..])
  }

  datatype Kind = All | Fill | NotFill | AtEnd | FillAtEnd | StrayBeforeEnd

  predicate Selected(kind: Kind, segment: Segment) {
    match kind
    case All => true
    case Fill => segment.fillOk
    case NotFill => !segment.fillOk
    case AtEnd => segment.atEnd
    case FillAtEnd => segment.fillOk && segment.atEnd
    case StrayBeforeEnd => !segment.fillOk && !segment.atEnd
  }

  /** Octets in the segments of a kind. */
  function SegmentBytes(segments: seq<Segment>, kind: Kind): nat {
    if segments == [] then 0
    else (if Selected(kind, segments[0]) then segments[0].bytes else 0) + SegmentBytes(segments[1..], kind)
  }

  /** Every octet from `start` on lies in exactly one frame or segment, none before it. */
  lemma {:induction false} Tiling(mark: Marker, length: nat, frames: seq<Frame>, start: nat, x: nat)
    requires Measures(mark, length) && LaidOut(frames, start, length)
    ensures FrameHits(frames, x) + SegmentHits(Segments(mark, length, frames, start), x)
         == if start <= x < length then 1 else 0
  {
    var segments := Segments(mark, length, frames, start);
    if frames == [] {
      if start < length {
        assert segments[1..] == [];
      }
    } else {
      var f, rest := frames[0], Segments(mark, length, frames[1..], frames[0].offset + frames[0].bytes);
      LaidOutBounds(frames[1..], f.offset + f.bytes, length);
      Tiling(mark, length, frames[1..], f.offset + f.bytes, x);
      if f.offset > start {
        assert segments[1..] == rest;
      } else {
        assert segments == rest;
      }
    }
  }

  lemma {:induction false} LaidOutBounds(frames: seq<Frame>, start: nat, end: nat)
    requires LaidOut(frames, start, end)
    ensures start <= end
  {
    if frames != [] {
      LaidOutBounds(frames[1..], frames[0].offset + frames[0].bytes, end);
    }
  }

  lemma {:induction false} TilingTotal(mark: Marker, length: nat, frames: seq<Frame>, start: nat)
    requires Measures(mark, length) && LaidOut(frames, start, length)
    ensures FrameBytes(frames) + SegmentBytes(Segments(mark, length, frames, start), All) == length - start
  {
    var segments := Segments(mark, length, frames, start);
    if frames == [] {
      if start < length {
        assert segments[1..] == [];
      }
    } else {
      var f, rest := frames[0], Segments(mark, length, frames[1..], frames[0].offset + frames[0].bytes);
      LaidOutBounds(frames[1..], f.offset + f.bytes, length);
      TilingTotal(mark, length, frames[1..], f.offset + f.bytes);
      if f.offset > start {
        assert segments[1..] == rest;
      } else {
        assert segments == rest;
      }
    }
  }

  lemma {:induction false} KindsSplit(segments: seq<Segment>)
    ensures SegmentBytes(segments, All) == SegmentBytes(segments, Fill) + SegmentBytes(segments, NotFill)
    ensures SegmentBytes(segments, All) + SegmentBytes(segments, FillAtEnd)
         == SegmentBytes(segments, Fill) + SegmentBytes(segments, StrayBeforeEnd) + SegmentBytes(segments, AtEnd)
  {
    if segments != [] {
      KindsSplit(segments[1..]);
    }
  }

  function UplinkSegments(data: seq<byte>, scid: int, vcid: int): seq<Segment> {
    Segments(MarkerFor(data, TC_FILL_PATTERN), |data|, SortedByOffset(TcFrames(data, scid, vcid, 0)), 0)
  }

  function DownlinkSegments(data: seq<byte>, scid: int, vcid: int, frameSize: nat): seq<Segment>
    requires frameSize >= TM_HEADER_SIZE + TRAILER_SIZE
  {
    Segments(MarkerFor(data, TC_FILL_PATTERN), |data|, SortedByOffset(TmFrames(data, scid, vcid, frameSize, 0)), 0)
  }

  /** Uplink: every octet lies in exactly one frame or segment, and frame octets, fill octets and
    * unexpected octets add up to the capture. */
  lemma UplinkAccounting(data: seq<byte>, scid: int, vcid: int)
    ensures var frames, segments := TcFrames(data, scid, vcid, 0), UplinkSegments(data, scid, vcid);
            && (forall x: nat :: x < |data| ==> FrameHits(frames, x) + SegmentHits(segments, x) == 1)
            && FrameBytes(frames) + SegmentBytes(segments, Fill) + SegmentBytes(segments, NotFill) == |data|
  {
    var frames, segments := TcFrames(data, scid, vcid, 0), UplinkSegments(data, scid, vcid);
    var mark := MarkerFor(data, TC_FILL_PATTERN);
    MarkerMeasures(data, TC_FILL_PATTERN);
    TcLaidOut(data, scid, vcid, 0);
    SortingKeepsLaidOut(frames, 0, |data|);
    forall x: nat | x < |data| ensures FrameHits(frames, x) + SegmentHits(segments, x) == 1 {
      Tiling(mark, |data|, frames, 0, x);
    }
    TilingTotal(mark, |data|, frames, 0);
    KindsSplit(segments);
  }

  /** Downlink: the same tiling, but the report counts a run of fill after the last frame both as
    * fill and as trailing octets, so its totals add up to the capture exactly when there is none. */
  lemma DownlinkAccounting(data: seq<byte>, scid: int, vcid: int, frameSize: nat)
    requires frameSize >= TM_HEADER_SIZE + TRAILER_SIZE
    ensures var frames := TmFrames(data, scid, vcid, frameSize, 0);
            var segments := DownlinkSegments(data, scid, vcid, frameSize);
            && (forall x: nat :: x < |data| ==> FrameHits(frames, x) + SegmentHits(segments, x) == 1)
            && var total := FrameBytes(frames) + SegmentBytes(segments, Fill)
                            + SegmentBytes(segments, StrayBeforeEnd) + SegmentBytes(segments, AtEnd);
            && total == |data| + SegmentBytes(segments, FillAtEnd)
            && (total == |data| <==> forall s :: s in segments ==> !(s.fillOk && s.atEnd))
  {
    var frames := TmFrames(data, scid, vcid, frameSize, 0);
    var segments := DownlinkSegments(data, scid, vcid, frameSize);
    var mark := MarkerFor(data, TC_FILL_PATTERN);
    MarkerMeasures(data, TC_FILL_PATTERN);
    TmLaidOut(data, scid, vcid, frameSize, 0);
    SortingKeepsLaidOut(frames, 0, |data|);
    forall x: nat | x < |data| ensures FrameHits(frames, x) + SegmentHits(segments, x) == 1 {
      Tiling(mark, |data|, frames, 0, x);
    }
    TilingTotal(mark, |data|, frames, 0);
    KindsSplit(segments);
    SegmentsNonEmpty(mark, |data|, frames, 0);
    SomeOfKind(segments, FillAtEnd);
  }

  lemma PatternOnce(pattern: seq<byte>)
    requires pattern != []
    ensures IsRepeatedPattern(pattern, pattern)
  {
    assert pattern[|pattern|..] == [];
  }

  lemma WholeFill(pattern: seq<byte>)
    requires pattern != []
    ensures Segments(MarkerFor(pattern, pattern), |pattern|, [], 0) == [Segment(0, |pattern|, true, true)]
  {
    hide IsRepeatedPattern;
    assert Slice(pattern, 0, |pattern|) == pattern;
    PatternOnce(pattern);
    assert MarkerFor(pattern, pattern)(0, |pattern|, true) == Segment(0, |pattern|, true, true);
  }

  /** A downlink capture that is one run of fill, shorter than a frame: its octets are counted twice. */
  lemma FillCountedTwice(scid: int, vcid: int, frameSize: nat)
    requires frameSize > |TC_FILL_PATTERN|
    ensures TmFrames(TC_FILL_PATTERN, scid, vcid, frameSize, 0) == []
    ensures var segments := DownlinkSegments(TC_FILL_PATTERN, scid, vcid, frameSize);
            SegmentBytes(segments, Fill) + SegmentBytes(segments, AtEnd) == 2 * |TC_FILL_PATTERN|
  {
    WholeFill(TC_FILL_PATTERN);
    var whole := [Segment(0, |TC_FILL_PATTERN|, true, true)];
    assert whole[1..] == [];
    assert DownlinkSegments(TC_FILL_PATTERN, scid, vcid, frameSize) == whole;
  }

  lemma {:induction false} SegmentsNonEmpty(mark: Marker, length: nat, frames: seq<Frame>, start: nat)
    requires Measures(mark, length) && LaidOut(frames, start, length)
    ensures forall s :: s in Segments(mark, length, frames, start) ==> s.bytes > 0
  {
    if frames != [] {
      LaidOutBounds(frames[1..], frames[0].offset + frames[0].bytes, length);
      SegmentsNonEmpty(mark, length, frames[1..], frames[0].offset + frames[0].bytes);
    }
  }

  lemma {:induction false} SomeOfKind(segments: seq<Segment>, kind: Kind)
    requires forall s :: s in segments ==> s.bytes > 0
    ensures SegmentBytes(segments, kind) == 0 <==> forall s :: s in segments ==> !Selected(kind, s)
  {
    if segments != [] {
      SomeOfKind(segments[1..], kind);
      assert segments == [segments[0]] + segments[1..];
    }
  }

  // ---- packet summary ----

  datatype Tallied = Tallied(packets: nat, apidCounts: map<nat, nat>, sequenceCounts: map<nat, seq<nat>>)

  datatype Summary = Summary(frames: nat, tallied: Tallied, frameOffsets: seq<nat>)

  /** The sequence counts of the non-idle packets with an APID, in capture order. */
  function CountsFor(packets: seq<Packet>, apid: nat): seq<nat> {
    if packets == [] then []
    else
      var last := packets[|packets| - 1];
      CountsFor(packets[..|packets| - 1], apid)
      + (if !last.idle && last.apid == apid then [last.sequenceCount] else [])
  }

  function AllPackets(frames: seq<Frame>): seq<Packet> {
    if frames == [] then [] else AllPackets(frames[..|frames| - 1]) + frames[|frames| - 1].packets
  }

  function NonIdleCount(packets: seq<Packet>): nat {
    if packets == [] then 0
    else NonIdleCount(packets[..|packets| - 1]) + (if packets[|packets| - 1].idle then 0 else 1)
  }

  ghost predicate Tallies(s: Tallied, packets: seq<Packet>) {
    && s.packets == NonIdleCount(packets)
    && s.sequenceCounts.Keys == s.apidCounts.Keys
    && (forall a :: a in s.apidCounts ==> a in s.sequenceCounts && s.apidCounts[a] == |CountsFor(packets, a)|
                                          && s.sequenceCounts[a] == CountsFor(packets, a))
    && (forall a: nat :: a in s.apidCounts <==> CountsFor(packets, a) != [])
  }

  lemma CountsNext(seen: seq<Packet>, packet: Packet)
    ensures NonIdleCount(seen + [packet]) == NonIdleCount(seen) + if packet.idle then 0 else 1
    ensures forall a: nat :: CountsFor(seen + [packet], a)
                          == if !packet.idle && packet.apid == a then CountsFor(seen, a) + [packet.sequenceCount]
                             else CountsFor(seen, a)
  {
    var now := seen + [packet];
    assert now[..|now| - 1] == seen;
  }

  method Tally(s: Tallied, packet: Packet, ghost seen: seq<Packet>) returns (r: Tallied)
    requires Tallies(s, seen)
    ensures Tallies(r, seen + [packet])
  {
    CountsNext(seen, packet);
    hide CountsFor, NonIdleCount;
    if packet.idle {
      return s;
    }
    var apid := packet.apid;
    var count := if apid in s.apidCounts then s.apidCounts[apid] else 0;
    var counts := if apid in s.sequenceCounts then s.sequenceCounts[apid] else [];
    r := Tallied(s.packets + 1, s.apidCounts[apid := count + 1],
                 s.sequenceCounts[apid := counts + [packet.sequenceCount]]);
  }

  method TallyFrame(s: Tallied, packets: seq<Packet>, ghost seen: seq<Packet>) returns (r: Tallied)
    requires Tallies(s, seen)
    ensures Tallies(r, seen + packets)
  {
    hide Tallies;
    r := s;
    assert seen + packets[..0] == seen;
    for j := 0 to |packets|
      invariant Tallies(r, seen + packets[..j])
    {
      r := Tally(r, packets[j], seen + packets[..j]);
      assert seen + packets[..j] + [packets[j]] == seen + packets[..j + 1];
    }
    assert packets[..|packets|] == packets;
  }

  /** How many frames and where; per APID, how many packets and which sequence counts, over all frames in order. */
  method PacketSummary(frames: seq<Frame>) returns (summary: Summary)
    ensures Tallies(summary.tallied, AllPackets(frames))
    ensures summary.frames == |frames| && summary.frameOffsets == Offsets(frames)
  {
    var tallied := Tallied(0, map[], map[]);
    var offsets: seq<nat> := [];
    assert Tallies(tallied, []);
    hide Tallies;
    for i := 0 to |frames|
      invariant Tallies(tallied, AllPackets(frames[..i])) && offsets == Offsets(frames)[..i]
    {
      tallied := TallyFrame(tallied, frames[i].packets, AllPackets(frames[..i]));
      assert frames[..i + 1][..i] == frames[..i];
      offsets := offsets + [frames[i].offset];
    }
    assert frames[..|frames|] == frames;
    summary := Summary(|frames|, tallied, offsets);
  }

  // ---- the verdict ----

  datatype Error =
    | FrameFields(uplink: bool)
    | MissingApid(uplink: bool, apid: nat)
    | NoFrames(uplink: bool)
    | UplinkStray
    | DownlinkStray
    | DownlinkTrailingFrames
    | DownlinkTrailingPartial

  datatype Options = Options(scid: int, vcid: int, frameSize: nat, allowTrailingPartial: bool,
                             uplinkApids: seq<nat>, downlinkApids: seq<nat>)

  predicate FieldsOk(f: Frame) {
    f.scidOk && f.vcidOk && f.crcOk
  }

  function MissingApids(required: seq<nat>, packets: seq<Packet>, uplink: bool): seq<Error> {
    if required == [] then []
    else (if CountsFor(packets, required[0]) == [] then [MissingApid(uplink, required[0])] else [])
         + MissingApids(required[1..], packets, uplink)
  }

  function FieldErrors(upFrames: seq<Frame>, downFrames: seq<Frame>): seq<Error> {
    (if exists f :: f in upFrames && !FieldsOk(f) then [FrameFields(true)] else [])
    + (if exists f :: f in downFrames && !FieldsOk(f) then [FrameFields(false)] else [])
  }

  /** The errors main collects; the captures pass when there is none. */
  function Errors(up: seq<byte>, down: seq<byte>, o: Options): seq<Error>
    requires o.frameSize >= TM_HEADER_SIZE + TRAILER_SIZE
  {
    var upFrames, downFrames := TcFrames(up, o.scid, o.vcid, 0), TmFrames(down, o.scid, o.vcid, o.frameSize, 0);
    var upSegments := UplinkSegments(up, o.scid, o.vcid);
    var downSegments := DownlinkSegments(down, o.scid, o.vcid, o.frameSize);
    FieldErrors(upFrames, downFrames)
    + SegmentErrors(exists s :: s in upSegments && !s.fillOk, SegmentBytes(downSegments, StrayBeforeEnd) != 0,
                    SegmentBytes(downSegments, AtEnd), o)
    + MissingApids(o.uplinkApids, AllPackets(upFrames), true)
    + MissingApids(o.downlinkApids, AllPackets(downFrames), false)
    + (if upFrames == [] then [NoFrames(true)] else [])
    + (if downFrames == [] then [NoFrames(false)] else [])
  }

  function SegmentErrors(strayUp: bool, strayDown: bool, trailing: nat, o: Options): seq<Error> {
    (if strayUp then [UplinkStray] else []) + (if strayDown then [DownlinkStray] else [])
    + (if trailing == 0 then []
       else if trailing >= o.frameSize then [DownlinkTrailingFrames]
       else if !o.allowTrailingPartial then [DownlinkTrailingPartial] else [])
  }

  /** The SCID/VCID/FECF errors can never be reported. */
  lemma FieldErrorsUnreachable(up: seq<byte>, down: seq<byte>, scid: int, vcid: int, frameSize: nat)
    requires frameSize >= TM_HEADER_SIZE + TRAILER_SIZE
    ensures FieldErrors(TcFrames(up, scid, vcid, 0), TmFrames(down, scid, vcid, frameSize, 0)) == []
  {
    TcFramesAreAccepted(up, scid, vcid, 0);
    TmFramesAreAccepted(down, scid, vcid, frameSize, 0);
  }

  lemma {:induction false} MissingOnly(required: seq<nat>, packets: seq<Packet>, uplink: bool)
    ensures forall e :: e in MissingApids(required, packets, uplink) ==> e.MissingApid?
    ensures MissingApids(required, packets, uplink) == [] <==>
              forall a :: a in required ==> CountsFor(packets, a) != []
  {
    if required != [] {
      MissingOnly(required[1..], packets, uplink);
      assert required[0] in required;
      assert forall a :: a in required ==> a == required[0] || a in required[1..];
    }
  }

  /** A passing pair: on the uplink every octet is in one accepted frame or in known fill; on the
    * downlink every octet before the last frame is, and less than one frame follows it. */
  lemma PassMeans(up: seq<byte>, down: seq<byte>, o: Options)
    requires o.frameSize >= TM_HEADER_SIZE + TRAILER_SIZE
    requires Errors(up, down, o) == []
    ensures FrameBytes(TcFrames(up, o.scid, o.vcid, 0)) + SegmentBytes(UplinkSegments(up, o.scid, o.vcid), Fill) == |up|
    ensures var frames := TmFrames(down, o.scid, o.vcid, o.frameSize, 0);
            var segments := DownlinkSegments(down, o.scid, o.vcid, o.frameSize);
            var trailing := SegmentBytes(segments, AtEnd);
            && trailing < o.frameSize && (!o.allowTrailingPartial ==> trailing == 0)
            && FrameBytes(frames) + SegmentBytes(segments, Fill) + trailing
               == |down| + SegmentBytes(segments, FillAtEnd)
    ensures forall a :: a in o.uplinkApids ==> CountsFor(AllPackets(TcFrames(up, o.scid, o.vcid, 0)), a) != []
    ensures forall a :: a in o.downlinkApids ==>
              CountsFor(AllPackets(TmFrames(down, o.scid, o.vcid, o.frameSize, 0)), a) != []
  {
    UplinkAccounting(up, o.scid, o.vcid);
    DownlinkAccounting(down, o.scid, o.vcid, o.frameSize);
    NoneOfKind(UplinkSegments(up, o.scid, o.vcid), NotFill);
    MissingOnly(o.uplinkApids, AllPackets(TcFrames(up, o.scid, o.vcid, 0)), true);
    MissingOnly(o.downlinkApids, AllPackets(TmFrames(down, o.scid, o.vcid, o.frameSize, 0)), false);
  }

  lemma {:induction false} NoneOfKind(segments: seq<Segment>, kind: Kind)
    ensures (forall s :: s in segments ==> !Selected(kind, s)) ==> SegmentBytes(segments, kind) == 0
  {
    if segments != [] {
      NoneOfKind(segments[1..], kind);
      assert segments == [segments[0]] + segments[1..];
    }
  }

  // ---- the verdict, read off the captures ----

  /** A whole number of copies of the fill pattern. */
  predicate IsFill(run: seq<byte>) {
    |run| % 12 == 0 && run == Repeated(TC_FILL_PATTERN, |run| / 12)
  }

  /** A segment inside the capture, marked as fill exactly when it is. */
  ghost predicate WellMarked(data: seq<byte>, s: Segment) {
    s.bytes > 0 && s.offset + s.bytes <= |data| && (s.fillOk <==> IsFill(data[s.offset..s.offset + s.bytes]))
  }

  lemma MarkIsRight(data: seq<byte>, lo: nat, hi: nat, atEnd: bool)
    requires lo < hi <= |data|
    ensures var s := MarkerFor(data, TC_FILL_PATTERN)(lo, hi, atEnd); WellMarked(data, s) && s.atEnd == atEnd
  {
    RepeatedPatternTest(data[lo..hi], TC_FILL_PATTERN);
    hide IsRepeatedPattern, Repeated;
  }

  /** Where the last frame ends. */
  function LastEnd(frames: seq<Frame>, start: nat): nat {
    if frames == [] then start else LastEnd(frames[1..], frames[0].offset + frames[0].bytes)
  }

  /** A marker that marks every run of the capture right. */
  ghost predicate MarksRight(mark: Marker, data: seq<byte>) {
    forall lo: nat, hi: nat, atEnd :: lo < hi <= |data| ==>
      WellMarked(data, mark(lo, hi, atEnd)) && mark(lo, hi, atEnd).bytes == hi - lo
      && mark(lo, hi, atEnd).atEnd == atEnd
  }

  lemma {:induction false} SegmentsRight(mark: Marker, data: seq<byte>, frames: seq<Frame>, start: nat)
    requires LaidOut(frames, start, |data|) && MarksRight(mark, data)
    ensures forall s :: s in Segments(mark, |data|, frames, start) ==> WellMarked(data, s)
    decreases frames
  {
    hide WellMarked;
    if frames != [] {
      var f := frames[0];
      LaidOutBounds(frames[1..], f.offset + f.bytes, |data|);
      SegmentsRight(mark, data, frames[1..], f.offset + f.bytes);
    }
  }

  lemma {:induction false} BytesAfterLast(mark: Marker, data: seq<byte>, frames: seq<Frame>, start: nat)
    requires LaidOut(frames, start, |data|) && MarksRight(mark, data)
    ensures SegmentBytes(Segments(mark, |data|, frames, start), AtEnd) == |data| - LastEnd(frames, start)
    decreases frames
  {
    hide WellMarked;
    var segments := Segments(mark, |data|, frames, start);
    if frames == [] {
      if start < |data| {
        assert segments[1..] == [];
      }
    } else {
      var f := frames[0];
      LaidOutBounds(frames[1..], f.offset + f.bytes, |data|);
      BytesAfterLast(mark, data, frames[1..], f.offset + f.bytes);
      if f.offset > start {
        assert segments[1..] == Segments(mark, |data|, frames[1..], f.offset + f.bytes);
      }
    }
  }

  lemma FillMarksRight(data: seq<byte>)
    ensures MarksRight(MarkerFor(data, TC_FILL_PATTERN), data)
  {
    hide WellMarked;
    var mark := MarkerFor(data, TC_FILL_PATTERN);
    MarkerMeasures(data, TC_FILL_PATTERN);
    forall lo: nat, hi: nat, atEnd: bool | lo < hi <= |data|
      ensures WellMarked(data, mark(lo, hi, atEnd)) && mark(lo, hi, atEnd).atEnd == atEnd
    {
      MarkIsRight(data, lo, hi, atEnd);
    }
  }

  /** Both lists of segments, marked right; the octets after the last telemetry frame. */
  lemma ReportedSegments(up: seq<byte>, down: seq<byte>, o: Options)
    requires o.frameSize >= TM_HEADER_SIZE + TRAILER_SIZE
    ensures forall s :: s in UplinkSegments(up, o.scid, o.vcid) ==> WellMarked(up, s)
    ensures var segments := DownlinkSegments(down, o.scid, o.vcid, o.frameSize);
            && (forall s :: s in segments ==> WellMarked(down, s))
            && SegmentBytes(segments, AtEnd) == |down| - LastEnd(TmFrames(down, o.scid, o.vcid, o.frameSize, 0), 0)
  {
    hide WellMarked, TcFrames, TmFrames, LaidOut, Segments, MarksRight, SegmentBytes;
    var us, ds := TcFrames(up, o.scid, o.vcid, 0), TmFrames(down, o.scid, o.vcid, o.frameSize, 0);
    TcLaidOut(up, o.scid, o.vcid, 0);
    SortingKeepsLaidOut(us, 0, |up|);
    FillMarksRight(up);
    SegmentsRight(MarkerFor(up, TC_FILL_PATTERN), up, us, 0);
    TmLaidOut(down, o.scid, o.vcid, o.frameSize, 0);
    SortingKeepsLaidOut(ds, 0, |down|);
    FillMarksRight(down);
    SegmentsRight(MarkerFor(down, TC_FILL_PATTERN), down, ds, 0);
    BytesAfterLast(MarkerFor(down, TC_FILL_PATTERN), down, ds, 0);
  }

  /** A frame carries a packet of the APID that is not idle. */
  ghost predicate Occurs(frames: seq<Frame>, apid: nat) {
    exists f, p :: f in frames && p in f.packets && !p.idle && p.apid == apid
  }

  lemma {:induction false} CountsOccur(packets: seq<Packet>, apid: nat)
    ensures CountsFor(packets, apid) != [] <==> exists p :: p in packets && !p.idle && p.apid == apid
    decreases |packets|
  {
    if packets != [] {
      var n := |packets| - 1;
      CountsOccur(packets[..n], apid);
      assert packets == packets[..n] + [packets[n]];
    }
  }

  lemma {:induction false} PacketsOfFrames(frames: seq<Frame>, p: Packet)
    ensures p in AllPackets(frames) <==> exists f :: f in frames && p in f.packets
    decreases |frames|
  {
    if frames != [] {
      var n := |frames| - 1;
      PacketsOfFrames(frames[..n], p);
      assert frames == frames[..n] + [frames[n]];
    }
  }

  lemma OccursCounted(frames: seq<Frame>, apid: nat)
    ensures CountsFor(AllPackets(frames), apid) != [] <==> Occurs(frames, apid)
  {
    hide CountsFor, AllPackets;
    CountsOccur(AllPackets(frames), apid);
    forall p ensures p in AllPackets(frames) <==> exists f :: f in frames && p in f.packets {
      PacketsOfFrames(frames, p);
    }
  }

  /** The cause of each error. */
  ghost predicate Causes(up: seq<byte>, down: seq<byte>, o: Options, e: Error)
    requires o.frameSize >= TM_HEADER_SIZE + TRAILER_SIZE
  {
    var upFrames, downFrames := TcFrames(up, o.scid, o.vcid, 0), TmFrames(down, o.scid, o.vcid, o.frameSize, 0);
    var trailing := |down| - LastEnd(downFrames, 0);
    match e
    case FrameFields(_) => false
    case MissingApid(uplink, a) =>
      if uplink then a in o.uplinkApids && !Occurs(upFrames, a) else a in o.downlinkApids && !Occurs(downFrames, a)
    case NoFrames(uplink) => if uplink then upFrames == [] else downFrames == []
    case UplinkStray =>
      exists s :: s in UplinkSegments(up, o.scid, o.vcid) && Stray(up, s)
    case DownlinkStray =>
      exists s :: s in DownlinkSegments(down, o.scid, o.vcid, o.frameSize) && !s.atEnd && Stray(down, s)
    case DownlinkTrailingFrames => trailing >= o.frameSize
    case DownlinkTrailingPartial => 0 < trailing < o.frameSize && !o.allowTrailingPartial
  }

  /** Octets outside the frames that are not fill. */
  predicate Stray(data: seq<byte>, s: Segment) {
    s.offset + s.bytes <= |data| && !IsFill(data[s.offset..s.offset + s.bytes])
  }

  lemma {:induction false} MissingExact(required: seq<nat>, packets: seq<Packet>, uplink: bool, e: Error)
    ensures e in MissingApids(required, packets, uplink) <==>
              e.MissingApid? && e.uplink == uplink && e.apid in required && CountsFor(packets, e.apid) == []
    decreases required
  {
    hide CountsFor;
    if required != [] {
      MissingExact(required[1..], packets, uplink, e);
      assert required == [required[0]] + required[1..];
    }
  }

  /** The list by its parts. */
  lemma ErrorParts(up: seq<byte>, down: seq<byte>, o: Options, e: Error)
    requires o.frameSize >= TM_HEADER_SIZE + TRAILER_SIZE
    ensures var us, ds := TcFrames(up, o.scid, o.vcid, 0), TmFrames(down, o.scid, o.vcid, o.frameSize, 0);
            var upSegments := UplinkSegments(up, o.scid, o.vcid);
            var downSegments := DownlinkSegments(down, o.scid, o.vcid, o.frameSize);
            e in Errors(up, down, o) <==>
              || e in SegmentErrors(exists s :: s in upSegments && !s.fillOk,
                                    SegmentBytes(downSegments, StrayBeforeEnd) != 0, SegmentBytes(downSegments, AtEnd),
                                      o)
              || e in MissingApids(o.uplinkApids, AllPackets(us), true)
              || e in MissingApids(o.downlinkApids, AllPackets(ds), false)
              || (us == [] && e == NoFrames(true)) || (ds == [] && e == NoFrames(false))
  {
    FieldErrorsUnreachable(up, down, o.scid, o.vcid, o.frameSize);
    hide TcFrames, TmFrames, UplinkSegments, DownlinkSegments, MissingApids, AllPackets, SegmentBytes, FieldErrors,
      SegmentErrors;
  }

  lemma SegmentErrorsExact(strayUp: bool, strayDown: bool, trailing: nat, o: Options, e: Error)
    requires o.frameSize > 0
    ensures e in SegmentErrors(strayUp, strayDown, trailing, o) <==>
              match e
              case UplinkStray => strayUp
              case DownlinkStray => strayDown
              case DownlinkTrailingFrames => trailing >= o.frameSize
              case DownlinkTrailingPartial => 0 < trailing < o.frameSize && !o.allowTrailingPartial
              case _ => false
  {
  }

  /** An error is reported exactly when its cause is there. */
  lemma ErrorsExact(up: seq<byte>, down: seq<byte>, o: Options, e: Error)
    requires o.frameSize >= TM_HEADER_SIZE + TRAILER_SIZE
    ensures e in Errors(up, down, o) <==> Causes(up, down, o, e)
  {
    hide Errors, TcFrames, TmFrames, UplinkSegments, DownlinkSegments, MissingApids, AllPackets, CountsFor, LastEnd,
      IsFill, SegmentBytes, Occurs, SegmentErrors;
    var us, ds := TcFrames(up, o.scid, o.vcid, 0), TmFrames(down, o.scid, o.vcid, o.frameSize, 0);
    var upSegments := UplinkSegments(up, o.scid, o.vcid);
    var downSegments := DownlinkSegments(down, o.scid, o.vcid, o.frameSize);
    ErrorParts(up, down, o, e);
    ReportedSegments(up, down, o);
    StrayBytes(down, downSegments);
    assert (exists s :: s in upSegments && !s.fillOk) <==> exists s :: s in upSegments && Stray(up, s);
    SegmentErrorsExact(exists s :: s in upSegments && !s.fillOk, SegmentBytes(downSegments, StrayBeforeEnd) != 0,
                       SegmentBytes(downSegments, AtEnd), o, e);
    MissingExact(o.uplinkApids, AllPackets(us), true, e);
    MissingExact(o.downlinkApids, AllPackets(ds), false, e);
    if e.MissingApid? {
      OccursCounted(us, e.apid);
      OccursCounted(ds, e.apid);
    }
  }

  lemma StrayBytes(data: seq<byte>, segments: seq<Segment>)
    requires forall s :: s in segments ==> WellMarked(data, s)
    ensures SegmentBytes(segments, StrayBeforeEnd) != 0 <==> exists s :: s in segments && !s.atEnd && Stray(data, s)
  {
    hide IsFill, SegmentBytes;
    SomeOfKind(segments, StrayBeforeEnd);
  }

  /** The pair passes exactly when both captures hold frames, everything on the uplink outside them is fill, so is
    * everything on the downlink before the last frame, nothing follows that frame, or less than one where that is
    * allowed, and the required APIDs occur. */
  lemma PassExactly(up: seq<byte>, down: seq<byte>, o: Options)
    requires o.frameSize >= TM_HEADER_SIZE + TRAILER_SIZE
    ensures var us, ds := TcFrames(up, o.scid, o.vcid, 0), TmFrames(down, o.scid, o.vcid, o.frameSize, 0);
            var trailing := |down| - LastEnd(ds, 0);
            Errors(up, down, o) == [] <==>
              && us != [] && ds != []
              && (forall s :: s in UplinkSegments(up, o.scid, o.vcid) ==> !Stray(up, s))
              && (forall s :: s in DownlinkSegments(down, o.scid, o.vcid, o.frameSize) ==> s.atEnd || !Stray(down, s))
              && (trailing == 0 || (trailing < o.frameSize && o.allowTrailingPartial))
              && (forall a :: a in o.uplinkApids ==> Occurs(us, a))
              && forall a :: a in o.downlinkApids ==> Occurs(ds, a)
  {
    hide Errors, TcFrames, TmFrames, UplinkSegments, DownlinkSegments, LastEnd, Occurs, Stray, SegmentBytes, WellMarked;
    var us, ds := TcFrames(up, o.scid, o.vcid, 0), TmFrames(down, o.scid, o.vcid, o.frameSize, 0);
    ReportedSegments(up, down, o);
    NoErrors(up, down, o);
    if forall e :: !Causes(up, down, o, e) {
      assert !Causes(up, down, o, NoFrames(true)) && !Causes(up, down, o, NoFrames(false));
      assert !Causes(up, down, o, UplinkStray);
      assert !Causes(up, down, o, DownlinkStray);
      assert !Causes(up, down, o, DownlinkTrailingFrames);
      assert !Causes(up, down, o, DownlinkTrailingPartial);
      forall a | a in o.uplinkApids ensures Occurs(us, a) { assert !Causes(up, down, o, MissingApid(true, a)); }
      forall a | a in o.downlinkApids ensures Occurs(ds, a) { assert !Causes(up, down, o, MissingApid(false, a)); }
    }
  }

  lemma NoErrors(up: seq<byte>, down: seq<byte>, o: Options)
    requires o.frameSize >= TM_HEADER_SIZE + TRAILER_SIZE
    ensures Errors(up, down, o) == [] <==> forall e :: !Causes(up, down, o, e)
  {
    hide Errors, Causes;
    var errors := Errors(up, down, o);
    forall e ensures e in errors <==> Causes(up, down, o, e) { ErrorsExact(up, down, o, e); }
    if errors != [] { assert errors[0] in errors; }
  }
}
