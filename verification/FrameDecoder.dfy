/** The capture decoder's frame parsers: telecommand frames (CCSDS 232.0-B, sections 4.1.2 and
  * 4.1.4) and telemetry frames (CCSDS 132.0-B, sections 4.1.2 and 4.1.6). */
module FrameDecoder {
  import opened Octets
  import opened Crc
  import CrcPeriod
  import opened SpacePackets
  import opened GreedyScan

  const TC_HEADER_SIZE: nat := 5
  const TM_HEADER_SIZE: nat := 6
  const TRAILER_SIZE: nat := 2

  datatype Frame = Frame(offset: nat, bytes: nat, scid: nat, vcid: nat, scidOk: bool, vcidOk: bool, crcOk: bool,
                         header: Header, packets: seq<Packet>)

  datatype Header =
    | TcHeader(frameSequenceCount: byte)
    | TmHeader(masterFrameCount: byte, virtualFrameCount: byte, dataFieldStatus: nat)

  function Offsets(frames: seq<Frame>): (r: seq<nat>)
    ensures |r| == |frames|
  {
    seq(|frames|, i requires 0 <= i < |frames| => frames[i].offset)
  }

  // ---- telecommand ----

  function TcScid(data: seq<byte>, o: nat): nat
    requires o + 2 <= |data|
  {
    U16(data, o) % 1024
  }

  function TcVcid(data: seq<byte>, o: nat): nat
    requires o + 4 <= |data|
  {
    U16(data, o + 2) / 1024 % 64
  }

  function TcLength(data: seq<byte>, o: nat): nat
    requires o + 4 <= |data|
  {
    U16(data, o + 2) % 1024 + 1
  }

  /** A telecommand frame for the spacecraft and channel, complete and with a matching trailer. */
  predicate TcAcceptable(data: seq<byte>, scid: int, vcid: int, o: nat) {
    && o + TC_HEADER_SIZE + TRAILER_SIZE <= |data|
    && TcScid(data, o) == scid && TcVcid(data, o) == vcid
    && TC_HEADER_SIZE + TRAILER_SIZE <= TcLength(data, o) && o + TcLength(data, o) <= |data|
    && TrailerMatches(data[o..o + TcLength(data, o)])
  }

  function TcFrameAt(data: seq<byte>, scid: int, vcid: int, o: nat): Frame
    requires TcAcceptable(data, scid, vcid, o)
  {
    var length := TcLength(data, o);
    Frame(o, length, TcScid(data, o), TcVcid(data, o), true, true, true, TcHeader(data[o + 4]),
          Packets(data[o + TC_HEADER_SIZE..o + length - TRAILER_SIZE], false, 0))
  }

  function TcFrames(data: seq<byte>, scid: int, vcid: int, o: nat): seq<Frame>
    decreases if o < |data| then |data| - o else 0
  {
    if o + TC_HEADER_SIZE + TRAILER_SIZE > |data| then []
    else if TcAcceptable(data, scid, vcid, o)
    then [TcFrameAt(data, scid, vcid, o)] + TcFrames(data, scid, vcid, o + TcLength(data, o))
    else TcFrames(data, scid, vcid, o + 1)
  }

  lemma TcFramesStep(data: seq<byte>, scid: int, vcid: int, o: nat)
    requires TcAcceptable(data, scid, vcid, o)
    ensures TcFrames(data, scid, vcid, o)
         == [TcFrameAt(data, scid, vcid, o)] + TcFrames(data, scid, vcid, o + TcLength(data, o))
  {
    assert o + TC_HEADER_SIZE + TRAILER_SIZE <= |data|;
    hide TcAcceptable, TcFrameAt;
  }

  lemma TcFramesSkip(data: seq<byte>, scid: int, vcid: int, o: nat)
    requires o < |data| && !TcAcceptable(data, scid, vcid, o)
    ensures TcFrames(data, scid, vcid, o) == TcFrames(data, scid, vcid, o + 1)
  {
    hide TcAcceptable, TcFrameAt;
  }

  lemma TcFramesEnd(data: seq<byte>, scid: int, vcid: int, o: nat)
    requires o + TC_HEADER_SIZE + TRAILER_SIZE > |data|
    ensures TcFrames(data, scid, vcid, o) == []
  {
    hide TcAcceptable, TcFrameAt;
  }

  method ParseTcFrames(data: seq<byte>, expectedScid: int, expectedVcid: int) returns (frames: seq<Frame>)
    ensures frames == TcFrames(data, expectedScid, expectedVcid, 0)
    ensures forall f :: f in frames ==>
              && f.offset + f.bytes <= |data| && f.bytes >= TC_HEADER_SIZE + TRAILER_SIZE
              && Crc16(data[f.offset..f.offset + f.bytes]) == Zeros(16)
  {
    TcResidue(data, expectedScid, expectedVcid);
    hide U16, Value, Crc16, TcFrames, Packets;
    frames := [];
    var offset := 0;
    while offset + TC_HEADER_SIZE + TRAILER_SIZE <= |data|
      invariant frames + TcFrames(data, expectedScid, expectedVcid, offset)
             == TcFrames(data, expectedScid, expectedVcid, 0)
      decreases |data| - offset
    {
      var flagsAndScid := U16(data, offset);
      var vcidAndLength := U16(data, offset + 2);
      var frameLength := vcidAndLength % 1024 + 1;
      var scid := flagsAndScid % 1024;
      var vcid := vcidAndLength / 1024 % 64;
      if scid != expectedScid || vcid != expectedVcid || frameLength < TC_HEADER_SIZE + TRAILER_SIZE
         || offset + frameLength > |data| {
        TcFramesSkip(data, expectedScid, expectedVcid, offset);
        offset := offset + 1;
        continue;
      }
      var frame := data[offset..offset + frameLength];
      var transmittedCrc := U16(frame, frameLength - TRAILER_SIZE);
      var computedCrc := ComputeCrc(frame[..frameLength - TRAILER_SIZE]);
      if transmittedCrc != Value(computedCrc) {
        TcFramesSkip(data, expectedScid, expectedVcid, offset);
        offset := offset + 1;
        continue;
      }
      var packets := ParseSpacePackets(data[offset + TC_HEADER_SIZE..offset + frameLength - TRAILER_SIZE], false);
      frames := frames + [Frame(offset, frameLength, scid, vcid, scid == expectedScid, vcid == expectedVcid, true,
                                TcHeader(data[offset + 4]), packets)];
      TcFramesStep(data, expectedScid, expectedVcid, offset);
      offset := offset + frameLength;
    }
    TcFramesEnd(data, expectedScid, expectedVcid, offset);
  }

  // ---- telemetry ----

  function TmScid(data: seq<byte>, o: nat): nat
    requires o + 2 <= |data|
  {
    U16(data, o) / 16 % 1024
  }

  function TmVcid(data: seq<byte>, o: nat): nat
    requires o + 2 <= |data|
  {
    U16(data, o) / 2 % 8
  }

  /** A telemetry frame of the configured size for the spacecraft and channel, trailer matching. */
  predicate TmAcceptable(data: seq<byte>, scid: int, vcid: int, frameSize: nat, o: nat)
    requires frameSize >= TM_HEADER_SIZE + TRAILER_SIZE
  {
    && o + frameSize <= |data|
    && TmScid(data, o) == scid && TmVcid(data, o) == vcid
    && TrailerMatches(data[o..o + frameSize])
  }

  function TmField(data: seq<byte>, frameSize: nat, o: nat): (field: seq<byte>)
    requires frameSize >= TM_HEADER_SIZE + TRAILER_SIZE && o + frameSize <= |data|
    ensures |field| == frameSize - TM_HEADER_SIZE - TRAILER_SIZE
  {
    data[o + TM_HEADER_SIZE..o + frameSize - TRAILER_SIZE]
  }

  function TmFrameAt(data: seq<byte>, scid: int, vcid: int, frameSize: nat, o: nat): Frame
    requires frameSize >= TM_HEADER_SIZE + TRAILER_SIZE
    requires TmAcceptable(data, scid, vcid, frameSize, o)
  {
    Frame(o, frameSize, TmScid(data, o), TmVcid(data, o), true, true, true,
          TmHeader(data[o + 2], data[o + 3], U16(data, o + 4)),
          Packets(TmField(data, frameSize, o), true, 0))
  }

  function TmFrames(data: seq<byte>, scid: int, vcid: int, frameSize: nat, o: nat): seq<Frame>
    requires frameSize >= TM_HEADER_SIZE + TRAILER_SIZE
    decreases if o < |data| then |data| - o else 0
  {
    if o + frameSize > |data| then []
    else if TmAcceptable(data, scid, vcid, frameSize, o)
    then [TmFrameAt(data, scid, vcid, frameSize, o)] + TmFrames(data, scid, vcid, frameSize, o + frameSize)
    else TmFrames(data, scid, vcid, frameSize, o + 1)
  }

  /** The frame's own slice carries the fields the capture carries at the frame's offset. */
  lemma TmSlice(data: seq<byte>, frameSize: nat, o: nat)
    requires frameSize >= TM_HEADER_SIZE + TRAILER_SIZE && o + frameSize <= |data|
    ensures var frame := data[o..o + frameSize];
            && U16(frame, 0) == U16(data, o) && U16(frame, 4) == U16(data, o + 4)
            && frame[2] == data[o + 2] && frame[3] == data[o + 3]
            && frame[TM_HEADER_SIZE..frameSize - TRAILER_SIZE] == TmField(data, frameSize, o)
  {
    assert data[o..o + frameSize][TM_HEADER_SIZE..frameSize - TRAILER_SIZE] == TmField(data, frameSize, o);
  }

  method ParseTmFrames(data: seq<byte>, expectedScid: int, expectedVcid: int, frameSize: nat)
    returns (frames: seq<Frame>)
    requires frameSize >= TM_HEADER_SIZE + TRAILER_SIZE
    ensures frames == TmFrames(data, expectedScid, expectedVcid, frameSize, 0)
  {
    hide U16, Value, Crc16, TmField;
    frames := [];
    var offset := 0;
    while offset + frameSize <= |data|
      invariant frames + TmFrames(data, expectedScid, expectedVcid, frameSize, offset)
             == TmFrames(data, expectedScid, expectedVcid, frameSize, 0)
      decreases |data| - offset
    {
      var frame := data[offset..offset + frameSize];
      TmSlice(data, frameSize, offset);
      var globalVcid := U16(frame, 0);
      var scid := globalVcid / 16 % 1024;
      var vcid := globalVcid / 2 % 8;
      var dataField := frame[TM_HEADER_SIZE..frameSize - TRAILER_SIZE];
      var transmittedCrc := U16(frame, frameSize - TRAILER_SIZE);
      var computedCrc := ComputeCrc(frame[..frameSize - TRAILER_SIZE]);
      if scid != expectedScid || vcid != expectedVcid || transmittedCrc != Value(computedCrc) {
        offset := offset + 1;
        continue;
      }
      var packets := ParseSpacePackets(dataField, true);
      var accepted := Frame(offset, frameSize, scid, vcid, true, true, true,
                            TmHeader(frame[2], frame[3], U16(frame, 4)), packets);
      assert accepted == TmFrameAt(data, expectedScid, expectedVcid, frameSize, offset);
      frames := frames + [accepted];
      offset := offset + frameSize;
    }
  }

  // ---- both scanners return exactly the leftmost-greedy decomposition ----

  /** The length of the frame acceptable at each offset, 0 where there is none. */
  function TcSizes(data: seq<byte>, scid: int, vcid: int): (sizes: seq<nat>)
    ensures |sizes| == |data|
  {
    seq(|data|, o requires 0 <= o < |data| => if TcAcceptable(data, scid, vcid, o) then TcLength(data, o) else 0)
  }

  function TmSizes(data: seq<byte>, scid: int, vcid: int, frameSize: nat): (sizes: seq<nat>)
    requires frameSize >= TM_HEADER_SIZE + TRAILER_SIZE
    ensures |sizes| == |data|
  {
    seq(|data|, o requires 0 <= o < |data| => if TmAcceptable(data, scid, vcid, frameSize, o) then frameSize else 0)
  }

  lemma {:induction false} TcOffsets(data: seq<byte>, scid: int, vcid: int, o: nat)
    ensures Offsets(TcFrames(data, scid, vcid, o)) == Scan(TcSizes(data, scid, vcid), o)
    decreases if o < |data| then |data| - o else 0
  {
    hide U16, TrailerMatches, TcScid, TcVcid, Packets;
    var sizes := TcSizes(data, scid, vcid);
    if o + TC_HEADER_SIZE + TRAILER_SIZE > |data| {
      assert forall x :: o <= x < |data| ==> sizes[x] == 0;
      ScanNothing(sizes, o);
    } else if TcAcceptable(data, scid, vcid, o) {
      assert sizes[o] == TcLength(data, o);
      TcOffsets(data, scid, vcid, o + TcLength(data, o));
    } else {
      TcOffsets(data, scid, vcid, o + 1);
    }
  }

  lemma {:induction false} TmOffsets(data: seq<byte>, scid: int, vcid: int, frameSize: nat, o: nat)
    requires frameSize >= TM_HEADER_SIZE + TRAILER_SIZE
    ensures Offsets(TmFrames(data, scid, vcid, frameSize, o)) == Scan(TmSizes(data, scid, vcid, frameSize), o)
    decreases if o < |data| then |data| - o else 0
  {
    hide U16, TrailerMatches, Packets, TmScid, TmVcid, TmField;
    var sizes := TmSizes(data, scid, vcid, frameSize);
    if o + frameSize > |data| {
      assert forall x :: o <= x < |data| ==> sizes[x] == 0;
      ScanNothing(sizes, o);
    } else if TmAcceptable(data, scid, vcid, frameSize, o) {
      TmOffsets(data, scid, vcid, frameSize, o + frameSize);
    } else {
      TmOffsets(data, scid, vcid, frameSize, o + 1);
    }
  }

  lemma {:induction false} TcFramesAreAccepted(data: seq<byte>, scid: int, vcid: int, o: nat)
    ensures forall f :: f in TcFrames(data, scid, vcid, o) ==>
              TcAcceptable(data, scid, vcid, f.offset) && f == TcFrameAt(data, scid, vcid, f.offset)
    decreases if o < |data| then |data| - o else 0
  {
    if o + TC_HEADER_SIZE + TRAILER_SIZE <= |data| {
      TcFramesAreAccepted(data, scid, vcid, if TcAcceptable(data, scid, vcid, o) then o + TcLength(data, o) else o + 1);
    }
  }

  lemma {:induction false} TmFramesAreAccepted(data: seq<byte>, scid: int, vcid: int, frameSize: nat, o: nat)
    requires frameSize >= TM_HEADER_SIZE + TRAILER_SIZE
    ensures forall f :: f in TmFrames(data, scid, vcid, frameSize, o) ==>
              && TmAcceptable(data, scid, vcid, frameSize, f.offset)
              && f == TmFrameAt(data, scid, vcid, frameSize, f.offset)
    decreases if o < |data| then |data| - o else 0
  {
    if o + frameSize <= |data| {
      TmFramesAreAccepted(data, scid, vcid, frameSize,
                          if TmAcceptable(data, scid, vcid, frameSize, o) then o + frameSize else o + 1);
    }
  }

  /** What the telecommand scanner reports: the one leftmost-greedy set of acceptable frames, each
    * decoded at its own offset, with no field that could raise the SCID/VCID/FECF error. */
  lemma TcDecomposition(data: seq<byte>, scid: int, vcid: int)
    ensures var frames := TcFrames(data, scid, vcid, 0);
            && LeftmostGreedy(TcSizes(data, scid, vcid), Offsets(frames), 0)
            && (forall a :: LeftmostGreedy(TcSizes(data, scid, vcid), a, 0) ==> a == Offsets(frames))
            && (forall f :: f in frames ==>
                  && TcAcceptable(data, scid, vcid, f.offset) && f == TcFrameAt(data, scid, vcid, f.offset)
                  && f.scidOk && f.vcidOk && f.crcOk)
  {
    var sizes := TcSizes(data, scid, vcid);
    TcOffsets(data, scid, vcid, 0);
    ScanIsGreedy(sizes, 0);
    forall a | LeftmostGreedy(sizes, a, 0) ensures a == Scan(sizes, 0) {
      GreedyIsScan(sizes, a, 0);
    }
    TcFramesAreAccepted(data, scid, vcid, 0);
  }

  /** The same for the telemetry scanner. */
  lemma TmDecomposition(data: seq<byte>, scid: int, vcid: int, frameSize: nat)
    requires frameSize >= TM_HEADER_SIZE + TRAILER_SIZE
    ensures var frames := TmFrames(data, scid, vcid, frameSize, 0);
            && LeftmostGreedy(TmSizes(data, scid, vcid, frameSize), Offsets(frames), 0)
            && (forall a :: LeftmostGreedy(TmSizes(data, scid, vcid, frameSize), a, 0) ==> a == Offsets(frames))
            && (forall f :: f in frames ==>
                  && TmAcceptable(data, scid, vcid, frameSize, f.offset)
                  && f == TmFrameAt(data, scid, vcid, frameSize, f.offset)
                  && f.scidOk && f.vcidOk && f.crcOk)
  {
    hide U16, TrailerMatches, Packets;
    var sizes := TmSizes(data, scid, vcid, frameSize);
    TmOffsets(data, scid, vcid, frameSize, 0);
    ScanIsGreedy(sizes, 0);
    forall a | LeftmostGreedy(sizes, a, 0) ensures a == Scan(sizes, 0) {
      GreedyIsScan(sizes, a, 0);
    }
    TmFramesAreAccepted(data, scid, vcid, frameSize, 0);
  }

  /** A telemetry frame corrupted in transit only inside sixteen consecutive bits, or in an odd number
    * of bits, is never accepted at its offset. */
  lemma CorruptedTmRefused(data: seq<byte>, received: seq<byte>, scid: int, vcid: int, frameSize: nat, o: nat,
                           start: nat)
    requires frameSize >= TM_HEADER_SIZE + TRAILER_SIZE
    requires TmAcceptable(data, scid, vcid, frameSize, o) && o + frameSize <= |received|
    requires var sent, got := data[o..o + frameSize], received[o..o + frameSize];
             BurstDiffers(sent, got, start) || Odd(Xor(Bits(sent), Bits(got)))
    ensures !TmAcceptable(received, scid, vcid, frameSize, o)
  {
    var sent, got := data[o..o + frameSize], received[o..o + frameSize];
    if BurstDiffers(sent, got, start) {
      CorruptedFrameRefused(sent, got, start);
    } else {
      OddErrorsRefused(sent, got);
    }
  }

  /** A telemetry frame with two of its bits flipped in transit is never accepted at its offset in frames of up to
    * 4095 octets. */
  lemma TwoBitsTmRefused(data: seq<byte>, received: seq<byte>, scid: int, vcid: int, frameSize: nat, o: nat, i: nat,
                         j: nat)
    requires TM_HEADER_SIZE + TRAILER_SIZE <= frameSize <= 4095
    requires TmAcceptable(data, scid, vcid, frameSize, o) && o + frameSize <= |received|
    requires CrcPeriod.DiffersAt(Bits(data[o..o + frameSize]), Bits(received[o..o + frameSize]), i, j)
    ensures !TmAcceptable(received, scid, vcid, frameSize, o)
  {
    CrcPeriod.TwoBitsRefused(data[o..o + frameSize], received[o..o + frameSize], i, j);
  }

  /** The CRC over every reported telecommand frame, trailer included, is zero. */
  lemma TcResidue(data: seq<byte>, scid: int, vcid: int)
    ensures forall f :: f in TcFrames(data, scid, vcid, 0) ==>
              && f.offset + f.bytes <= |data| && f.bytes >= TC_HEADER_SIZE + TRAILER_SIZE
              && Crc16(data[f.offset..f.offset + f.bytes]) == Zeros(16)
  {
    TcFramesAreAccepted(data, scid, vcid, 0);
    hide U16, Crc16, Packets;
    forall f | f in TcFrames(data, scid, vcid, 0) ensures Crc16(data[f.offset..f.offset + f.bytes]) == Zeros(16) {
      TrailerResidue(data[f.offset..f.offset + f.bytes]);
    }
  }

  /** And over every reported telemetry frame. */
  lemma TmResidue(data: seq<byte>, scid: int, vcid: int, frameSize: nat)
    requires frameSize >= TM_HEADER_SIZE + TRAILER_SIZE
    ensures forall f :: f in TmFrames(data, scid, vcid, frameSize, 0) ==>
              && f.bytes == frameSize && f.offset + f.bytes <= |data|
              && Crc16(data[f.offset..f.offset + f.bytes]) == Zeros(16)
  {
    TmFramesAreAccepted(data, scid, vcid, frameSize, 0);
    hide U16, Crc16, Packets;
    forall f | f in TmFrames(data, scid, vcid, frameSize, 0)
      ensures Crc16(data[f.offset..f.offset + f.bytes]) == Zeros(16)
    {
      TrailerResidue(data[f.offset..f.offset + f.bytes]);
    }
  }

  /** A telecommand frame whose length field arrives intact and which is corrupted inside sixteen consecutive bits,
    * in an odd number of bits or in two bits is never accepted at its offset. */
  lemma CorruptedTcRefused(data: seq<byte>, received: seq<byte>, scid: int, vcid: int, o: nat, i: nat, j: nat)
    requires TcAcceptable(data, scid, vcid, o) && o + TcLength(data, o) <= |received|
    requires TcLength(received, o) == TcLength(data, o)
    requires var sent, got := data[o..o + TcLength(data, o)], received[o..o + TcLength(data, o)];
             BurstDiffers(sent, got, i) || Odd(Xor(Bits(sent), Bits(got)))
             || CrcPeriod.DiffersAt(Bits(sent), Bits(got), i, j)
    ensures !TcAcceptable(received, scid, vcid, o)
  {
    hide U16, TrailerMatches, Bits;
    var sent, got := data[o..o + TcLength(data, o)], received[o..o + TcLength(data, o)];
    if BurstDiffers(sent, got, i) {
      CorruptedFrameRefused(sent, got, i);
    } else if Odd(Xor(Bits(sent), Bits(got))) {
      OddErrorsRefused(sent, got);
    } else {
      CrcPeriod.TwoBitsRefused(sent, got, i, j);
    }
  }

  /** At 4096 octets the scanner accepts any frame with its first and last bit flipped. */
  lemma FlippedEndsAccepted(frame: seq<byte>, scid: int, vcid: int)
    requires |frame| == 4096 && TmAcceptable(frame, scid, vcid, 4096, 0)
    ensures CrcPeriod.FlipEnds(frame) != frame && TmAcceptable(CrcPeriod.FlipEnds(frame), scid, vcid, 4096, 0)
  {
    var flipped := CrcPeriod.FlipEnds(frame);
    assert frame[0..4096] == frame && flipped[0..4096] == flipped;
    hide TrailerMatches;
    CrcPeriod.FlippedEndsMatch(frame);
    assert flipped[0] == CrcPeriod.FlipFirst(frame[0]) && flipped[1] == frame[1];
    assert U16(flipped, 0) == U16(frame, 0) + 32768 || U16(flipped, 0) == U16(frame, 0) - 32768;
    TopOutsideIds(U16(frame, 0), U16(flipped, 0));
  }

  lemma TopOutsideIds(a: nat, b: nat)
    requires b == a + 32768 || a == b + 32768
    ensures a / 16 % 1024 == b / 16 % 1024 && a / 2 % 8 == b / 2 % 8
  {
    if b == a + 32768 {
      TopDropped(a);
    } else {
      TopDropped(b);
    }
  }

  lemma TopDropped(a: nat)
    ensures (a + 32768) / 16 % 1024 == a / 16 % 1024 && (a + 32768) / 2 % 8 == a / 2 % 8
  {
    var x, y := a / 16, a / 2;
    assert (a + 32768) / 16 == x + 2048 && (a + 32768) / 2 == y + 16384;
    TurnsOfId(x);
    TurnsOfChannel(y);
  }

  lemma TurnsOfId(x: nat)
    ensures (x + 2048) % 1024 == x % 1024
  {
  }

  lemma TurnsOfChannel(y: nat)
    ensures (y + 16384) % 8 == y % 8
  {
  }
}
