/** The handshake reader: telemetry packets by its own frame parser, and messages out of them and out of the native
  * packet log. */
module HandshakeReader {
  import opened Octets
  import opened Crc
  import opened SpacePackets
  import opened FrameDecoder
  import opened Handshake

  // ---- telemetry packets ----

  /** Offsets counted from the start of the capture. */
  function Shifted(ps: seq<Captured>, base: nat): (r: seq<Captured>)
    ensures |r| == |ps|
  {
    seq(|ps|, i requires 0 <= i < |ps| => ps[i].(offset := base + ps[i].offset))
  }

  function TmPackets(data: seq<byte>, scid: int, vcid: int, frameSize: nat, o: nat): seq<Captured>
    requires frameSize >= TM_HEADER_SIZE + TRAILER_SIZE
    decreases if o < |data| then |data| - o else 0
  {
    if o + frameSize > |data| then []
    else if TmAcceptable(data, scid, vcid, frameSize, o)
    then Shifted(Captures(TmField(data, frameSize, o), true, 0), o + TM_HEADER_SIZE)
         + TmPackets(data, scid, vcid, frameSize, o + frameSize)
    else TmPackets(data, scid, vcid, frameSize, o + 1)
  }

  method ParseTmPackets(data: seq<byte>, expectedScid: int, expectedVcid: int, frameSize: nat)
    returns (packets: seq<Captured>)
    requires frameSize >= TM_HEADER_SIZE + TRAILER_SIZE
    ensures packets == TmPackets(data, expectedScid, expectedVcid, frameSize, 0)
  {
    hide U16, Value, Crc16, TmField;
    packets := [];
    var offset := 0;
    while offset + frameSize <= |data|
      invariant packets + TmPackets(data, expectedScid, expectedVcid, frameSize, offset)
             == TmPackets(data, expectedScid, expectedVcid, frameSize, 0)
      decreases |data| - offset
    {
      var frame := data[offset..offset + frameSize];
      TmSlice(data, frameSize, offset);
      var globalVcid := U16(frame, 0);
      var scid := globalVcid / 16 % 1024;
      var vcid := globalVcid / 2 % 8;
      var transmittedCrc := U16(frame, frameSize - TRAILER_SIZE);
      var computedCrc := ComputeCrc(frame[..frameSize - TRAILER_SIZE]);
      if scid != expectedScid || vcid != expectedVcid || transmittedCrc != Value(computedCrc) {
        offset := offset + 1;
        continue;
      }
      var framePackets := CaptureSpacePackets(frame[TM_HEADER_SIZE..frameSize - TRAILER_SIZE], true);
      packets := packets + Shifted(framePackets, offset + TM_HEADER_SIZE);
      offset := offset + frameSize;
    }
  }

  /** The frame lies in the capture and its packets in its data field. */
  ghost predicate Inside(data: seq<byte>, frameSize: nat, f: Frame)
    requires frameSize >= TM_HEADER_SIZE + TRAILER_SIZE
  {
    && f.offset + frameSize <= |data|
    && forall p :: p in f.packets ==>
         SpacePackets.HEADER_SIZE <= p.bytes && p.offset + p.bytes <= frameSize - TM_HEADER_SIZE - TRAILER_SIZE
  }

  /** The non-idle packets of a decoded frame, with offsets counted from the start of the capture. */
  ghost function FromFrame(data: seq<byte>, frameSize: nat, f: Frame): seq<Captured>
    requires frameSize >= TM_HEADER_SIZE + TRAILER_SIZE && Inside(data, frameSize, f)
  {
    Shifted(NonIdle(TmField(data, frameSize, f.offset), f.packets), f.offset + TM_HEADER_SIZE)
  }

  ghost function FromFrames(data: seq<byte>, frameSize: nat, frames: seq<Frame>): seq<Captured>
    requires frameSize >= TM_HEADER_SIZE + TRAILER_SIZE
    requires forall f :: f in frames ==> Inside(data, frameSize, f)
  {
    if frames == [] then [] else FromFrame(data, frameSize, frames[0]) + FromFrames(data, frameSize, frames[1..])
  }

  lemma FrameAgrees(data: seq<byte>, scid: int, vcid: int, frameSize: nat, o: nat)
    requires frameSize >= TM_HEADER_SIZE + TRAILER_SIZE && TmAcceptable(data, scid, vcid, frameSize, o)
    ensures var f := TmFrameAt(data, scid, vcid, frameSize, o);
            && Inside(data, frameSize, f)
            && FromFrame(data, frameSize, f)
               == Shifted(Captures(TmField(data, frameSize, o), true, 0), o + TM_HEADER_SIZE)
  {
    WalkersAgree(TmField(data, frameSize, o), true, 0);
  }

  /** The two independent parsers agree on every capture. */
  lemma {:induction false} ParsersAgree(data: seq<byte>, scid: int, vcid: int, frameSize: nat, o: nat)
    requires frameSize >= TM_HEADER_SIZE + TRAILER_SIZE
    ensures var frames := TmFrames(data, scid, vcid, frameSize, o);
            && (forall f :: f in frames ==> Inside(data, frameSize, f))
            && TmPackets(data, scid, vcid, frameSize, o) == FromFrames(data, frameSize, frames)
    decreases if o < |data| then |data| - o else 0
  {
    hide U16, TrailerMatches, Captures, NonIdle, Shifted;
    if o + frameSize <= |data| {
      if TmAcceptable(data, scid, vcid, frameSize, o) {
        ParsersAgree(data, scid, vcid, frameSize, o + frameSize);
        FrameAgrees(data, scid, vcid, frameSize, o);
        assert TmFrames(data, scid, vcid, frameSize, o)[1..] == TmFrames(data, scid, vcid, frameSize, o + frameSize);
      } else {
        ParsersAgree(data, scid, vcid, frameSize, o + 1);
      }
    }
  }

  lemma SameFrame(d: seq<byte>, e: seq<byte>, scid: int, vcid: int, frameSize: nat, o: nat)
    requires frameSize >= TM_HEADER_SIZE + TRAILER_SIZE && o + frameSize <= |d|
    ensures TmAcceptable(d + e, scid, vcid, frameSize, o) == TmAcceptable(d, scid, vcid, frameSize, o)
    ensures TmField(d + e, frameSize, o) == TmField(d, frameSize, o)
  {
    hide TrailerMatches;
    assert (d + e)[o..o + frameSize] == d[o..o + frameSize];
    assert (d + e)[o] == d[o] && (d + e)[o + 1] == d[o + 1];
    assert TmField(d + e, frameSize, o) == TmField(d, frameSize, o);
  }

  /** A capture that grows keeps every packet already read, in place. */
  lemma {:induction false} TmPacketsGrow(d: seq<byte>, e: seq<byte>, scid: int, vcid: int, frameSize: nat, o: nat)
    requires frameSize >= TM_HEADER_SIZE + TRAILER_SIZE
    ensures TmPackets(d, scid, vcid, frameSize, o) <= TmPackets(d + e, scid, vcid, frameSize, o)
    decreases if o < |d| then |d| - o else 0
  {
    if o + frameSize <= |d| {
      SameFrame(d, e, scid, vcid, frameSize, o);
      hide TmAcceptable, TmField, Captures, Shifted;
      TmPacketsGrow(d, e, scid, vcid, frameSize,
                    if TmAcceptable(d, scid, vcid, frameSize, o) then o + frameSize else o + 1);
    }
  }

  // ---- the native packet log ----

  /** Length-prefixed payloads; every one of them is looked at, whatever APID it travelled under, so
    * they are listed under the handshake descriptor. */
  function LogRecords(data: seq<byte>, o: nat): seq<Captured>
    decreases if o < |data| then |data| - o else 0
  {
    if o + 4 > |data| || o + 4 + U32(data, o) > |data| then []
    else [Captured(FW_PACKET_HAND, 0, data[o + 4..o + 4 + U32(data, o)], o)] + LogRecords(data, o + 4 + U32(data, o))
  }

  lemma {:induction false} LogRecordsGrow(d: seq<byte>, e: seq<byte>, o: nat)
    ensures LogRecords(d, o) <= LogRecords(d + e, o)
    decreases if o < |d| then |d| - o else 0
  {
    if o + 4 <= |d| {
      assert (d + e)[o] == d[o] && (d + e)[o + 1] == d[o + 1] && (d + e)[o + 2] == d[o + 2]
        && (d + e)[o + 3] == d[o + 3];
      if o + 4 + U32(d, o) <= |d| {
        assert (d + e)[o + 4..o + 4 + U32(d, o)] == d[o + 4..o + 4 + U32(d, o)];
        LogRecordsGrow(d, e, o + 4 + U32(d, o));
      }
    }
  }

  // ---- messages ----

  /** Loading raises when a payload names an unknown message type. */
  datatype Loaded = LoadRaised | Loaded(messages: seq<Message>)

  predicate Wanted(m: Message, serviceId: int, kind: Kind) {
    m.serviceId == serviceId && m.kind == kind
  }

  function Collect(packets: seq<Captured>, serviceId: int, kind: Kind): Loaded {
    if packets == [] then Loaded([])
    else if packets[0].apid != FW_PACKET_HAND then Collect(packets[1..], serviceId, kind)
    else
      match Parse(packets[0].payload)
      case Raised => LoadRaised
      case Ignored => Collect(packets[1..], serviceId, kind)
      case Parsed(m) =>
        match Collect(packets[1..], serviceId, kind)
        case LoadRaised => LoadRaised
        case Loaded(rest) =>
          if Wanted(m, serviceId, kind) then Loaded([m.(packetOffset := packets[0].offset)] + rest) else Loaded(rest)
  }

  function LoadCapture(data: seq<byte>, scid: int, vcid: int, frameSize: nat, serviceId: int, kind: Kind): Loaded
    requires frameSize >= TM_HEADER_SIZE + TRAILER_SIZE
  {
    Collect(TmPackets(data, scid, vcid, frameSize, 0), serviceId, kind)
  }

  function LoadLog(data: seq<byte>, serviceId: int, kind: Kind): Loaded {
    Collect(LogRecords(data, 0), serviceId, kind)
  }

  function Join(a: Loaded, b: Loaded): Loaded {
    if a.LoadRaised? || b.LoadRaised? then LoadRaised else Loaded(a.messages + b.messages)
  }

  lemma {:induction false} CollectConcat(a: seq<Captured>, b: seq<Captured>, serviceId: int, kind: Kind)
    ensures Collect(a + b, serviceId, kind) == Join(Collect(a, serviceId, kind), Collect(b, serviceId, kind))
  {
    if a == [] {
      assert a + b == b;
      var r := Collect(b, serviceId, kind);
      assert r.Loaded? ==> [] + r.messages == r.messages;
    } else {
      assert (a + b)[1..] == a[1..] + b && (a + b)[0] == a[0];
      CollectConcat(a[1..], b, serviceId, kind);
    }
  }

  /** Loading raises exactly when a handshake packet does; otherwise the messages are those wanted, each from its own
    * packet and with its offset. */
  lemma {:induction false} CollectExact(packets: seq<Captured>, serviceId: int, kind: Kind)
    ensures Collect(packets, serviceId, kind).LoadRaised? <==>
              exists p :: p in packets && p.apid == FW_PACKET_HAND && Parse(p.payload).Raised?
    ensures Collect(packets, serviceId, kind).Loaded? ==>
              forall m :: m in Collect(packets, serviceId, kind).messages <==> Borne(packets, m, serviceId, kind)
  {
    hide Parse, Borne, Bears;
    if packets == [] {
      forall m ensures !Borne(packets, m, serviceId, kind) { NothingBorne(m, serviceId, kind); }
    } else {
      CollectExact(packets[1..], serviceId, kind);
      assert packets == [packets[0]] + packets[1..];
      forall m ensures Borne(packets, m, serviceId, kind) <==>
                         Bears(packets[0], m, serviceId, kind) || Borne(packets[1..], m, serviceId, kind)
      {
        BorneNext(packets, m, serviceId, kind);
      }
      FirstBears(packets[0], serviceId, kind);
    }
  }

  ghost predicate Borne(packets: seq<Captured>, m: Message, serviceId: int, kind: Kind) {
    exists p :: p in packets && Bears(p, m, serviceId, kind)
  }

  lemma NothingBorne(m: Message, serviceId: int, kind: Kind)
    ensures !Borne([], m, serviceId, kind)
  {
  }

  lemma BorneNext(packets: seq<Captured>, m: Message, serviceId: int, kind: Kind)
    requires packets != []
    ensures Borne(packets, m, serviceId, kind) <==>
              Bears(packets[0], m, serviceId, kind) || Borne(packets[1..], m, serviceId, kind)
  {
    hide Bears;
    assert packets == [packets[0]] + packets[1..];
  }

  /** At most one message from a packet: the one it parses as, if wanted. */
  lemma FirstBears(p: Captured, serviceId: int, kind: Kind)
    ensures forall m :: Bears(p, m, serviceId, kind) <==>
              && p.apid == FW_PACKET_HAND && Parse(p.payload).Parsed?
              && Wanted(Parse(p.payload).message, serviceId, kind)
              && m == Parse(p.payload).message.(packetOffset := p.offset)
  {
    hide Parse;
  }

  predicate Bears(p: Captured, m: Message, serviceId: int, kind: Kind) {
    && p.apid == FW_PACKET_HAND && Parse(p.payload).Parsed? && m == Parse(p.payload).message.(packetOffset := p.offset)
    && m.serviceId == serviceId && m.kind == kind
  }

  /** The shorter load is a prefix of the longer one, and once loading raises it keeps raising. */
  ghost predicate Grows(a: Loaded, b: Loaded) {
    && (a.LoadRaised? ==> b.LoadRaised?)
    && (a.Loaded? && b.Loaded? ==> a.messages <= b.messages)
  }

  lemma CollectGrows(a: seq<Captured>, b: seq<Captured>, serviceId: int, kind: Kind)
    requires a <= b
    ensures Grows(Collect(a, serviceId, kind), Collect(b, serviceId, kind))
  {
    assert b == a + b[|a|..];
    CollectConcat(a, b[|a|..], serviceId, kind);
  }

  /** Both loaders are append-monotone. */
  lemma LoadGrows(d: seq<byte>, e: seq<byte>, scid: int, vcid: int, frameSize: nat, serviceId: int, kind: Kind)
    requires frameSize >= TM_HEADER_SIZE + TRAILER_SIZE
    ensures Grows(LoadCapture(d, scid, vcid, frameSize, serviceId, kind),
                  LoadCapture(d + e, scid, vcid, frameSize, serviceId, kind))
    ensures Grows(LoadLog(d, serviceId, kind), LoadLog(d + e, serviceId, kind))
  {
    TmPacketsGrow(d, e, scid, vcid, frameSize, 0);
    CollectGrows(TmPackets(d, scid, vcid, frameSize, 0), TmPackets(d + e, scid, vcid, frameSize, 0), serviceId, kind);
    LogRecordsGrow(d, e, 0);
    CollectGrows(LogRecords(d, 0), LogRecords(d + e, 0), serviceId, kind);
  }

  /** The loop both loaders run over their packets. */
  method CollectMessages(packets: seq<Captured>, serviceId: int, kind: Kind) returns (r: Loaded)
    ensures r == Collect(packets, serviceId, kind)
  {
    var messages := [];
    for i := 0 to |packets|
      invariant Collect(packets[..i], serviceId, kind) == Loaded(messages)
    {
      var packet := packets[i];
      assert packets[..i + 1] == packets[..i] + [packet] && [packet][1..] == [];
      CollectConcat(packets[..i], [packet], serviceId, kind);
      if packet.apid != FW_PACKET_HAND {
        assert Collect([packet], serviceId, kind) == Loaded([]);
        continue;
      }
      match Parse(packet.payload) {
        case Raised =>
          assert packets == packets[..i + 1] + packets[i + 1..];
          CollectConcat(packets[..i + 1], packets[i + 1..], serviceId, kind);
          return LoadRaised;
        case Ignored =>
        case Parsed(m) =>
          if Wanted(m, serviceId, kind) {
            messages := messages + [m.(packetOffset := packet.offset)];
          }
      }
    }
    assert packets[..|packets|] == packets;
    return Loaded(messages);
  }

  method LoadHandshakeMessages(capture: seq<byte>, scid: int, vcid: int, frameSize: nat, serviceId: int, kind: Kind)
    returns (r: Loaded)
    requires frameSize >= TM_HEADER_SIZE + TRAILER_SIZE
    ensures r == LoadCapture(capture, scid, vcid, frameSize, serviceId, kind)
  {
    var packets := ParseTmPackets(capture, scid, vcid, frameSize);
    r := CollectMessages(packets, serviceId, kind);
  }

  method LoadHandshakeMessagesFromLog(data: seq<byte>, serviceId: int, kind: Kind) returns (r: Loaded)
    ensures r == LoadLog(data, serviceId, kind)
  {
    var records := ReadLog(data);
    r := CollectMessages(records, serviceId, kind);
  }

  method ReadLog(data: seq<byte>) returns (records: seq<Captured>)
    ensures records == LogRecords(data, 0)
  {
    hide U32;
    var offset := 0;
    records := [];
    while offset + 4 <= |data|
      invariant records + LogRecords(data, offset) == LogRecords(data, 0)
      decreases |data| - offset
    {
      var packetSize := U32(data, offset);
      if offset + 4 + packetSize > |data| {
        break;
      }
      records := records + [Captured(FW_PACKET_HAND, 0, data[offset + 4..offset + 4 + packetSize], offset)];
      offset := offset + 4 + packetSize;
    }
  }
}
