/** The sending side of the telemetry link, written from the standards (CCSDS 133.0-B-2 section 4.1.3,
  * CCSDS 132.0-B sections 4.1.2 and 4.1.6): packets in frames of one size, idle fill, and the error
  * control field. The reader recovers exactly what was sent. */
module TmEncoder {
  import opened Octets
  import opened Crc
  import opened SpacePackets
  import opened FrameDecoder
  import opened Handshake
  import opened HandshakeReader

  /** A packet to send: `lead` is the version, type and secondary-header bits. */
  datatype Sent = Sent(lead: nat, apid: nat, flags: nat, sequenceCount: nat, payload: seq<byte>)

  /** A packet with a legal header, perhaps an idle one. */
  predicate Framed(p: Sent) {
    && p.lead < 32 && p.apid <= IDLE_APID && p.flags < 4 && p.sequenceCount < 16384
    && 1 <= |p.payload| <= 65536
  }

  predicate Legal(p: Sent) {
    Framed(p) && p.apid != IDLE_APID
  }

  /** It also fits an empty frame data field. */
  predicate Sendable(p: Sent, room: nat) {
    Legal(p) && SpacePackets.HEADER_SIZE + |p.payload| <= room
  }

  function EncodePacket(p: Sent): (r: seq<byte>)
    requires Framed(p)
    ensures |r| == SpacePackets.HEADER_SIZE + |p.payload|
  {
    U16Bytes(p.lead * 2048 + p.apid) + U16Bytes(p.flags * 16384 + p.sequenceCount)
    + U16Bytes(|p.payload| - 1) + p.payload
  }

  function Blank(n: nat): (r: seq<byte>)
    ensures |r| == n
  {
    seq(n, _ => 0)
  }

  /** What fills the rest of a data field: one idle packet, or, where none fits, blank octets. */
  function IdleFill(n: nat): (r: seq<byte>)
    ensures |r| == n
  {
    if n <= SpacePackets.HEADER_SIZE then Blank(n)
    else
      var length := if n - 7 < 65536 then n - 7 else 65535;
      U16Bytes(IDLE_APID) + U16Bytes(0xC000) + U16Bytes(length) + Blank(n - 6)
  }

  function Size(ps: seq<Sent>): nat {
    if ps == [] then 0 else SpacePackets.HEADER_SIZE + |ps[0].payload| + Size(ps[1..])
  }

  predicate Group(ps: seq<Sent>, room: nat) {
    (forall p :: p in ps ==> Legal(p)) && Size(ps) <= room
  }

  function EncodePackets(ps: seq<Sent>): (r: seq<byte>)
    requires forall p :: p in ps ==> Framed(p)
    ensures |r| == Size(ps)
  {
    if ps == [] then [] else EncodePacket(ps[0]) + EncodePackets(ps[1..])
  }

  function EncodeField(ps: seq<Sent>, room: nat): (r: seq<byte>)
    requires Group(ps, room)
    ensures |r| == room
  {
    EncodePackets(ps) + IdleFill(room - Size(ps))
  }

  function Seal(body: seq<byte>): (frame: seq<byte>)
    ensures |frame| == |body| + TRAILER_SIZE && frame[..|body|] == body && TrailerMatches(frame)
  {
    ValueBound(Crc16(body));
    var frame := body + U16Bytes(Value(Crc16(body)));
    assert frame[..|frame| - 2] == body;
    frame
  }

  /** `others` is how many frames of other channels the master channel has carried before. */
  datatype Link = Link(scid: nat, vcid: nat, frameSize: nat, others: nat) {
    predicate Valid() {
      scid < 1024 && vcid < 8 && frameSize >= TM_HEADER_SIZE + TRAILER_SIZE
    }
    function Room(): nat
      requires Valid()
    {
      frameSize - TM_HEADER_SIZE - TRAILER_SIZE
    }
  }

  function FrameHeader(link: Link, count: nat): (h: seq<byte>)
    requires link.Valid()
    ensures |h| == TM_HEADER_SIZE && U16(h, 0) == link.scid * 16 + link.vcid * 2
  {
    U16Bytes(link.scid * 16 + link.vcid * 2) + [(count + link.others) % 256, count % 256] + U16Bytes(0x1800)
  }

  function EncodeFrame(link: Link, ps: seq<Sent>, count: nat): (frame: seq<byte>)
    requires link.Valid() && Group(ps, link.Room())
    ensures |frame| == link.frameSize && TrailerMatches(frame)
  {
    Seal(FrameHeader(link, count) + EncodeField(ps, link.Room()))
  }

  function EncodeFrames(link: Link, groups: seq<seq<Sent>>, count: nat): seq<byte>
    requires link.Valid() && forall g :: g in groups ==> Group(g, link.Room())
  {
    if groups == [] then [] else EncodeFrame(link, groups[0], count) + EncodeFrames(link, groups[1..], count + 1)
  }

  lemma {:induction false} ValueBound(bits: seq<bool>)
    ensures Value(bits) < Pow2(|bits|)
    ensures |bits| == 16 ==> Value(bits) < 0x10000
  {
    if bits != [] {
      ValueBound(bits[..|bits| - 1]);
    }
    assert Pow2(8) == 256;
    assert Pow2(16) == 0x10000;
  }

  // ---- reading a data field back ----

  /** The packets as the reader captures them, the first at the given offset. */
  function Located(ps: seq<Sent>, at: nat): (r: seq<Captured>)
    ensures |r| == |ps|
  {
    if ps == [] then []
    else [Captured(ps[0].apid, ps[0].sequenceCount, ps[0].payload, at)]
         + Located(ps[1..], at + SpacePackets.HEADER_SIZE + |ps[0].payload|)
  }

  lemma U16Inside(before: seq<byte>, n: nat, after: seq<byte>)
    requires n < 0x10000
    ensures U16(before + U16Bytes(n) + after, |before|) == n
  {
  }

  lemma PacketRead(before: seq<byte>, p: Sent, after: seq<byte>)
    requires Framed(p)
    ensures var field := before + EncodePacket(p) + after;
            && Complete(field, |before|)
            && CapturedAt(field, |before|) == Captured(p.apid, p.sequenceCount, p.payload, |before|)
            && PacketAt(field, |before|) == Packet(p.apid, p.flags, p.sequenceCount, |before|, |EncodePacket(p)|,
                                                   p.apid == IDLE_APID)
  {
    var field := before + EncodePacket(p) + after;
    var id, control, length := p.lead * 2048 + p.apid, p.flags * 16384 + p.sequenceCount, |p.payload| - 1;
    var b2, b4, b6 := before + U16Bytes(id), before + U16Bytes(id) + U16Bytes(control),
                      before + U16Bytes(id) + U16Bytes(control) + U16Bytes(length);
    assert field == before + U16Bytes(id) + (U16Bytes(control) + U16Bytes(length) + p.payload + after);
    U16Inside(before, id, U16Bytes(control) + U16Bytes(length) + p.payload + after);
    assert field == b2 + U16Bytes(control) + (U16Bytes(length) + p.payload + after);
    U16Inside(b2, control, U16Bytes(length) + p.payload + after);
    assert field == b4 + U16Bytes(length) + (p.payload + after);
    U16Inside(b4, length, p.payload + after);
    assert field == b6 + p.payload + after;
    assert field[|b6|..|b6| + |p.payload|] == p.payload;
    HeaderNumbers(p);
  }

  lemma HeaderNumbers(p: Sent)
    requires Framed(p)
    ensures (p.lead * 2048 + p.apid) % 2048 == p.apid
    ensures (p.flags * 16384 + p.sequenceCount) / 16384 % 4 == p.flags
    ensures (p.flags * 16384 + p.sequenceCount) % 16384 == p.sequenceCount
  {
  }

  lemma FillStops(before: seq<byte>, n: nat)
    ensures Captures(before + IdleFill(n), true, |before|) == []
  {
    var field := before + IdleFill(n);
    if n > SpacePackets.HEADER_SIZE {
      FillIsIdle(before, n);
      hide U16, IdleFill;
    }
  }

  lemma FillIsIdle(before: seq<byte>, n: nat)
    requires n > SpacePackets.HEADER_SIZE
    ensures U16(before + IdleFill(n), |before|) % 2048 == IDLE_APID
  {
    var rest := IdleFill(n)[2..];
    assert before + IdleFill(n) == before + U16Bytes(IDLE_APID) + rest;
    U16Inside(before, IDLE_APID, rest);
  }

  /** The first packet of a data field, and what follows it. */
  lemma FieldFront(before: seq<byte>, ps: seq<Sent>, fill: seq<byte>)
    requires ps != [] && forall p :: p in ps ==> Framed(p)
    ensures Framed(ps[0]) && forall p :: p in ps[1..] ==> Framed(p)
    ensures before + EncodePackets(ps) + fill == before + EncodePacket(ps[0]) + (EncodePackets(ps[1..]) + fill)
    ensures before + EncodePackets(ps) + fill == before + EncodePacket(ps[0]) + EncodePackets(ps[1..]) + fill
  {
    hide EncodePacket, Framed;
    assert ps[0] in ps;
    Regrouped(before, EncodePacket(ps[0]), EncodePackets(ps[1..]), fill);
  }

  lemma Regrouped(a: seq<byte>, b: seq<byte>, c: seq<byte>, d: seq<byte>)
    ensures a + (b + c) + d == a + b + (c + d) && a + (b + c) + d == a + b + c + d
  {
  }

  lemma FillOnly(before: seq<byte>, fill: seq<byte>)
    ensures before + EncodePackets([]) + fill == before + fill
  {
  }

  lemma {:induction false} FieldRead(before: seq<byte>, ps: seq<Sent>, fill: nat)
    requires (forall p :: p in ps ==> Framed(p)) && forall p :: p in ps ==> p.apid != IDLE_APID
    ensures Captures(before + EncodePackets(ps) + IdleFill(fill), true, |before|) == Located(ps, |before|)
    decreases ps
  {
    hide EncodePacket, EncodePackets, CapturedAt, PacketAt, Complete, IdleFill, Framed, Captures;
    if ps == [] {
      FillOnly(before, IdleFill(fill));
      FillStops(before, fill);
    } else {
      FieldFront(before, ps, IdleFill(fill));
      PacketRead(before, ps[0], EncodePackets(ps[1..]) + IdleFill(fill));
      CapturesStep(before + EncodePackets(ps) + IdleFill(fill), true, |before|);
      FieldRead(before + EncodePacket(ps[0]), ps[1..], fill);
    }
  }

  // ---- reading a capture back ----

  function LocatedFrames(link: Link, groups: seq<seq<Sent>>, at: nat): seq<Captured> {
    if groups == [] then []
    else Located(groups[0], at + TM_HEADER_SIZE) + LocatedFrames(link, groups[1..], at + link.frameSize)
  }

  lemma {:induction false} ShiftLocated(ps: seq<Sent>, at: nat, base: nat)
    ensures Shifted(Located(ps, at), base) == Located(ps, base + at)
    decreases ps
  {
    if ps != [] {
      ShiftLocated(ps[1..], at + SpacePackets.HEADER_SIZE + |ps[0].payload|, base);
      var l := Located(ps, at);
      assert l[1..] == Located(ps[1..], at + SpacePackets.HEADER_SIZE + |ps[0].payload|);
      assert Shifted(l, base) == [l[0].(offset := base + at)] + Shifted(l[1..], base);
    }
  }

  lemma FrameParts(link: Link, ps: seq<Sent>, count: nat)
    requires link.Valid() && Group(ps, link.Room())
    ensures var frame := EncodeFrame(link, ps, count);
            && U16(frame, 0) == link.scid * 16 + link.vcid * 2
            && frame[TM_HEADER_SIZE..link.frameSize - TRAILER_SIZE] == EncodeField(ps, link.Room())
  {
    var frame := EncodeFrame(link, ps, count);
    var header, field := FrameHeader(link, count), EncodeField(ps, link.Room());
    var body := frame[..link.frameSize - TRAILER_SIZE];
    assert body == header + field;
    assert frame[0] == body[0] == header[0] && frame[1] == body[1] == header[1];
    assert frame[TM_HEADER_SIZE..link.frameSize - TRAILER_SIZE] == body[TM_HEADER_SIZE..] == field;
  }

  lemma FieldCaptures(ps: seq<Sent>, room: nat)
    requires Group(ps, room)
    ensures Captures(EncodeField(ps, room), true, 0) == Located(ps, 0)
  {
    var packets := EncodePackets(ps);
    assert [] + packets == packets;
    FieldRead([], ps, room - Size(ps));
  }

  lemma LinkNumbers(scid: nat, vcid: nat)
    requires scid < 1024 && vcid < 8
    ensures (scid * 16 + vcid * 2) / 16 % 1024 == scid && (scid * 16 + vcid * 2) / 2 % 8 == vcid
  {
    assert (scid * 16 + vcid * 2) / 16 == scid;
    assert (scid * 16 + vcid * 2) / 2 == scid * 8 + vcid;
    assert (scid * 8 + vcid) % 8 == vcid;
  }

  lemma FrameAccepted(link: Link, data: seq<byte>, o: nat, ps: seq<Sent>, count: nat)
    requires link.Valid() && Group(ps, link.Room())
    requires o + link.frameSize <= |data| && data[o..o + link.frameSize] == EncodeFrame(link, ps, count)
    ensures TmAcceptable(data, link.scid, link.vcid, link.frameSize, o)
    ensures TmField(data, link.frameSize, o) == EncodeField(ps, link.Room())
  {
    hide U16, EncodeField, EncodeFrame, Group, TmField, TrailerMatches;
    TmSlice(data, link.frameSize, o);
    FrameParts(link, ps, count);
    LinkNumbers(link.scid, link.vcid);
  }

  lemma FieldShift(field: seq<byte>, ps: seq<Sent>, room: nat, base: nat)
    requires Group(ps, room) && field == EncodeField(ps, room)
    ensures Shifted(Captures(field, true, 0), base) == Located(ps, base)
  {
    hide EncodeField, Group, Shifted;
    FieldCaptures(ps, room);
    ShiftLocated(ps, 0, base);
  }

  lemma FrameRead(link: Link, data: seq<byte>, o: nat, ps: seq<Sent>, count: nat)
    requires link.Valid() && Group(ps, link.Room())
    requires o + link.frameSize <= |data| && data[o..o + link.frameSize] == EncodeFrame(link, ps, count)
    ensures TmAcceptable(data, link.scid, link.vcid, link.frameSize, o)
    ensures Shifted(Captures(TmField(data, link.frameSize, o), true, 0), o + TM_HEADER_SIZE)
         == Located(ps, o + TM_HEADER_SIZE)
  {
    FrameAccepted(link, data, o, ps, count);
    FieldShift(TmField(data, link.frameSize, o), ps, link.Room(), o + TM_HEADER_SIZE);
  }

  lemma {:induction false} CaptureRead(link: Link, before: seq<byte>, groups: seq<seq<Sent>>, count: nat)
    requires link.Valid() && forall g :: g in groups ==> Group(g, link.Room())
    ensures TmPackets(before + EncodeFrames(link, groups, count), link.scid, link.vcid, link.frameSize, |before|)
         == LocatedFrames(link, groups, |before|)
    decreases groups
  {
    hide EncodeFrame, TmAcceptable, TmField, Captures, Located, Group;
    var data := before + EncodeFrames(link, groups, count);
    if groups != [] {
      var frame, rest := EncodeFrame(link, groups[0], count), EncodeFrames(link, groups[1..], count + 1);
      assert data == before + frame + rest;
      assert data[|before|..|before| + link.frameSize] == frame;
      FrameRead(link, data, |before|, groups[0], count);
      CaptureRead(link, before + frame, groups[1..], count + 1);
    }
  }

  /** The captured packets are the sent ones, in order. */
  ghost predicate Carries(cs: seq<Captured>, ps: seq<Sent>) {
    && |cs| == |ps|
    && forall i :: 0 <= i < |ps| ==>
         cs[i].apid == ps[i].apid && cs[i].sequenceCount == ps[i].sequenceCount && cs[i].payload == ps[i].payload
  }

  lemma {:induction false} LocatedCarries(ps: seq<Sent>, at: nat)
    ensures Carries(Located(ps, at), ps)
    decreases ps
  {
    if ps != [] {
      LocatedCarries(ps[1..], at + SpacePackets.HEADER_SIZE + |ps[0].payload|);
    }
  }

  function Flatten(groups: seq<seq<Sent>>): seq<Sent> {
    if groups == [] then [] else groups[0] + Flatten(groups[1..])
  }

  lemma {:induction false} FramesCarry(link: Link, groups: seq<seq<Sent>>, at: nat)
    ensures Carries(LocatedFrames(link, groups, at), Flatten(groups))
    decreases groups
  {
    if groups != [] {
      LocatedCarries(groups[0], at + TM_HEADER_SIZE);
      FramesCarry(link, groups[1..], at + link.frameSize);
    }
  }

  /** One grouping that fits: taken from the last packet backwards, a packet joins the frame after it while there is
    * room. */
  function Pack(ps: seq<Sent>, room: nat): (groups: seq<seq<Sent>>)
    requires forall p :: p in ps ==> Sendable(p, room)
    ensures Flatten(groups) == ps
    ensures forall g :: g in groups ==> Group(g, room)
  {
    if ps == [] then []
    else
      var later := Pack(ps[1..], room);
      assert ps[0] in ps && Sendable(ps[0], room);
      var first := if later != [] then [ps[0]] + later[0] else [ps[0]];
      assert first[1..] == if later != [] then later[0] else [];
      if later != [] && Size(first) <= room then
        var groups := [first] + later[1..];
        assert groups[1..] == later[1..];
        assert Group(first, room) by { assert Group(later[0], room); }
        groups
      else
        var groups := [[ps[0]]] + later;
        assert groups[1..] == later && [ps[0]][1..] == [];
        assert Group([ps[0]], room);
        groups
  }

  /** The whole stack, out and back: packets grouped in whatever way fits, sent in back-to-back frames with idle fill,
    * are recovered exactly and in order. */
  lemma RoundTrip(link: Link, groups: seq<seq<Sent>>, count: nat)
    requires link.Valid() && forall g :: g in groups ==> Group(g, link.Room())
    ensures var data := EncodeFrames(link, groups, count);
            Carries(TmPackets(data, link.scid, link.vcid, link.frameSize, 0), Flatten(groups))
  {
    var data := EncodeFrames(link, groups, count);
    assert [] + data == data;
    CaptureRead(link, [], groups, count);
    FramesCarry(link, groups, 0);
  }

  /** So any list of packets that each fit a frame can be sent and is recovered. */
  lemma PackedRoundTrip(link: Link, ps: seq<Sent>, count: nat)
    requires link.Valid() && forall p :: p in ps ==> Sendable(p, link.Room())
    ensures var data := EncodeFrames(link, Pack(ps, link.Room()), count);
            Carries(TmPackets(data, link.scid, link.vcid, link.frameSize, 0), ps)
  {
    RoundTrip(link, Pack(ps, link.Room()), count);
  }

  // ---- the decoder's report of the same frames ----

  /** The packets as the decoder lists them, the first at the given offset. */
  function Listing(ps: seq<Sent>, at: nat): seq<Packet> {
    if ps == [] then []
    else
      var bytes := SpacePackets.HEADER_SIZE + |ps[0].payload|;
      [Packet(ps[0].apid, ps[0].flags, ps[0].sequenceCount, at, bytes, ps[0].apid == IDLE_APID)]
      + Listing(ps[1..], at + bytes)
  }

  /** The idle packet it lists last, where the fill is long enough to hold one. */
  function FillListing(n: nat, at: nat): seq<Packet> {
    if n <= SpacePackets.HEADER_SIZE then []
    else [Packet(IDLE_APID, 3, 0, at, if n < 65542 then n else 65542, true)]
  }

  lemma FillListed(before: seq<byte>, n: nat)
    ensures Packets(before + IdleFill(n), true, |before|) == FillListing(n, |before|)
  {
    if n > SpacePackets.HEADER_SIZE {
      FillPacket(before, n);
      hide PacketAt, Complete, IdleFill;
    }
  }

  lemma FillPacket(before: seq<byte>, n: nat)
    requires n > SpacePackets.HEADER_SIZE
    ensures var field := before + IdleFill(n);
            Complete(field, |before|) && [PacketAt(field, |before|)] == FillListing(n, |before|)
  {
    hide U16, IdleFill, PacketAt;
    FillHeader(before, n);
    IdleHeader(before + IdleFill(n), |before|);
  }

  lemma IdleHeader(field: seq<byte>, o: nat)
    requires Complete(field, o) && U16(field, o) == IDLE_APID && U16(field, o + 2) == 0xC000
    ensures PacketAt(field, o) == Packet(IDLE_APID, 3, 0, o, SpacePackets.HEADER_SIZE + U16(field, o + 4) + 1, true)
  {
    hide U16, Complete;
    var id, control := IDLE_APID, 0xC000;
    assert id % 2048 == IDLE_APID && control / 16384 == 3 && control % 16384 == 0;
  }

  lemma FillHeader(before: seq<byte>, n: nat)
    requires n > SpacePackets.HEADER_SIZE
    ensures var field := before + IdleFill(n);
            && U16(field, |before|) == IDLE_APID && U16(field, |before| + 2) == 0xC000
            && U16(field, |before| + 4) == if n - 7 < 65536 then n - 7 else 65535
  {
    var length := if n - 7 < 65536 then n - 7 else 65535;
    var a, b, c, d := U16Bytes(IDLE_APID), U16Bytes(0xC000), U16Bytes(length), Blank(n - 6);
    assert before + IdleFill(n) == before + a + (b + c + d);
    U16Inside(before, IDLE_APID, b + c + d);
    assert before + IdleFill(n) == before + a + b + (c + d);
    U16Inside(before + a, 0xC000, c + d);
    assert before + IdleFill(n) == before + a + b + c + d;
    U16Inside(before + a + b, length, d);
  }

  lemma {:induction false} FieldListed(before: seq<byte>, ps: seq<Sent>, fill: nat)
    requires (forall p :: p in ps ==> Framed(p)) && forall p :: p in ps ==> p.apid != IDLE_APID
    ensures Packets(before + EncodePackets(ps) + IdleFill(fill), true, |before|)
         == Listing(ps, |before|) + FillListing(fill, |before| + Size(ps))
    decreases ps
  {
    hide EncodePacket, EncodePackets, PacketAt, Complete, IdleFill, Framed, FillListing, Packets;
    if ps == [] {
      FillOnly(before, IdleFill(fill));
      FillListed(before, fill);
    } else {
      FieldFront(before, ps, IdleFill(fill));
      PacketRead(before, ps[0], EncodePackets(ps[1..]) + IdleFill(fill));
      PacketsStep(before + EncodePackets(ps) + IdleFill(fill), true, |before|);
      FieldListed(before + EncodePacket(ps[0]), ps[1..], fill);
    }
  }

  /** What the decoder should report of frames sent back to back. */
  function Report(link: Link, groups: seq<seq<Sent>>, count: nat, at: nat): seq<Frame>
    requires link.Valid() && forall g :: g in groups ==> Group(g, link.Room())
  {
    if groups == [] then []
    else
      var ps := groups[0];
      assert Group(ps, link.Room());
      [Frame(at, link.frameSize, link.scid, link.vcid, true, true, true,
             TmHeader((count + link.others) % 256, count % 256, 0x1800),
             Listing(ps, 0) + FillListing(link.Room() - Size(ps), Size(ps)))]
      + Report(link, groups[1..], count + 1, at + link.frameSize)
  }

  lemma HeaderRead(link: Link, ps: seq<Sent>, count: nat)
    requires link.Valid() && Group(ps, link.Room())
    ensures var frame := EncodeFrame(link, ps, count);
            frame[2] == (count + link.others) % 256 && frame[3] == count % 256 && U16(frame, 4) == 0x1800
  {
    var frame, header := EncodeFrame(link, ps, count), FrameHeader(link, count);
    var body := frame[..link.frameSize - TRAILER_SIZE];
    assert body == header + EncodeField(ps, link.Room());
    assert forall i :: 0 <= i < TM_HEADER_SIZE ==> frame[i] == body[i] == header[i];
    assert header[4..6] == U16Bytes(0x1800);
  }

  lemma FrameReported(link: Link, data: seq<byte>, o: nat, ps: seq<Sent>, count: nat)
    requires link.Valid() && Group(ps, link.Room())
    requires o + link.frameSize <= |data| && data[o..o + link.frameSize] == EncodeFrame(link, ps, count)
    ensures TmAcceptable(data, link.scid, link.vcid, link.frameSize, o)
    ensures TmFrameAt(data, link.scid, link.vcid, link.frameSize, o)
         == Frame(o, link.frameSize, link.scid, link.vcid, true, true, true,
                  TmHeader((count + link.others) % 256, count % 256, 0x1800),
                  Listing(ps, 0) + FillListing(link.Room() - Size(ps), Size(ps)))
  {
    hide U16, EncodeField, EncodeFrame, TmField, TrailerMatches, Packets, Listing, FillListing, Group;
    FrameAccepted(link, data, o, ps, count);
    TmSlice(data, link.frameSize, o);
    HeaderRead(link, ps, count);
    FieldReported(link, ps);
  }

  lemma FieldReported(link: Link, ps: seq<Sent>)
    requires link.Valid() && Group(ps, link.Room())
    ensures Packets(EncodeField(ps, link.Room()), true, 0)
         == Listing(ps, 0) + FillListing(link.Room() - Size(ps), Size(ps))
  {
    hide Packets, EncodePackets, IdleFill, Listing, FillListing, Size, Framed;
    WholeListed(ps, link.Room() - Size(ps));
  }

  lemma WholeListed(ps: seq<Sent>, fill: nat)
    requires (forall p :: p in ps ==> Framed(p)) && forall p :: p in ps ==> p.apid != IDLE_APID
    ensures Packets(EncodePackets(ps) + IdleFill(fill), true, 0) == Listing(ps, 0) + FillListing(fill, Size(ps))
  {
    hide *;
    FieldListed([], ps, fill);
    NothingBefore(EncodePackets(ps), IdleFill(fill));
  }

  lemma NothingBefore(packets: seq<byte>, fill: seq<byte>)
    ensures [] + packets + fill == packets + fill
  {
    assert [] + packets == packets;
  }

  lemma {:induction false} CaptureReported(link: Link, before: seq<byte>, groups: seq<seq<Sent>>, count: nat)
    requires link.Valid() && forall g :: g in groups ==> Group(g, link.Room())
    ensures TmFrames(before + EncodeFrames(link, groups, count), link.scid, link.vcid, link.frameSize, |before|)
         == Report(link, groups, count, |before|)
    decreases groups
  {
    hide EncodeFrame, TmAcceptable, TmFrameAt, Listing, FillListing, Group;
    var data := before + EncodeFrames(link, groups, count);
    if groups != [] {
      var frame, rest := EncodeFrame(link, groups[0], count), EncodeFrames(link, groups[1..], count + 1);
      assert data == before + frame + rest;
      assert data[|before|..|before| + link.frameSize] == frame;
      FrameReported(link, data, |before|, groups[0], count);
      CaptureReported(link, before + frame, groups[1..], count + 1);
    }
  }

  /** The decoder reports the frames sent, one by one, with their counts, status and packets, and the idle packet
    * that fills each. */
  lemma ReportRoundTrip(link: Link, groups: seq<seq<Sent>>, count: nat)
    requires link.Valid() && forall g :: g in groups ==> Group(g, link.Room())
    ensures TmFrames(EncodeFrames(link, groups, count), link.scid, link.vcid, link.frameSize, 0)
         == Report(link, groups, count, 0)
  {
    var data := EncodeFrames(link, groups, count);
    assert [] + data == data;
    CaptureReported(link, [], groups, count);
  }

  // ---- handshake messages through the whole stack ----

  function HandPackets(ms: seq<Message>): (ps: seq<Sent>)
    requires forall m :: m in ms ==> WellFormed(m)
    ensures |ps| == |ms|
  {
    seq(|ms|, i requires 0 <= i < |ms| => Sent(0, FW_PACKET_HAND, 3, i % 16384, Encode(ms[i])))
  }

  /** The messages asked for, each with the offset of the packet it came in. */
  function WantedAt(cs: seq<Captured>, ms: seq<Message>, serviceId: int, kind: Kind): seq<Message>
    requires |cs| == |ms|
  {
    if ms == [] then []
    else
      (if ms[0].serviceId == serviceId && ms[0].kind == kind then [ms[0].(packetOffset := cs[0].offset)] else [])
      + WantedAt(cs[1..], ms[1..], serviceId, kind)
  }

  lemma {:induction false} CollectSent(cs: seq<Captured>, ms: seq<Message>, serviceId: int, kind: Kind)
    requires |cs| == |ms| && forall i :: 0 <= i < |ms| ==>
               WellFormed(ms[i]) && cs[i].apid == FW_PACKET_HAND && cs[i].payload == Encode(ms[i])
    ensures Collect(cs, serviceId, kind) == Loaded(WantedAt(cs, ms, serviceId, kind))
    decreases cs
  {
    hide Encode, Parse;
    if cs != [] {
      ParseEncode(ms[0]);
      CollectSent(cs[1..], ms[1..], serviceId, kind);
    }
  }

  /** Messages sent as packets, however grouped, come out of the loader, exactly those asked for, in order
    * and with the offsets of their packets. */
  lemma MessagesRoundTrip(link: Link, groups: seq<seq<Sent>>, ms: seq<Message>, count: nat, serviceId: int, kind: Kind)
    requires link.Valid() && (forall g :: g in groups ==> Group(g, link.Room()))
             && forall m :: m in ms ==> WellFormed(m)
    requires Flatten(groups) == HandPackets(ms)
    ensures |LocatedFrames(link, groups, 0)| == |ms|
    ensures LoadCapture(EncodeFrames(link, groups, count), link.scid, link.vcid, link.frameSize, serviceId, kind)
         == Loaded(WantedAt(LocatedFrames(link, groups, 0), ms, serviceId, kind))
  {
    hide Encode, WellFormed, Group, Collect, LocatedFrames, Located;
    var data := EncodeFrames(link, groups, count);
    assert [] + data == data;
    CaptureRead(link, [], groups, count);
    FramesCarry(link, groups, 0);
    CollectSent(LocatedFrames(link, groups, 0), ms, serviceId, kind);
  }
}
