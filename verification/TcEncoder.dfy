/** The sending side of the telecommand link, written from CCSDS 232.0-B sections 4.1.2 and 4.1.4: a frame header
  * of five octets, packets, and the error control field. The decoder reads back every field. */
module TcEncoder {
  import opened Octets
  import opened Crc
  import opened SpacePackets
  import opened FrameDecoder
  import opened TmEncoder

  /** A frame to send: `flags` is version, bypass, control and spare bits. */
  datatype TcSent = TcSent(flags: nat, count: byte, packets: seq<Sent>)

  predicate Fits(f: TcSent) {
    f.flags < 64 && (forall p :: p in f.packets ==> Framed(p)) && Length(f) <= 1024
  }

  function Length(f: TcSent): nat {
    TC_HEADER_SIZE + Size(f.packets) + TRAILER_SIZE
  }

  function EncodeTc(scid: nat, vcid: nat, f: TcSent): (frame: seq<byte>)
    requires scid < 1024 && vcid < 64 && Fits(f)
    ensures |frame| == Length(f) && TrailerMatches(frame)
  {
    Seal(U16Bytes(f.flags * 1024 + scid) + U16Bytes(vcid * 1024 + Length(f) - 1) + [f.count]
         + EncodePackets(f.packets))
  }

  function EncodeTcs(scid: nat, vcid: nat, fs: seq<TcSent>): seq<byte>
    requires scid < 1024 && vcid < 64 && forall f :: f in fs ==> Fits(f)
  {
    if fs == [] then [] else EncodeTc(scid, vcid, fs[0]) + EncodeTcs(scid, vcid, fs[1..])
  }

  // ---- what the decoder should list ----

  function TcReport(scid: nat, vcid: nat, fs: seq<TcSent>, at: nat): seq<Frame> {
    if fs == [] then []
    else [Frame(at, Length(fs[0]), scid, vcid, true, true, true, TcHeader(fs[0].count), Listing(fs[0].packets, 0))]
         + TcReport(scid, vcid, fs[1..], at + Length(fs[0]))
  }

  lemma {:induction false} TcFieldListed(before: seq<byte>, ps: seq<Sent>)
    requires forall p :: p in ps ==> Framed(p)
    ensures Packets(before + EncodePackets(ps), false, |before|) == Listing(ps, |before|)
    decreases ps
  {
    hide EncodePacket, EncodePackets, PacketAt, Complete, Framed, Packets;
    if ps == [] {
      Nothing(before);
    } else {
      TcFieldFront(before, ps);
      PacketRead(before, ps[0], EncodePackets(ps[1..]));
      PacketsStep(before + EncodePackets(ps), false, |before|);
      TcFieldListed(before + EncodePacket(ps[0]), ps[1..]);
    }
  }

  lemma TcFieldFront(before: seq<byte>, ps: seq<Sent>)
    requires ps != [] && forall p :: p in ps ==> Framed(p)
    ensures Framed(ps[0]) && forall p :: p in ps[1..] ==> Framed(p)
    ensures before + EncodePackets(ps) == before + EncodePacket(ps[0]) + EncodePackets(ps[1..])
  {
    hide EncodePacket, Framed;
    assert ps[0] in ps;
    assert before + (EncodePacket(ps[0]) + EncodePackets(ps[1..]))
        == before + EncodePacket(ps[0]) + EncodePackets(ps[1..]);
  }

  lemma Nothing(before: seq<byte>)
    ensures Packets(before + EncodePackets([]), false, |before|) == []
  {
  }

  /** The header fields of an encoded frame. */
  lemma TcParts(scid: nat, vcid: nat, f: TcSent)
    requires scid < 1024 && vcid < 64 && Fits(f)
    ensures var frame := EncodeTc(scid, vcid, f);
            && U16(frame, 0) == f.flags * 1024 + scid && U16(frame, 2) == vcid * 1024 + Length(f) - 1
            && frame[4] == f.count && frame[TC_HEADER_SIZE..Length(f) - TRAILER_SIZE] == EncodePackets(f.packets)
  {
    var frame := EncodeTc(scid, vcid, f);
    var first, second := U16Bytes(f.flags * 1024 + scid), U16Bytes(vcid * 1024 + Length(f) - 1);
    var body := first + second + [f.count] + EncodePackets(f.packets);
    assert frame[..|body|] == body;
    assert frame[0] == body[0] == first[0] && frame[1] == body[1] == first[1];
    assert frame[2] == body[2] == second[0] && frame[3] == body[3] == second[1];
    assert frame[4] == body[4];
    assert frame[TC_HEADER_SIZE..|body|] == body[TC_HEADER_SIZE..] == EncodePackets(f.packets);
  }

  lemma TcNumbers(flags: nat, scid: nat, vcid: nat, length: nat)
    requires flags < 64 && scid < 1024 && vcid < 64 && 1 <= length <= 1024
    ensures (flags * 1024 + scid) % 1024 == scid
    ensures (vcid * 1024 + length - 1) / 1024 % 64 == vcid && (vcid * 1024 + length - 1) % 1024 + 1 == length
  {
  }

  lemma TcRead(before: seq<byte>, scid: nat, vcid: nat, f: TcSent, after: seq<byte>)
    requires scid < 1024 && vcid < 64 && Fits(f)
    ensures var data, o := before + EncodeTc(scid, vcid, f) + after, |before|;
            && TcAcceptable(data, scid, vcid, o) && TcLength(data, o) == Length(f)
            && TcFrameAt(data, scid, vcid, o)
               == Frame(o, Length(f), scid, vcid, true, true, true, TcHeader(f.count), Listing(f.packets, 0))
  {
    hide *;
    var frame := EncodeTc(scid, vcid, f);
    FitsBounds(f);
    TcParts(scid, vcid, f);
    FieldOfFrame(f);
    FrameInside(before, frame, after);
    TcNumbers(f.flags, scid, vcid, Length(f));
    TcReadAt(before + frame + after, |before|, f.flags * 1024 + scid, vcid * 1024 + Length(f) - 1, f.count,
             EncodePackets(f.packets), Length(f));
  }

  lemma FitsBounds(f: TcSent)
    requires Fits(f)
    ensures f.flags < 64 && TC_HEADER_SIZE + TRAILER_SIZE <= Length(f) && 1 <= Length(f) <= 1024
    ensures forall p :: p in f.packets ==> Framed(p)
  {
    hide Framed;
  }

  /** What the reader makes of a frame, from its two leading words, its count and its data field. */
  lemma TcReadAt(data: seq<byte>, o: nat, first: nat, second: nat, count: byte, field: seq<byte>, length: nat)
    requires TC_HEADER_SIZE + TRAILER_SIZE <= length && o + length <= |data|
    requires U16(data, o) == first && U16(data, o + 2) == second && data[o + 4] == count
    requires second % 1024 + 1 == length && TrailerMatches(data[o..o + length])
    requires data[o + TC_HEADER_SIZE..o + length - TRAILER_SIZE] == field
    ensures var scid, vcid := first % 1024, second / 1024 % 64;
            && TcAcceptable(data, scid, vcid, o) && TcLength(data, o) == length
            && TcFrameAt(data, scid, vcid, o)
               == Frame(o, length, scid, vcid, true, true, true, TcHeader(count), Packets(field, false, 0))
  {
    hide U16, TrailerMatches, Packets;
  }

  lemma FrameInside(before: seq<byte>, frame: seq<byte>, after: seq<byte>)
    requires |frame| >= TC_HEADER_SIZE + TRAILER_SIZE
    ensures var data, o := before + frame + after, |before|;
            && U16(data, o) == U16(frame, 0) && U16(data, o + 2) == U16(frame, 2) && data[o + 4] == frame[4]
            && data[o..o + |frame|] == frame
            && data[o + TC_HEADER_SIZE..o + |frame| - TRAILER_SIZE] == frame[TC_HEADER_SIZE..|frame| - TRAILER_SIZE]
  {
    var data, o := before + frame + after, |before|;
    assert data[o] == frame[0] && data[o + 1] == frame[1] && data[o + 2] == frame[2] && data[o + 3] == frame[3];
  }

  lemma FieldOfFrame(f: TcSent)
    requires Fits(f)
    ensures Packets(EncodePackets(f.packets), false, 0) == Listing(f.packets, 0)
  {
    assert [] + EncodePackets(f.packets) == EncodePackets(f.packets);
    TcFieldListed([], f.packets);
  }

  lemma {:induction false} TcCaptureRead(before: seq<byte>, scid: nat, vcid: nat, fs: seq<TcSent>)
    requires scid < 1024 && vcid < 64 && forall f :: f in fs ==> Fits(f)
    ensures TcFrames(before + EncodeTcs(scid, vcid, fs), scid, vcid, |before|) == TcReport(scid, vcid, fs, |before|)
    decreases fs
  {
    hide EncodeTc, TcAcceptable, TcFrameAt, TcLength, Fits, Listing, TcFrames;
    var data := before + EncodeTcs(scid, vcid, fs);
    if fs != [] {
      var frame, rest := EncodeTc(scid, vcid, fs[0]), EncodeTcs(scid, vcid, fs[1..]);
      assert data == before + frame + rest;
      TcRead(before, scid, vcid, fs[0], rest);
      TcFramesStep(data, scid, vcid, |before|);
      assert data == (before + frame) + rest;
      TcCaptureRead(before + frame, scid, vcid, fs[1..]);
    } else {
      TcFramesEnd(data, scid, vcid, |before|);
    }
  }

  /** Frames sent back to back are read back one by one, with their lengths, spacecraft and channel, frame counts and
    * packets, idle ones included. */
  lemma TcRoundTrip(scid: nat, vcid: nat, fs: seq<TcSent>)
    requires scid < 1024 && vcid < 64 && forall f :: f in fs ==> Fits(f)
    ensures TcFrames(EncodeTcs(scid, vcid, fs), scid, vcid, 0) == TcReport(scid, vcid, fs, 0)
  {
    TcCaptureRead([], scid, vcid, fs);
    assert [] + EncodeTcs(scid, vcid, fs) == EncodeTcs(scid, vcid, fs);
  }

  // ---- when the length field is hit ----

  /** The frame with its length field raised by two, followed by two octets that make the error control field match. */
  function Stretched(frame: seq<byte>): (r: seq<byte>)
    requires |frame| >= TC_HEADER_SIZE + TRAILER_SIZE && U16(frame, 2) + 2 < 0x10000
    ensures |r| == |frame| + 2 && TrailerMatches(r) && r[..|frame|] == Raised(frame)
  {
    Seal(Raised(frame))
  }

  function Raised(frame: seq<byte>): (r: seq<byte>)
    requires |frame| >= TC_HEADER_SIZE + TRAILER_SIZE && U16(frame, 2) + 2 < 0x10000
    ensures |r| == |frame|
  {
    frame[..2] + U16Bytes(U16(frame, 2) + 2) + frame[4..]
  }

  /** With the length field corrupted nothing protects the frame: every accepted frame of at most 1022 octets has a
    * corruption inside sixteen bits, its length field, after which it is accepted at its offset, given the right two
    * octets after it. */
  lemma LengthErrorAccepted(frame: seq<byte>, scid: int, vcid: int)
    requires TcAcceptable(frame, scid, vcid, 0) && |frame| == TcLength(frame, 0) <= 1022
    ensures U16(frame, 2) + 2 < 0x10000
    ensures BurstDiffers(frame, Stretched(frame)[..|frame|], 16)
    ensures TcAcceptable(Stretched(frame), scid, vcid, 0)
  {
    hide U16, TrailerMatches, BurstDiffers, Stretched;
    TokenRaised(U16(frame, 2));
    RaisedBurst(frame);
    StretchedWords(frame);
    var r := Stretched(frame);
    assert r[0..|r|] == r;
  }

  lemma StretchedWords(frame: seq<byte>)
    requires |frame| >= TC_HEADER_SIZE + TRAILER_SIZE && U16(frame, 2) + 2 < 0x10000
    ensures var r := Stretched(frame);
            r[..|frame|] == Raised(frame) && U16(r, 0) == U16(frame, 0) && U16(r, 2) == U16(frame, 2) + 2
  {
    hide Stretched, TrailerMatches;
    RaisedParts(frame);
    var r := Stretched(frame);
    assert r[0] == Raised(frame)[0] && r[1] == Raised(frame)[1] && r[2] == Raised(frame)[2] && r[3] == Raised(frame)[3];
  }

  lemma TokenRaised(token: nat)
    requires token < 0x10000 && token % 1024 + 1 <= 1022
    ensures token + 2 < 0x10000
    ensures (token + 2) / 1024 % 64 == token / 1024 % 64 && (token + 2) % 1024 == token % 1024 + 2
  {
    var q, r := token / 1024, token % 1024;
    assert token + 2 == q * 1024 + (r + 2);
    assert (token + 2) / 1024 == q;
  }

  lemma RaisedParts(frame: seq<byte>)
    requires |frame| >= TC_HEADER_SIZE + TRAILER_SIZE && U16(frame, 2) + 2 < 0x10000
    ensures var r := Raised(frame);
            && r[0] == frame[0] && r[1] == frame[1] && U16(r, 2) == U16(frame, 2) + 2
            && r != frame && r[4..] == frame[4..]
  {
    var r, two := Raised(frame), U16Bytes(U16(frame, 2) + 2);
    assert r[2] == two[0] && r[3] == two[1];
    assert U16(r, 2) == U16(two, 0);
  }

  lemma RaisedBurst(frame: seq<byte>)
    requires |frame| >= TC_HEADER_SIZE + TRAILER_SIZE && U16(frame, 2) + 2 < 0x10000
    ensures BurstDiffers(frame, Raised(frame), 16)
  {
    RaisedParts(frame);
    hide U16, Bits;
    var r, two := Raised(frame), U16Bytes(U16(frame, 2) + 2);
    assert frame == frame[..2] + frame[2..4] + frame[4..];
    ThreeParts(frame[..2], frame[2..4], frame[4..]);
    ThreeParts(frame[..2], two, frame[4..]);
    forall i | 0 <= i < 8 * |frame| && !(16 <= i < 32) ensures Bits(frame)[i] == Bits(r)[i] {
      OutsideMiddle(Bits(frame[..2]), Bits(frame[2..4]), Bits(two), Bits(frame[4..]), i);
    }
  }

  lemma ThreeParts(a: seq<byte>, b: seq<byte>, c: seq<byte>)
    ensures Bits(a + b + c) == Bits(a) + Bits(b) + Bits(c)
  {
    BitsConcat(a + b, c);
    BitsConcat(a, b);
  }

  lemma OutsideMiddle(a: seq<bool>, b: seq<bool>, c: seq<bool>, d: seq<bool>, i: nat)
    requires |b| == |c| && i < |a + b + d| && !(|a| <= i < |a| + |b|)
    ensures (a + b + d)[i] == (a + c + d)[i]
  {
  }
}
