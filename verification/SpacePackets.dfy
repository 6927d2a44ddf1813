/** Space Packets in a frame data field (CCSDS 133.0-B-2, section 4.1.3), read by two independently
  * written walkers: the capture decoder lists every packet, the handshake reader captures the
  * payloads of the packets that are not idle. */
module SpacePackets {
  import opened Octets

  const HEADER_SIZE: nat := 6
  const IDLE_APID: nat := 0x7FF

  datatype Packet = Packet(apid: nat, sequenceFlags: nat, sequenceCount: nat, offset: nat, bytes: nat, idle: bool)

  datatype Captured = Captured(apid: nat, sequenceCount: nat, payload: seq<byte>, offset: nat)

  /** A whole packet, header and data, lies at the offset. */
  predicate Complete(field: seq<byte>, o: nat) {
    o + HEADER_SIZE <= |field| && o + HEADER_SIZE + U16(field, o + 4) + 1 <= |field|
  }

  function PacketAt(field: seq<byte>, o: nat): (p: Packet)
    requires Complete(field, o)
    ensures p.offset == o && HEADER_SIZE < p.bytes && o + p.bytes <= |field|
  {
    var control := U16(field, o + 2);
    var apid := U16(field, o) % 2048;
    Packet(apid, control / 16384 % 4, control % 16384, o, HEADER_SIZE + U16(field, o + 4) + 1, apid == IDLE_APID)
  }

  /** The packets the decoder lists from an offset on. */
  function Packets(field: seq<byte>, stopAtIdle: bool, o: nat): (ps: seq<Packet>)
    decreases if o < |field| then |field| - o else 0
  {
    if !Complete(field, o) then []
    else
      var p := PacketAt(field, o);
      if stopAtIdle && p.idle then [p] else [p] + Packets(field, stopAtIdle, o + p.bytes)
  }

  function CapturedAt(field: seq<byte>, o: nat): Captured
    requires Complete(field, o)
  {
    var p := PacketAt(field, o);
    Captured(p.apid, p.sequenceCount, field[o + HEADER_SIZE..o + p.bytes], o)
  }

  /** The packets the handshake reader captures from an offset on. */
  function Captures(field: seq<byte>, stopAtIdle: bool, o: nat): (ps: seq<Captured>)
    decreases if o < |field| then |field| - o else 0
  {
    if !Complete(field, o) then []
    else
      var p := PacketAt(field, o);
      if p.idle then (if stopAtIdle then [] else Captures(field, stopAtIdle, o + p.bytes))
      else [CapturedAt(field, o)] + Captures(field, stopAtIdle, o + p.bytes)
  }

  lemma PacketsStep(field: seq<byte>, stopAtIdle: bool, o: nat)
    requires Complete(field, o)
    ensures var p := PacketAt(field, o);
            Packets(field, stopAtIdle, o)
            == if stopAtIdle && p.idle then [p] else [p] + Packets(field, stopAtIdle, o + p.bytes)
  {
    hide Complete, PacketAt;
  }

  lemma CapturesStep(field: seq<byte>, stopAtIdle: bool, o: nat)
    requires Complete(field, o) && !PacketAt(field, o).idle
    ensures Captures(field, stopAtIdle, o)
         == [CapturedAt(field, o)] + Captures(field, stopAtIdle, o + PacketAt(field, o).bytes)
  {
    hide Complete, PacketAt, CapturedAt;
  }

  method ParseSpacePackets(payload: seq<byte>, stopAtIdle: bool) returns (packets: seq<Packet>)
    ensures packets == Packets(payload, stopAtIdle, 0)
  {
    hide U16;
    packets := [];
    var offset := 0;
    while offset + HEADER_SIZE <= |payload|
      invariant packets + Packets(payload, stopAtIdle, offset) == Packets(payload, stopAtIdle, 0)
      decreases |payload| - offset
    {
      var packetId := U16(payload, offset);
      var sequenceControl := U16(payload, offset + 2);
      var dataLengthToken := U16(payload, offset + 4);
      var apid := packetId % 2048;
      var totalSize := HEADER_SIZE + dataLengthToken + 1;
      if offset + totalSize > |payload| {
        break;
      }
      packets := packets + [Packet(apid, sequenceControl / 16384 % 4, sequenceControl % 16384, offset, totalSize,
                                   apid == IDLE_APID)];
      if stopAtIdle && apid == IDLE_APID {
        return;
      }
      offset := offset + totalSize;
    }
  }

  method CaptureSpacePackets(payload: seq<byte>, stopAtIdle: bool) returns (packets: seq<Captured>)
    ensures packets == Captures(payload, stopAtIdle, 0)
  {
    hide U16;
    packets := [];
    var offset := 0;
    while offset + HEADER_SIZE <= |payload|
      invariant packets + Captures(payload, stopAtIdle, offset) == Captures(payload, stopAtIdle, 0)
      decreases |payload| - offset
    {
      var packetId := U16(payload, offset);
      var sequenceControl := U16(payload, offset + 2);
      var dataLengthToken := U16(payload, offset + 4);
      var apid := packetId % 2048;
      var totalSize := HEADER_SIZE + dataLengthToken + 1;
      if offset + totalSize > |payload| {
        break;
      }
      if apid == IDLE_APID {
        if stopAtIdle {
          break;
        }
        offset := offset + totalSize;
        continue;
      }
      packets := packets + [Captured(apid, sequenceControl % 16384,
                                     payload[offset + HEADER_SIZE..offset + totalSize], offset)];
      offset := offset + totalSize;
    }
  }

  /** The decoder's packets as the reader would capture them: idle ones dropped. */
  function NonIdle(field: seq<byte>, ps: seq<Packet>): seq<Captured>
    requires forall p :: p in ps ==> HEADER_SIZE <= p.bytes && p.offset + p.bytes <= |field|
  {
    if ps == [] then []
    else
      var p := ps[0];
      (if p.idle then []
       else [Captured(p.apid, p.sequenceCount, field[p.offset + HEADER_SIZE..p.offset + p.bytes], p.offset)])
      + NonIdle(field, ps[1..])
  }

  lemma {:induction false} PacketsInside(field: seq<byte>, stopAtIdle: bool, o: nat)
    ensures forall p :: p in Packets(field, stopAtIdle, o) ==>
              HEADER_SIZE < p.bytes && o <= p.offset && p.offset + p.bytes <= |field|
    decreases if o < |field| then |field| - o else 0
  {
    hide U16, PacketAt;
    if Complete(field, o) {
      PacketsStep(field, stopAtIdle, o);
      PacketsInside(field, stopAtIdle, o + PacketAt(field, o).bytes);
    }
  }

  /** The two walkers agree: the reader captures exactly the non-idle packets the decoder lists. */
  lemma {:induction false} WalkersAgree(field: seq<byte>, stopAtIdle: bool, o: nat)
    ensures forall p :: p in Packets(field, stopAtIdle, o) ==>
              HEADER_SIZE <= p.bytes && p.offset + p.bytes <= |field|
    ensures Captures(field, stopAtIdle, o) == NonIdle(field, Packets(field, stopAtIdle, o))
    decreases if o < |field| then |field| - o else 0
  {
    PacketsInside(field, stopAtIdle, o);
    if Complete(field, o) {
      var p := PacketAt(field, o);
      var ps := Packets(field, stopAtIdle, o);
      if stopAtIdle && p.idle {
        assert ps[1..] == [];
      } else {
        WalkersAgree(field, stopAtIdle, o + p.bytes);
        assert ps[1..] == Packets(field, stopAtIdle, o + p.bytes);
      }
    }
  }
}
