/** The native packet log: payloads, each behind its length in four octets, written record by record. */
module PacketLog {
  import opened Octets
  import opened SpacePackets
  import opened Handshake
  import opened HandshakeReader
  import TmEncoder

  function Record(payload: seq<byte>): (r: seq<byte>)
    requires |payload| < 0x1_0000_0000
    ensures |r| == 4 + |payload|
  {
    U32Bytes(|payload|) + payload
  }

  predicate Recordable(payloads: seq<seq<byte>>) {
    forall p :: p in payloads ==> |p| < 0x1_0000_0000
  }

  function WriteLog(payloads: seq<seq<byte>>): seq<byte>
    requires Recordable(payloads)
  {
    if payloads == [] then [] else Record(payloads[0]) + WriteLog(payloads[1..])
  }

  /** The records as the reader lists them, the first at the given offset. */
  function Listed(payloads: seq<seq<byte>>, at: nat): (r: seq<Captured>)
    ensures |r| == |payloads|
  {
    if payloads == [] then []
    else [Captured(FW_PACKET_HAND, 0, payloads[0], at)] + Listed(payloads[1..], at + 4 + |payloads[0]|)
  }

  lemma LengthRead(before: seq<byte>, n: nat, after: seq<byte>)
    requires n < 0x1_0000_0000
    ensures U32(before + U32Bytes(n) + after, |before|) == n
  {
    var data, four := before + U32Bytes(n) + after, U32Bytes(n);
    assert data[|before|] == four[0] && data[|before| + 1] == four[1] && data[|before| + 2] == four[2]
           && data[|before| + 3] == four[3];
  }

  /** A record cut short while it is being written. */
  ghost predicate Torn(tail: seq<byte>) {
    exists p: seq<byte> :: |p| < 0x1_0000_0000 && |tail| < 4 + |p| && tail <= Record(p)
  }

  lemma TornUnread(before: seq<byte>, tail: seq<byte>)
    requires Torn(tail)
    ensures LogRecords(before + tail, |before|) == []
  {
    hide U32Bytes, U32, Record;
    var p: seq<byte> :| |p| < 0x1_0000_0000 && |tail| < 4 + |p| && tail <= Record(p);
    if |tail| >= 4 {
      TornLength(tail, p);
      assert before + tail == before + U32Bytes(|p|) + tail[4..];
      LengthRead(before, |p|, tail[4..]);
    }
  }

  lemma TornLength(tail: seq<byte>, p: seq<byte>)
    requires |p| < 0x1_0000_0000 && 4 <= |tail| && tail <= Record(p)
    ensures tail == U32Bytes(|p|) + tail[4..]
  {
    hide U32Bytes;
    assert tail[..4] == Record(p)[..4] == U32Bytes(|p|);
  }

  lemma {:induction false} LogRead(before: seq<byte>, payloads: seq<seq<byte>>, tail: seq<byte>)
    requires Recordable(payloads) && Torn(tail)
    ensures LogRecords(before + WriteLog(payloads) + tail, |before|) == Listed(payloads, |before|)
    decreases payloads
  {
    hide U32, Torn;
    var data := before + WriteLog(payloads) + tail;
    if payloads == [] {
      assert data == before + tail;
      TornUnread(before, tail);
    } else {
      var p, rest := payloads[0], WriteLog(payloads[1..]) + tail;
      assert data == before + U32Bytes(|p|) + (p + rest);
      LengthRead(before, |p|, p + rest);
      assert data[|before| + 4..|before| + 4 + |p|] == p;
      assert data == (before + Record(p)) + WriteLog(payloads[1..]) + tail;
      LogRead(before + Record(p), payloads[1..], tail);
    }
  }

  /** Whatever was written is read back record by record, also while the next record is only partly there. */
  lemma LogRoundTrip(payloads: seq<seq<byte>>, tail: seq<byte>)
    requires Recordable(payloads) && Torn(tail)
    ensures LogRecords(WriteLog(payloads) + tail, 0) == Listed(payloads, 0)
  {
    assert [] + WriteLog(payloads) + tail == WriteLog(payloads) + tail;
    LogRead([], payloads, tail);
  }

  function Encoded(ms: seq<Message>): (r: seq<seq<byte>>)
    requires forall m :: m in ms ==> WellFormed(m)
    ensures |r| == |ms|
  {
    seq(|ms|, i requires 0 <= i < |ms| => Encode(ms[i]))
  }

  lemma {:induction false} ListedAt(payloads: seq<seq<byte>>, at: nat, i: nat)
    requires i < |payloads|
    ensures Listed(payloads, at)[i].apid == FW_PACKET_HAND && Listed(payloads, at)[i].payload == payloads[i]
    decreases payloads
  {
    if i > 0 {
      ListedAt(payloads[1..], at + 4 + |payloads[0]|, i - 1);
    }
  }

  /** Messages logged come out of the loader, exactly those asked for, in order and with the offsets of their
    * records. */
  lemma LoggedMessages(ms: seq<Message>, tail: seq<byte>, serviceId: int, kind: Kind)
    requires (forall m :: m in ms ==> WellFormed(m)) && Recordable(Encoded(ms)) && Torn(tail)
    ensures LoadLog(WriteLog(Encoded(ms)) + tail, serviceId, kind)
         == Loaded(TmEncoder.WantedAt(Listed(Encoded(ms), 0), ms, serviceId, kind))
  {
    hide Encode, WellFormed, Torn, Collect;
    LogRoundTrip(Encoded(ms), tail);
    forall i | 0 <= i < |ms|
      ensures Listed(Encoded(ms), 0)[i].apid == FW_PACKET_HAND && Listed(Encoded(ms), 0)[i].payload == Encode(ms[i])
    {
      ListedAt(Encoded(ms), 0, i);
    }
    TmEncoder.CollectSent(Listed(Encoded(ms), 0), ms, serviceId, kind);
  }
}
