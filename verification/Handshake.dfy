/** The secure-link handshake messages: what the ground builds, and what it reads back. */
module Handshake {
  import opened Octets

  const FW_PACKET_HAND: nat := 0x00FE
  const MAGIC: nat := 0x0BC0A701
  const VERSION: byte := 1
  const HEADER_SIZE: nat := 8
  const CHALLENGE_SIZE: nat := 31
  const RESPONSE_SIZE: nat := 32

  datatype Kind = ReqAuth | Challenge | Response | AuthStatus

  datatype Message = Message(kind: Kind, serviceId: byte, challenge: seq<byte>, response: seq<byte>,
                             statusCode: nat, packetOffset: nat)

  /** A payload is no handshake message, or names a message type that the enumeration rejects by
    * raising, or is a message. */
  datatype Parsed = Ignored | Raised | Parsed(message: Message)

  datatype Built = ValueError | Built(payload: seq<byte>)

  function KindCode(kind: Kind): byte {
    match kind
    case ReqAuth => 1
    case Challenge => 2
    case Response => 3
    case AuthStatus => 4
  }

  function Header(kind: Kind, serviceId: byte): (h: seq<byte>)
    ensures |h| == 2 + HEADER_SIZE
  {
    U16Bytes(FW_PACKET_HAND) + U32Bytes(MAGIC) + [VERSION, KindCode(kind), serviceId, 0]
  }

  function BuildReqAuth(serviceId: byte): (payload: seq<byte>) {
    Header(ReqAuth, serviceId)
  }

  function BuildResponse(serviceId: byte, response: seq<byte>): Built {
    if |response| != RESPONSE_SIZE then ValueError else Built(Header(Response, serviceId) + response)
  }

  function Parse(payload: seq<byte>): Parsed {
    if |payload| < 2 + HEADER_SIZE then Ignored
    else if U16(payload, 0) != FW_PACKET_HAND then Ignored
    else if U32(payload, 2) != MAGIC || payload[6] != VERSION || payload[9] != 0 then Ignored
    else if !(1 <= payload[7] <= 4) then Raised
    else
      var serviceId := payload[8];
      var body := payload[2 + HEADER_SIZE..];
      if payload[7] == KindCode(Challenge) then
        if |body| != CHALLENGE_SIZE then Ignored else Parsed(Message(Challenge, serviceId, body, [], 0, 0))
      else if payload[7] == KindCode(Response) then
        if |body| != RESPONSE_SIZE then Ignored else Parsed(Message(Response, serviceId, [], body, 0, 0))
      else if payload[7] == KindCode(AuthStatus) then
        if |body| != 4 then Ignored else Parsed(Message(AuthStatus, serviceId, [], [], U32(body, 0), 0))
      else
        if body != [] then Ignored else Parsed(Message(ReqAuth, serviceId, [], [], 0, 0))
  }

  /** The messages that have an encoding: each kind carries its own field and no other. */
  predicate WellFormed(m: Message) {
    && m.packetOffset == 0 && m.statusCode < 0x1_0000_0000
    && (if m.kind.Challenge? then |m.challenge| == CHALLENGE_SIZE else m.challenge == [])
    && (if m.kind.Response? then |m.response| == RESPONSE_SIZE else m.response == [])
    && (!m.kind.AuthStatus? ==> m.statusCode == 0)
  }

  function Encode(m: Message): seq<byte>
    requires WellFormed(m)
  {
    Header(m.kind, m.serviceId)
    + match m.kind
      case ReqAuth => []
      case Challenge => m.challenge
      case Response => m.response
      case AuthStatus => U32Bytes(m.statusCode)
  }

  lemma HeaderFields(kind: Kind, serviceId: byte, body: seq<byte>)
    ensures var p := Header(kind, serviceId) + body;
            && U16(p, 0) == FW_PACKET_HAND && U32(p, 2) == MAGIC && p[6] == VERSION
            && p[7] == KindCode(kind) && p[8] == serviceId && p[9] == 0 && p[10..] == body
  {
    var h := Header(kind, serviceId);
    assert h[..2] == U16Bytes(FW_PACKET_HAND) && h[2..6] == U32Bytes(MAGIC);
    assert h[2] == U32Bytes(MAGIC)[0] && h[3] == U32Bytes(MAGIC)[1];
    assert h[4] == U32Bytes(MAGIC)[2] && h[5] == U32Bytes(MAGIC)[3];
  }

  /** Reading back what was written. */
  lemma ParseEncode(m: Message)
    requires WellFormed(m)
    ensures Parse(Encode(m)) == Parsed(m)
  {
    var body := Encode(m)[10..];
    assert Encode(m) == Header(m.kind, m.serviceId) + body;
    HeaderFields(m.kind, m.serviceId, body);
  }

  /** Only canonical octets are read as a message. */
  lemma EncodeParse(payload: seq<byte>)
    requires Parse(payload).Parsed?
    ensures var m := Parse(payload).message; WellFormed(m) && payload == Encode(m)
  {
    var m := Parse(payload).message;
    var body := payload[10..];
    U32Octets(payload, 2);
    assert payload[..2] == U16Bytes(FW_PACKET_HAND);
    assert payload[2..6] == U32Bytes(MAGIC);
    assert payload[6..10] == [VERSION, KindCode(m.kind), m.serviceId, 0];
    assert payload == payload[..2] + payload[2..6] + payload[6..10] + body;
    if m.kind.AuthStatus? {
      U32Octets(body, 0);
      assert body[0..4] == body;
    }
  }

  /** The reader inverts both builders. */
  lemma BuildersInverted(serviceId: byte, response: seq<byte>)
    ensures Parse(BuildReqAuth(serviceId)) == Parsed(Message(ReqAuth, serviceId, [], [], 0, 0))
    ensures |response| == RESPONSE_SIZE ==>
              && BuildResponse(serviceId, response).Built?
              && Parse(BuildResponse(serviceId, response).payload)
                 == Parsed(Message(Response, serviceId, [], response, 0, 0))
    ensures |response| != RESPONSE_SIZE ==> BuildResponse(serviceId, response) == ValueError
  {
    ParseEncode(Message(ReqAuth, serviceId, [], [], 0, 0));
    assert Header(ReqAuth, serviceId) + [] == Header(ReqAuth, serviceId);
    if |response| == RESPONSE_SIZE {
      ParseEncode(Message(Response, serviceId, [], response, 0, 0));
    }
  }

  /** A payload read as a request or a response is the one octet string its builder makes. */
  lemma BuildersCanonical(payload: seq<byte>)
    requires Parse(payload).Parsed?
    ensures var m := Parse(payload).message;
            && (m.kind.ReqAuth? ==> payload == BuildReqAuth(m.serviceId))
            && (m.kind.Response? ==> BuildResponse(m.serviceId, m.response) == Built(payload))
  {
    EncodeParse(payload);
    var m := Parse(payload).message;
    assert Header(m.kind, m.serviceId) + [] == Header(m.kind, m.serviceId);
  }

  /** Reading raises on exactly the payloads that start as a message does but for an unknown type. */
  lemma RaisedExactly(payload: seq<byte>)
    ensures Parse(payload).Raised? <==>
              && |payload| >= 2 + HEADER_SIZE && payload[..7] == Header(ReqAuth, 0)[..7] && payload[9] == 0
              && payload[7] !in {1, 2, 3, 4}
  {
    if |payload| >= 2 + HEADER_SIZE {
      var h := Header(ReqAuth, 0);
      U16Octets(payload, 0);
      U32Octets(payload, 2);
      assert payload[..7] == payload[0..2] + payload[2..6] + [payload[6]];
      assert h[..7] == U16Bytes(FW_PACKET_HAND) + U32Bytes(MAGIC) + [VERSION];
      if payload[..7] == h[..7] {
        assert payload[0..2] == h[..7][0..2] == U16Bytes(FW_PACKET_HAND);
        assert payload[2..6] == h[..7][2..6] == U32Bytes(MAGIC);
        assert payload[6] == h[..7][6];
      }
    }
  }
}
