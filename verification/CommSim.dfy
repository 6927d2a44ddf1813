/** The COMM node model: a bounded uplink queue, link switches and wrapping counters. */
module CommSim {
  import opened Octets

  const VERSION: nat := 1
  const UPLINK_POLL: nat := 30
  const DOWNLINK_WRITE: nat := 31
  const MAX_CHUNK_BYTES: nat := 192
  const FLAG_LINK_CONNECTED: nat := 1
  const WRAP: nat := 0x1_0000_0000

  datatype RequestHeader = RequestHeader(version: nat, service: nat, sequence: nat)

  datatype ResultCode = Ok | NoChunk | InvalidRequest | IoError

  datatype ChunkReply = ChunkReply(sequence: nat, result: ResultCode, flags: nat, data: seq<byte>)

  /** The fields of the model. */
  datatype State = State(
    capacity: nat, physicalLinkConnected: bool, forcedDisconnected: bool, downlinkBackpressure: bool,
    injectedIoError: bool, uplinkQueue: seq<byte>, rxChunks: nat, txChunks: nat, rxErrors: nat, txErrors: nat,
    uplinkDroppedChunks: nat, uplinkDroppedBytes: nat)

  datatype Event =
    | SetPhysicalLink(on: bool)
    | SetForcedDisconnected(on: bool)
    | SetBackpressure(on: bool)
    | SetInjectedIoError(on: bool)
    | Ingest(isNull: bool, bytes: seq<byte>)
    | RecordRxError
    | Poll(header: RequestHeader, maxBytes: nat)
    | BeginWrite(header: RequestHeader, byteCount: nat)
    | CompleteWrite(success: bool)

  datatype Reply = Done | Ingested(accepted: bool) | Chunk(reply: ChunkReply)
    | Write(reply: ChunkReply, shouldWrite: bool)

  predicate LinkAvailable(s: State) {
    s.physicalLinkConnected && !s.forcedDisconnected
  }

  function LinkFlags(s: State): nat {
    if LinkAvailable(s) then FLAG_LINK_CONNECTED else 0
  }

  function Bump(counter: nat, amount: nat): nat {
    (counter + amount) % WRAP
  }

  function Min(a: nat, b: nat): nat {
    if a < b then a else b
  }

  predicate ValidHeader(h: RequestHeader, service: nat) {
    h.version == VERSION && h.service == service
  }

  function AfterIngest(s: State, isNull: bool, bytes: seq<byte>): (State, bool) {
    if isNull || bytes == [] || !LinkAvailable(s) then
      (if bytes != [] then s.(rxErrors := Bump(s.rxErrors, 1)) else s, false)
    else if |bytes| > s.capacity - Min(s.capacity, |s.uplinkQueue|) then
      (s.(uplinkDroppedChunks := Bump(s.uplinkDroppedChunks, 1),
          uplinkDroppedBytes := Bump(s.uplinkDroppedBytes, Min(|bytes|, WRAP - 1)),
          rxErrors := Bump(s.rxErrors, 1)), false)
    else (s.(uplinkQueue := s.uplinkQueue + bytes, rxChunks := Bump(s.rxChunks, 1)), true)
  }

  function AfterPoll(s: State, h: RequestHeader, maxBytes: nat): (State, ChunkReply) {
    var blank := ChunkReply(h.sequence, Ok, LinkFlags(s), []);
    var available := Min(Min(maxBytes, MAX_CHUNK_BYTES), |s.uplinkQueue|);
    if !ValidHeader(h, UPLINK_POLL) then (s, blank.(result := InvalidRequest))
    else if available == 0 then (s, blank.(result := NoChunk))
    else (s.(uplinkQueue := s.uplinkQueue[available..]), blank.(data := s.uplinkQueue[..available]))
  }

  function AfterBeginWrite(s: State, h: RequestHeader, byteCount: nat): (State, ChunkReply, bool) {
    var blank := ChunkReply(h.sequence, Ok, LinkFlags(s), []);
    if !ValidHeader(h, DOWNLINK_WRITE) || byteCount == 0 || byteCount > MAX_CHUNK_BYTES
    then (s, blank.(result := InvalidRequest), false)
    else if !LinkAvailable(s) || s.downlinkBackpressure || s.injectedIoError
    then (s.(txErrors := Bump(s.txErrors, 1)), blank.(result := IoError), false)
    else (s, blank, true)
  }

  function Apply(s: State, e: Event): (State, Reply) {
    match e
    case SetPhysicalLink(on) => (s.(physicalLinkConnected := on), Done)
    case SetForcedDisconnected(on) => (s.(forcedDisconnected := on), Done)
    case SetBackpressure(on) => (s.(downlinkBackpressure := on), Done)
    case SetInjectedIoError(on) => (s.(injectedIoError := on), Done)
    case Ingest(isNull, bytes) => var (t, ok) := AfterIngest(s, isNull, bytes); (t, Ingested(ok))
    case RecordRxError => (s.(rxErrors := Bump(s.rxErrors, 1)), Done)
    case Poll(h, maxBytes) => var (t, r) := AfterPoll(s, h, maxBytes); (t, Chunk(r))
    case BeginWrite(h, n) => var (t, r, should) := AfterBeginWrite(s, h, n); (t, Write(r, should))
    case CompleteWrite(success) =>
      (if success then s.(txChunks := Bump(s.txChunks, 1)) else s.(txErrors := Bump(s.txErrors, 1)), Done)
  }

  class CommSimModel {
    const capacity: nat
    var physicalLinkConnected: bool
    var forcedDisconnected: bool
    var downlinkBackpressure: bool
    var injectedIoError: bool
    var uplinkQueue: seq<byte>
    var rxChunks: nat
    var txChunks: nat
    var rxErrors: nat
    var txErrors: nat
    var uplinkDroppedChunks: nat
    var uplinkDroppedBytes: nat

    /** All fields at once. */
    function View(): State
      reads this
    {
      State(capacity, physicalLinkConnected, forcedDisconnected, downlinkBackpressure, injectedIoError, uplinkQueue,
            rxChunks, txChunks, rxErrors, txErrors, uplinkDroppedChunks, uplinkDroppedBytes)
    }

    constructor (queueCapacity: nat)
      ensures View() == Initial(queueCapacity)
    {
      capacity := queueCapacity;
      physicalLinkConnected, forcedDisconnected, downlinkBackpressure, injectedIoError := false, false, false, false;
      uplinkQueue := [];
      rxChunks, txChunks, rxErrors, txErrors, uplinkDroppedChunks, uplinkDroppedBytes := 0, 0, 0, 0, 0, 0;
    }

    method IngestUplinkBytes(isNull: bool, data: seq<byte>) returns (accepted: bool)
      modifies this
      ensures (View(), accepted) == AfterIngest(old(View()), isNull, data)
    {
      if isNull || data == [] || !LinkAvailable(View()) {
        if data != [] {
          rxErrors := Bump(rxErrors, 1);
        }
        return false;
      }
      if |data| > capacity - Min(capacity, |uplinkQueue|) {
        uplinkDroppedChunks := Bump(uplinkDroppedChunks, 1);
        uplinkDroppedBytes := Bump(uplinkDroppedBytes, Min(|data|, WRAP - 1));
        rxErrors := Bump(rxErrors, 1);
        return false;
      }
      uplinkQueue := uplinkQueue + data;
      rxChunks := Bump(rxChunks, 1);
      return true;
    }

    method HandleUplinkPoll(header: RequestHeader, maxBytes: nat) returns (reply: ChunkReply)
      modifies this
      ensures (View(), reply) == AfterPoll(old(View()), header, maxBytes)
    {
      reply := ChunkReply(header.sequence, Ok, LinkFlags(View()), []);
      if !ValidHeader(header, UPLINK_POLL) {
        return reply.(result := InvalidRequest);
      }
      var available := Min(Min(maxBytes, MAX_CHUNK_BYTES), |uplinkQueue|);
      if available == 0 {
        return reply.(result := NoChunk);
      }
      ghost var queued := uplinkQueue;
      for index := 0 to available
        invariant View() == old(View()).(uplinkQueue := queued[index..])
        invariant reply == ChunkReply(header.sequence, Ok, LinkFlags(old(View())), queued[..index])
      {
        reply := reply.(data := reply.data + [uplinkQueue[0]]);
        uplinkQueue := uplinkQueue[1..];
      }
    }

    method BeginDownlinkWrite(header: RequestHeader, byteCount: nat) returns (reply: ChunkReply, shouldWrite: bool)
      modifies this
      ensures (View(), reply, shouldWrite) == AfterBeginWrite(old(View()), header, byteCount)
    {
      shouldWrite := false;
      reply := ChunkReply(header.sequence, Ok, LinkFlags(View()), []);
      if !ValidHeader(header, DOWNLINK_WRITE) || byteCount == 0 || byteCount > MAX_CHUNK_BYTES {
        reply := reply.(result := InvalidRequest);
        return;
      }
      if !LinkAvailable(View()) || downlinkBackpressure || injectedIoError {
        txErrors := Bump(txErrors, 1);
        reply := reply.(result := IoError);
        return;
      }
      shouldWrite := true;
    }

    method CompleteDownlinkWrite(success: bool)
      modifies this
      ensures View() == Apply(old(View()), CompleteWrite(success)).0
    {
      if success {
        txChunks := Bump(txChunks, 1);
      } else {
        txErrors := Bump(txErrors, 1);
      }
    }
  }

  function Initial(capacity: nat): State {
    State(capacity, false, false, false, false, [], 0, 0, 0, 0, 0, 0)
  }

  // ---- whole runs ----

  /** What an observer of the calls and their replies counts. */
  datatype Observed = Observed(
    accepted: seq<byte>, polled: seq<byte>, rxChunks: nat, rxErrors: nat, txChunks: nat, txErrors: nat)

  const NOTHING: Observed := Observed([], [], 0, 0, 0, 0)

  function Observe(o: Observed, e: Event, r: Reply): Observed {
    match e
    case Ingest(_, bytes) =>
      if r == Ingested(true) then o.(accepted := o.accepted + bytes, rxChunks := o.rxChunks + 1)
      else if bytes != [] then o.(rxErrors := o.rxErrors + 1) else o
    case RecordRxError => o.(rxErrors := o.rxErrors + 1)
    case Poll(_, _) => if r.Chunk? then o.(polled := o.polled + r.reply.data) else o
    case BeginWrite(_, _) => if r.Write? && r.reply.result.IoError? then o.(txErrors := o.txErrors + 1) else o
    case CompleteWrite(success) => if success then o.(txChunks := o.txChunks + 1) else o.(txErrors := o.txErrors + 1)
    case _ => o
  }

  function Run(s: State, o: Observed, es: seq<Event>): (State, Observed)
    decreases es
  {
    if es == [] then (s, o)
    else var (t, r) := Apply(s, es[0]); Run(t, Observe(o, es[0], r), es[1..])
  }

  /** A 32-bit counter that has been bumped n times. */
  predicate Counts(counter: nat, n: nat) {
    counter == n % WRAP
  }

  lemma BumpCounts(counter: nat, n: nat)
    requires Counts(counter, n)
    ensures Counts(Bump(counter, 1), n + 1)
  {
  }

  ghost predicate QueueInv(s: State, o: Observed) {
    o.accepted == o.polled + s.uplinkQueue && |s.uplinkQueue| <= s.capacity
  }

  ghost predicate CounterInv(s: State, o: Observed) {
    && Counts(s.rxChunks, o.rxChunks) && Counts(s.rxErrors, o.rxErrors)
    && Counts(s.txChunks, o.txChunks) && Counts(s.txErrors, o.txErrors)
  }

  ghost predicate Inv(s: State, o: Observed) {
    QueueInv(s, o) && CounterInv(s, o)
  }

  lemma IngestKeepsQueue(s: State, o: Observed, isNull: bool, bytes: seq<byte>)
    requires QueueInv(s, o)
    ensures var (t, ok) := AfterIngest(s, isNull, bytes);
            && t.capacity == s.capacity && |t.uplinkQueue| <= t.capacity
            && t.uplinkQueue == (if ok then s.uplinkQueue + bytes else s.uplinkQueue)
  {
  }

  lemma PollKeepsQueue(s: State, h: RequestHeader, maxBytes: nat)
    requires |s.uplinkQueue| <= s.capacity
    ensures var (t, r) := AfterPoll(s, h, maxBytes);
            && t.capacity == s.capacity && |t.uplinkQueue| <= t.capacity
            && s.uplinkQueue == r.data + t.uplinkQueue
  {
  }

  lemma StepKeepsQueue(s: State, o: Observed, e: Event)
    requires QueueInv(s, o)
    ensures var (t, r) := Apply(s, e); QueueInv(t, Observe(o, e, r)) && t.capacity == s.capacity
  {
    match e
    case Poll(h, maxBytes) =>
      PollKeepsQueue(s, h, maxBytes);
      var (t, r) := AfterPoll(s, h, maxBytes);
      assert o.polled + (r.data + t.uplinkQueue) == (o.polled + r.data) + t.uplinkQueue;
    case Ingest(isNull, bytes) =>
      IngestKeepsQueue(s, o, isNull, bytes);
      assert o.polled + (s.uplinkQueue + bytes) == (o.polled + s.uplinkQueue) + bytes;
    case _ =>
  }

  lemma StepKeepsCounters(s: State, o: Observed, e: Event)
    requires CounterInv(s, o)
    ensures var (t, r) := Apply(s, e); CounterInv(t, Observe(o, e, r))
  {
    BumpCounts(s.rxChunks, o.rxChunks);
    BumpCounts(s.rxErrors, o.rxErrors);
    BumpCounts(s.txChunks, o.txChunks);
    BumpCounts(s.txErrors, o.txErrors);
  }

  /** Over every run without reset the accepted octets are the polled ones followed by the queue:
    * nothing is lost, repeated or reordered, whatever the link does; the queue stays within its
    * capacity; and the four counters are the observed counts modulo 2^32. */
  lemma {:induction false} RunKeepsInv(s: State, o: Observed, es: seq<Event>)
    requires Inv(s, o)
    ensures var (t, p) := Run(s, o, es); Inv(t, p) && t.capacity == s.capacity
    decreases es
  {
    if es != [] {
      StepKeepsQueue(s, o, es[0]);
      StepKeepsCounters(s, o, es[0]);
      var (t, r) := Apply(s, es[0]);
      RunKeepsInv(t, Observe(o, es[0], r), es[1..]);
    }
  }

  lemma EveryRun(capacity: nat, es: seq<Event>)
    ensures var (t, p) := Run(Initial(capacity), NOTHING, es); Inv(t, p) && t.capacity == capacity
  {
    RunKeepsInv(Initial(capacity), NOTHING, es);
  }
}
