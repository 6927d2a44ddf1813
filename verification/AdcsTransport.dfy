/** The ADCS request/reply client: 16-bit sequence numbers that skip zero, and the checks that keep a
  * late reply from being taken for the current one. */
module AdcsTransport {
  const VERSION: nat := 1
  const PERIOD: nat := 65535

  datatype RuntimeStatus = RuntimeOk | InvalidArgument | RuntimeTimeout | RuntimeExecutionError
  datatype TransportStatus = Ok | Timeout | InvalidResponse | InvalidRequest | RemoteError | TransportError

  datatype Request = Request(version: nat, service: nat, sequence: nat)
  datatype Reply<S> = Reply(version: nat, service: nat, sequence: nat, result: nat, state: S)

  /** What the runtime hands back: no buffer, one of another size, or a reply. */
  datatype Received<S> = NoBuffer | OtherSize | Received(reply: Reply<S>)

  /** The runtime as one call finds it. */
  datatype Runtime<S> = Runtime(initialized: bool, initSucceeds: bool, status: RuntimeStatus, received: Received<S>)

  function MapStatus(s: RuntimeStatus): TransportStatus {
    match s
    case RuntimeOk => Ok
    case InvalidArgument => InvalidRequest
    case RuntimeTimeout => Timeout
    case RuntimeExecutionError => TransportError
  }

  /** The out-parameter is written on OK only. */
  function Decode<S(!new)>(request: Request, service: nat, received: Received<S>, out: S): (TransportStatus, S) {
    if !received.Received? then (InvalidResponse, out)
    else
      var r := received.reply;
      if r.version != VERSION || r.service != service || r.sequence != request.sequence then (InvalidResponse, out)
      else if r.result == 0 then (Ok, r.state)
      else if r.result == 1 then (InvalidRequest, out)
      else if r.result == 2 then (Timeout, out)
      else (RemoteError, out)
  }

  /** The sequence number of the n-th request of a client. */
  function SequenceOf(n: nat): (r: nat)
    ensures 1 <= r <= PERIOD
  {
    n % PERIOD + 1
  }

  class CspAdcsTransport<S(!new)> {
    var sequence: nat
    var runtimeReady: bool
    /** How many requests have drawn a number. */
    ghost var drawn: nat

    ghost predicate Valid()
      reads this
    {
      sequence == SequenceOf(drawn)
    }

    constructor ()
      ensures Valid() && drawn == 0 && !runtimeReady
    {
      sequence, runtimeReady, drawn := 1, false, 0;
    }

    method NextSequence() returns (current: nat)
      requires Valid()
      modifies this`sequence, this`drawn
      ensures Valid() && drawn == old(drawn) + 1 && current == SequenceOf(old(drawn))
    {
      current := sequence;
      sequence := (sequence + 1) % 0x10000;
      if sequence == 0 {
        sequence := 1;
      }
      drawn := drawn + 1;
    }

    method EnsureRuntime(runtime: Runtime<S>) returns (ready: bool)
      modifies this`runtimeReady
      ensures ready == runtimeReady == (old(runtimeReady) || runtime.initialized || runtime.initSucceeds)
    {
      if runtimeReady {
        return true;
      }
      if runtime.initialized {
        runtimeReady := true;
        return true;
      }
      runtimeReady := runtime.initSucceeds;
      return runtimeReady;
    }

    /** Any of the five calls: a number is drawn first, whatever becomes of the request. */
    method Call(service: nat, runtime: Runtime<S>, out: S)
      returns (status: TransportStatus, newOut: S, ghost request: Request)
      requires Valid()
      modifies this
      ensures Valid() && drawn == old(drawn) + 1
      ensures request == Request(VERSION, service, SequenceOf(old(drawn)))
      ensures runtimeReady == (old(runtimeReady) || runtime.initialized || runtime.initSucceeds)
      ensures (status, newOut) == Outcome(runtimeReady, request, service, runtime, out)
      ensures newOut != out ==> status == Ok && runtime.received.Received? && newOut == runtime.received.reply.state
    {
      var number := NextSequence();
      request := Request(VERSION, service, number);
      newOut := out;
      var ready := EnsureRuntime(runtime);
      if !ready {
        return TransportError, out, request;
      }
      if !runtime.status.RuntimeOk? {
        return MapStatus(runtime.status), out, request;
      }
      match runtime.received {
        case NoBuffer => return InvalidResponse, out, request;
        case OtherSize => return InvalidResponse, out, request;
        case Received(r) =>
          if r.version != VERSION || r.service != service || r.sequence != number {
            return InvalidResponse, out, request;
          }
          if r.result == 0 {
            return Ok, r.state, request;
          }
          if r.result == 1 {
            return InvalidRequest, out, request;
          }
          if r.result == 2 {
            return Timeout, out, request;
          }
          return RemoteError, out, request;
      }
    }
  }

  /** Two requests share a sequence number exactly when they are a whole number of periods apart. */
  lemma SequencesRepeat(i: nat, j: nat)
    ensures SequenceOf(i) == SequenceOf(j) <==> i % PERIOD == j % PERIOD
    ensures i != j && -(PERIOD as int) < i - j < PERIOD ==> SequenceOf(i) != SequenceOf(j)
  {
  }

  /** A late reply to another of the client's requests is read as an answer to request i exactly when it
    * names the same service and the two requests are a whole number of periods apart; inside one
    * period it is refused and writes nothing. */
  lemma LateReply<S(!new)>(i: nat, j: nat, service: nat, lateService: nat, late: Reply<S>, out: S)
    requires late.version == VERSION && late.service == lateService && late.sequence == SequenceOf(j)
    ensures var request := Request(VERSION, service, SequenceOf(i));
            && (Decode(request, service, Received(late), out).0 != InvalidResponse
                <==> lateService == service && i % PERIOD == j % PERIOD)
            && (i != j && -(PERIOD as int) < i - j < PERIOD ==>
                  Decode(request, service, Received(late), out) == (InvalidResponse, out))
  {
    SequencesRepeat(i, j);
  }

  /** How a call ends, given what the runtime hands back. */
  function Outcome<S(!new)>(ready: bool, request: Request, service: nat, runtime: Runtime<S>, out: S)
    : (TransportStatus, S)
  {
    if !ready then (TransportError, out)
    else if !runtime.status.RuntimeOk? then (MapStatus(runtime.status), out)
    else Decode(request, service, runtime.received, out)
  }

  /** A reply that answers the request: the right size, version, service and number. */
  predicate Answers<S(!new)>(request: Request, service: nat, runtime: Runtime<S>) {
    && runtime.status.RuntimeOk? && runtime.received.Received?
    && var r := runtime.received.reply; r.version == 1 && r.service == service && r.sequence == request.sequence
  }

  /** Each status has its one cause, and the state is taken on OK only. */
  lemma OutcomeExact<S(!new)>(ready: bool, request: Request, service: nat, runtime: Runtime<S>, out: S)
    ensures var (status, state) := Outcome(ready, request, service, runtime, out);
            var answered := ready && Answers(request, service, runtime);
            && (status == Ok <==> answered && runtime.received.reply.result == 0)
            && state == (if status == Ok then runtime.received.reply.state else out)
            && (status == TransportError <==> !ready || runtime.status.RuntimeExecutionError?)
            && (status == InvalidRequest <==>
                  ready && (runtime.status.InvalidArgument? || (answered && runtime.received.reply.result == 1)))
            && (status == Timeout <==>
                  ready && (runtime.status.RuntimeTimeout? || (answered && runtime.received.reply.result == 2)))
            && (status == RemoteError <==> answered && runtime.received.reply.result > 2)
            && (status == InvalidResponse <==> ready && runtime.status.RuntimeOk? && !answered)
  {
  }
}
