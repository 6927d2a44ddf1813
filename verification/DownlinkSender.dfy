/** The downlink sender: a file cut into chunks, each retried a few times, and a verdict drawn from
  * 32-bit counters of the far node that may wrap while it watches them. */
module DownlinkSender {
  import opened Octets

  const RETRY_LIMIT: nat := 5
  const WRAP: int := 0x1_0000_0000

  datatype SendStatus = SendOk | SendRetry | SendError

  /** What the far node has really counted; the sender is told each number modulo 2^32. */
  datatype Counters = Counters(accepted: nat, flushed: nat, dropped: nat)

  datatype Stats = Stats(txAcceptedBytes: nat, txFlushedBytes: nat, txDroppedBytes: nat)

  function Reported(c: Counters): Stats {
    Stats(c.accepted % WRAP, c.flushed % WRAP, c.dropped % WRAP)
  }

  /** Unsigned 32-bit subtraction. */
  function CounterDelta(current: nat, initial: nat): (d: nat)
    ensures d < WRAP
  {
    (current - initial) % WRAP
  }

  // ---- sending ----

  /** The answers of the backend, call by call. */
  type SendScript = nat -> SendStatus

  datatype Tried = Tried(status: SendStatus, calls: nat)

  /** One chunk: send until accepted, refused, or out of attempts. */
  function TryChunk(send: SendScript, call: nat, attempt: nat): (t: Tried)
    requires attempt < RETRY_LIMIT
    ensures 1 <= t.calls <= RETRY_LIMIT - attempt
    decreases RETRY_LIMIT - attempt
  {
    if send(call).SendOk? || send(call).SendError? || attempt + 1 >= RETRY_LIMIT then Tried(send(call), 1)
    else var rest := TryChunk(send, call + 1, attempt + 1); rest.(calls := rest.calls + 1)
  }

  /** The chunks acknowledged and the attempts each took; exit is 0, or the code of the failure. */
  datatype Log = Log(exit: nat, acked: seq<seq<byte>>, tries: seq<nat>)

  function ChunkSize(total: nat, offset: nat, chunk: nat): (n: nat)
    requires offset <= total
    ensures n <= total - offset && (chunk > 0 && offset < total ==> n > 0)
  {
    if chunk < total - offset then chunk else total - offset
  }

  function SendAll(bytes: seq<byte>, chunk: nat, send: SendScript, offset: nat, call: nat): Log
    requires chunk > 0 && offset <= |bytes|
    decreases |bytes| - offset
  {
    if offset == |bytes| then Log(0, [], [])
    else
      var n := ChunkSize(|bytes|, offset, chunk);
      var t := TryChunk(send, call, 0);
      match t.status
      case SendOk =>
        var rest := SendAll(bytes, chunk, send, offset + n, call + t.calls);
        LogFront(bytes[offset..offset + n], t.calls, rest)
      case SendRetry => Log(6, [], [])
      case SendError => Log(7, [], [])
  }

  /** One turn of the chunk loop. */
  lemma SendAllStep(bytes: seq<byte>, chunk: nat, send: SendScript, offset: nat, call: nat)
    requires chunk > 0 && offset < |bytes|
    ensures var n := ChunkSize(|bytes|, offset, chunk); var t := TryChunk(send, call, 0);
            SendAll(bytes, chunk, send, offset, call)
            == if t.status.SendOk?
               then LogFront(bytes[offset..offset + n], t.calls,
                             SendAll(bytes, chunk, send, offset + n, call + t.calls))
               else Log(if t.status.SendRetry? then 6 else 7, [], [])
  {
    hide TryChunk;
  }

  function LogFront(piece: seq<byte>, calls: nat, rest: Log): Log {
    Log(rest.exit, [piece] + rest.acked, [calls] + rest.tries)
  }

  function Concat(chunks: seq<seq<byte>>): seq<byte> {
    if chunks == [] then [] else chunks[0] + Concat(chunks[1..])
  }

  /** Acknowledged chunks are the file from its start, each within the retry limit; all of it exactly
    * when the exit is 0. */
  lemma {:induction false} AckedIsPrefix(bytes: seq<byte>, chunk: nat, send: SendScript, offset: nat, call: nat)
    requires chunk > 0 && offset <= |bytes|
    ensures var log := SendAll(bytes, chunk, send, offset, call);
            && |log.tries| == |log.acked| && (forall i :: 0 <= i < |log.tries| ==> 1 <= log.tries[i] <= RETRY_LIMIT)
            && (forall i :: 0 <= i < |log.acked| ==> 1 <= |log.acked[i]| <= chunk)
            && Concat(log.acked) <= bytes[offset..]
            && (log.exit == 0 <==> Concat(log.acked) == bytes[offset..])
            && (log.exit == 0 || log.exit == 6 || log.exit == 7)
    decreases |bytes| - offset
  {
    if offset < |bytes| {
      var n := ChunkSize(|bytes|, offset, chunk);
      var t := TryChunk(send, call, 0);
      assert bytes[offset..] == bytes[offset..offset + n] + bytes[offset + n..];
      if t.status.SendOk? {
        AckedIsPrefix(bytes, chunk, send, offset + n, call + t.calls);
      }
    }
  }

  // ---- the log, read off the answers alone ----

  /** The file cut into chunks: all full but the last, none empty. */
  function Pieces(bytes: seq<byte>, chunk: nat): seq<seq<byte>>
    requires chunk > 0
  {
    if bytes == [] then [] else if |bytes| <= chunk then [bytes] else [bytes[..chunk]] + Pieces(bytes[chunk..], chunk)
  }

  /** Of the calls from `first` on, the first n - 1 answered RETRY and the n-th OK, n being at most five. */
  ghost predicate Acknowledged(send: SendScript, first: nat, n: nat) {
    && 1 <= n <= 5 && send(first + n - 1).SendOk?
    && forall k :: first <= k < first + n - 1 ==> send(k).SendRetry?
  }

  /** All five calls from `first` on answered RETRY. */
  ghost predicate Exhausted(send: SendScript, first: nat) {
    forall k :: first <= k < first + 5 ==> send(k).SendRetry?
  }

  /** One of the five calls from `first` on answered ERROR, and those before it RETRY. */
  ghost predicate Refused(send: SendScript, first: nat) {
    exists k :: first <= k < first + 5 && send(k).SendError?
                && forall j :: first <= j < k ==> send(j).SendRetry?
  }

  /** A log that the answers from call `call` on justify: the acknowledged chunks are the first pieces, each
    * after its own retries; the exit is 0 when no piece is left, 6 when the next one used up its attempts,
    * 7 when it was refused. */
  ghost predicate Justified(pieces: seq<seq<byte>>, send: SendScript, call: nat, log: Log) {
    && |log.tries| == |log.acked| <= |pieces| && log.acked == pieces[..|log.acked|]
    && Chain(send, call, log.tries) && Ends(|pieces| - |log.acked|, send, call + Total(log.tries), log.exit)
  }

  /** The i-th chunk's calls follow those of the chunks before it. */
  ghost predicate ChunkSent(send: SendScript, call: nat, tries: seq<nat>, i: nat)
    requires i < |tries|
  {
    Acknowledged(send, call + Total(tries[..i]), tries[i])
  }

  ghost predicate Chain(send: SendScript, call: nat, tries: seq<nat>) {
    forall i: nat :: i < |tries| ==> ChunkSent(send, call, tries, i)
  }

  /** How it ends with so many pieces left, the next call being `next`. */
  ghost predicate Ends(left: nat, send: SendScript, next: nat, exit: nat) {
    && (exit == 0 <==> left == 0) && (exit == 6 <==> left > 0 && Exhausted(send, next))
    && (exit == 7 <==> left > 0 && Refused(send, next)) && exit in {0, 6, 7}
  }

  lemma {:induction false} TryChunkMeans(send: SendScript, call: nat, attempt: nat)
    requires attempt < RETRY_LIMIT
    ensures var t := TryChunk(send, call, attempt);
            && t.status == send(call + t.calls - 1)
            && (forall k :: call <= k < call + t.calls - 1 ==> send(k).SendRetry?)
            && (t.status.SendRetry? ==> t.calls == RETRY_LIMIT - attempt)
    decreases RETRY_LIMIT - attempt
  {
    if send(call).SendRetry? && attempt + 1 < RETRY_LIMIT {
      TryChunkMeans(send, call + 1, attempt + 1);
    }
  }

  /** The three outcomes of a chunk exclude one another, and only one number of calls is justified. */
  lemma OutcomesExclude(send: SendScript, first: nat, n: nat)
    requires Acknowledged(send, first, n)
    ensures !Exhausted(send, first) && !Refused(send, first)
    ensures forall m: nat :: Acknowledged(send, first, m) ==> m == n
  {
    forall m: nat | Acknowledged(send, first, m) ensures m == n {
      assert send(first + m - 1).SendOk? && send(first + n - 1).SendOk?;
    }
    assert send(first + n - 1).SendOk?;
  }

  lemma TryChunkOutcome(send: SendScript, call: nat)
    ensures var t := TryChunk(send, call, 0);
            match t.status
            case SendOk => Acknowledged(send, call, t.calls)
            case SendRetry => Exhausted(send, call) && !Refused(send, call)
            case SendError => Refused(send, call) && !Exhausted(send, call)
  {
    TryChunkMeans(send, call, 0);
    var t := TryChunk(send, call, 0);
    if t.status.SendError? {
      assert send(call + t.calls - 1).SendError?;
    }
  }

  lemma {:induction false} TotalFront(n: nat, tries: seq<nat>)
    ensures Total([n] + tries) == n + Total(tries)
    decreases |tries|
  {
    if tries == [] {
      assert ([n] + tries)[..0] == [];
    } else {
      TotalFront(n, tries[..|tries| - 1]);
      assert ([n] + tries)[..|tries|] == [n] + tries[..|tries| - 1];
    }
  }

  lemma ChunkShift(send: SendScript, call: nat, n: nat, tries: seq<nat>, i: nat)
    requires i < |tries|
    ensures ChunkSent(send, call, [n] + tries, i + 1) <==> ChunkSent(send, call + n, tries, i)
  {
    hide Acknowledged, Total;
    TotalFront(n, tries[..i]);
    assert ([n] + tries)[..i + 1] == [n] + tries[..i];
  }

  lemma ChunkFirst(send: SendScript, call: nat, n: nat, tries: seq<nat>)
    ensures ChunkSent(send, call, [n] + tries, 0) <==> Acknowledged(send, call, n)
  {
    hide Acknowledged;
  }

  lemma ChainFront(send: SendScript, call: nat, n: nat, tries: seq<nat>)
    ensures Chain(send, call, [n] + tries) <==> Acknowledged(send, call, n) && Chain(send, call + n, tries)
  {
    hide Acknowledged, ChunkSent;
    var all := [n] + tries;
    ChunkFirst(send, call, n, tries);
    if Chain(send, call, all) {
      var next := call + n;
      forall i: nat | i < |tries| ensures ChunkSent(send, next, tries, i) {
        ChunkShift(send, call, n, tries, i);
      }
    } else if Acknowledged(send, call, n) {
      var i: nat :| i < |all| && !ChunkSent(send, call, all, i);
      ChunkShift(send, call, n, tries, i - 1);
    }
  }

  lemma NothingSent(pieces: seq<seq<byte>>, send: SendScript, call: nat, exit: nat)
    requires Ends(|pieces|, send, call, exit)
    ensures Justified(pieces, send, call, Log(exit, [], []))
  {
    hide Ends;
  }

  /** A piece that is not acknowledged ends the log. */
  lemma StopsHere(pieces: seq<seq<byte>>, send: SendScript, call: nat)
    requires pieces != [] && !TryChunk(send, call, 0).status.SendOk?
    ensures Justified(pieces, send, call, Log(if TryChunk(send, call, 0).status.SendRetry? then 6 else 7, [], []))
  {
    hide TryChunk, Exhausted, Refused, Justified;
    TryChunkOutcome(send, call);
    NothingSent(pieces, send, call, if TryChunk(send, call, 0).status.SendRetry? then 6 else 7);
  }

  lemma NoneLeft(send: SendScript, call: nat)
    ensures Justified([], send, call, Log(0, [], []))
  {
    hide Exhausted, Refused, Justified;
    NothingSent([], send, call, 0);
  }

  /** A justified log is one more acknowledged piece in front of a justified log. */
  lemma JustifiedFront(piece: seq<byte>, pieces: seq<seq<byte>>, send: SendScript, call: nat, n: nat, rest: Log)
    ensures Justified([piece] + pieces, send, call, LogFront(piece, n, rest))
            <==> Acknowledged(send, call, n) && Justified(pieces, send, call + n, rest)
  {
    hide Acknowledged, Chain, Ends, Total;
    ChainFront(send, call, n, rest.tries);
    TotalFront(n, rest.tries);
    if |rest.acked| <= |pieces| {
      SamePrefix(piece, pieces, rest.acked);
    }
  }

  lemma SamePrefix(piece: seq<byte>, pieces: seq<seq<byte>>, acked: seq<seq<byte>>)
    requires |acked| <= |pieces|
    ensures [piece] + acked == ([piece] + pieces)[..1 + |acked|] <==> acked == pieces[..|acked|]
  {
    assert ([piece] + pieces)[..1 + |acked|] == [piece] + pieces[..|acked|];
    assert ([piece] + acked)[1..] == acked && ([piece] + pieces[..|acked|])[1..] == pieces[..|acked|];
  }

  lemma PiecesFrom(bytes: seq<byte>, chunk: nat, offset: nat)
    requires chunk > 0 && offset < |bytes|
    ensures var n := ChunkSize(|bytes|, offset, chunk);
            Pieces(bytes[offset..], chunk) == [bytes[offset..offset + n]] + Pieces(bytes[offset + n..], chunk)
  {
    var n := ChunkSize(|bytes|, offset, chunk);
    var tail := bytes[offset..];
    assert tail[..n] == bytes[offset..offset + n] && tail[n..] == bytes[offset + n..];
    if |tail| <= chunk {
      assert tail == bytes[offset..offset + n];
    }
  }

  lemma PiecesEnd(bytes: seq<byte>, chunk: nat)
    requires chunk > 0
    ensures Pieces(bytes[|bytes|..], chunk) == []
  {
  }

  /** What the loops log is what the answers justify ... */
  lemma {:induction false} SendAllJustified(bytes: seq<byte>, chunk: nat, send: SendScript, offset: nat, call: nat)
    requires chunk > 0 && offset <= |bytes|
    ensures Justified(Pieces(bytes[offset..], chunk), send, call, SendAll(bytes, chunk, send, offset, call))
    decreases |bytes| - offset
  {
    hide *;
    if offset < |bytes| {
      SendAllStep(bytes, chunk, send, offset, call);
      PiecesFrom(bytes, chunk, offset);
      var n := ChunkSize(|bytes|, offset, chunk);
      var t := TryChunk(send, call, 0);
      if t.status.SendOk? {
        TryChunkOutcome(send, call);
        SendAllJustified(bytes, chunk, send, offset + n, call + t.calls);
        JustifiedFront(bytes[offset..offset + n], Pieces(bytes[offset + n..], chunk), send, call, t.calls,
                       SendAll(bytes, chunk, send, offset + n, call + t.calls));
      } else {
        StopsHere(Pieces(bytes[offset..], chunk), send, call);
      }
    } else {
      PiecesEnd(bytes, chunk);
      SendAllEnd(bytes, chunk, send, call);
      NoneLeft(send, call);
    }
  }

  /** ... and the answers justify only one log. */
  lemma {:induction false} JustifiedOnce(pieces: seq<seq<byte>>, send: SendScript, call: nat, a: Log, b: Log)
    requires Justified(pieces, send, call, a) && Justified(pieces, send, call, b)
    ensures a == b
    decreases |pieces|
  {
    hide Chain, Ends, Acknowledged;
    if |a.acked| > 0 {
      JustifiedFirst(pieces, send, call, a);
      OutcomesExclude(send, call, a.tries[0]);
      NotEmptyToo(pieces, send, call, b);
      JustifiedFirst(pieces, send, call, b);
      JustifiedOnce(pieces[1..], send, call + a.tries[0], Rest(a), Rest(b));
      assert a.tries == [a.tries[0]] + Rest(a).tries && b.tries == [b.tries[0]] + Rest(b).tries;
    } else if |b.acked| > 0 {
      JustifiedFirst(pieces, send, call, b);
      OutcomesExclude(send, call, b.tries[0]);
      NotEmptyToo(pieces, send, call, a);
    } else {
      assert a.tries == b.tries == [];
      SameEnd(|pieces|, send, call, a.exit, b.exit);
    }
  }

  lemma SameEnd(left: nat, send: SendScript, next: nat, a: nat, b: nat)
    requires Ends(left, send, next, a) && Ends(left, send, next, b)
    ensures a == b
  {
    hide Exhausted, Refused;
  }

  /** Where the next piece is acknowledged, no justified log stops. */
  lemma NotEmptyToo(pieces: seq<seq<byte>>, send: SendScript, call: nat, log: Log)
    requires pieces != [] && !Exhausted(send, call) && !Refused(send, call) && Justified(pieces, send, call, log)
    ensures log.acked != []
  {
    hide Exhausted, Refused, Chain;
    assert log.acked == [] ==> log.tries == [];
  }

  function Rest(log: Log): Log
    requires log.acked != [] && log.tries != []
  {
    Log(log.exit, log.acked[1..], log.tries[1..])
  }

  lemma JustifiedFirst(pieces: seq<seq<byte>>, send: SendScript, call: nat, log: Log)
    requires Justified(pieces, send, call, log) && log.acked != []
    ensures |log.tries| == |log.acked| && pieces != [] && log.acked == [pieces[0]] + log.acked[1..]
    ensures Acknowledged(send, call, log.tries[0]) && Justified(pieces[1..], send, call + log.tries[0], Rest(log))
  {
    hide Acknowledged, Chain, Ends;
    assert log.acked == [pieces[0]] + log.acked[1..] && log.tries == [log.tries[0]] + log.tries[1..];
    assert pieces == [pieces[0]] + pieces[1..];
    JustifiedFront(pieces[0], pieces[1..], send, call, log.tries[0], Rest(log));
  }

  /** The pieces are the file: together it, each full but the last, none empty. */
  lemma {:induction false} PiecesAreFile(bytes: seq<byte>, chunk: nat)
    requires chunk > 0
    ensures var ps := Pieces(bytes, chunk);
            && Concat(ps) == bytes && (forall i :: 0 <= i < |ps| ==> 0 < |ps[i]| <= chunk)
            && forall i :: 0 <= i < |ps| - 1 ==> |ps[i]| == chunk
    decreases |bytes|
  {
    if |bytes| > chunk {
      PiecesAreFile(bytes[chunk..], chunk);
      assert bytes == bytes[..chunk] + bytes[chunk..];
    } else if bytes != [] {
      assert [bytes][1..] == [];
    }
  }

  // ---- the verdict ----

  /** The checks after the flush wait, on the first and the last statistics read. */
  function Verdict(size: nat, initial: Stats, last: Stats): nat {
    var backlog := CounterDelta(initial.txAcceptedBytes, initial.txFlushedBytes);
    if CounterDelta(last.txAcceptedBytes, initial.txAcceptedBytes) < size then 8
    else if CounterDelta(last.txFlushedBytes, initial.txFlushedBytes) < backlog + size then 10
    else if CounterDelta(last.txDroppedBytes, initial.txDroppedBytes) != 0 then 11
    else 0
  }

  /** The counters only grow, and what is accepted but not yet flushed fits 32 bits. */
  predicate Watched(initial: Counters, last: Counters) {
    && initial.accepted <= last.accepted && initial.flushed <= last.flushed && initial.dropped <= last.dropped
    && initial.flushed <= initial.accepted < initial.flushed + WRAP
  }

  lemma DeltaOfReports(a: nat, b: nat)
    ensures CounterDelta(a % WRAP, b % WRAP) == (a - b) % WRAP
  {
  }

  lemma RemainderAtMost(n: nat)
    ensures n % WRAP <= n
    ensures n < WRAP ==> n % WRAP == n
  {
  }

  /** The verdict in terms of what was really counted. */
  lemma VerdictMeaning(size: nat, initial: Counters, last: Counters)
    requires Watched(initial, last)
    ensures Verdict(size, Reported(initial), Reported(last)) == 0 <==>
              && (last.accepted - initial.accepted) % WRAP >= size
              && (last.flushed - initial.flushed) % WRAP >= initial.accepted - initial.flushed + size
              && (last.dropped - initial.dropped) % WRAP == 0
  {
    DeltaOfReports(initial.accepted, initial.flushed);
    DeltaOfReports(last.accepted, initial.accepted);
    DeltaOfReports(last.flushed, initial.flushed);
    DeltaOfReports(last.dropped, initial.dropped);
    RemainderAtMost(initial.accepted - initial.flushed);
  }

  /** A good verdict is sound despite wrap-around: at least the backlog and the whole file were really
    * accepted and flushed. */
  lemma VerdictSound(size: nat, initial: Counters, last: Counters)
    requires Watched(initial, last) && Verdict(size, Reported(initial), Reported(last)) == 0
    ensures last.accepted - initial.accepted >= size
    ensures last.flushed - initial.flushed >= initial.accepted - initial.flushed + size
    ensures initial.accepted - initial.flushed + size < WRAP
  {
    VerdictMeaning(size, initial, last);
    RemainderAtMost(last.accepted - initial.accepted);
    RemainderAtMost(last.flushed - initial.flushed);
  }

  /** While no counter moves by 2^32 or more, the verdict is good exactly when the file was accepted,
    * the backlog and the file were flushed and nothing was dropped. */
  lemma VerdictExact(size: nat, initial: Counters, last: Counters)
    requires Watched(initial, last)
    requires last.accepted - initial.accepted < WRAP && last.flushed - initial.flushed < WRAP
    requires last.dropped - initial.dropped < WRAP
    ensures Verdict(size, Reported(initial), Reported(last)) == 0 <==>
              && last.accepted - initial.accepted >= size
              && last.flushed - initial.flushed >= initial.accepted - initial.flushed + size
              && last.dropped == initial.dropped
  {
    VerdictMeaning(size, initial, last);
    RemainderAtMost(last.accepted - initial.accepted);
    RemainderAtMost(last.flushed - initial.flushed);
    RemainderAtMost(last.dropped - initial.dropped);
  }

  /** And then the code says which of the three failed first. */
  lemma VerdictCodes(size: nat, initial: Counters, last: Counters)
    requires Watched(initial, last)
    requires last.accepted - initial.accepted < WRAP && last.flushed - initial.flushed < WRAP
    requires last.dropped - initial.dropped < WRAP
    ensures var code := Verdict(size, Reported(initial), Reported(last));
            var accepted, flushed := last.accepted - initial.accepted, last.flushed - initial.flushed;
            var required := initial.accepted - initial.flushed + size;
            && (code == 8 <==> accepted < size) && (code == 10 <==> accepted >= size && flushed < required)
            && (code == 11 <==> accepted >= size && flushed >= required && last.dropped > initial.dropped)
            && code in {0, 8, 10, 11}
  {
    DeltaOfReports(initial.accepted, initial.flushed);
    DeltaOfReports(last.accepted, initial.accepted);
    DeltaOfReports(last.flushed, initial.flushed);
    DeltaOfReports(last.dropped, initial.dropped);
    RemainderAtMost(initial.accepted - initial.flushed);
    RemainderAtMost(last.accepted - initial.accepted);
    RemainderAtMost(last.flushed - initial.flushed);
    RemainderAtMost(last.dropped - initial.dropped);
  }

  /** Dropping exactly 2^32 octets goes unseen. */
  lemma DropsCanWrap()
    ensures var initial, last := Counters(0, 0, 0), Counters(1, 1, WRAP);
            Watched(initial, last) && Verdict(1, Reported(initial), Reported(last)) == 0
              && last.dropped != initial.dropped
  {
  }

  // ---- the program ----

  /** The chunk and retry loops; `calls` counts the sends, after each of which the statistics are read. */
  method SendFile(bytes: seq<byte>, chunk: nat, send: SendScript)
    returns (log: Log, ackedConfirmedBytes: nat, calls: nat)
    requires chunk > 0
    ensures log == SendAll(bytes, chunk, send, 0, 0) && Justified(Pieces(bytes, chunk), send, 0, log)
    ensures log.exit == 0 ==> ackedConfirmedBytes == |bytes| && calls == Total(log.tries)
  {
    hide TryChunk, Justified, SendAll, Total, Pieces, ChunkSize, Underway;
    JustifiedFromStart(bytes, chunk, send);
    var offset, call := 0, 0;
    var acked, tries := [], [];
    ackedConfirmedBytes, calls := 0, 0;
    Started(bytes, chunk, send);
    while offset < |bytes|
      invariant offset <= |bytes| && ackedConfirmedBytes == offset
      invariant Underway(bytes, chunk, send, offset, call, acked, tries)
      decreases |bytes| - offset
    {
      var chunkBytes := ChunkSize(|bytes|, offset, chunk);
      var status, tried := SendChunk(send, call);
      if !status.SendOk? {
        log := Log(if status.SendRetry? then 6 else 7, acked, tries);
        Stopped(bytes, chunk, send, offset, call, acked, tries);
        return;
      }
      OneMore(bytes, chunk, send, offset, call, acked, tries);
      acked, tries := acked + [bytes[offset..offset + chunkBytes]], tries + [tried];
      ackedConfirmedBytes := ackedConfirmedBytes + chunkBytes;
      offset, call := offset + chunkBytes, call + tried;
    }
    Finished(bytes, chunk, send, call, acked, tries);
    log, calls := Log(0, acked, tries), call;
  }

  /** What is logged so far, put before what the rest will log, is what the whole file logs. */
  ghost predicate Underway(bytes: seq<byte>, chunk: nat, send: SendScript, offset: nat, call: nat,
                           acked: seq<seq<byte>>, tries: seq<nat>)
    requires chunk > 0 && offset <= |bytes|
  {
    && call == Total(tries)
    && Prepended(acked, tries, SendAll(bytes, chunk, send, offset, call)) == SendAll(bytes, chunk, send, 0, 0)
  }

  lemma Started(bytes: seq<byte>, chunk: nat, send: SendScript)
    requires chunk > 0
    ensures Underway(bytes, chunk, send, 0, 0, [], [])
  {
    hide SendAll;
    PrependNothing(SendAll(bytes, chunk, send, 0, 0));
  }

  lemma OneMore(bytes: seq<byte>, chunk: nat, send: SendScript, offset: nat, call: nat,
                acked: seq<seq<byte>>, tries: seq<nat>)
    requires chunk > 0 && offset < |bytes| && Underway(bytes, chunk, send, offset, call, acked, tries)
    requires TryChunk(send, call, 0).status.SendOk?
    ensures var n := ChunkSize(|bytes|, offset, chunk); var tried := TryChunk(send, call, 0).calls;
            Underway(bytes, chunk, send, offset + n, call + tried, acked + [bytes[offset..offset + n]], tries + [tried])
  {
    hide SendAll, TryChunk, ChunkSize, Total, Prepended, LogFront;
    var n := ChunkSize(|bytes|, offset, chunk);
    var tried := TryChunk(send, call, 0).calls;
    SendAllStep(bytes, chunk, send, offset, call);
    TotalNext(tries, tried);
    PrependOne(acked, tries, bytes[offset..offset + n], tried,
               SendAll(bytes, chunk, send, offset + n, call + tried));
  }

  lemma Stopped(bytes: seq<byte>, chunk: nat, send: SendScript, offset: nat, call: nat,
                acked: seq<seq<byte>>, tries: seq<nat>)
    requires chunk > 0 && offset < |bytes| && Underway(bytes, chunk, send, offset, call, acked, tries)
    requires !TryChunk(send, call, 0).status.SendOk?
    ensures SendAll(bytes, chunk, send, 0, 0)
         == Log(if TryChunk(send, call, 0).status.SendRetry? then 6 else 7, acked, tries)
  {
    hide SendAll, TryChunk, Total, Prepended, LogFront;
    SendAllStep(bytes, chunk, send, offset, call);
    PrependEnd(acked, tries, if TryChunk(send, call, 0).status.SendRetry? then 6 else 7);
  }

  lemma Finished(bytes: seq<byte>, chunk: nat, send: SendScript, call: nat, acked: seq<seq<byte>>, tries: seq<nat>)
    requires chunk > 0 && Underway(bytes, chunk, send, |bytes|, call, acked, tries)
    ensures SendAll(bytes, chunk, send, 0, 0) == Log(0, acked, tries) && call == Total(tries)
  {
    hide SendAll, Total, Prepended;
    SendAllEnd(bytes, chunk, send, call);
    PrependEnd(acked, tries, 0);
  }

  lemma JustifiedFromStart(bytes: seq<byte>, chunk: nat, send: SendScript)
    requires chunk > 0
    ensures Justified(Pieces(bytes, chunk), send, 0, SendAll(bytes, chunk, send, 0, 0))
  {
    hide *;
    SendAllJustified(bytes, chunk, send, 0, 0);
    assert bytes[0..] == bytes;
  }

  lemma SendAllEnd(bytes: seq<byte>, chunk: nat, send: SendScript, call: nat)
    requires chunk > 0
    ensures SendAll(bytes, chunk, send, |bytes|, call) == Log(0, [], [])
  {
  }

  /** The number of sends over all chunks. */
  function Total(tries: seq<nat>): nat {
    if tries == [] then 0 else Total(tries[..|tries| - 1]) + tries[|tries| - 1]
  }

  lemma TotalNext(tries: seq<nat>, n: nat)
    ensures Total(tries + [n]) == Total(tries) + n
  {
    assert (tries + [n])[..|tries|] == tries;
  }

  function Prepended(acked: seq<seq<byte>>, tries: seq<nat>, log: Log): Log {
    Log(log.exit, acked + log.acked, tries + log.tries)
  }

  lemma PrependNothing(log: Log)
    ensures Prepended([], [], log) == log
  {
  }

  lemma PrependEnd(acked: seq<seq<byte>>, tries: seq<nat>, exit: nat)
    ensures Prepended(acked, tries, Log(exit, [], [])) == Log(exit, acked, tries)
  {
  }

  lemma PrependOne(acked: seq<seq<byte>>, tries: seq<nat>, piece: seq<byte>, calls: nat, rest: Log)
    ensures Prepended(acked, tries, LogFront(piece, calls, rest))
         == Prepended(acked + [piece], tries + [calls], rest)
  {
    assert acked + ([piece] + rest.acked) == (acked + [piece]) + rest.acked;
    assert tries + ([calls] + rest.tries) == (tries + [calls]) + rest.tries;
  }

  /** The inner loop: it is left only with an accepted chunk or a final refusal. */
  method SendChunk(send: SendScript, first: nat) returns (status: SendStatus, calls: nat)
    ensures Tried(status, calls) == TryChunk(send, first, 0)
  {
    var attempt := 0;
    status, calls := SendError, 0;
    while attempt < RETRY_LIMIT
      invariant 0 <= attempt <= RETRY_LIMIT
      invariant attempt < RETRY_LIMIT ==>
                AfterCalls(attempt, TryChunk(send, first + attempt, attempt)) == TryChunk(send, first, 0)
      invariant attempt < RETRY_LIMIT
      decreases RETRY_LIMIT - attempt
    {
      status := send(first + attempt);
      if status.SendOk? || !status.SendRetry? || attempt + 1 >= RETRY_LIMIT {
        return status, attempt + 1;
      }
      attempt := attempt + 1;
    }
    assert false;
  }

  function AfterCalls(n: nat, t: Tried): Tried {
    t.(calls := t.calls + n)
  }

  /** The k-th reading shows the initial backlog and the file flushed. */
  predicate FlushedBy(size: nat, stats: nat -> Counters, k: nat) {
    var initial := Reported(stats(0));
    CounterDelta(Reported(stats(k)).txFlushedBytes, initial.txFlushedBytes)
    >= CounterDelta(initial.txAcceptedBytes, initial.txFlushedBytes) + size
  }

  /** The wait starts at the reading after the last send and ends with the first one that shows everything flushed, or
    * with the deadline. */
  predicate WaitedFor(size: nat, stats: nat -> Counters, sends: nat, turns: nat, polls: nat) {
    && turns <= polls && (forall k :: sends <= k < sends + turns ==> !FlushedBy(size, stats, k))
    && (turns < polls ==> FlushedBy(size, stats, sends + turns))
  }

  /** main: send, wait for the flush, judge. `stats` answers each read of the statistics: one before the
    * first send, one after every send, one per turn of the flush wait and a final one, at `last`; `polls`
    * is how many turns the flush deadline allows, `turns` how many were taken. */
  method Run(bytes: seq<byte>, chunk: nat, send: SendScript, stats: nat -> Counters, polls: nat)
    returns (code: int, log: Log, last: nat, turns: nat)
    requires chunk > 0
    ensures bytes == [] ==> code == 3
    ensures bytes != [] ==> log == SendAll(bytes, chunk, send, 0, 0) && Justified(Pieces(bytes, chunk), send, 0, log)
    ensures bytes != [] ==> code == if log.exit != 0 then log.exit
                                    else Verdict(|bytes|, Reported(stats(0)), Reported(stats(last)))
    ensures code != 9
    ensures bytes != [] && log.exit == 0 ==> WaitedFor(|bytes|, stats, Total(log.tries), turns, polls)
    ensures bytes != [] && log.exit == 0 ==> last == Total(log.tries) + turns + 1
    ensures code == 0 && Watched(stats(0), stats(last)) ==>
              && Concat(log.acked) == bytes && (forall i :: 0 <= i < |log.tries| ==> 1 <= log.tries[i] <= RETRY_LIMIT)
              && stats(last).flushed >= stats(0).accepted + |bytes|
  {
    hide CounterDelta, Watched, Reported, Justified, Pieces, SendAll, Concat, Total;
    log, last, turns := Log(0, [], []), 0, 0;
    if bytes == [] {
      return 3, log, last, turns;
    }
    var initial := Reported(stats(0));
    var ackedConfirmedBytes;
    log, ackedConfirmedBytes, last := SendFile(bytes, chunk, send);
    if log.exit != 0 {
      AckedIsPrefix(bytes, chunk, send, 0, 0);
      return log.exit, log, last, turns;
    }
    var backlog := CounterDelta(initial.txAcceptedBytes, initial.txFlushedBytes);
    var required := backlog + |bytes|;
    var now := Reported(stats(last));
    while CounterDelta(now.txFlushedBytes, initial.txFlushedBytes) < required && turns < polls
      invariant turns <= polls && last == Total(log.tries) + turns && now == Reported(stats(last))
      invariant forall k :: last - turns <= k < last ==> !FlushedBy(|bytes|, stats, k)
      decreases polls - turns
    {
      turns, last := turns + 1, last + 1;
      now := Reported(stats(last));
    }
    last := last + 1;
    now := Reported(stats(last));
    if CounterDelta(now.txAcceptedBytes, initial.txAcceptedBytes) < |bytes| {
      return 8, log, last, turns;
    }
    if ackedConfirmedBytes < |bytes| {
      return 9, log, last, turns;
    }
    if CounterDelta(now.txFlushedBytes, initial.txFlushedBytes) < required {
      return 10, log, last, turns;
    }
    if CounterDelta(now.txDroppedBytes, initial.txDroppedBytes) != 0 {
      return 11, log, last, turns;
    }
    if Watched(stats(0), stats(last)) {
      ExitZero(bytes, chunk, send, stats(0), stats(last));
    }
    return 0, log, last, turns;
  }

  /** Exit 0 delivers: every octet acknowledged in order, each chunk within five attempts, and at least
    * the backlog and the file really flushed. */
  lemma ExitZero(bytes: seq<byte>, chunk: nat, send: SendScript, initial: Counters, last: Counters)
    requires chunk > 0 && Watched(initial, last)
    requires SendAll(bytes, chunk, send, 0, 0).exit == 0
    requires Verdict(|bytes|, Reported(initial), Reported(last)) == 0
    ensures var log := SendAll(bytes, chunk, send, 0, 0);
            && Concat(log.acked) == bytes
            && (forall i :: 0 <= i < |log.tries| ==> 1 <= log.tries[i] <= RETRY_LIMIT)
            && last.flushed >= initial.accepted + |bytes|
  {
    AckedIsPrefix(bytes, chunk, send, 0, 0);
    VerdictSound(|bytes|, initial, last);
    assert bytes[0..] == bytes;
  }
}
