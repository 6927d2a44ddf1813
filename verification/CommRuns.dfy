/** Runs of the COMM node read off the calls alone: which switches are on, what is taken, sent and dropped. */
module CommRuns {
  import opened CommSim

  datatype Switch = Physical | Forced | Backpressure | IoFault

  predicate Sets(e: Event, w: Switch) {
    match w
    case Physical => e.SetPhysicalLink?
    case Forced => e.SetForcedDisconnected?
    case Backpressure => e.SetBackpressure?
    case IoFault => e.SetInjectedIoError?
  }

  /** The switch before the i-th call: as last set, off at first. */
  predicate On(es: seq<Event>, i: nat, w: Switch)
    requires i <= |es|
  {
    i > 0 && if Sets(es[i - 1], w) then es[i - 1].on else On(es, i - 1, w)
  }

  predicate Up(es: seq<Event>, i: nat)
    requires i <= |es|
  {
    On(es, i, Physical) && !On(es, i, Forced)
  }

  /** State and observations before the i-th call. */
  function At(capacity: nat, es: seq<Event>, i: nat): (State, Observed)
    requires i <= |es|
  {
    Run(Initial(capacity), NOTHING, es[..i])
  }

  lemma {:induction false} RunSnoc(s: State, o: Observed, es: seq<Event>, e: Event)
    ensures var (t, p) := Run(s, o, es); var (u, r) := Apply(t, e); Run(s, o, es + [e]) == (u, Observe(p, e, r))
    decreases es
  {
    hide Apply, Observe;
    if es == [] {
      assert [e][1..] == [];
    } else {
      var (t, r) := Apply(s, es[0]);
      RunSnoc(t, Observe(o, es[0], r), es[1..], e);
      assert (es + [e])[1..] == es[1..] + [e];
    }
  }

  lemma AtNext(capacity: nat, es: seq<Event>, i: nat)
    requires i < |es|
    ensures var (s, o) := At(capacity, es, i); var (t, r) := Apply(s, es[i]);
            At(capacity, es, i + 1) == (t, Observe(o, es[i], r))
  {
    RunSnoc(Initial(capacity), NOTHING, es[..i], es[i]);
    assert es[..i + 1] == es[..i] + [es[i]];
  }

  ghost predicate SwitchesRight(s: State, es: seq<Event>, i: nat)
    requires i <= |es|
  {
    && s.physicalLinkConnected == On(es, i, Physical) && s.forcedDisconnected == On(es, i, Forced)
    && s.downlinkBackpressure == On(es, i, Backpressure) && s.injectedIoError == On(es, i, IoFault)
  }

  lemma SwitchStep(s: State, es: seq<Event>, i: nat)
    requires i < |es| && SwitchesRight(s, es, i)
    ensures SwitchesRight(Apply(s, es[i]).0, es, i + 1)
  {
    OnlySetters(s, es[i]);
    hide Apply;
  }

  /** No other call touches a switch. */
  lemma OnlySetters(s: State, e: Event)
    ensures var t := Apply(s, e).0;
            && t.physicalLinkConnected == (if Sets(e, Physical) then e.on else s.physicalLinkConnected)
            && t.forcedDisconnected == (if Sets(e, Forced) then e.on else s.forcedDisconnected)
            && t.downlinkBackpressure == (if Sets(e, Backpressure) then e.on else s.downlinkBackpressure)
            && t.injectedIoError == (if Sets(e, IoFault) then e.on else s.injectedIoError)
  {
  }

  lemma {:induction false} SwitchesKept(capacity: nat, es: seq<Event>, i: nat)
    requires i <= |es|
    ensures SwitchesRight(At(capacity, es, i).0, es, i)
  {
    if i > 0 {
      SwitchesKept(capacity, es, i - 1);
      AtNext(capacity, es, i - 1);
      hide Apply, Observe;
      SwitchStep(At(capacity, es, i - 1).0, es, i - 1);
    } else {
      assert es[..0] == [];
    }
  }

  /** In every run: octets are taken exactly when they are there, the link is up and, with those waiting, they fit. */
  lemma IngestExact(capacity: nat, es: seq<Event>, i: nat)
    requires i < |es| && es[i].Ingest?
    ensures var (s, o) := At(capacity, es, i); var (t, r) := Apply(s, es[i]);
            r.Ingested?
            && (r.accepted <==>
                  && !es[i].isNull && es[i].bytes != [] && Up(es, i)
                  && |o.accepted| - |o.polled| + |es[i].bytes| <= capacity)
  {
    EveryRun(capacity, es[..i]);
    SwitchesKept(capacity, es, i);
    hide Run, On;
  }

  /** In every run: a write is let through exactly when the request is right, the link is up and neither back
    * pressure nor an error is injected; the reply says which. */
  lemma WriteExact(capacity: nat, es: seq<Event>, i: nat)
    requires i < |es| && es[i].BeginWrite?
    ensures var (s, o) := At(capacity, es, i); var (t, r) := Apply(s, es[i]); var h := es[i].header;
            var right := h.version == 1 && h.service == 31 && 1 <= es[i].byteCount <= 192;
            && r.Write? && r.reply.sequence == h.sequence && r.reply.flags == (if Up(es, i) then 1 else 0)
            && r.reply.data == []
            && (r.shouldWrite <==> right && Up(es, i) && !On(es, i, Backpressure) && !On(es, i, IoFault))
            && r.reply.result == (if !right then InvalidRequest else if r.shouldWrite then CommSim.Ok else IoError)
  {
    SwitchesKept(capacity, es, i);
    hide Run, On;
  }

  /** In every run: a poll hands out the oldest octets waiting, as many as asked for, at most 192. */
  lemma PollExact(capacity: nat, es: seq<Event>, i: nat)
    requires i < |es| && es[i].Poll?
    ensures var (s, o) := At(capacity, es, i); var (t, r) := Apply(s, es[i]); var h := es[i].header;
            var right := h.version == 1 && h.service == 30;
            var waiting := |o.accepted| - |o.polled|; var asked := Min(es[i].maxBytes, 192);
            && 0 <= waiting && r.Chunk? && r.reply.sequence == h.sequence
            && r.reply.flags == (if Up(es, i) then 1 else 0)
            && r.reply.data == (if right then o.accepted[|o.polled|..|o.polled| + Min(asked, waiting)] else [])
            && r.reply.result == (if !right then InvalidRequest else if r.reply.data == [] then NoChunk else CommSim.Ok)
  {
    EveryRun(capacity, es[..i]);
    SwitchesKept(capacity, es, i);
    hide Run, On;
    var (s, o) := At(capacity, es, i);
    assert o.accepted[|o.polled|..] == s.uplinkQueue;
    var n := Min(Min(es[i].maxBytes, 192), |s.uplinkQueue|);
    assert o.accepted[|o.polled|..|o.polled| + n] == s.uplinkQueue[..n];
  }

  /** The i-th call brings octets that overflow the queue. */
  predicate Overflows(capacity: nat, es: seq<Event>, i: nat)
    requires i < |es|
  {
    var (s, o) := At(capacity, es, i);
    && es[i].Ingest? && !es[i].isNull && es[i].bytes != [] && Up(es, i)
    && |o.accepted| - |o.polled| + |es[i].bytes| > capacity
  }

  function Overflown(capacity: nat, es: seq<Event>, i: nat): (nat, nat)
    requires i <= |es|
  {
    if i == 0 then (0, 0)
    else
      var (chunks, bytes) := Overflown(capacity, es, i - 1);
      if Overflows(capacity, es, i - 1) then (chunks + 1, bytes + Min(|es[i - 1].bytes|, WRAP - 1)) else (chunks, bytes)
  }

  lemma BumpAdds(counter: nat, n: nat, k: nat)
    requires Counts(counter, n)
    ensures Counts(Bump(counter, k), n + k)
  {
  }

  /** What one call does to the drop counters. */
  lemma StepDrops(s: State, e: Event)
    requires |s.uplinkQueue| <= s.capacity
    ensures var t := Apply(s, e).0;
            var over := e.Ingest? && !e.isNull && e.bytes != [] && LinkAvailable(s)
                        && |s.uplinkQueue| + |e.bytes| > s.capacity;
            && t.uplinkDroppedChunks == (if over then Bump(s.uplinkDroppedChunks, 1) else s.uplinkDroppedChunks)
            && t.uplinkDroppedBytes
               == (if over then Bump(s.uplinkDroppedBytes, Min(|e.bytes|, WRAP - 1)) else s.uplinkDroppedBytes)
  {
    hide Bump;
  }

  lemma OverflowSeen(capacity: nat, es: seq<Event>, i: nat)
    requires i < |es|
    ensures var s := At(capacity, es, i).0; var e := es[i];
            && |s.uplinkQueue| <= s.capacity
            && (Overflows(capacity, es, i) <==>
                  e.Ingest? && !e.isNull && e.bytes != [] && LinkAvailable(s)
                  && |s.uplinkQueue| + |e.bytes| > s.capacity)
  {
    EveryRun(capacity, es[..i]);
    SwitchesKept(capacity, es, i);
    hide Run, On;
  }

  lemma DropStep(capacity: nat, es: seq<Event>, i: nat, chunks: nat, bytes: nat)
    requires i < |es| && Counts(At(capacity, es, i).0.uplinkDroppedChunks, chunks)
             && Counts(At(capacity, es, i).0.uplinkDroppedBytes, bytes)
    ensures var t := Apply(At(capacity, es, i).0, es[i]).0; var over := Overflows(capacity, es, i);
            && Counts(t.uplinkDroppedChunks, if over then chunks + 1 else chunks)
            && Counts(t.uplinkDroppedBytes, if over then bytes + Min(|es[i].bytes|, WRAP - 1) else bytes)
  {
    hide At, Apply, Overflows, Counts, Bump, Min, LinkAvailable;
    var s := At(capacity, es, i).0;
    OverflowSeen(capacity, es, i);
    StepDrops(s, es[i]);
    BumpAdds(s.uplinkDroppedChunks, chunks, 1);
    if es[i].Ingest? { BumpAdds(s.uplinkDroppedBytes, bytes, Min(|es[i].bytes|, WRAP - 1)); }
  }

  /** The drop counters count exactly the overflows, modulo 2^32. */
  lemma {:induction false} DropsCounted(capacity: nat, es: seq<Event>, i: nat)
    requires i <= |es|
    ensures var s := At(capacity, es, i).0; var (chunks, bytes) := Overflown(capacity, es, i);
            Counts(s.uplinkDroppedChunks, chunks) && Counts(s.uplinkDroppedBytes, bytes)
  {
    if i > 0 {
      DropsCounted(capacity, es, i - 1);
      AtNext(capacity, es, i - 1);
      var (chunks, bytes) := Overflown(capacity, es, i - 1);
      hide At, Apply, Observe, Overflows;
      DropStep(capacity, es, i - 1, chunks, bytes);
    } else {
      assert es[..0] == [];
    }
  }
}
