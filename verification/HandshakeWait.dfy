/** Waiting for the next handshake message: every poll re-reads both files from the start, and a run
  * of waits must still hand out each message at most once. */
module HandshakeWait {
  import opened Octets
  import opened FrameDecoder
  import opened Handshake
  import opened HandshakeReader

  datatype File = Absent | Present(data: seq<byte>)

  /** The two files as one poll finds them. */
  datatype Snapshot = Snapshot(capture: File, log: File)

  datatype Raw = Raw(scid: int, vcid: int, frameSize: nat, serviceId: int, kind: Kind)

  type Setup = s: Raw | s.frameSize >= TM_HEADER_SIZE + TRAILER_SIZE witness Raw(0, 0, 8, 0, ReqAuth)

  datatype Source = NativeRecv | WireCapture

  /** Messages already seen, per source. */
  datatype Progress = Progress(wire: nat, native: nat) {
    function Of(source: Source): nat {
      if source.WireCapture? then wire else native
    }
  }

  datatype Polled = PollRaised | Polled(wire: seq<Message>, native: seq<Message>) {
    function Of(source: Source): seq<Message>
      requires Polled?
    {
      if source.WireCapture? then wire else native
    }
    function Count(): Progress
      requires Polled?
    {
      Progress(|wire|, |native|)
    }
  }

  datatype Outcome = WaitRaised | TimedOut | Returned(message: Message, source: Source, progress: Progress)

  function LoadFile(s: Setup, source: Source, file: File): Loaded {
    match file
    case Absent => Loaded([])
    case Present(data) =>
      if source.WireCapture? then LoadCapture(data, s.scid, s.vcid, s.frameSize, s.serviceId, s.kind)
      else LoadLog(data, s.serviceId, s.kind)
  }

  function Poll(s: Setup, at: Snapshot): Polled {
    var wire, native := LoadFile(s, WireCapture, at.capture), LoadFile(s, NativeRecv, at.log);
    if wire.LoadRaised? || native.LoadRaised? then PollRaised else Polled(wire.messages, native.messages)
  }

  /** One wait: the last message of the first source, native log first, that has more than was seen;
    * the polls are those the deadline leaves time for. */
  function Await(s: Setup, polls: seq<Snapshot>, seen: Progress): Outcome {
    if polls == [] then TimedOut
    else
      match Poll(s, polls[0])
      case PollRaised => WaitRaised
      case Polled(wire, native) =>
        if |native| > seen.native then Returned(native[|native| - 1], NativeRecv, Progress(|wire|, |native|))
        else if |wire| > seen.wire then Returned(wire[|wire| - 1], WireCapture, Progress(|wire|, |native|))
        else Await(s, polls[1..], seen)
  }

  method WaitForHandshake(s: Setup, polls: seq<Snapshot>, seen: Progress) returns (r: Outcome)
    ensures r == Await(s, polls, seen)
  {
    for i := 0 to |polls|
      invariant Await(s, polls[i..], seen) == Await(s, polls, seen)
    {
      assert polls[i..][1..] == polls[i + 1..];
      match Poll(s, polls[i]) {
        case PollRaised => return WaitRaised;
        case Polled(wire, native) =>
          if |native| > seen.native {
            return Returned(native[|native| - 1], NativeRecv, Progress(|wire|, |native|));
          }
          if |wire| > seen.wire {
            return Returned(wire[|wire| - 1], WireCapture, Progress(|wire|, |native|));
          }
      }
    }
    return TimedOut;
  }

  /** The poll shows nothing beyond what was seen. */
  predicate Stale(s: Setup, at: Snapshot, seen: Progress) {
    var p := Poll(s, at);
    p.Polled? && |p.native| <= seen.native && |p.wire| <= seen.wire
  }

  /** The first poll that is not stale decides: it raises, or hands out the last message of the log, or of the capture
    * when the log has nothing new; with none the wait times out. */
  lemma {:induction false} WaitExact(s: Setup, polls: seq<Snapshot>, seen: Progress) returns (n: nat)
    ensures n <= |polls| && forall i :: 0 <= i < n ==> Stale(s, polls[i], seen)
    ensures var r := Await(s, polls, seen);
            if n == |polls| then r == TimedOut
            else
              var p := Poll(s, polls[n]);
              && !Stale(s, polls[n], seen) && (p.PollRaised? ==> r == WaitRaised)
              && (p.Polled? ==>
                    && r.Returned? && r.progress == Progress(|p.wire|, |p.native|)
                    && (r.source == NativeRecv <==> |p.native| > seen.native)
                    && p.Of(r.source) != [] && r.message == p.Of(r.source)[|p.Of(r.source)| - 1])
    decreases polls
  {
    hide Poll;
    if polls == [] || !Stale(s, polls[0], seen) {
      n := 0;
    } else {
      var k := WaitExact(s, polls[1..], seen);
      n := k + 1;
      assert forall i :: 0 < i < |polls| ==> polls[i] == polls[1..][i - 1];
    }
  }

  // ---- runs of waits ----

  /** What the authentication loop does between sends: wait, or re-read the progress after a timeout. */
  datatype Step = Wait(polls: seq<Snapshot>) | Refresh(at: Snapshot)

  /** A message handed out, with its index among its source's messages. */
  datatype Hit = Hit(source: Source, index: nat, message: Message)

  function PollsOf(step: Step): seq<Snapshot> {
    if step.Wait? then step.polls else [step.at]
  }

  lemma {:induction false} AwaitReturns(s: Setup, polls: seq<Snapshot>, seen: Progress) returns (at: Snapshot)
    requires Await(s, polls, seen).Returned?
    ensures at in polls && Poll(s, at).Polled?
    ensures var r := Await(s, polls, seen);
            && r.progress == Poll(s, at).Count() && r.progress.Of(r.source) > seen.Of(r.source)
            && r.message == Poll(s, at).Of(r.source)[r.progress.Of(r.source) - 1]
    decreases polls
  {
    at := polls[0];
    var now := Poll(s, at);
    if |now.native| <= seen.native && |now.wire| <= seen.wire {
      at := AwaitReturns(s, polls[1..], seen);
    }
  }

  /** The messages a run hands out, up to the first poll that raises. */
  function Run(s: Setup, steps: seq<Step>, seen: Progress): seq<Hit> {
    if steps == [] then []
    else
      match steps[0]
      case Refresh(at) => if Poll(s, at).PollRaised? then [] else Run(s, steps[1..], Poll(s, at).Count())
      case Wait(polls) =>
        match Await(s, polls, seen)
        case WaitRaised => []
        case TimedOut => Run(s, steps[1..], seen)
        case Returned(message, source, progress) =>
          [Hit(source, if progress.Of(source) > 0 then progress.Of(source) - 1 else 0, message)]
            + Run(s, steps[1..], progress)
  }

  ghost predicate FileGrows(a: File, b: File) {
    a.Absent? || (b.Present? && a.data <= b.data)
  }

  ghost predicate SnapshotGrows(a: Snapshot, b: Snapshot) {
    FileGrows(a.capture, b.capture) && FileGrows(a.log, b.log)
  }

  /** The files only ever grow from one step to the later ones. */
  ghost predicate GrowingFiles(steps: seq<Step>) {
    forall i, j, x, y :: 0 <= i < j < |steps| && x in PollsOf(steps[i]) && y in PollsOf(steps[j]) ==>
      SnapshotGrows(x, y)
  }

  lemma LoadFileGrows(s: Setup, source: Source, a: File, b: File)
    requires FileGrows(a, b)
    ensures Grows(LoadFile(s, source, a), LoadFile(s, source, b))
  {
    if a.Present? {
      var e := b.data[|a.data|..];
      assert b.data == a.data + e;
      LoadGrows(a.data, e, s.scid, s.vcid, s.frameSize, s.serviceId, s.kind);
    }
  }

  lemma PollGrows(s: Setup, a: Snapshot, b: Snapshot)
    requires SnapshotGrows(a, b) && Poll(s, a).Polled? && Poll(s, b).Polled?
    ensures forall source :: Poll(s, a).Of(source) <= Poll(s, b).Of(source)
  {
    LoadFileGrows(s, WireCapture, a.capture, b.capture);
    LoadFileGrows(s, NativeRecv, a.log, b.log);
  }

  ghost predicate AtLeast(p: Progress, floor: Progress) {
    p.wire >= floor.wire && p.native >= floor.native
  }

  /** Every later poll that succeeds finds at least `floor` messages. */
  ghost predicate PollsAbove(s: Setup, steps: seq<Step>, floor: Progress) {
    forall i, x :: 0 <= i < |steps| && x in PollsOf(steps[i]) && Poll(s, x).Polled? ==>
      AtLeast(Poll(s, x).Count(), floor)
  }

  lemma {:induction false} HitsAbove(s: Setup, steps: seq<Step>, seen: Progress, floor: Progress)
    requires AtLeast(seen, floor) && PollsAbove(s, steps, floor)
    ensures forall h :: h in Run(s, steps, seen) ==> h.index >= floor.Of(h.source)
    decreases steps
  {
    if steps != [] {
      assert PollsAbove(s, steps[1..], floor);
      match steps[0]
      case Refresh(at) =>
        assert at in PollsOf(steps[0]);
        if Poll(s, at).Polled? {
          HitsAbove(s, steps[1..], Poll(s, at).Count(), floor);
        }
      case Wait(polls) =>
        match Await(s, polls, seen)
        case WaitRaised =>
        case TimedOut => HitsAbove(s, steps[1..], seen, floor);
        case Returned(message, source, progress) =>
          var at := AwaitReturns(s, polls, seen);
          assert at in PollsOf(steps[0]);
          HitsAbove(s, steps[1..], progress, floor);
    }
  }

  lemma PollsAboveLater(s: Setup, steps: seq<Step>, at: Snapshot)
    requires GrowingFiles(steps) && steps != [] && at in PollsOf(steps[0]) && Poll(s, at).Polled?
    ensures PollsAbove(s, steps[1..], Poll(s, at).Count())
  {
    var rest := steps[1..];
    forall i, x | 0 <= i < |rest| && x in PollsOf(rest[i]) && Poll(s, x).Polled?
      ensures AtLeast(Poll(s, x).Count(), Poll(s, at).Count())
    {
      assert x in PollsOf(steps[i + 1]);
      PollGrows(s, at, x);
      assert Poll(s, at).Of(WireCapture) <= Poll(s, x).Of(WireCapture);
      assert Poll(s, at).Of(NativeRecv) <= Poll(s, x).Of(NativeRecv);
    }
  }

  lemma GrowingTail(steps: seq<Step>)
    requires steps != [] && GrowingFiles(steps)
    ensures GrowingFiles(steps[1..])
  {
    var rest := steps[1..];
    forall i, j, x, y | 0 <= i < j < |rest| && x in PollsOf(rest[i]) && y in PollsOf(rest[j])
      ensures SnapshotGrows(x, y)
    {
      assert x in PollsOf(steps[i + 1]) && y in PollsOf(steps[j + 1]);
    }
  }

  ghost predicate Increasing(hits: seq<Hit>) {
    forall i, j :: 0 <= i < j < |hits| && hits[i].source == hits[j].source ==> hits[i].index < hits[j].index
  }

  lemma IncreasingCons(first: Hit, rest: seq<Hit>)
    requires Increasing(rest)
    requires forall h :: h in rest && h.source == first.source ==> first.index < h.index
    ensures Increasing([first] + rest)
  {
    var hits := [first] + rest;
    forall i, j | 0 <= i < j < |hits| && hits[i].source == hits[j].source ensures hits[i].index < hits[j].index {
      assert hits[j] == rest[j - 1] && hits[j] in rest;
      assert i > 0 ==> hits[i] == rest[i - 1];
    }
  }

  /** Over any run on growing files, the indices handed out from each source strictly increase: no
    * message is handed out twice. */
  lemma {:induction false} IndicesIncrease(s: Setup, steps: seq<Step>, seen: Progress)
    requires GrowingFiles(steps)
    ensures Increasing(Run(s, steps, seen))
    decreases steps
  {
    if steps != [] {
      GrowingTail(steps);
      var rest := steps[1..];
      match steps[0]
      case Refresh(at) =>
        if Poll(s, at).Polled? {
          IndicesIncrease(s, rest, Poll(s, at).Count());
        }
      case Wait(polls) =>
        match Await(s, polls, seen)
        case WaitRaised =>
        case TimedOut => IndicesIncrease(s, rest, seen);
        case Returned(message, source, progress) =>
          var at := AwaitReturns(s, polls, seen);
          assert at in PollsOf(steps[0]);
          PollsAboveLater(s, steps, at);
          HitsAbove(s, rest, progress, progress);
          IndicesIncrease(s, rest, progress);
          IncreasingCons(Hit(source, progress.Of(source) - 1, message), Run(s, rest, progress));
    }
  }

  /** A message handed out stays where it was: any later reading of the files that succeeds has it at
    * the same index. */
  lemma HitsStay(s: Setup, polls: seq<Snapshot>, seen: Progress, later: Snapshot)
    requires Await(s, polls, seen).Returned? && Poll(s, later).Polled?
    requires forall x :: x in polls ==> SnapshotGrows(x, later)
    ensures var r := Await(s, polls, seen);
            var i := r.progress.Of(r.source);
            0 < i <= |Poll(s, later).Of(r.source)| && Poll(s, later).Of(r.source)[i - 1] == r.message
  {
    var at := AwaitReturns(s, polls, seen);
    var r := Await(s, polls, seen);
    PollGrows(s, at, later);
    assert Poll(s, at).Of(r.source) <= Poll(s, later).Of(r.source);
  }
}
