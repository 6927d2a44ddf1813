/** Whole runs of the session tool: what holds of the store after any sequence of operations. */
module SessionRuns {
  import opened SessionStore

  /** One invocation; the manifest is read afresh each time, so its owner may have changed. */
  datatype Event =
    | Auth(m: Manifest, band: Band, key: seq<int>, now: real)
    | Command(m: Manifest, band: Band, setActive: bool, io: Io, now: real, sentAt: real)
    | Upload(m: Manifest, band: Band, now: real)
    | Clear(m: Manifest, band: Band)
    | Status(m: Manifest, band: Band)

  /** A sequence number put on the air, and whether the send then completed. */
  datatype Use = Use(sequence: int, completed: bool)

  /** The store, and for each band the sequence numbers used since it was last authenticated. */
  datatype World = World(files: Files, used: map<Band, seq<Use>>)

  function UsedOn(w: World, band: Band): seq<Use> {
    if band in w.used then w.used[band] else []
  }

  function Step(w: World, e: Event): World {
    match e
    case Auth(m, band, key, now) => World(AfterEstablish(w.files, m, band, key, now), w.used[band := []])
    case Command(m, band, setActive, io, now, sentAt) =>
      var r := Active(w.files, m, band, now);
      World(AfterSend(w.files, m, band, setActive, io, now, sentAt),
            if r.Sent? && !io.Unsent? then w.used[band := UsedOn(w, band) + [Use(r.sequence, io.Completed?)]]
            else w.used)
    case Upload(m, band, now) => w.(files := AfterRequire(w.files, m, band, now))
    case Clear(m, band) => w.(files := w.files - {band})
    case Status(m, band) => w
  }

  function Run(w: World, es: seq<Event>): World
    decreases es
  {
    if es == [] then w else Run(Step(w, es[0]), es[1..])
  }

  const EMPTY: World := World(map[], map[])

  ghost predicate Live(files: Files, band: Band) {
    band in files && files[band].Readable? && !files[band].session.invalidated
  }

  /** No two bands of one service have a live session. */
  ghost predicate OneLivePerService(files: Files) {
    forall a, b :: a != b && BandServiceId(a) == BandServiceId(b) ==> !(Live(files, a) && Live(files, b))
  }

  /** Each stored session belongs to its file's band and service. */
  ghost predicate Owned(files: Files) {
    forall b :: b in files && files[b].Readable? ==>
      files[b].session.activeBand == b && files[b].session.serviceId == BandServiceId(b)
  }

  /** Numbers start at 1, and each next one is new exactly when the send before it completed. */
  ghost predicate Chained(uses: seq<Use>) {
    && (uses != [] ==> uses[0].sequence == 1)
    && (forall i :: 0 <= i < |uses| - 1 ==>
          uses[i + 1].sequence == uses[i].sequence + if uses[i].completed then 1 else 0)
  }

  function NextNumber(uses: seq<Use>): int {
    if uses == [] then 1
    else uses[|uses| - 1].sequence + if uses[|uses| - 1].completed then 1 else 0
  }

  ghost predicate Numbered(w: World) {
    && (forall b :: b in w.used ==> Chained(w.used[b]))
    && (forall b :: b in w.files && w.files[b].Readable? ==>
          w.files[b].session.nextSequence == NextNumber(UsedOn(w, b)))
  }

  ghost predicate Inv(w: World, bands: set<Band>) {
    w.files.Keys <= bands && Owned(w.files) && OneLivePerService(w.files) && Numbered(w)
  }

  /** The run stays on a set of bands that every manifest it reads lists. */
  ghost predicate Listed(es: seq<Event>, bands: set<Band>) {
    forall e :: e in es ==> e.band in bands && forall b :: b in bands ==> b in e.m.canonicalBands
  }

  lemma NumberedAfterUse(uses: seq<Use>, completed: bool)
    requires Chained(uses)
    ensures Chained(uses + [Use(NextNumber(uses), completed)])
    ensures NextNumber(uses + [Use(NextNumber(uses), completed)]) == NextNumber(uses) + if completed then 1 else 0
  {
  }

  /** Nothing is stored, owned or revived that was not before; `spent` sends were counted on `band`. */
  ghost predicate Quiet(files: Files, after: Files, band: Band, spent: int) {
    forall b :: b in after ==>
      && b in files
      && (after[b].Readable? ==>
            && files[b].Readable?
            && after[b].session.activeBand == files[b].session.activeBand
            && after[b].session.serviceId == files[b].session.serviceId
            && (files[b].session.invalidated ==> after[b].session.invalidated)
            && after[b].session.nextSequence == files[b].session.nextSequence + if b == band then spent else 0)
  }

  lemma RequireQuiet(files: Files, m: Manifest, band: Band, now: real)
    ensures Quiet(files, AfterRequire(files, m, band, now), band, 0)
  {
  }

  lemma SendQuiet(files: Files, m: Manifest, band: Band, setActive: bool, io: Io, now: real, sentAt: real)
    ensures Quiet(files, AfterSend(files, m, band, setActive, io, now, sentAt), band,
                  if Active(files, m, band, now).Sent? && io.Completed? then 1 else 0)
  {
    if !Active(files, m, band, now).Sent? {
      RequireQuiet(files, m, band, now);
    }
  }

  function Spent(w: World, e: Event): int {
    if e.Command? && Active(w.files, e.m, e.band, e.now).Sent? && e.io.Completed? then 1 else 0
  }

  lemma StepQuiet(w: World, e: Event)
    requires !e.Auth?
    ensures Quiet(w.files, Step(w, e).files, e.band, Spent(w, e))
  {
    match e
    case Command(m, band, setActive, io, now, sentAt) => SendQuiet(w.files, m, band, setActive, io, now, sentAt);
    case Upload(m, band, now) => RequireQuiet(w.files, m, band, now);
    case Clear(m, band) =>
    case Status(m, band) =>
  }

  lemma QuietKeeps(files: Files, after: Files, band: Band, spent: int, bands: set<Band>)
    requires Quiet(files, after, band, spent) && files.Keys <= bands && Owned(files) && OneLivePerService(files)
    ensures after.Keys <= bands && Owned(after) && OneLivePerService(after)
  {
    forall b ensures Live(after, b) ==> Live(files, b) {}
  }

  lemma AuthKeeps(files: Files, m: Manifest, band: Band, key: seq<int>, now: real, bands: set<Band>)
    requires files.Keys <= bands && Owned(files) && OneLivePerService(files)
    requires band in bands && forall b :: b in bands ==> b in m.canonicalBands
    ensures var after := AfterEstablish(files, m, band, key, now);
            after.Keys <= bands && Owned(after) && OneLivePerService(after)
  {
    EstablishExact(files, m, band, key, now);
  }

  lemma AuthKeepsNumbers(w: World, e: Event)
    requires Numbered(w) && e.Auth?
    ensures Numbered(Step(w, e))
  {
  }

  lemma StepKeepsNumbers(w: World, e: Event)
    requires Numbered(w) && !e.Auth?
    ensures Numbered(Step(w, e))
  {
    var next := Step(w, e);
    StepQuiet(w, e);
    if e.Command? && Active(w.files, e.m, e.band, e.now).Sent? && !e.io.Unsent? {
      NumberedAfterUse(UsedOn(w, e.band), e.io.Completed?);
      assert UsedOn(next, e.band) == UsedOn(w, e.band) + [Use(NextNumber(UsedOn(w, e.band)), e.io.Completed?)];
    }
    forall b | b != e.band ensures UsedOn(next, b) == UsedOn(w, b) {}
  }

  lemma StepKeepsInv(w: World, e: Event, bands: set<Band>)
    requires Inv(w, bands) && e.band in bands && forall b :: b in bands ==> b in e.m.canonicalBands
    ensures Inv(Step(w, e), bands)
  {
    if e.Auth? {
      AuthKeeps(w.files, e.m, e.band, e.key, e.now, bands);
      AuthKeepsNumbers(w, e);
    } else {
      StepQuiet(w, e);
      QuietKeeps(w.files, Step(w, e).files, e.band, Spent(w, e), bands);
      StepKeepsNumbers(w, e);
    }
  }

  /** In every run from an empty store on listed bands, at most one session per service is live, every
    * stored session belongs to its band, and sequence numbers chain. */
  lemma {:induction false} RunKeepsInv(w: World, es: seq<Event>, bands: set<Band>)
    requires Inv(w, bands) && Listed(es, bands)
    ensures Inv(Run(w, es), bands)
    decreases es
  {
    if es != [] {
      assert es[0] in es;
      StepKeepsInv(w, es[0], bands);
      RunKeepsInv(Step(w, es[0]), es[1..], bands);
    }
  }

  /** Every world reached from an empty store. */
  lemma ReachedInv(es: seq<Event>, bands: set<Band>)
    requires Listed(es, bands)
    ensures Inv(Run(EMPTY, es), bands)
  {
    RunKeepsInv(EMPTY, es, bands);
  }

  /** The numbers of one authentication are 1, 2, 3, ... without gap or reuse exactly when every send
    * but the last completed. */
  lemma {:induction false} NumbersExact(uses: seq<Use>)
    requires Chained(uses)
    ensures (forall i :: 0 <= i < |uses| ==> uses[i].sequence == i + 1)
       <==> (forall i :: 0 <= i < |uses| - 1 ==> uses[i].completed)
  {
    if forall i :: 0 <= i < |uses| - 1 ==> uses[i].completed {
      for k := 0 to |uses|
        invariant forall i :: 0 <= i < k ==> uses[i].sequence == i + 1
      {
        assert k > 0 ==> uses[k - 1].completed && uses[k - 1 + 1].sequence == uses[k - 1].sequence + 1;
      }
    }
    if forall i :: 0 <= i < |uses| ==> uses[i].sequence == i + 1 {
      forall i | 0 <= i < |uses| - 1 ensures uses[i].completed {
        assert uses[i + 1].sequence == i + 2;
      }
    }
  }

  /** In every run, on whatever bands, sequence numbers chain. */
  lemma {:induction false} RunKeepsNumbers(w: World, es: seq<Event>)
    requires Numbered(w)
    ensures Numbered(Run(w, es))
    decreases es
  {
    if es != [] {
      if es[0].Auth? { AuthKeepsNumbers(w, es[0]); } else { StepKeepsNumbers(w, es[0]); }
      RunKeepsNumbers(Step(w, es[0]), es[1..]);
    }
  }

  /** When no send is lost, every authentication of every band uses 1, 2, 3, ... in order. */
  lemma CompletedRunsCount(es: seq<Event>, band: Band)
    requires forall e :: e in es && e.Command? ==> !e.io.Lost?
    ensures var uses := UsedOn(Run(EMPTY, es), band);
            forall i :: 0 <= i < |uses| ==> uses[i] == Use(i + 1, true)
  {
    RunKeepsNumbers(EMPTY, es);
    AllCompleted(EMPTY, es, band);
    var uses := UsedOn(Run(EMPTY, es), band);
    NumbersExact(uses);
  }

  lemma {:induction false} AllCompleted(w: World, es: seq<Event>, band: Band)
    requires forall e :: e in es && e.Command? ==> !e.io.Lost?
    requires forall u :: u in UsedOn(w, band) ==> u.completed
    ensures forall u :: u in UsedOn(Run(w, es), band) ==> u.completed
    decreases es
  {
    if es != [] {
      assert es[0] in es;
      AllCompleted(Step(w, es[0]), es[1..], band);
    }
  }

  /** A send lost after transmission makes the next send reuse its number. */
  lemma LostSendReuses(m: Manifest)
    requires m.canonicalBands == ["sband"]
    ensures var w := Run(EMPTY, [Auth(m, "sband", [], 0.0), Command(m, "sband", false, Lost, 1.0, 1.0),
                                 Command(m, "sband", false, Completed, 2.0, 2.0)]);
            UsedOn(w, "sband") == [Use(1, false), Use(1, true)]
  {
    var e0, e1, e2 := Auth(m, "sband", [], 0.0), Command(m, "sband", false, Lost, 1.0, 1.0),
                      Command(m, "sband", false, Completed, 2.0, 2.0);
    var w1 := Step(EMPTY, e0);
    var w2 := Step(w1, e1);
    var w3 := Step(w2, e2);
    assert Run(w3, []) == w3;
    assert [e2][1..] == [] && Run(w2, [e2]) == w3;
    assert [e1, e2][1..] == [e2] && Run(w1, [e1, e2]) == w3;
    assert [e0, e1, e2][1..] == [e1, e2];
  }

  /** Once invalidated, a session stays so until its band is authenticated again or cleared, and no
    * command leaves on its band meanwhile. */
  lemma {:induction false} StaysInvalidated(w: World, es: seq<Event>, band: Band)
    requires band in w.files && w.files[band].Readable? && w.files[band].session.invalidated
    requires forall e :: e in es ==> e.band == band ==> !e.Auth? && !e.Clear?
    ensures var files := Run(w, es).files;
            band in files && files[band].Readable? && files[band].session.invalidated
    ensures UsedOn(Run(w, es), band) == UsedOn(w, band)
    decreases es
  {
    if es != [] {
      assert es[0] in es;
      StaysInvalidated(Step(w, es[0]), es[1..], band);
    }
  }

  /** Switching the active radio leaves no live session on any band exactly when none is live on another band the
    * manifest leaves out. */
  lemma SwitchExact(files: Files, m: Manifest, band: Band, now: real, sentAt: real)
    requires Active(files, m, band, now).Sent?
    ensures (forall b :: !Live(AfterSend(files, m, band, true, Completed, now, sentAt), b))
       <==> forall b :: b != band && b !in m.canonicalBands ==> !Live(files, b)
  {
    var after := AfterSend(files, m, band, true, Completed, now, sentAt);
    assert !Live(after, band);
    forall b | b != band ensures Live(after, b) <==> Live(files, b) && b !in m.canonicalBands {}
  }

  /** With no band listed, switching on S-band leaves the session on the UHF band live. */
  lemma SwitchMissesUnlisted(m: Manifest)
    requires m.canonicalBands == []
    ensures var w := Run(EMPTY, [Auth(m, "uhf-backup", [], 0.0), Auth(m, "sband", [], 1.0),
                                 Command(m, "sband", true, Completed, 2.0, 2.0)]);
            !Live(w.files, "sband") && Live(w.files, "uhf-backup") && UsedOn(w, "sband") == [Use(1, true)]
  {
    var e0, e1, e2 := Auth(m, "uhf-backup", [], 0.0), Auth(m, "sband", [], 1.0),
                      Command(m, "sband", true, Completed, 2.0, 2.0);
    var w1 := Step(EMPTY, e0);
    var w2 := Step(w1, e1);
    var w3 := Step(w2, e2);
    assert |"uhf-backup"| == 10 && |"sband"| == 5;
    assert [e2][1..] == [] && Run(w2, [e2]) == w3;
    assert [e1, e2][1..] == [e2] && Run(w1, [e1, e2]) == w3;
    assert [e0, e1, e2][1..] == [e1, e2];
  }

  /** On listed bands a switch leaves no live session. */
  lemma SwitchRetiresAll(w: World, e: Event, bands: set<Band>, band: Band)
    requires Inv(w, bands) && Listed([e], bands)
    requires e.Command? && e.setActive && e.io.Completed? && Active(w.files, e.m, e.band, e.now).Sent?
    ensures !Live(Step(w, e).files, band)
  {
    assert e in [e];
    SwitchExact(w.files, e.m, e.band, e.now, e.sentAt);
  }

  /** Without the listing, authenticating keeps at most one live session per service exactly when no
    * live session of that service sits on a band the manifest leaves out. */
  lemma EstablishExact(files: Files, m: Manifest, band: Band, key: seq<int>, now: real)
    requires OneLivePerService(files)
    ensures OneLivePerService(AfterEstablish(files, m, band, key, now))
       <==> forall b :: b != band && BandServiceId(b) == BandServiceId(band) && b !in m.canonicalBands ==>
              !Live(files, b)
  {
    var after := AfterEstablish(files, m, band, key, now);
    assert Live(after, band);
    forall b | b != band ensures Live(after, b) <==> Live(files, b) && !Sibling(m, band, b) {}
    if OneLivePerService(after) {
      forall b | b != band && BandServiceId(b) == BandServiceId(band) && b !in m.canonicalBands
        ensures !Live(files, b)
      {
        assert !Live(after, b);
      }
    }
  }

  /** With the manifest listing no band, authenticating on both UHF bands leaves both sessions live. */
  lemma UnlistedBothLive(m: Manifest)
    requires m.canonicalBands == []
    ensures var w := Run(EMPTY, [Auth(m, "uhf-backup", [], 0.0), Auth(m, "uhf-primary-after-failover", [], 1.0)]);
            && Live(w.files, "uhf-backup") && Live(w.files, "uhf-primary-after-failover")
            && !OneLivePerService(w.files)
  {
    var e0, e1 := Auth(m, "uhf-backup", [], 0.0), Auth(m, "uhf-primary-after-failover", [], 1.0);
    assert [e0, e1][1..] == [e1] && [e1][1..] == [];
    var w1 := Step(EMPTY, e0);
    var w2 := Step(w1, e1);
    assert Run(w1, [e1]) == w2;
    assert |"uhf-backup"| == 10 && |"uhf-primary-after-failover"| == 26 && |"sband"| == 5;
    assert Live(w2.files, "uhf-backup") && Live(w2.files, "uhf-primary-after-failover");
  }
}
