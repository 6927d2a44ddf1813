/** The session store read off the sequence of invocations alone: which commands leave, why the others are
  * refused, and what each state file holds. Nothing here looks at the stored state. */
module SessionHistory {
  import opened Wrappers
  import opened SessionStore
  import opened SessionRuns

  const TIMEOUT := "session-timeout"
  const OWNER := "surface-owner-changed"
  const SIBLING := "sibling-band-reauthenticated"
  const SWITCHED := "band-switch-command-sent"

  /** The authentication of the band that still stands before the i-th invocation: the last one, unless the
    * band was cleared after it. */
  function Standing(es: seq<Event>, i: nat, band: Band): (k: Option<nat>)
    requires i <= |es|
    ensures k.Some? ==> k.value < i && es[k.value].Auth? && es[k.value].band == band
  {
    if i == 0 then None
    else if es[i - 1].Auth? && es[i - 1].band == band then Some(i - 1)
    else if es[i - 1].Clear? && es[i - 1].band == band then None
    else Standing(es, i - 1, band)
  }

  /** The i-th invocation is a command that leaves: its band is authenticated and nothing objects. */
  predicate Leaves(es: seq<Event>, i: nat)
    requires i < |es|
    decreases i, 2
  {
    && es[i].Command? && Standing(es, i, es[i].band).Some?
    && Objection(es, Standing(es, i, es[i].band).value, i, es[i].m.ownerPid, es[i].now) == None
  }

  /** Whether the j-th invocation is a command on the band that leaves and completes. */
  predicate Completes(es: seq<Event>, j: nat, band: Band)
    requires j < |es|
    decreases j, 3
  {
    es[j].Command? && es[j].band == band && es[j].io.Completed? && Leaves(es, j)
  }

  /** When the session authenticated at k was last used before i: its last completed command, or the
    * authentication itself. */
  function LastUse(es: seq<Event>, k: nat, i: nat): real
    requires k < i <= |es| && es[k].Auth?
    decreases i, 0
  {
    if i == k + 1 then es[k].now
    else if Completes(es, i - 1, es[k].band) then es[i - 1].sentAt
    else LastUse(es, k, i - 1)
  }

  /** What speaks against using it at i: more than 180 s since its last use, then another owner, then
    * whatever retired it before. */
  function Objection(es: seq<Event>, k: nat, i: nat, owner: Option<int>, now: real): Option<string>
    requires k < i <= |es| && es[k].Auth?
    decreases i, 1
  {
    if now - LastUse(es, k, i) > 180.0 then Some(TIMEOUT)
    else if owner != es[k].m.ownerPid then Some(OWNER)
    else Retirement(es, k, i)
  }

  /** The last reason for which it was retired before i, if any. */
  function Retirement(es: seq<Event>, k: nat, i: nat): Option<string>
    requires k < i <= |es| && es[k].Auth?
    decreases i, 0
  {
    if i == k + 1 then None
    else
      var cause := Retires(es, k, i - 1);
      if cause.Some? then cause else Retirement(es, k, i - 1)
  }

  /** The reason for which the j-th invocation retires it: another band of the service is authenticated, a
    * completed switch command lists the band or is sent on it, or a use of it met an objection. */
  function Retires(es: seq<Event>, k: nat, j: nat): Option<string>
    requires k < j < |es| && es[k].Auth?
    decreases j, 4
  {
    var e, band := es[j], es[k].band;
    if e.Auth? && e.band != band && band in e.m.canonicalBands && (e.band == "sband" <==> band == "sband")
    then Some(SIBLING)
    else if e.Command? && e.setActive && Completes(es, j, e.band) && (e.band == band || band in e.m.canonicalBands)
    then Some(SWITCHED)
    else if (e.Command? || e.Upload?) && e.band == band then Objection(es, k, j, e.m.ownerPid, e.now)
    else None
  }

  /** The number of commands completed with it before i. */
  function Uses(es: seq<Event>, k: nat, i: nat): nat
    requires k < i <= |es| && es[k].Auth?
    decreases i
  {
    if i == k + 1 then 0 else Uses(es, k, i - 1) + if Completes(es, i - 1, es[k].band) then 1 else 0
  }

  /** The state file of the band, as the history tells it. */
  function Told(es: seq<Event>, k: nat, i: nat): Session
    requires k < i <= |es| && es[k].Auth?
  {
    var auth, reason := es[k], Retirement(es, k, i);
    var sband := auth.band == "sband";
    Session(if sband then 1 else 2, auth.band, Uses(es, k, i) + 1, LastUse(es, k, i), auth.m.path,
            if sband then "sband-primary" else auth.band, auth.key, auth.m.ownerPid, reason.Some?, reason)
  }

  /** What the store is before the i-th invocation. */
  function StoreAt(es: seq<Event>, i: nat): Files
    requires i <= |es|
  {
    Run(EMPTY, es[..i]).files
  }

  lemma {:induction false} RunSnoc(w: World, es: seq<Event>, e: Event)
    ensures Run(w, es + [e]) == Step(Run(w, es), e)
    decreases es
  {
    if es == [] {
      assert ([e])[1..] == [];
    } else {
      RunSnoc(Step(w, es[0]), es[1..], e);
      assert (es + [e])[1..] == es[1..] + [e];
    }
  }

  lemma StoreNext(es: seq<Event>, i: nat)
    requires i < |es|
    ensures StoreAt(es, i + 1) == Step(Run(EMPTY, es[..i]), es[i]).files
  {
    RunSnoc(EMPTY, es[..i], es[i]);
    assert es[..i + 1] == es[..i] + [es[i]];
  }

  /** Band by band, the store is what the history tells. */
  ghost predicate AsTold(es: seq<Event>, i: nat, band: Band)
    requires i <= |es|
  {
    match Standing(es, i, band)
    case None => band !in StoreAt(es, i)
    case Some(k) => band in StoreAt(es, i) && StoreAt(es, i)[band] == Readable(Told(es, k, i))
  }

  // ---- one invocation ----

  /** What a use of the band would meet. */
  function Answer(es: seq<Event>, i: nat, m: Manifest, band: Band, now: real): SendResult
    requires i <= |es|
  {
    match Standing(es, i, band)
    case None => NoSession
    case Some(k) =>
      match Objection(es, k, i, m.ownerPid, now)
      case None => Sent(Uses(es, k, i) + 1)
      case Some(reason) => SessionInvalidated(Some(reason))
  }

  lemma ValidateTold(es: seq<Event>, k: nat, i: nat, m: Manifest, now: real)
    requires k < i <= |es| && es[k].Auth?
    ensures var o := Objection(es, k, i, m.ownerPid, now);
            Validate(m, es[k].band, Told(es, k, i), now) == Told(es, k, i).(invalidated := o.Some?, reason := o)
  {
    hide LastUse, Retirement, Uses;
  }

  lemma ActiveTold(es: seq<Event>, i: nat, m: Manifest, band: Band, now: real)
    requires i <= |es| && AsTold(es, i, band)
    ensures Active(StoreAt(es, i), m, band, now) == Answer(es, i, m, band, now)
    ensures Standing(es, i, band).Some? ==>
              var k := Standing(es, i, band).value; var o := Objection(es, k, i, m.ownerPid, now);
              && band in StoreAt(es, i) && StoreAt(es, i)[band].Readable?
              && Validate(m, band, StoreAt(es, i)[band].session, now)
                 == Told(es, k, i).(invalidated := o.Some?, reason := o)
  {
    hide Validate, Objection, StoreAt;
    var k := Standing(es, i, band);
    if k.Some? {
      ValidateTold(es, k.value, i, m, now);
    }
  }

  lemma LeavesAsTold(es: seq<Event>, i: nat)
    requires i < |es| && es[i].Command?
    ensures Leaves(es, i) <==> Answer(es, i, es[i].m, es[i].band, es[i].now).Sent?
  {
    hide Objection;
  }

  /** The band is neither authenticated nor cleared by the i-th invocation, so its session goes on. */
  lemma ToldNext(es: seq<Event>, k: nat, i: nat)
    requires k < i < |es| && es[k].Auth?
    ensures var cause := Retires(es, k, i); var done := Completes(es, i, es[k].band); var s := Told(es, k, i);
            Told(es, k, i + 1)
            == s.(nextSequence := s.nextSequence + if done then 1 else 0,
                  lastAuthTime := if done then es[i].sentAt else s.lastAuthTime,
                  invalidated := cause.Some? || s.invalidated, reason := if cause.Some? then cause else s.reason)
  {
    hide Retires, Completes;
  }

  lemma StandingNext(es: seq<Event>, i: nat, band: Band)
    requires i < |es| && (es[i].band != band || (!es[i].Auth? && !es[i].Clear?))
    ensures Standing(es, i + 1, band) == Standing(es, i, band)
  {
  }

  /** A freshly authenticated band. */
  lemma ToldFirst(es: seq<Event>, i: nat)
    requires i < |es| && es[i].Auth?
    ensures Told(es, i, i + 1) == NewSession(es[i].m, es[i].band, es[i].key, es[i].now)
  {
  }

  lemma NextOwnBand(es: seq<Event>, i: nat)
    requires i < |es| && AsTold(es, i, es[i].band)
    ensures AsTold(es, i + 1, es[i].band)
  {
    var e, files := es[i], StoreAt(es, i);
    StoreNext(es, i);
    match e
    case Auth(m, band, key, now) => ToldFirst(es, i);
    case Clear(m, band) =>
    case Command(m, band, setActive, io, now, sentAt) => NextUse(es, i);
    case Upload(m, band, now) => NextUse(es, i);
    case Status(m, band) =>
      StandingNext(es, i, band);
      if Standing(es, i, band).Some? { ToldNext(es, Standing(es, i, band).value, i); }
  }

  lemma NextUse(es: seq<Event>, i: nat)
    requires i < |es| && AsTold(es, i, es[i].band) && (es[i].Command? || es[i].Upload?)
    ensures AsTold(es, i + 1, es[i].band)
  {
    var e, files := es[i], StoreAt(es, i);
    StoreNext(es, i);
    StandingNext(es, i, e.band);
    ActiveTold(es, i, e.m, e.band, e.now);
    if e.Command? { LeavesAsTold(es, i); }
    hide Active, Validate, Objection, StoreAt, Told, Standing, Leaves;
    var k := Standing(es, i, e.band);
    if k.Some? {
      ToldNext(es, k.value, i);
    }
  }

  lemma NextOtherBand(es: seq<Event>, i: nat, band: Band)
    requires i < |es| && AsTold(es, i, band) && AsTold(es, i, es[i].band) && band != es[i].band
    ensures AsTold(es, i + 1, band)
  {
    var e, files := es[i], StoreAt(es, i);
    StoreNext(es, i);
    StandingNext(es, i, band);
    if e.Command? {
      ActiveTold(es, i, e.m, e.band, e.now);
      LeavesAsTold(es, i);
    }
    hide Active, Validate, Objection, StoreAt, Told, Standing, Leaves;
    var k := Standing(es, i, band);
    if k.Some? {
      ToldNext(es, k.value, i);
    }
  }

  // ---- every run ----

  /** After every run from an empty store, each state file is exactly what the history of invocations tells:
    * absent unless an authentication stands, otherwise with its key, owner and path, the number of completed
    * commands plus one, the time of its last use, and the last reason it was retired for. */
  lemma {:induction false} StoreIsHistory(es: seq<Event>, i: nat)
    requires i <= |es|
    ensures forall band :: AsTold(es, i, band)
  {
    if i > 0 {
      StoreIsHistory(es, i - 1);
      var e := es[i - 1];
      NextOwnBand(es, i - 1);
      forall band ensures AsTold(es, i, band) {
        if band != e.band { NextOtherBand(es, i - 1, band); }
      }
    } else {
      assert es[..0] == [];
    }
  }

  /** In every run a command leaves exactly when its band was authenticated and not cleared since, nothing
    * retired the session, the owner is the one that authenticated, and at most 180 s have passed since the
    * authentication or the last completed command. It carries the number of completed commands plus one;
    * otherwise it is refused for the timeout first, then the owner, then the last retirement. */
  lemma CommandExact(es: seq<Event>, i: nat)
    requires i < |es| && es[i].Command?
    ensures var e := es[i];
            && Active(StoreAt(es, i), e.m, e.band, e.now) == Answer(es, i, e.m, e.band, e.now)
            && (Active(StoreAt(es, i), e.m, e.band, e.now).Sent? <==> Leaves(es, i))
  {
    StoreIsHistory(es, i);
    ActiveTold(es, i, es[i].m, es[i].band, es[i].now);
    LeavesAsTold(es, i);
  }

  /** On any store, also one no run leaves: what a use of the band meets, and which reason is reported when
    * several checks fail. */
  lemma ActiveExact(files: Files, m: Manifest, band: Band, now: real)
    ensures var r := Active(files, m, band, now);
            && (r == NoSession <==> band !in files)
            && (r == BadFile <==> band in files && files[band].Unreadable?)
            && (r.Sent? <==> band in files && files[band].Readable? && Usable(files[band].session, m, band, now))
            && (r.Sent? ==> r.sequence == files[band].session.nextSequence)
            && (r.SessionInvalidated? ==>
                  var s := files[band].session;
                  r.why == if now - s.lastAuthTime > 180.0 then Some(TIMEOUT)
                           else if s.activeBand != band then Some("band-selection-changed")
                           else if s.ownerPid != m.ownerPid then Some(OWNER) else s.reason)
  {
  }

  /** Authenticated at 0 s, a command at 100000 s by the same owner is refused for the timeout. */
  lemma LateCommandRefused(m: Manifest)
    ensures Active(Run(EMPTY, [Auth(m, "sband", [], 0.0)]).files, m, "sband", 100000.0)
            == SessionInvalidated(Some(TIMEOUT))
  {
    var es := [Auth(m, "sband", [], 0.0), Command(m, "sband", false, Completed, 100000.0, 100000.0)];
    CommandExact(es, 1);
    assert es[..1] == [Auth(m, "sband", [], 0.0)];
  }
}
