/** The operator's secure sessions, one file per band. Two UHF bands share one service id, so
  * authenticating on one must retire the session of the other. */
module SessionStore {
  import opened Wrappers

  type Band = string

  const SERVICE_ID_SBAND: int := 1
  const SERVICE_ID_UHF: int := 2
  const AUTH_TIMEOUT_SEC: real := 180.0

  datatype Session = Session(
    serviceId: int, activeBand: Band, nextSequence: int, lastAuthTime: real, manifestPath: string,
    authorityMode: string, sessionKey: seq<int>, ownerPid: Option<int>, invalidated: bool, reason: Option<string>)

  /** A state file that cannot be read back is skipped by the invalidation loops. */
  datatype Stored = Unreadable | Readable(session: Session)

  type Files = map<Band, Stored>

  datatype Manifest = Manifest(path: string, ownerPid: Option<int>, canonicalBands: seq<Band>)

  function BandServiceId(band: Band): int {
    if band == "sband" then SERVICE_ID_SBAND else SERVICE_ID_UHF
  }

  function Invalidate(s: Session, reason: string): Session {
    s.(invalidated := true, reason := Some(reason))
  }

  function InvalidateStored(f: Stored, reason: string): Stored {
    if f.Unreadable? then f else Readable(Invalidate(f.session, reason))
  }

  /** The checks made on loading; the last one that fails names the reason. */
  function Validate(m: Manifest, band: Band, s: Session, now: real): Session {
    var s1 := if m.ownerPid != s.ownerPid then Invalidate(s, "surface-owner-changed") else s;
    var s2 := if s1.activeBand != band then Invalidate(s1, "band-selection-changed") else s1;
    if now - s2.lastAuthTime > AUTH_TIMEOUT_SEC then Invalidate(s2, "session-timeout") else s2
  }

  function NewSession(m: Manifest, band: Band, key: seq<int>, now: real): Session {
    var service := BandServiceId(band);
    Session(service, band, 1, now, m.path, if service == SERVICE_ID_SBAND then "sband-primary" else band,
            key, m.ownerPid, false, None)
  }

  /** How far a send gets: it may fail before anything leaves, or after the packet has left but before
    * the store is written. */
  datatype Io = Unsent | Lost | Completed

  datatype SendResult = NoSession | BadFile | SessionInvalidated(why: Option<string>) | IoError | Sent(sequence: int)

  datatype StatusResult = NoState | StatusRaised | State(session: Session)

  // ---- what each operation does to the files ----

  predicate Sibling(m: Manifest, band: Band, other: Band) {
    other in m.canonicalBands && other != band && BandServiceId(other) == BandServiceId(band)
  }

  function AfterSiblings(files: Files, m: Manifest, band: Band): Files {
    map b | b in files ::
      if Sibling(m, band, b) then InvalidateStored(files[b], "sibling-band-reauthenticated") else files[b]
  }

  function AfterEstablish(files: Files, m: Manifest, band: Band, key: seq<int>, now: real): Files {
    AfterSiblings(files, m, band)[band := Readable(NewSession(m, band, key, now))]
  }

  /** Still owned, on its band, not retired and used within the last 180 s. */
  predicate Usable(s: Session, m: Manifest, band: Band, now: real) {
    !s.invalidated && s.ownerPid == m.ownerPid && s.activeBand == band && now - s.lastAuthTime <= 180.0
  }

  /** The session a command may use, or why there is none. */
  function Active(files: Files, m: Manifest, band: Band, now: real): SendResult {
    if band !in files then NoSession
    else if files[band].Unreadable? then BadFile
    else
      var s := Validate(m, band, files[band].session, now);
      if s.invalidated then SessionInvalidated(s.reason) else Sent(s.nextSequence)
  }

  function AfterRequire(files: Files, m: Manifest, band: Band, now: real): Files {
    if Active(files, m, band, now).SessionInvalidated?
    then files[band := Readable(Validate(m, band, files[band].session, now))] else files
  }

  function AfterSwitch(files: Files, m: Manifest, band: Band, s: Session): Files {
    (map b | b in files ::
       if b in m.canonicalBands then InvalidateStored(files[b], "band-switch-command-sent") else files[b])
    [band := Readable(Invalidate(s, "band-switch-command-sent"))]
  }

  function AfterSend(files: Files, m: Manifest, band: Band, setActive: bool, io: Io, now: real, sentAt: real): Files {
    if !Active(files, m, band, now).Sent? then AfterRequire(files, m, band, now)
    else if !io.Completed? then files
    else
      var s := Validate(m, band, files[band].session, now);
      var used := s.(nextSequence := s.nextSequence + 1, lastAuthTime := sentAt);
      if setActive then AfterSwitch(files, m, band, used) else files[band := Readable(used)]
  }

  // ---- the store ----

  class Store {
    var files: Files

    constructor ()
      ensures files == map[]
    {
      files := map[];
    }

    /** The loop over the manifest's bands that retires sessions of the same service. */
    method InvalidateSiblingServiceStates(m: Manifest, currentBand: Band)
      modifies this
      ensures files == AfterSiblings(old(files), m, currentBand)
    {
      ghost var before := files;
      for i := 0 to |m.canonicalBands|
        invariant files.Keys == before.Keys
        invariant forall b :: b in files ==>
                    (files[b] == if Sibling(m.(canonicalBands := m.canonicalBands[..i]), currentBand, b)
                                 then InvalidateStored(before[b], "sibling-band-reauthenticated") else before[b])
      {
        var band := m.canonicalBands[i];
        assert m.canonicalBands[..i + 1] == m.canonicalBands[..i] + [band];
        if band == currentBand || BandServiceId(band) != BandServiceId(currentBand) || band !in files {
          continue;
        }
        match files[band] {
          case Unreadable =>
          case Readable(s) => files := files[band := Readable(Invalidate(s, "sibling-band-reauthenticated"))];
        }
      }
      assert m.canonicalBands[..|m.canonicalBands|] == m.canonicalBands;
    }

    /** The last part of establishing a session, once the spacecraft has accepted the response. */
    method Establish(m: Manifest, band: Band, key: seq<int>, now: real)
      modifies this
      ensures files == AfterEstablish(old(files), m, band, key, now)
    {
      var state := NewSession(m, band, key, now);
      InvalidateSiblingServiceStates(m, band);
      files := files[band := Readable(state)];
    }

    method RequireActiveState(m: Manifest, band: Band, now: real) returns (r: SendResult, state: Option<Session>)
      modifies this
      ensures r == Active(old(files), m, band, now) && files == AfterRequire(old(files), m, band, now)
      ensures r.Sent? ==> state == Some(Validate(m, band, old(files)[band].session, now))
      ensures r.Sent? <==> band in old(files) && old(files)[band].Readable?
                           && Usable(old(files)[band].session, m, band, now)
    {
      state := None;
      if band !in files {
        return NoSession, None;
      }
      match files[band] {
        case Unreadable => r := BadFile;
        case Readable(stored) =>
          var s := Validate(m, band, stored, now);
          if s.invalidated {
            files := files[band := Readable(s)];
            r := SessionInvalidated(s.reason);
          } else {
            r, state := Sent(s.nextSequence), Some(s);
          }
      }
    }

    method InvalidateBandSwitchStates(m: Manifest, currentBand: Band, current: Session)
      modifies this
      ensures files == AfterSwitch(old(files), m, currentBand, current)
    {
      ghost var before := files;
      files := files[currentBand := Readable(Invalidate(current, "band-switch-command-sent"))];
      for i := 0 to |m.canonicalBands|
        invariant files.Keys == before.Keys + {currentBand}
        invariant files[currentBand] == Readable(Invalidate(current, "band-switch-command-sent"))
        invariant forall b :: b in before && b != currentBand ==>
                    (files[b] == if b in m.canonicalBands[..i]
                                 then InvalidateStored(before[b], "band-switch-command-sent") else before[b])
      {
        var band := m.canonicalBands[i];
        assert m.canonicalBands[..i + 1] == m.canonicalBands[..i] + [band];
        if band == currentBand || band !in files {
          continue;
        }
        match files[band] {
          case Unreadable =>
          case Readable(s) => files := files[band := Readable(Invalidate(s, "band-switch-command-sent"))];
        }
      }
      assert m.canonicalBands[..|m.canonicalBands|] == m.canonicalBands;
    }

    /** `io` is how far the transmission got; the store is written only after it completed. */
    method SendCommand(m: Manifest, band: Band, setActive: bool, io: Io, now: real, sentAt: real)
      returns (r: SendResult)
      modifies this
      ensures files == AfterSend(old(files), m, band, setActive, io, now, sentAt)
      ensures r == if Active(old(files), m, band, now).Sent? && !io.Completed? then IoError
                   else Active(old(files), m, band, now)
    {
      var state;
      r, state := RequireActiveState(m, band, now);
      if !r.Sent? {
        return;
      }
      if !io.Completed? {
        return IoError;
      }
      var s := state.value.(nextSequence := state.value.nextSequence + 1, lastAuthTime := sentAt);
      if setActive {
        InvalidateBandSwitchStates(m, band, s);
      } else {
        files := files[band := Readable(s)];
      }
    }

    method Clear(band: Band)
      modifies this
      ensures files == old(files) - {band}
    {
      files := files - {band};
    }

    /** The report foretells what a command would meet: the number it would use, or why it would be refused. Apart
      * from the invalidation it found, what it shows is what is stored. */
    method Status(m: Manifest, band: Band, now: real) returns (r: StatusResult)
      ensures Active(files, m, band, now)
           == match r
              case NoState => NoSession
              case StatusRaised => BadFile
              case State(s) => if s.invalidated then SessionInvalidated(s.reason) else Sent(s.nextSequence)
      ensures r.State? ==> band in files && files[band].Readable?
      ensures r.State? ==>
                r.session == if !r.session.invalidated then files[band].session
                             else files[band].session.(invalidated := true, reason := r.session.reason)
    {
      if band !in files {
        return NoState;
      }
      match files[band] {
        case Unreadable => return StatusRaised;
        case Readable(s) => return State(Validate(m, band, s, now));
      }
    }
  }
}
