/** The simulator object: its fields, the steps that change them, and the requests it serves. */
module AdcsModel {
  import opened AdcsSim
  import AdcsPointing

  const VERSION: nat := 1
  const STATE: nat := 20
  const MODE: nat := 21
  const TARGET: nat := 22
  const CALIBRATE: nat := 23
  const RESET: nat := 24

  datatype ResultCode = Ok | InvalidRequest

  datatype Request = Request(version: nat, service: nat, sequence: nat, mode: nat, sensorId: nat, target: Quat)

  /** The part of the state a reply carries. */
  datatype Shown = Shown(q: Quat, omega: Rates, mag: Rates, pointingErrorDeg: real, mode: nat, sensorValid: nat)

  datatype Reply = Reply(version: nat, service: nat, sequence: nat, result: ResultCode, state: Shown)

  const BLANK: Shown := Shown(Quat(0.0, 0.0, 0.0, 0.0), Rates(0.0, 0.0, 0.0), Rates(0.0, 0.0, 0.0), 0.0, 0, 0)

  function ShownOf(s: State): Shown {
    Shown(s.q, s.omega, s.mag, s.pointingErrorDeg, s.mode, s.sensorValid)
  }

  /** The reply to a request: it echoes service and number, and shows the state on OK only. */
  function ReplyTo(r: Request, result: ResultCode, s: State): Reply {
    Reply(VERSION, r.service, r.sequence, result, if result.Ok? then ShownOf(s) else BLANK)
  }

  function Defaults(m: Math, now: real): State
    requires m.pi != 0.0
  {
    Refreshed(m, Blank(now))
  }

  function Blank(now: real): State {
    AdcsSim.State(IDENTITY, Rates(0.12, -0.08, 0.06), Rates(0.21, -0.04, 0.44), 0.0, 0, 1, IDENTITY, false,
                  0.0, now, now, false, now, 0)
  }

  /** The time a step sees: the manual clock once it is active. */
  function Now(s: State, clock: real): real {
    if s.manualTimeActive then s.manualNow else clock
  }

  function Stepped(m: Math, s: State, clock: real): State
    requires m.pi != 0.0
  {
    StepAt(m, s, Now(s, clock))
  }

  function ModeSet(s: State, mode: nat): State {
    s.(elapsed := if mode == 2 && s.mode != 2 then 0.0 else s.elapsed, mode := mode)
  }

  /** A request served with the clock reading `first` on arrival and `second` after it was applied. */
  function Served(m: Math, s: State, r: Request, first: real, second: real): (State, ResultCode)
    requires m.pi != 0.0
  {
    var t := Stepped(m, s, first);
    if r.version != VERSION then (t, InvalidRequest)
    else if r.service == STATE then (Stepped(m, t, second), Ok)
    else if r.service == MODE then
      if r.mode > 2 then (t, InvalidRequest) else (Stepped(m, ModeSet(t, r.mode), second), Ok)
    else if r.service == TARGET then
      (Stepped(m, t.(target := Normalize(m, r.target), externalTargetActive := true), second), Ok)
    else if r.service == CALIBRATE then
      if r.sensorId > 2 then (t, InvalidRequest) else (t.(sensorValid := 1), Ok)
    else if r.service == RESET then (Defaults(m, second), Ok)
    else (t, InvalidRequest)
  }

  lemma PointingParts(m: Math, s: State, dt: real, desired: Quat, q: Quat)
    requires dt != 0.0 && desired == DesiredQuaternion(m, s.elapsed + dt) && q == Approach(m, s.q, desired, dt)
    ensures PointingStep(m, s, dt) == s.(elapsed := s.elapsed + dt, q := q, omega := AngularVelocity(m, s.q, q, dt),
                                         target := if s.externalTargetActive then s.target else desired)
  {
  }

  class AdcsSimModel {
    const m: Math
    var q: Quat
    var omega: Rates
    var mag: Rates
    var pointingErrorDeg: real
    var mode: nat
    var sensorValid: nat
    var target: Quat
    var externalTargetActive: bool
    var elapsed: real
    var reference: real
    var lastUpdate: real
    var manualTimeActive: bool
    var manualNow: real
    var droppedStateReplies: nat

    function View(): State
      reads this
    {
      AdcsSim.State(q, omega, mag, pointingErrorDeg, mode, sensorValid, target, externalTargetActive, elapsed,
                    reference, lastUpdate, manualTimeActive, manualNow, droppedStateReplies)
    }

    constructor (math: Math, now: real)
      requires math.pi != 0.0
      ensures m == math && View() == Defaults(math, now)
    {
      m := math;
      q, target := IDENTITY, IDENTITY;
      omega, mag, pointingErrorDeg := Rates(0.12, -0.08, 0.06), Rates(0.21, -0.04, 0.44), 0.0;
      mode, sensorValid, externalTargetActive := 0, 1, false;
      elapsed, reference, lastUpdate, manualTimeActive, manualNow := 0.0, now, now, false, now;
      droppedStateReplies := 0;
      new;
      RefreshDerivedState();
    }

    method LoadDefaults(now: real)
      requires m.pi != 0.0
      modifies this
      ensures View() == Defaults(m, now)
    {
      hide Refreshed;
      ClearState();
      ClearClock(now);
      RefreshDerivedState();
    }

    method ClearState()
      modifies this`q, this`omega, this`mag, this`pointingErrorDeg, this`mode, this`sensorValid, this`target,
               this`externalTargetActive
      ensures q == target == IDENTITY && omega == Rates(0.12, -0.08, 0.06) && mag == Rates(0.21, -0.04, 0.44)
      ensures pointingErrorDeg == 0.0 && mode == 0 && sensorValid == 1 && !externalTargetActive
    {
      q, omega, mag := IDENTITY, Rates(0.12, -0.08, 0.06), Rates(0.21, -0.04, 0.44);
      pointingErrorDeg, mode, sensorValid := 0.0, 0, 1;
      target, externalTargetActive := IDENTITY, false;
    }

    method ClearClock(now: real)
      modifies this`elapsed, this`reference, this`lastUpdate, this`manualTimeActive, this`manualNow,
               this`droppedStateReplies
      ensures elapsed == 0.0 && reference == lastUpdate == manualNow == now && !manualTimeActive
              && droppedStateReplies == 0
    {
      elapsed, reference, lastUpdate, manualTimeActive, manualNow := 0.0, now, now, false, now;
      droppedStateReplies := 0;
    }

    method RefreshDerivedState()
      requires m.pi != 0.0
      modifies this`mag, this`pointingErrorDeg
      ensures View() == Refreshed(m, old(View()))
    {
      mag := Rates(0.21 + omega.x * 0.1, -0.04 + omega.y * 0.1, 0.44 + omega.z * 0.1);
      pointingErrorDeg := PointingErrorDeg(m, q, target);
    }

    method UpdateIdleDynamics(now: real)
      modifies this`omega, this`q
      ensures View() == IdleStep(m, old(View()), now)
    {
      omega := Rates(0.12 + Noise(m, 0, 0.002, reference, now), -0.08 + Noise(m, 1, 0.002, reference, now),
                     0.06 + Noise(m, 2, 0.002, reference, now));
      q := Quat(1.0, Noise(m, 3, 0.0008, reference, now), Noise(m, 4, 0.0008, reference, now),
                Noise(m, 5, 0.0008, reference, now));
      q := Normalize(m, q);
    }

    method UpdateDetumbleDynamics(dt: real, now: real)
      modifies this`omega, this`q, this`elapsed
      ensures View() == DetumbleStep(m, old(View()), dt, now)
    {
      hide Blend, Forcing, DetumbleAttitude, Normalize;
      var s := View();
      var decay := m.exp(-dt / 10.0);
      var x := Blend(omega.x, decay, Forcing(m, s, 0.0012, 0.0, 6, now));
      var y := Blend(omega.y, decay, Forcing(m, s, 0.0010, 1.0, 7, now));
      var z := Blend(omega.z, decay, Forcing(m, s, 0.0008, 2.0, 8, now));
      omega := Rates(x, y, z);
      q := DetumbleAttitude(m, s, 1.0 - decay, now);
      q := Normalize(m, q);
      elapsed := elapsed + dt;
    }

    method UpdatePointingDynamics(dt: real)
      requires dt > 0.0
      modifies this`omega, this`q, this`elapsed, this`target
      ensures View() == PointingStep(m, old(View()), dt)
      ensures var d := DesiredQuaternion(m, elapsed);
              Lawful(m) && Unit(old(q)) && -1.0 < Dot(old(q), d) < 1.0 ==> Dot(q, d) > Dot(old(q), d)
    {
      hide DesiredQuaternion, Approach, AngularVelocity, Lawful, Unit, Dot;
      var s := View();
      elapsed := elapsed + dt;
      var desired := DesiredQuaternion(m, elapsed);
      q := Approach(m, s.q, desired, dt);
      omega := AngularVelocity(m, s.q, q, dt);
      if !externalTargetActive {
        target := desired;
      }
      PointingParts(m, s, dt, desired, q);
      if Lawful(m) && Unit(s.q) && -1.0 < Dot(s.q, desired) < 1.0 {
        AdcsPointing.PointingTurnsTowards(m, s, dt);
      }
    }

    method StepDynamicsAt(now: real)
      requires m.pi != 0.0
      modifies this
      ensures View() == StepAt(m, old(View()), now)
    {
      hide DetumbleStep, PointingStep, IdleStep, Refreshed;
      if now < lastUpdate {
        return;
      }
      var dt := now - lastUpdate;
      if dt <= 0.0 {
        RefreshDerivedState();
        return;
      }
      if mode == 1 {
        UpdateDetumbleDynamics(dt, now);
      } else if mode == 2 {
        UpdatePointingDynamics(dt);
      } else {
        UpdateIdleDynamics(now);
      }
      lastUpdate := now;
      RefreshDerivedState();
    }

    method ProcessCspRequest(r: Request, first: real, second: real) returns (result: ResultCode, reply: Reply)
      requires m.pi != 0.0
      modifies this
      ensures (View(), result) == Served(m, old(View()), r, first, second)
      ensures reply == ReplyTo(r, result, View())
    {
      result := Serve(r, first, second);
      reply := Reply(VERSION, r.service, r.sequence, result, BLANK);
      if result.Ok? {
        reply := reply.(state := Shown(q, omega, mag, pointingErrorDeg, mode, sensorValid));
      }
    }

    /** The switch over the services. */
    method Serve(r: Request, first: real, second: real) returns (result: ResultCode)
      requires m.pi != 0.0
      modifies this
      ensures (View(), result) == Served(m, old(View()), r, first, second)
    {
      StepDynamicsAt(Now(View(), first));
      if r.version != VERSION {
        return InvalidRequest;
      }
      result := Ok;
      if r.service == STATE {
        StepDynamicsAt(Now(View(), second));
      } else if r.service == MODE {
        if r.mode > 2 {
          return InvalidRequest;
        }
        if r.mode == 2 && mode != 2 {
          elapsed := 0.0;
        }
        mode := r.mode;
        StepDynamicsAt(Now(View(), second));
      } else if r.service == TARGET {
        target := r.target;
        externalTargetActive := true;
        target := Normalize(m, target);
        StepDynamicsAt(Now(View(), second));
      } else if r.service == CALIBRATE {
        if r.sensorId > 2 {
          return InvalidRequest;
        }
        sensorValid := 1;
      } else if r.service == RESET {
        LoadDefaults(second);
      } else {
        return InvalidRequest;
      }
    }

    method AdvanceForTest(delta: real)
      requires m.pi != 0.0
      modifies this
      ensures View() == Advanced(m, old(View()), delta)
    {
      if !manualTimeActive {
        manualNow := lastUpdate;
        manualTimeActive := true;
      }
      manualNow := manualNow + delta;
      assert View() == Forwarded(old(View()), delta);
      StepDynamicsAt(manualNow);
    }
  }

  /** The manual clock, started from the last update, moved on by delta. */
  function Forwarded(s: State, delta: real): State {
    s.(manualTimeActive := true, manualNow := (if s.manualTimeActive then s.manualNow else s.lastUpdate) + delta)
  }

  function Advanced(m: Math, s: State, delta: real): State
    requires m.pi != 0.0
  {
    StepAt(m, Forwarded(s, delta), Forwarded(s, delta).manualNow)
  }

  // ---- whole runs ----

  datatype Event =
    | Serve(request: Request, first: real, second: real)
    | Advance(delta: real)
    | RestartPass(clock: real)
    | Seed(rates: Rates, clock: real)

  function Apply(m: Math, s: State, e: Event): State
    requires m.pi != 0.0
  {
    match e
    case Serve(r, first, second) => Served(m, s, r, first, second).0
    case Advance(delta) => Advanced(m, s, delta)
    case RestartPass(clock) => Refreshed(m, Stepped(m, s, clock).(elapsed := 0.0))
    case Seed(rates, clock) => Refreshed(m, Stepped(m, s, clock).(omega := rates))
  }

  function Run(m: Math, s: State, es: seq<Event>): State
    requires m.pi != 0.0
    decreases es
  {
    if es == [] then s else Run(m, Apply(m, s, es[0]), es[1..])
  }

  lemma ServedKeepsUnit(m: Math, s: State, r: Request, first: real, second: real)
    requires Lawful(m) && UnitState(s)
    ensures UnitState(Served(m, s, r, first, second).0)
  {
    StepKeepsUnit(m, s, Now(s, first));
    var t := Stepped(m, s, first);
    if r.service == STATE {
      StepKeepsUnit(m, t, Now(t, second));
    } else if r.service == MODE {
      var u := ModeSet(t, r.mode);
      StepKeepsUnit(m, u, Now(u, second));
    } else if r.service == TARGET {
      NormalizeUnit(m, r.target);
      var u := t.(target := Normalize(m, r.target), externalTargetActive := true);
      StepKeepsUnit(m, u, Now(u, second));
    }
  }

  lemma ApplyKeepsUnit(m: Math, s: State, e: Event)
    requires Lawful(m) && UnitState(s)
    ensures UnitState(Apply(m, s, e))
  {
    match e
    case Serve(r, first, second) => ServedKeepsUnit(m, s, r, first, second);
    case Advance(delta) => StepKeepsUnit(m, Forwarded(s, delta), Forwarded(s, delta).manualNow);
    case RestartPass(clock) => StepKeepsUnit(m, s, Now(s, clock));
    case Seed(rates, clock) => StepKeepsUnit(m, s, Now(s, clock));
  }

  /** Every run keeps attitude and target at norm one, and so never needs the pointing error's clamp. */
  lemma {:induction false} RunKeepsUnit(m: Math, s: State, es: seq<Event>)
    requires Lawful(m) && UnitState(s)
    ensures var t := Run(m, s, es);
            UnitState(t) && Clamp(Dot(t.q, t.target), 1.0) == Dot(t.q, t.target)
    decreases es
  {
    DotOfUnits(s.q, s.target);
    if es != [] {
      ApplyKeepsUnit(m, s, es[0]);
      RunKeepsUnit(m, Apply(m, s, es[0]), es[1..]);
    }
  }

  lemma ServedKeepsRates(m: Math, s: State, r: Request, first: real, second: real)
    requires Lawful(m) && Within(s.omega, ENVELOPE)
    ensures Within(Served(m, s, r, first, second).0.omega, ENVELOPE)
  {
    StepKeepsRates(m, s, Now(s, first));
    var t := Stepped(m, s, first);
    if r.service == STATE {
      StepKeepsRates(m, t, Now(t, second));
    } else if r.service == MODE {
      var u := ModeSet(t, r.mode);
      StepKeepsRates(m, u, Now(u, second));
    } else if r.service == TARGET {
      var u := t.(target := Normalize(m, r.target), externalTargetActive := true);
      StepKeepsRates(m, u, Now(u, second));
    }
  }

  lemma ApplyKeepsRates(m: Math, s: State, e: Event)
    requires Lawful(m) && Within(s.omega, ENVELOPE) && !e.Seed?
    ensures Within(Apply(m, s, e).omega, ENVELOPE)
  {
    match e
    case Serve(r, first, second) => ServedKeepsRates(m, s, r, first, second);
    case Advance(delta) => StepKeepsRates(m, Forwarded(s, delta), Forwarded(s, delta).manualNow);
    case RestartPass(clock) => StepKeepsRates(m, s, Now(s, clock));
  }

  /** Unless a scenario seeds other rates, every run stays in the idle envelope. */
  lemma {:induction false} RunKeepsRates(m: Math, s: State, es: seq<Event>)
    requires Lawful(m) && Within(s.omega, ENVELOPE) && forall e :: e in es ==> !e.Seed?
    ensures Within(Run(m, s, es).omega, ENVELOPE)
    decreases es
  {
    if es != [] {
      assert es[0] in es;
      ApplyKeepsRates(m, s, es[0]);
      RunKeepsRates(m, Apply(m, s, es[0]), es[1..]);
    }
  }

  lemma DefaultsGood(m: Math, now: real)
    requires m.pi != 0.0
    ensures UnitState(Defaults(m, now)) && Within(Defaults(m, now).omega, ENVELOPE)
  {
  }

  /** From power-up: every run keeps unit quaternions, and bounded rates unless they are seeded. */
  lemma FromDefaults(m: Math, now: real, es: seq<Event>)
    requires Lawful(m)
    ensures UnitState(Run(m, Defaults(m, now), es))
    ensures (forall e :: e in es ==> !e.Seed?) ==> Within(Run(m, Defaults(m, now), es).omega, ENVELOPE)
  {
    hide Run, Defaults, UnitState, Within;
    DefaultsGood(m, now);
    var s := Defaults(m, now);
    RunKeepsUnit(m, s, es);
    if forall e :: e in es ==> !e.Seed? {
      RunKeepsRates(m, s, es);
    }
  }

  // ---- the target and the pass ----

  /** The request is one the service takes. */
  predicate Taken(r: Request) {
    r.version == VERSION && (r.service == MODE ==> r.mode <= 2) && (r.service == CALIBRATE ==> r.sensorId <= 2)
      && STATE <= r.service <= RESET
  }

  /** Exactly such requests are answered OK; any other only lets the time pass. */
  lemma RefusedExactly(m: Math, s: State, r: Request, first: real, second: real)
    requires m.pi != 0.0
    ensures Served(m, s, r, first, second).1.Ok? <==> Taken(r)
    ensures !Taken(r) ==> Served(m, s, r, first, second).0 == Stepped(m, s, first)
  {
    hide StepAt, Defaults, Normalize;
  }

  predicate Sets(e: Event, service: nat) {
    e.Serve? && Taken(e.request) && e.request.service == service
  }

  lemma StepKeepsTarget(m: Math, s: State, now: real)
    requires m.pi != 0.0
    ensures var t := StepAt(m, s, now);
            t.externalTargetActive == s.externalTargetActive && (s.externalTargetActive ==> t.target == s.target)
  {
    hide Noise, Normalize, DesiredQuaternion, Approach, AngularVelocity, Blend, Forcing, DetumbleAttitude,
      PointingErrorDeg, IdleAttitude;
  }

  lemma ApplyKeepsTarget(m: Math, s: State, e: Event)
    requires m.pi != 0.0 && s.externalTargetActive && !Sets(e, TARGET) && !Sets(e, RESET)
    ensures Apply(m, s, e).externalTargetActive && Apply(m, s, e).target == s.target
  {
    hide StepAt, Defaults, Normalize, PointingErrorDeg;
    match e
    case Serve(r, first, second) =>
      StepKeepsTarget(m, s, Now(s, first));
      var t := Stepped(m, s, first);
      StepKeepsTarget(m, t, Now(t, second));
      var u := ModeSet(t, r.mode);
      StepKeepsTarget(m, u, Now(u, second));
    case Advance(delta) => StepKeepsTarget(m, Forwarded(s, delta), Forwarded(s, delta).manualNow);
    case RestartPass(clock) => StepKeepsTarget(m, s, Now(s, clock));
    case Seed(rates, clock) => StepKeepsTarget(m, s, Now(s, clock));
  }

  /** A target set from outside stands, normalised, through every run until the next one or a reset, whatever the
    * modes do in between. */
  lemma TargetStands(m: Math, s: State, r: Request, first: real, second: real, es: seq<Event>)
    requires m.pi != 0.0 && Taken(r) && r.service == TARGET
    requires forall e :: e in es ==> !Sets(e, TARGET) && !Sets(e, RESET)
    ensures Run(m, s, [Serve(r, first, second)] + es).target == Normalize(m, r.target)
  {
    hide StepAt, Defaults, Normalize, PointingErrorDeg, Run;
    var t := Stepped(m, s, first);
    var u := t.(target := Normalize(m, r.target), externalTargetActive := true);
    StepKeepsTarget(m, u, Now(u, second));
    RunFirst(m, s, Serve(r, first, second), es);
    RunKeepsTarget(m, Apply(m, s, Serve(r, first, second)), es);
  }

  lemma RunFirst(m: Math, s: State, e: Event, es: seq<Event>)
    requires m.pi != 0.0
    ensures Run(m, s, [e] + es) == Run(m, Apply(m, s, e), es)
  {
    assert ([e] + es)[1..] == es;
  }

  lemma {:induction false} RunKeepsTarget(m: Math, s: State, es: seq<Event>)
    requires m.pi != 0.0 && s.externalTargetActive && forall e :: e in es ==> !Sets(e, TARGET) && !Sets(e, RESET)
    ensures Run(m, s, es).target == s.target
    decreases es
  {
    hide Apply;
    if es != [] {
      assert es[0] in es;
      ApplyKeepsTarget(m, s, es[0]);
      RunKeepsTarget(m, Apply(m, s, es[0]), es[1..]);
    }
  }

  /** The pass clock runs with the time in the moving modes. */
  lemma StepKeepsPass(m: Math, s: State, now: real)
    requires m.pi != 0.0
    ensures var t := StepAt(m, s, now);
            && t.mode == s.mode && t.lastUpdate == (if now < s.lastUpdate then s.lastUpdate else now)
            && t.elapsed == s.elapsed + if s.mode == 1 || s.mode == 2 then t.lastUpdate - s.lastUpdate else 0.0
  {
    hide Noise, Normalize, DesiredQuaternion, Approach, AngularVelocity, Blend, Forcing, DetumbleAttitude,
      PointingErrorDeg, IdleAttitude;
  }

  /** Goes on pointing: nothing leaves the mode, resets or restarts the pass. */
  predicate StaysPointing(e: Event) {
    !e.RestartPass? && !Sets(e, RESET) && (Sets(e, MODE) ==> e.request.mode == 2)
  }

  lemma ApplyKeepsPass(m: Math, s: State, e: Event)
    requires m.pi != 0.0 && s.mode == 2 && StaysPointing(e)
    ensures var t := Apply(m, s, e); t.mode == 2 && t.elapsed - t.lastUpdate == s.elapsed - s.lastUpdate
  {
    hide StepAt, Defaults, Normalize, PointingErrorDeg;
    match e
    case Serve(r, first, second) =>
      StepKeepsPass(m, s, Now(s, first));
      var t := Stepped(m, s, first);
      StepKeepsPass(m, t, Now(t, second));
      var u := ModeSet(t, r.mode);
      StepKeepsPass(m, u, Now(u, second));
      var v := t.(target := Normalize(m, r.target), externalTargetActive := true);
      StepKeepsPass(m, v, Now(v, second));
    case Advance(delta) => StepKeepsPass(m, Forwarded(s, delta), Forwarded(s, delta).manualNow);
    case Seed(rates, clock) => StepKeepsPass(m, s, Now(s, clock));
  }

  lemma {:induction false} RunKeepsPass(m: Math, s: State, es: seq<Event>)
    requires m.pi != 0.0 && s.mode == 2 && forall e :: e in es ==> StaysPointing(e)
    ensures var t := Run(m, s, es); t.mode == 2 && t.elapsed - t.lastUpdate == s.elapsed - s.lastUpdate
    decreases es
  {
    hide Apply, StaysPointing;
    if es != [] {
      assert es[0] in es;
      ApplyKeepsPass(m, s, es[0]);
      RunKeepsPass(m, Apply(m, s, es[0]), es[1..]);
    }
  }

  /** Ordered into pointing from another mode, the simulator starts a new pass: while it goes on pointing, the pass
    * clock reads the time since the order. */
  lemma PassStartsOnOrder(m: Math, s: State, r: Request, first: real, second: real, es: seq<Event>)
    requires m.pi != 0.0 && Taken(r) && r.service == MODE && r.mode == 2 && s.mode != 2
    requires forall e :: e in es ==> StaysPointing(e)
    ensures var ordered := Stepped(m, s, first).lastUpdate; var t := Run(m, s, [Serve(r, first, second)] + es);
            t.mode == 2 && t.elapsed == t.lastUpdate - ordered
  {
    hide StepAt, Defaults, Normalize, PointingErrorDeg, Run, StaysPointing;
    StepKeepsPass(m, s, Now(s, first));
    var t := Stepped(m, s, first);
    var u := ModeSet(t, 2);
    StepKeepsPass(m, u, Now(u, second));
    RunFirst(m, s, Serve(r, first, second), es);
    RunKeepsPass(m, Apply(m, s, Serve(r, first, second)), es);
  }
}
