/**
 The driver of the pre-secret flow (`crates/seed-flow/src/driver.rs`): the loops over the state
 machine, each proved to take the step that `PreSecretFlow` says, and so to make the one run of
 its script.
 */
module PreSecretDriver {
  import opened Wrappers
  import opened Contracts
  import opened Protocol
  import opened PreSecretFlow

  /** The script, and how far it has been read. */
  class World {
    const script: Script
    /** Every event sent to the state machine so far, each under a re-assertion of its own. */
    var sent: seq<Event>
    /** How many error screens and setup screens were answered. */
    var screens: nat
    var setups: nat
    /** Every gate check made so far. */
    var log: seq<Check>

    constructor (script: Script)
      ensures this.script == script && sent == [] && screens == 0 && setups == 0 && log == []
    {
      this.script := script;
      sent, screens, setups, log := [], 0, 0, [];
    }

    ghost predicate Valid()
      reads this
    {
      |sent| <= |script.reasserts|
    }

    /** Where the driver stands with machine `m`. */
    ghost function Here(m: Machine): Spot
      reads this
    {
      Spot(m, sent, screens, setups, log)
    }
  }

  /** `sm.transition` with the watchdog re-asserted. */
  method DriveOnce(sm: StateMachine, w: World, ev: Event) returns (next: AppState)
    requires |w.sent| < |w.script.reasserts|
    modifies sm, w`sent
    ensures sm.View() == Step(old(sm.View()), ev, w.script.reasserts[old(|w.sent|)])
    ensures next == sm.state && w.sent == old(w.sent) + [ev]
  {
    hide Step;
    var t := sm.Transition(ev, w.script.reasserts[|w.sent|]);
    w.sent := w.sent + [ev];
    next := t.next;
  }

  method StepRecoverable(sm: StateMachine, w: World, event: Event) returns (r: Option<AppState>)
    requires w.Valid()
    modifies sm, w`sent, w`screens
    ensures w.Valid()
    ensures var (settled, sent) := Ahead(old(w.sent), old(sm.View()), event, w.script.reasserts, w.script.enters,
                                         old(w.screens));
            && w.sent == sent
            && match settled
               case Waiting => r == None && |w.sent| == |w.script.reasserts|
               case Landed(m, at, screens) =>
                 r == Some(m.state) && sm.View() == m && |w.sent| == at && w.screens == screens
  {
    hide Step, Ahead;
    var ev := event;
    ghost var oks, enters := w.script.reasserts, w.script.enters;
    ghost var all := Ahead(w.sent, sm.View(), ev, oks, enters, w.screens);
    while true
      invariant w.Valid()
      invariant all == Ahead(w.sent, sm.View(), ev, oks, enters, w.screens)
      decreases |oks| - |w.sent|
    {
      OneEvent(w.sent, sm.View(), ev, oks, enters, w.screens);
      if |w.sent| == |w.script.reasserts| {
        return None;
      }
      var next := DriveOnce(sm, w, ev);
      if next.PreSecretError? {
        ev := if w.script.enters(w.screens) then Continue else Escape;
        w.screens := w.screens + 1;
      } else {
        return Some(next);
      }
    }
  }

  lemma OneRound(oks: seq<bool>, at: nat, n: nat)
    requires at <= |oks|
    ensures var r := Forced(oks, at, n);
            if n == 0 then r == WayOut(Some(PreSecretError(ErrorClass.Watchdog)), 0)
            else if |oks| - at < 2 then r == WayOut(None, |oks| - at)
            else if oks[at + 1] then r == WayOut(Some(ExitToFirmware), 2)
            else r == WayOut(Forced(oks, at + 2, n - 1).end, Forced(oks, at + 2, n - 1).sends + 2)
  {
  }

  lemma AlternatingOn(before: seq<Event>, n: nat, k: nat)
    requires k <= 2
    ensures before + Alternating(2 * n) + Alternating(k) == before + Alternating(2 * n + k)
    ensures before + Alternating(0) == before
  {
  }

  /** One round of the exit: a fault, then an Escape. */
  method Round(sm: StateMachine, w: World) returns (next: Option<AppState>)
    requires w.Valid() && !sm.state.IsPostSecret() && !sm.state.IsTerminal()
    modifies sm, w`sent
    ensures w.Valid()
    ensures var left := |w.script.reasserts| - old(|w.sent|);
            if left < 2 then next == None && w.sent == old(w.sent) + Alternating(left)
            else
              && w.sent == old(w.sent) + Alternating(2)
              && next == Some(if w.script.reasserts[|w.sent| - 1] then ExitToFirmware
                              else PreSecretError(ErrorClass.Watchdog))
              && sm.View() == old(sm.View()).(state := next.value)
  {
    hide Step;
    assert Alternating(0) == [] && Alternating(1) == [Fault(ErrorClass.Watchdog)];
    assert Alternating(2) == [Fault(ErrorClass.Watchdog)] + [Escape];
    if |w.sent| == |w.script.reasserts| {
      return None;
    }
    FaultThenEscape(sm.View());
    var _ := DriveOnce(sm, w, Fault(ErrorClass.Watchdog));
    if |w.sent| == |w.script.reasserts| {
      return None;
    }
    var after := DriveOnce(sm, w, Escape);
    next := Some(after);
  }

  /**
   The gate-bypass exit: it ends at the firmware exactly when one of its Escapes is sent
   under a successful re-assertion; when all eight fail it rests on an error screen.
   */
  method ForceExit(sm: StateMachine, w: World) returns (r: Option<AppState>)
    requires w.Valid() && !sm.state.IsPostSecret() && !sm.state.IsTerminal()
    modifies sm, w`sent
    ensures w.Valid()
    ensures var exit := Forced(w.script.reasserts, old(|w.sent|), 8);
            && r == exit.end && w.sent == old(w.sent) + Alternating(exit.sends)
            && (r.Some? ==> sm.View() == old(sm.View()).(state := r.value))
    ensures r == Some(ExitToFirmware) <==> SomeEscapeSent(w.script.reasserts, old(|w.sent|), |w.sent|, 8)
    ensures r.Some? && r != Some(ExitToFirmware) ==> sm.state.PreSecretError? && |w.sent| == old(|w.sent|) + 16
  {
    hide SomeEscapeSent, Forced, Alternating;
    ghost var start, oks := |w.sent|, w.script.reasserts;
    ForcedEnds(oks, start, 8);
    AlternatingOn(w.sent, 0, 0);
    for n := 0 to 8
      invariant |w.sent| == start + 2 * n <= |oks|
      invariant w.sent == old(w.sent) + Alternating(2 * n)
      invariant Forced(oks, start, 8).end == Forced(oks, |w.sent|, 8 - n).end
      invariant Forced(oks, start, 8).sends == 2 * n + Forced(oks, |w.sent|, 8 - n).sends
      invariant sm.View() == if n == 0 then old(sm.View())
                             else old(sm.View()).(state := PreSecretError(ErrorClass.Watchdog))
    {
      OneRound(oks, |w.sent|, 8 - n);
      AlternatingOn(old(w.sent), n, if |oks| - |w.sent| < 2 then |oks| - |w.sent| else 2);
      var next := Round(sm, w);
      if next == None || next == Some(ExitToFirmware) {
        return next;
      }
    }
    OneRound(oks, |w.sent|, 0);
    r := Some(sm.state);
  }

  datatype GateStep = GoOn | Stop(state: AppState)

  /**
   One mandatory gate's verdict driven through the machine. The run goes on only at the
   gate itself after a blocking verdict, or at its successor after an admitting one; at
   the last gate also after a watchdog recovery. Every other landing is forced out.
   */
  method DriveGateStep(sm: StateMachine, w: World, event: Event, retry: AppState, advance: AppState,
                       ghost g: Gate, ghost v: Verdict) returns (r: Option<GateStep>)
    requires w.Valid()
    requires sm.state == GateState(g) == retry && advance == Advance(g) && event == GateEvent(v)
    modifies sm, w`sent, w`screens
    ensures w.Valid()
    ensures var oks, at, m := w.script.reasserts, old(|w.sent|), old(sm.View());
            var driven := old(w.sent) + Events(m, event, oks, at, w.script.enters, old(w.screens));
            match Settle(m, event, oks, at, w.script.enters, old(w.screens))
            case Waiting => r == None && w.sent == driven
            case Landed(m', at', screens) =>
              if m'.state in {retry, advance} then
                r == Some(GoOn) && sm.View() == m' && w.sent == driven && w.screens == screens
              else if m'.state.ExitToFirmware? then r == Some(Stop(m'.state)) && sm.View() == m' && w.sent == driven
              else
                var exit := Forced(oks, at', 8);
                && w.sent == driven + Alternating(exit.sends)
                && (if exit.end.Some? then r == Some(Stop(exit.end.value)) else r == None)
                && (r.Some? ==> sm.View() == m'.(state := exit.end.value))
    ensures r == Some(GoOn) ==>
              && sm.View() == old(sm.View()).(state := sm.state)
              && (sm.state == retry ==> v.BlocksGeneration())
              && (sm.state == retry || sm.state == advance)
              && (sm.state == advance ==>
                    Admits(Check(g, v, 0, 0))
                    || (g == CryptoGate && ReassertFailed(w.script.reasserts, old(|w.sent|), |w.sent|)))
    ensures r.Some? && r.value.Stop? ==> sm.state.ExitToFirmware? || sm.state.PreSecretError?
  {
    hide Settle, ReassertFailed, Step, Events, Forced, SomeEscapeSent;
    GateLanding(g, v, sm.View(), w.script.reasserts, |w.sent|, w.script.enters, w.screens);
    var next := StepRecoverable(sm, w, event);
    if next == None {
      return None;
    }
    if next.value == ExitToFirmware {
      return Some(Stop(next.value));
    }
    if next.value == retry || next.value == advance {
      return Some(GoOn);
    }
    var forced := ForceExit(sm, w);
    if forced == None {
      return None;
    }
    r := Some(Stop(forced.value));
  }

  /** What a step of the run has come to, at machine `m`. */
  ghost predicate Took(w: World, leg: Leg, m: Machine, goesOn: bool, ends: bool)
    reads w
  {
    && w.sent == leg.sent && w.log == leg.log
    && match leg.turn
       case Waits => !goesOn && !ends
       case Ends(m') => !goesOn && ends && m == m'
       case GoesOn(m', screens) => goesOn && m == m' && w.screens == screens
  }

  /** One arm of the mandatory-gate loop: run the check, then drive its verdict. */
  method RunGate(sm: StateMachine, w: World, g: Gate) returns (r: Option<GateStep>, v: Verdict)
    requires w.Valid() && sm.state == GateState(g)
    modifies sm, w`sent, w`screens, w`log
    ensures w.Valid()
    ensures v == Report(w.script, g, old(|w.log|))
    ensures w.log == old(w.log) + [Check(g, v, old(|w.sent|), old(w.screens))]
    ensures Took(w, Next(w.script, old(w.Here(sm.View()))), sm.View(), r == Some(GoOn), r.Some? && r.value.Stop?)
  {
    hide Settle, Step, Events, Forced, Report, ReassertFailed, Alternating, GateEvent, Admits;
    v := Report(w.script, g, |w.log|);
    w.log := w.log + [Check(g, v, |w.sent|, w.screens)];
    r := DriveGateStep(sm, w, GateEvent(v), GateState(g), Advance(g), g, v);
  }

  /** `step_recoverable` outside the gates; where the run goes on, it has landed where it may. */
  method PlainStep(sm: StateMachine, w: World, ev: Event) returns (r: Option<AppState>)
    requires w.Valid() && OnCourse(sm.state) && GateOf(sm.state).None?
    requires ev == NextEvent(w.script, w.Here(sm.View()))
    modifies sm, w`sent, w`screens
    ensures w.Valid() && (r.Some? ==> r.value == sm.state)
    ensures var s := old(w.Here(sm.View()));
            var stays := r.Some? && StaysOn(w.script, s, r.value);
            Took(w, Next(w.script, s), sm.View(), stays, r.Some? && !stays)
  {
    hide Settle, Events, NextEvent, StaysOn;
    r := StepRecoverable(sm, w, ev);
  }

  datatype SetupStep = NoAnswer | Done(result: FlowResult) | WentBack

  /** The setup arm of the loop: the recap of the three verdicts, then the screen. */
  method OnSetup(sm: StateMachine, w: World, p: Option<Verdict>, c: Option<Verdict>, x: Option<Verdict>)
    returns (r: SetupStep)
    requires w.Valid() && sm.state == SetupSelection && Sound(w.script, w.Here(sm.View())) && RecapIs(w.log, p, c, x)
    modifies sm, w`sent, w`screens, w`setups
    ensures w.Valid() && w.setups == old(w.setups) + 1
    ensures var s := old(w.Here(sm.View()));
            var leg := Next(w.script, s);
            && Took(w, leg, sm.View(), r.WentBack?, r.Done?)
            && (r.Done? ==> leg.turn.Ends? && r.result == ResultAt(w.script, s, leg.turn.m))
  {
    hide Next, NextEvent, Sound, Earned, Latest, OutcomeOf;
    SetupIsEarned(w.script, w.Here(sm.View()));
    if p.None? || c.None? || x.None? {
      // The source forces the exit here; no run gets here.
      assert false;
    }
    r := SetupScreen(sm, w, Recap(p.value, c.value, x.value));
  }

  /** The setup screen until it is left: a commit or a failed Back ends the run. */
  method SetupScreen(sm: StateMachine, w: World, recap: Recap) returns (r: SetupStep)
    requires w.Valid() && sm.state == SetupSelection && RecapOf(w.log) == Some(recap)
    modifies sm, w`sent, w`screens, w`setups
    ensures w.Valid() && w.setups == old(w.setups) + 1
    ensures var s := old(w.Here(sm.View()));
            var leg := Next(w.script, s);
            && Took(w, leg, sm.View(), r.WentBack?, r.Done?)
            && (r.Done? ==> leg.turn.Ends? && r.result == ResultAt(w.script, s, leg.turn.m))
  {
    hide Next, RecapOf, OutcomeOf;
    match w.script.setup(w.setups) {
      case Commit(words24, mode, instrument) =>
        var next := PlainStep(sm, w, SetupCommitted(if words24 then TwentyFour else Twelve, mode, instrument));
        w.setups := w.setups + 1;
        if next == None {
          return NoAnswer;
        }
        r := Done(Finish(sm.View(), Some(recap)).(instrument := instrument));
      case GoBack =>
        var next := PlainStep(sm, w, Back);
        w.setups := w.setups + 1;
        if next == None {
          return NoAnswer;
        }
        if next.value != GraphicsAndKeyboardSelfTest {
          return Done(Finish(sm.View(), Some(recap)));
        }
        r := WentBack;
    }
  }

  /** The latest verdicts of three gates, as far as there are any. */
  ghost predicate RecapIs(log: seq<Check>, p: Option<Verdict>, c: Option<Verdict>, x: Option<Verdict>) {
    && p == VerdictOf(Latest(log, PlatformGate))
    && c == VerdictOf(Latest(log, ConsoleGate))
    && x == VerdictOf(Latest(log, CryptoGate))
  }

  lemma NoRecap()
    ensures RecapIs([], None, None, None)
  {
  }

  /** The next check of gate `g` replaces that gate's verdict and no other. */
  lemma RecapNext(log: seq<Check>, k: Check, p: Option<Verdict>, c: Option<Verdict>, x: Option<Verdict>)
    requires RecapIs(log, p, c, x)
    ensures RecapIs(log + [k], if k.gate.PlatformGate? then Some(k.verdict) else p,
                    if k.gate.ConsoleGate? then Some(k.verdict) else c,
                    if k.gate.CryptoGate? then Some(k.verdict) else x)
  {
    forall g { LatestAppend(log, k, g); }
  }

  /** The states of the loop. */
  predicate InLoop(s: AppState) { GateOf(s).Some? || s == SetupSelection }

  /** A step goes on with the run, or ends it. */
  lemma PlayStep(script: Script, s: Spot)
    requires Sound(script, s)
    ensures var leg := Next(script, s);
            if leg.turn.GoesOn? then
              var t := After(s, leg);
              Play(script, s) == Play(script, t) && Sound(script, t) && |s.sent| < |t.sent|
              && (InLoop(s.m.state) ==> InLoop(t.m.state))
            else
              Play(script, s)
              == Course(if leg.turn.Waits? then None else Some(ResultAt(script, s, leg.turn.m)), leg.sent, leg.log)
  {
    hide Next, Stands, Logged, Driven, InOrder, Reached, ResultAt;
    if Next(script, s).turn.GoesOn? {
      NextIsSound(script, s);
      GoesOnFrom(script, s);
    }
  }

  /** The mandatory-gate loop and the setup screen. */
  method RunGates(sm: StateMachine, w: World) returns (r: Option<FlowResult>)
    requires w.Valid() && w.log == [] && sm.state == PlatformAndVirtualizationCheck
    requires Sound(w.script, w.Here(sm.View()))
    modifies sm, w
    ensures Course(r, w.sent, w.log) == Play(w.script, old(w.Here(sm.View())))
  {
    hide Sound, Next, Play, Latest, RecapIs, Report;
    NoRecap();
    var lastPlatform: Option<Verdict> := None;
    var lastConsole: Option<Verdict> := None;
    var lastCrypto: Option<Verdict> := None;
    while true
      invariant w.Valid() && InLoop(sm.state) && Sound(w.script, w.Here(sm.View()))
      invariant Play(w.script, w.Here(sm.View())) == old(Play(w.script, w.Here(sm.View())))
      invariant RecapIs(w.log, lastPlatform, lastConsole, lastCrypto)
      decreases |w.script.reasserts| - |w.sent|
    {
      PlayStep(w.script, w.Here(sm.View()));
      if sm.state == SetupSelection {
        var answer := OnSetup(sm, w, lastPlatform, lastConsole, lastCrypto);
        if answer.NoAnswer? {
          return None;
        }
        if answer.Done? {
          return Some(answer.result);
        }
      } else if GateOf(sm.state).None? {
        // The source ends the run with this state; no run gets here.
        assert false;
      } else {
        ghost var before := w.log;
        var g := GateOf(sm.state).value;
        var step, v := RunGate(sm, w, g);
        RecapNext(before, w.log[|before|], lastPlatform, lastConsole, lastCrypto);
        match g {
          case PlatformGate => lastPlatform := Some(v);
          case ConsoleGate => lastConsole := Some(v);
          case GraphicsGate =>
          case CryptoGate => lastCrypto := Some(v);
        }
        if step == None {
          return None;
        }
        if step.value.Stop? {
          return Some(Finish(sm.View(), None));
        }
      }
    }
  }

  datatype Opening = Unanswered | Over(result: FlowResult) | Onward

  /** The run so far, to the opening's `r`: it is over, or it goes on from here. */
  ghost predicate Opened(r: Opening, all: Course, w: World, m: Machine)
    reads w
  {
    && w.Valid()
    && match r
       case Unanswered => all == Course(None, w.sent, w.log)
       case Over(result) => all == Course(Some(result), w.sent, w.log)
       case Onward => Sound(w.script, w.Here(m)) && all == Play(w.script, w.Here(m))
  }

  /** One screen of the opening, whose event leads to `to` if the run is to go on. */
  method OpeningStep(sm: StateMachine, w: World, ev: Event, to: Option<AppState>) returns (r: Opening)
    requires Sound(w.script, w.Here(sm.View())) && GateOf(sm.state).None? && sm.state != SetupSelection
    requires ev == NextEvent(w.script, w.Here(sm.View()))
    requires forall state :: StaysOn(w.script, w.Here(sm.View()), state) <==> to == Some(state)
    modifies sm, w`sent, w`screens
    ensures Opened(r, old(Play(w.script, w.Here(sm.View()))), w, sm.View()) && (r.Onward? ==> to == Some(sm.state))
  {
    hide Next, NextEvent, Play, Stands, Logged, Driven, InOrder, Reached, OutcomeOf, StaysOn;
    PlayStep(w.script, w.Here(sm.View()));
    var next := PlainStep(sm, w, ev);
    if next == None {
      return Unanswered;
    }
    if next != to {
      return Over(Finish(sm.View(), None));
    }
    r := Onward;
  }

  /** The opening warning and the confirmation of the disabled watchdog, up to the first gate. */
  method RunOpening(sm: StateMachine, w: World) returns (r: Opening)
    requires w.Here(sm.View()) == START
    modifies sm, w`sent, w`screens
    ensures Opened(r, Play(w.script, START), w, sm.View())
    ensures r.Onward? ==> sm.state == PlatformAndVirtualizationCheck
  {
    hide Play, Sound;
    StartIsSound(w.script);
    r := OpeningStep(sm, w, Continue, Some(ReleaseAndEnvironmentWarning));
    if !r.Onward? {
      return;
    }
    match w.script.prepare {
      case Leave =>
        r := OpeningStep(sm, w, Back, None);
        return;
      case Acknowledged =>
        r := OpeningStep(sm, w, Continue, Some(WatchdogDisable));
    }
    if !r.Onward? {
      return;
    }
    r := OpeningStep(sm, w, Continue, Some(PlatformAndVirtualizationCheck));
  }

  /**
   `run_pre_secret_flow` makes the one run of its script: the result, every event sent and every
   check made are those of `Flow`. So what is proved of `Flow` is said here of the method: every
   run is kept in order, a handoff was earned at the setup screen it came from and carries what
   was committed and reported, an all-clear run hands off, and leaving the first screen checks
   nothing.
   */
  method RunPreSecretFlow(w: World) returns (r: Option<FlowResult>)
    requires w.sent == [] && w.screens == 0 && w.setups == 0 && w.log == []
    modifies w
    ensures Course(r, w.sent, w.log) == Flow(w.script)
    ensures Kept(w.script, Course(r, w.sent, w.log))
    ensures r.Some? && r.value.outcome.HandoffToSecretPhase? ==>
              && (exists s :: HandsOff(w.script, s, Course(r, w.sent, w.log)))
              && exists n, p, k, x :: Carries(w.script, Course(r, w.sent, w.log), n, p, k, x)
    ensures AllClear(w.script) ==> r.Some? && r.value.outcome.HandoffToSecretPhase?
    ensures w.script.prepare.Leave? ==> w.log == []
  {
    hide Play, Sound, Kept, HandsOff, Carries, AllClear;
    FlowIsKept(w.script);
    if IsHandoff(Flow(w.script)) {
      var s := FlowHandsOff(w.script);
      var n, p, k, x := HandoffCarries(w.script);
    }
    if AllClear(w.script) { AllClearHandsOff(w.script); }
    if w.script.prepare.Leave? { LeavingChecksNothing(w.script); }
    if !w.script.disableOk {
      return Some(FlowResult(FreshMachine, ExitedToFirmware, Both, None));
    }
    var sm := new StateMachine();
    var opening := RunOpening(sm, w);
    match opening
    case Unanswered => r := None;
    case Over(result) => r := Some(result);
    case Onward => r := RunGates(sm, w);
  }
}
