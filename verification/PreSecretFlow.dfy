/**
 The pre-secret flow (`crates/seed-flow/src/driver.rs`) on values: what the driver does next,
 and what the runs come to.

 Everything outside the driver is a `Script`: what each watchdog re-assertion returns, which
 key is pressed on each error screen, what each gate check reports, and what the user chooses
 on each screen. Only the re-assertions are a finite sequence; a run that asks for one more
 has not ended, and has no result. `Flow` is the one run a script makes; the theorems hold of
 every finished run and of every unfinished one.
 */
module PreSecretFlow {
  import opened Wrappers
  import opened Contracts
  import opened Protocol

  // ------------------------------------------------------------------ the script

  datatype CheckOutcome = Clean | Failed | Inconclusive

  /** What a gate check reports; the class matters only when the outcome is not clean. */
  datatype Verdict = Verdict(outcome: CheckOutcome, errorClass: ErrorClass) {
    predicate BlocksGeneration() { !outcome.Clean? }
  }

  datatype Gate = PlatformGate | ConsoleGate | GraphicsGate | CryptoGate

  /** One gate check that ran, and how many events and error screens preceded it. */
  datatype Check = Check(gate: Gate, verdict: Verdict, at: nat, screens: nat)

  datatype DeviceAnswer = PassedOrSkipped | TestFailed | NotMyDisplay

  datatype GraphicsAnswer = Refused | Available(device: DeviceAnswer)

  datatype PrepareAnswer = Acknowledged | Leave

  datatype SetupAnswer = Commit(words24: bool, mode: EntropyMode, instrument: Instrument) | GoBack

  /** `enters(i)`: the `i`th error screen is left by Enter, not Escape; reports and choices by their number. */
  datatype Script = Script(
    disableOk: bool, reasserts: seq<bool>, enters: nat -> bool,
    platform: nat -> Verdict, console: nat -> Verdict, graphics: nat -> GraphicsAnswer, crypto: nat -> CheckOutcome,
    prepare: PrepareAnswer, setup: nat -> SetupAnswer)

  function GraphicsVerdict(a: GraphicsAnswer): Verdict {
    Verdict(if a == Available(PassedOrSkipped) then Clean else CheckOutcome.Failed, GraphicsOrKeyboard)
  }

  /** What gate `g` reports at the `n`th check of the run. */
  function Report(w: Script, g: Gate, n: nat): Verdict {
    match g
    case PlatformGate => w.platform(n)
    case ConsoleGate => w.console(n)
    case GraphicsGate => GraphicsVerdict(w.graphics(n))
    case CryptoGate => Verdict(w.crypto(n), Cryptographic)
  }

  // ---------------------------------------------- out of the error screens

  /** Where a driven event settles, and how far the two scripts were read. */
  datatype Settled = Waiting | Landed(m: Machine, at: nat, screens: nat)

  /** `step_recoverable`: drive `ev`, then Enter or Escape at every error screen it lands on. */
  function Settle(m: Machine, ev: Event, oks: seq<bool>, at: nat, enters: nat -> bool, screens: nat): (r: Settled)
    requires at <= |oks|
    ensures r.Landed? ==> at < r.at <= |oks| && screens <= r.screens && !r.m.state.PreSecretError?
    decreases |oks| - at
  {
    if at == |oks| then Waiting
    else
      var m' := Step(m, ev, oks[at]);
      if m'.state.PreSecretError? then
        Settle(m', if enters(screens) then Continue else Escape, oks, at + 1, enters, screens + 1)
      else Landed(m', at + 1, screens)
  }

  /** Some re-assertion numbered `from..to` failed. */
  ghost predicate ReassertFailed(oks: seq<bool>, from: nat, to: nat) {
    exists j :: from <= j < to && j < |oks| && !oks[j]
  }

  lemma StepAtError(m: Machine, enter: bool, ok: bool)
    requires m.state.PreSecretError?
    ensures var m' := Step(m, if enter then Continue else Escape, ok);
            && m' == m.(state := m'.state)
            && m'.state == if !ok then PreSecretError(ErrorClass.Watchdog)
                           else if enter then Resume(m.state.class_) else ExitToFirmware
  {
  }

  /**
   From an error screen: Escape (last key) exits; Enter resumes where the error's class
   says, unless a re-assertion failed on the way, and then always at the setup screen.
   */
  lemma {:induction false} ErrorScreenLanding(m: Machine, oks: seq<bool>, at: nat, enters: nat -> bool, screens: nat)
    requires m.state.PreSecretError? && at <= |oks|
    ensures var ev := if enters(screens) then Continue else Escape;
            var r := Settle(m, ev, oks, at, enters, screens + 1);
            r.Landed? ==>
              && r.m == m.(state := r.m.state) && screens < r.screens
              && r.m.state == (if !enters(r.screens - 1) then ExitToFirmware
                               else if ReassertFailed(oks, at, r.at) then SetupSelection
                               else Resume(m.state.class_))
    decreases |oks| - at
  {
    hide Step;
    if at < |oks| {
      var ev := if enters(screens) then Continue else Escape;
      StepAtError(m, enters(screens), oks[at]);
      if !oks[at] { ErrorScreenLanding(Step(m, ev, oks[at]), oks, at + 1, enters, screens + 1); }
    }
  }

  function GateState(g: Gate): AppState {
    match g
    case PlatformGate => PlatformAndVirtualizationCheck
    case ConsoleGate => ConsoleTopologyCheck
    case GraphicsGate => GraphicsAndKeyboardSelfTest
    case CryptoGate => CryptographicSelfTest
  }

  /** The state after gate `g`. */
  function Advance(g: Gate): AppState {
    match g
    case PlatformGate => ConsoleTopologyCheck
    case ConsoleGate => GraphicsAndKeyboardSelfTest
    case GraphicsGate => CryptographicSelfTest
    case CryptoGate => SetupSelection
  }

  function GateEvent(v: Verdict): Event {
    if v.BlocksGeneration() then CheckFailed(v.errorClass, ReturnToMenu) else CheckPassed
  }

  lemma StepAtGate(g: Gate, v: Verdict, m: Machine, ok: bool)
    requires m.state == GateState(g)
    ensures var m' := Step(m, GateEvent(v), ok);
            && m' == m.(state := m'.state)
            && m'.state == if !ok then PreSecretError(ErrorClass.Watchdog)
                           else if v.BlocksGeneration() then PreSecretError(v.errorClass) else Advance(g)
  {
  }

  /**
   Exactly where a gate's verdict lands: out to the firmware if the last error screen was
   left by Escape; else at the setup screen if a re-assertion failed in the step; else at
   the next state for a clean verdict and where the error class resumes for any other.
   */
  lemma GateLanding(g: Gate, v: Verdict, m: Machine, oks: seq<bool>, at: nat, enters: nat -> bool, screens: nat)
    requires m.state == GateState(g) && at <= |oks|
    ensures var r := Settle(m, GateEvent(v), oks, at, enters, screens);
            r.Landed? ==>
              && r.m == m.(state := r.m.state)
              && (!v.BlocksGeneration() && !ReassertFailed(oks, at, r.at) ==> r.screens == screens)
              && r.m.state == (if r.screens > screens && !enters(r.screens - 1) then ExitToFirmware
                               else if ReassertFailed(oks, at, r.at) then SetupSelection
                               else if v.BlocksGeneration() then Resume(v.errorClass)
                               else Advance(g))
  {
    hide Step;
    if at < |oks| {
      StepAtGate(g, v, m, oks[at]);
      var m' := Step(m, GateEvent(v), oks[at]);
      if m'.state.PreSecretError? {
        ErrorScreenLanding(m', oks, at + 1, enters, screens);
      }
    }
  }

  /** A clean verdict under a successful re-assertion advances at once. */
  lemma CleanLanding(g: Gate, v: Verdict, m: Machine, oks: seq<bool>, at: nat, enters: nat -> bool, screens: nat)
    requires m.state == GateState(g) && !v.BlocksGeneration() && at < |oks| && oks[at]
    ensures Settle(m, GateEvent(v), oks, at, enters, screens) == Landed(m.(state := Advance(g)), at + 1, screens)
  {
    hide Step;
    StepAtGate(g, v, m, true);
  }

  /** The first re-assertion from `at` on that succeeds. */
  function FirstOk(oks: seq<bool>, at: nat): (f: Option<nat>)
    requires at <= |oks|
    ensures f.Some? ==> at <= f.value < |oks| && oks[f.value] && forall j :: at <= j < f.value ==> !oks[j]
    ensures f.None? ==> forall j :: at <= j < |oks| ==> !oks[j]
    decreases |oks| - at
  {
    if at == |oks| then None else if oks[at] then Some(at) else FirstOk(oks, at + 1)
  }

  /** The first one after the re-assertion made at `at`. */
  function FirstOkAfter(oks: seq<bool>, at: nat): (f: Option<nat>)
    requires at <= |oks|
    ensures f.Some? ==> at < f.value < |oks| && oks[f.value]
  {
    if at == |oks| then None else FirstOk(oks, at + 1)
  }

  /** Error screens end at the first successful re-assertion, one screen for each that fails. */
  lemma {:induction false} ErrorScreenCount(m: Machine, oks: seq<bool>, at: nat, enters: nat -> bool, screens: nat)
    requires m.state.PreSecretError? && at <= |oks|
    ensures var r := Settle(m, if enters(screens) then Continue else Escape, oks, at, enters, screens + 1);
            var f := FirstOk(oks, at);
            && (r.Landed? <==> f.Some?)
            && (f.Some? ==> r.at == f.value + 1 && r.screens == screens + 1 + (f.value - at))
    decreases |oks| - at
  {
    hide Step;
    if at < |oks| {
      StepAtError(m, enters(screens), oks[at]);
      if !oks[at] {
        var ev := if enters(screens) then Continue else Escape;
        ErrorScreenCount(Step(m, ev, oks[at]), oks, at + 1, enters, screens + 1);
      }
    }
  }

  /**
   Where a blocking verdict lands, on the inputs alone. With `f` the first re-assertion after
   the step's own that succeeds: out if the key at the last of the error screens is Escape;
   else at the setup screen unless both of the step's re-assertions succeed; else where the
   class resumes.
   */
  lemma BlockedLanding(g: Gate, v: Verdict, m: Machine, oks: seq<bool>, at: nat, enters: nat -> bool, screens: nat)
    requires m.state == GateState(g) && at <= |oks| && v.BlocksGeneration()
    ensures var r := Settle(m, GateEvent(v), oks, at, enters, screens);
            var f := FirstOkAfter(oks, at);
            && (r.Landed? <==> f.Some?)
            && (f.Some? ==>
                  r.m.state == (if !enters(screens + (f.value - at - 1)) then ExitToFirmware
                                else if !(oks[at] && oks[at + 1]) then SetupSelection
                                else Resume(v.errorClass)))
  {
    hide Step;
    if at < |oks| {
      StepAtGate(g, v, m, oks[at]);
      ErrorScreenCount(Step(m, GateEvent(v), oks[at]), oks, at + 1, enters, screens);
    }
    GateLanding(g, v, m, oks, at, enters, screens);
    var f := FirstOkAfter(oks, at);
    if f.Some? {
      assert ReassertFailed(oks, at, f.value + 1) <==> !(oks[at] && oks[at + 1]) by {
        assert !oks[at] ==> ReassertFailed(oks, at, f.value + 1);
        assert !oks[at + 1] ==> ReassertFailed(oks, at, f.value + 1);
      }
    }
  }

  /**
   The last gate cannot tell "passed" from "recovered from a watchdog failure": a failing
   crypto verdict is let through to the setup screen exactly when one of the step's two
   re-assertions fails and the key at the last error screen is Enter.
   */
  lemma CryptoFailureLetThrough(v: Verdict, m: Machine, oks: seq<bool>, at: nat, enters: nat -> bool, screens: nat)
    requires m.state == CryptographicSelfTest && at <= |oks|
    requires v.BlocksGeneration() && v.errorClass == Cryptographic
    ensures var r := Settle(m, GateEvent(v), oks, at, enters, screens);
            var f := FirstOkAfter(oks, at);
            && (r.Landed? <==> f.Some?)
            && (f.Some? ==>
                  (r.m.state == SetupSelection
                   <==> !(oks[at] && oks[at + 1]) && enters(screens + (f.value - at - 1))))
  {
    hide Settle, Step;
    BlockedLanding(CryptoGate, v, m, oks, at, enters, screens);
  }

  /**
   A failing check of one of the first two gates goes on to the next one exactly when it
   reports a class that resumes there, both re-assertions succeed and the key is Enter.
   */
  lemma MisreportedClassGoesOn(g: Gate, v: Verdict, m: Machine, oks: seq<bool>, at: nat, enters: nat -> bool,
                               screens: nat)
    requires g in {PlatformGate, ConsoleGate} && m.state == GateState(g) && at <= |oks| && v.BlocksGeneration()
    ensures var r := Settle(m, GateEvent(v), oks, at, enters, screens);
            r.Landed? && r.m.state == Advance(g) <==>
            Resume(v.errorClass) == Advance(g) && at + 1 < |oks| && oks[at] && oks[at + 1] && enters(screens)
  {
    hide Settle, Step;
    BlockedLanding(g, v, m, oks, at, enters, screens);
  }

  /** It does happen: one failed re-assertion and one Enter carry a failed self-test to setup. */
  lemma CryptoFailureExample(m: Machine)
    requires m.state == CryptographicSelfTest
    ensures var failed := GateEvent(Verdict(CheckOutcome.Failed, Cryptographic));
            Settle(m, failed, [false, true], 0, _ => true, 0) == Landed(m.(state := SetupSelection), 2, 1)
  {
    var enters: nat -> bool := _ => true;
    var m' := Step(m, GateEvent(Verdict(CheckOutcome.Failed, Cryptographic)), false);
    assert m'.state == PreSecretError(ErrorClass.Watchdog);
    assert Step(m', Continue, true).state == SetupSelection;
    assert Settle(m', Continue, [false, true], 1, enters, 1) == Landed(m.(state := SetupSelection), 2, 1);
  }

  // ---------------------------------------------------- the order of the checks

  /**
   A check lets the run go on to the next gate: it is clean, or it reports an error class
   whose own retry target is that next gate.
   */
  predicate Admits(c: Check) {
    !c.verdict.BlocksGeneration() || Resume(c.verdict.errorClass) == Advance(c.gate)
  }

  /** A verdict that is not clean has a class its gate documents; then only a clean one admits. */
  predicate Documented(c: Check) {
    c.verdict.BlocksGeneration() ==>
      match c.gate
      case PlatformGate => c.verdict.errorClass in {ErrorClass.Platform, Virtualization}
      case ConsoleGate => c.verdict.errorClass == ConsoleTopology
      case GraphicsGate => c.verdict.errorClass == GraphicsOrKeyboard
      case CryptoGate => c.verdict.errorClass == Cryptographic
  }

  /** Which check may come right after `c`: a retry, the next gate, or graphics after Back. */
  ghost predicate MayFollow(c: Check, next: Gate) {
    || (next == c.gate && c.verdict.BlocksGeneration())
    || (GateState(next) == Advance(c.gate) && Admits(c))
    || (next == GraphicsGate && c.gate == CryptoGate)
  }

  ghost predicate InOrder(log: seq<Check>) {
    && (log != [] ==> log[0].gate == PlatformGate)
    && forall i :: 0 < i < |log| ==> MayFollow(log[i - 1], log[i].gate)
  }

  ghost predicate MayCheck(log: seq<Check>, g: Gate) {
    if log == [] then g == PlatformGate else MayFollow(log[|log| - 1], g)
  }

  /** The most recent check of gate `g`. */
  function Latest(log: seq<Check>, g: Gate): Option<Check> {
    if log == [] then None
    else if log[|log| - 1].gate == g then Some(log[|log| - 1])
    else Latest(log[..|log| - 1], g)
  }

  lemma LatestAppend(log: seq<Check>, c: Check, g: Gate)
    ensures Latest(log + [c], g) == if c.gate == g then Some(c) else Latest(log, g)
  {
    assert (log + [c])[..|log|] == log;
  }

  /**
   The shape P+ K+ (G | X)*, beginning with G, of every run's checks: retries repeat one
   gate, Back re-enters at graphics, platform and console are never run again.
   */
  lemma {:induction false} PhaseOrder(log: seq<Check>) returns (p: nat, k: nat)
    requires InOrder(log)
    ensures p <= k <= |log|
    ensures forall i :: 0 <= i < p ==> log[i].gate == PlatformGate
    ensures forall i :: p <= i < k ==> log[i].gate == ConsoleGate
    ensures forall i :: k <= i < |log| ==> log[i].gate in {GraphicsGate, CryptoGate}
    ensures log != [] ==> 0 < p
    ensures k < |log| ==> p < k && log[k].gate == GraphicsGate
  {
    p, k := 0, 0;
    if log != [] {
      var n := |log| - 1;
      var before := log[..n];
      assert InOrder(before) by { assert forall i :: 0 <= i < n ==> before[i] == log[i]; }
      p, k := PhaseOrder(before);
      if n > 0 {
        assert MayFollow(log[n - 1], log[n].gate);
        assert before[n - 1] == log[n - 1];
      }
      if log[n].gate == PlatformGate {
        p, k := n + 1, n + 1;
      } else if log[n].gate == ConsoleGate {
        k := n + 1;
      }
    }
  }

  /** Every gate before the one checked last was admitted by its own latest check. */
  ghost predicate EarlierGatesAdmitted(log: seq<Check>, g: Gate) {
    && (g != PlatformGate ==> Latest(log, PlatformGate).Some? && Admits(Latest(log, PlatformGate).value))
    && (g in {GraphicsGate, CryptoGate} ==> Latest(log, ConsoleGate).Some? && Admits(Latest(log, ConsoleGate).value))
    && (g == CryptoGate ==> Latest(log, GraphicsGate).Some? && Admits(Latest(log, GraphicsGate).value))
  }

  lemma {:induction false} OrderAdmits(log: seq<Check>)
    requires InOrder(log) && log != []
    ensures EarlierGatesAdmitted(log, log[|log| - 1].gate)
    decreases |log|
  {
    var n := |log| - 1;
    if n > 0 {
      var before := log[..n];
      assert InOrder(before) by { assert forall i :: 0 <= i < n ==> before[i] == log[i]; }
      OrderAdmits(before);
      assert MayFollow(log[n - 1], log[n].gate);
      assert log == before + [log[n]];
      LatestAppend(before, log[n], PlatformGate);
      LatestAppend(before, log[n], ConsoleGate);
      LatestAppend(before, log[n], GraphicsGate);
    }
  }

  // ------------------------------------------------------------- plain edges

  /** The edges outside the gates that the driver takes. */
  predicate PlainEdge(s: AppState, ev: Event) {
    match s
    case Start => ev.Continue?
    case ReleaseAndEnvironmentWarning => ev.Continue? || ev.Back?
    case WatchdogDisable => ev.Continue?
    case SetupSelection => ev.Back? || ev.SetupCommitted?
    case _ => false
  }

  /** The machine after such an edge. */
  function Taken(m: Machine, ev: Event): Machine
    requires PlainEdge(m.state, ev)
  {
    match m.state
    case Start => m.(state := ReleaseAndEnvironmentWarning)
    case ReleaseAndEnvironmentWarning => m.(state := if ev.Back? then Start else WatchdogDisable)
    case WatchdogDisable => m.(state := PlatformAndVirtualizationCheck)
    case SetupSelection =>
      if ev.Back? then m.(state := GraphicsAndKeyboardSelfTest)
      else Machine(if ev.mode.NeedsMachine() then MachineEntropyAcquisition else PhysicalCollection,
                   Some(ev.wordCount), Some(ev.mode), Some(ev.instrument))
  }

  /** Such an edge is taken at once, or else a re-assertion failed and the run is off course. */
  lemma EdgeLanding(m: Machine, ev: Event, oks: seq<bool>, at: nat, enters: nat -> bool, screens: nat)
    requires at <= |oks| && PlainEdge(m.state, ev)
    ensures var r := Settle(m, ev, oks, at, enters, screens);
            if at < |oks| && oks[at] then r == Landed(Taken(m, ev), at + 1, screens)
            else r.Landed? ==> r.m == m.(state := r.m.state) && r.m.state in {SetupSelection, ExitToFirmware}
  {
    if at < |oks| && !oks[at] {
      ErrorScreenLanding(Step(m, ev, false), oks, at + 1, enters, screens);
    }
  }

  // ------------------------------------------------------- the events of a step

  function Inputs(sent: seq<Event>, oks: seq<bool>, at: nat): seq<Input>
    requires at + |sent| <= |oks|
  {
    seq(|sent|, i requires 0 <= i < |sent| => Input(sent[i], oks[at + i]))
  }

  /** The events of one driven step, each with a re-assertion of its own. */
  function Events(m: Machine, ev: Event, oks: seq<bool>, at: nat, enters: nat -> bool, screens: nat): (sent: seq<Event>)
    requires at <= |oks|
    ensures |sent| <= |oks| - at && (at < |oks| ==> sent != [] && sent[0] == ev)
    decreases |oks| - at
  {
    if at == |oks| then []
    else
      var m' := Step(m, ev, oks[at]);
      [ev] + if m'.state.PreSecretError?
             then Events(m', if enters(screens) then Continue else Escape, oks, at + 1, enters, screens + 1) else []
  }

  lemma RunFirst(m: Machine, ev: Event, more: seq<Event>, oks: seq<bool>, at: nat)
    requires at + 1 + |more| <= |oks|
    ensures Run(m, Inputs([ev] + more, oks, at)) == Run(Step(m, ev, oks[at]), Inputs(more, oks, at + 1))
  {
    hide Step;
    assert Inputs([ev] + more, oks, at)[1..] == Inputs(more, oks, at + 1);
  }

  /** They lead the machine where the step settles, and use up the re-assertions if it does not. */
  lemma {:induction false} EventsLead(m: Machine, ev: Event, oks: seq<bool>, at: nat, enters: nat -> bool, screens: nat)
    requires at <= |oks|
    ensures var sent := Events(m, ev, oks, at, enters, screens);
            match Settle(m, ev, oks, at, enters, screens)
            case Waiting => at + |sent| == |oks|
            case Landed(m', at', _) => at' == at + |sent| && m' == Run(m, Inputs(sent, oks, at))
    decreases |oks| - at
  {
    if at < |oks| {
      var m' := Step(m, ev, oks[at]);
      var next := if enters(screens) then Continue else Escape;
      hide Step, Run, Inputs;
      var more := if m'.state.PreSecretError? then Events(m', next, oks, at + 1, enters, screens + 1) else [];
      RunFirst(m, ev, more, oks, at);
      if m'.state.PreSecretError? {
        EventsLead(m', next, oks, at + 1, enters, screens + 1);
      } else {
        assert Run(m', Inputs([], oks, at + 1)) == m' by { NoInputs(m', oks, at + 1); }
      }
    }
  }

  lemma NoInputs(m: Machine, oks: seq<bool>, at: nat)
    requires at <= |oks|
    ensures Run(m, Inputs([], oks, at)) == m
  {
  }

  /** Where a step settles, and all that is sent by then; `before` was sent before. */
  function Ahead(before: seq<Event>, m: Machine, ev: Event, oks: seq<bool>, enters: nat -> bool, screens: nat)
    : (Settled, seq<Event>)
    requires |before| <= |oks|
  {
    (Settle(m, ev, oks, |before|, enters, screens), before + Events(m, ev, oks, |before|, enters, screens))
  }

  /** The same, one event later. */
  lemma OneEvent(before: seq<Event>, m: Machine, ev: Event, oks: seq<bool>, enters: nat -> bool, screens: nat)
    requires |before| <= |oks|
    ensures var all := Ahead(before, m, ev, oks, enters, screens);
            if |before| == |oks| then all == (Waiting, before)
            else
              var m' := Step(m, ev, oks[|before|]);
              if m'.state.PreSecretError? then
                all == Ahead(before + [ev], m', if enters(screens) then Continue else Escape, oks, enters, screens + 1)
              else all == (Landed(m', |before| + 1, screens), before + [ev])
  {
    hide Step;
    var at := |before|;
    if at < |oks| {
      var m' := Step(m, ev, oks[at]);
      if m'.state.PreSecretError? {
        var next := if enters(screens) then Continue else Escape;
        var more := Events(m', next, oks, at + 1, enters, screens + 1);
        assert before + ([ev] + more) == before + [ev] + more;
        assert |before + [ev]| == at + 1;
        assert Events(m, ev, oks, at, enters, screens) == [ev] + more;
      } else {
        assert Events(m, ev, oks, at, enters, screens) == [ev] + [] == [ev];
      }
    } else {
      assert before + [] == before;
    }
  }

  /** Where the events sent lead a fresh machine. */
  function Reached(sent: seq<Event>, oks: seq<bool>): Machine
    requires |sent| <= |oks|
  {
    Run(FreshMachine, Inputs(sent, oks, 0))
  }

  lemma ReachedOn(sent: seq<Event>, more: seq<Event>, oks: seq<bool>)
    requires |sent| + |more| <= |oks|
    ensures Reached(sent + more, oks) == Run(Reached(sent, oks), Inputs(more, oks, |sent|))
  {
    hide Run;
    RunOn(FreshMachine, Inputs(sent, oks, 0), Inputs(more, oks, |sent|));
    assert Inputs(sent + more, oks, 0) == Inputs(sent, oks, 0) + Inputs(more, oks, |sent|);
  }

  // --------------------------------------------------------- the forced exit

  /** Where the exit ends, if the re-assertions last that long, and how many events it sends. */
  datatype WayOut = WayOut(end: Option<AppState>, sends: nat)

  /** `n` rounds of a fault and an Escape, until an Escape is sent under a good re-assertion. */
  function Forced(oks: seq<bool>, at: nat, n: nat): (r: WayOut)
    requires at <= |oks|
    ensures at + r.sends <= |oks| && (r.end == None ==> at + r.sends == |oks|)
    ensures r.end.Some? ==> r.end.value in {ExitToFirmware, PreSecretError(ErrorClass.Watchdog)}
    decreases n
  {
    if n == 0 then WayOut(Some(PreSecretError(ErrorClass.Watchdog)), 0)
    else if |oks| - at < 2 then WayOut(None, |oks| - at)
    else if oks[at + 1] then WayOut(Some(ExitToFirmware), 2)
    else var r := Forced(oks, at + 2, n - 1); WayOut(r.end, r.sends + 2)
  }

  function Alternating(n: nat): (s: seq<Event>)
    ensures |s| == n
  {
    seq(n, i requires 0 <= i < n => if i % 2 == 0 then Fault(ErrorClass.Watchdog) else Escape)
  }

  /** Whatever the re-assertions do, a fault lands on an error screen; only a failing one stops Escape there. */
  lemma FaultThenEscape(m: Machine)
    requires !m.state.IsPostSecret() && !m.state.IsTerminal()
    ensures forall ok :: Step(m, Fault(ErrorClass.Watchdog), ok)
                         == m.(state := PreSecretError(ErrorClass.Watchdog))
    ensures forall ok1, ok2 :: Step(Step(m, Fault(ErrorClass.Watchdog), ok1), Escape, ok2)
                               == m.(state := if ok2 then ExitToFirmware else PreSecretError(ErrorClass.Watchdog))
  {
  }

  lemma {:induction false} AlternatingLead(m: Machine, oks: seq<bool>, at: nat, n: nat)
    requires at <= |oks| && !m.state.IsPostSecret() && !m.state.IsTerminal()
    requires n == 0 ==> m.state == PreSecretError(ErrorClass.Watchdog)
    ensures var r := Forced(oks, at, n);
            r.end.Some? ==> Run(m, Inputs(Alternating(r.sends), oks, at)) == m.(state := r.end.value)
    decreases n
  {
    hide Step;
    var r := Forced(oks, at, n);
    if n > 0 && |oks| - at >= 2 {
      FaultThenEscape(m);
      var once := Step(m, Fault(ErrorClass.Watchdog), oks[at]);
      var twice := Step(once, Escape, oks[at + 1]);
      var inputs := Inputs(Alternating(r.sends), oks, at);
      assert Run(m, inputs) == Run(once, inputs[1..]) == Run(twice, inputs[1..][1..]);
      assert inputs[1..][1..] == Inputs(Alternating(r.sends - 2), oks, at + 2);
      if !oks[at + 1] { AlternatingLead(twice, oks, at + 2, n - 1); }
    }
  }

  /** The `n`th Escape of a forced exit begun at `start` was sent and its re-assertion succeeded. */
  ghost predicate EscapeSent(oks: seq<bool>, start: nat, at: nat, n: int) {
    0 <= n && start + 2 * n + 1 < at && at <= |oks| && oks[start + 2 * n + 1]
  }

  /** One of the first `n` was. */
  ghost predicate SomeEscapeSent(oks: seq<bool>, start: nat, at: nat, n: nat) {
    exists i :: 0 <= i < n && EscapeSent(oks, start, at, i)
  }

  lemma EscapeShift(oks: seq<bool>, start: nat, at: nat, n: nat)
    requires n > 0 && start + 1 < |oks| && !oks[start + 1]
    ensures SomeEscapeSent(oks, start, at, n) <==> SomeEscapeSent(oks, start + 2, at, n - 1)
  {
    if SomeEscapeSent(oks, start, at, n) {
      var i :| 0 <= i < n && EscapeSent(oks, start, at, i);
      assert i > 0 && EscapeSent(oks, start + 2, at, i - 1);
    }
    if SomeEscapeSent(oks, start + 2, at, n - 1) {
      var i :| 0 <= i < n - 1 && EscapeSent(oks, start + 2, at, i);
      assert EscapeSent(oks, start, at, i + 1);
    }
  }

  /**
   The exit ends at the firmware exactly when one of its Escapes is sent under a successful
   re-assertion; when all fail it rests on an error screen.
   */
  lemma {:induction false} ForcedEnds(oks: seq<bool>, at: nat, n: nat)
    requires at <= |oks|
    ensures var r := Forced(oks, at, n);
            && (r.end == Some(ExitToFirmware) <==> SomeEscapeSent(oks, at, at + r.sends, n))
            && (r.end.Some? && r.end != Some(ExitToFirmware) ==> r.sends == 2 * n)
    decreases n
  {
    if n > 0 && |oks| - at >= 2 {
      if oks[at + 1] {
        assert EscapeSent(oks, at, at + 2, 0);
      } else {
        ForcedEnds(oks, at + 2, n - 1);
        EscapeShift(oks, at, at + Forced(oks, at, n).sends, n);
      }
    }
  }

  // ------------------------------------------------------------- the results

  datatype Outcome = HandoffToSecretPhase | ExitedToFirmware | BackToCaller | Unexpected(state: AppState)

  /** The diagnostics carried out with a handoff: the verdicts the setup screen showed. */
  datatype Recap = Recap(platform: Verdict, console: Verdict, crypto: Verdict)

  datatype FlowResult = FlowResult(machine: Machine, outcome: Outcome, instrument: Instrument, recap: Option<Recap>)

  function OutcomeOf(s: AppState): Outcome {
    match s
    case ExitToFirmware => ExitedToFirmware
    case Start => BackToCaller
    case MachineEntropyAcquisition => HandoffToSecretPhase
    case PhysicalCollection => HandoffToSecretPhase
    case other => Unexpected(other)
  }

  function Finish(m: Machine, recap: Option<Recap>): FlowResult {
    FlowResult(m, OutcomeOf(m.state), Both, recap)
  }

  function VerdictOf(c: Option<Check>): Option<Verdict> {
    match c case None => None case Some(k) => Some(k.verdict)
  }

  /** The recap of the latest verdicts, once there are three. */
  function RecapOf(log: seq<Check>): Option<Recap> {
    match (Latest(log, PlatformGate), Latest(log, ConsoleGate), Latest(log, CryptoGate))
    case (Some(p), Some(c), Some(x)) => Some(Recap(p.verdict, c.verdict, x.verdict))
    case _ => None
  }

  // ------------------------------------------------------- one step of the run

  /** Where the driver stands between two steps, and all that was sent and checked before. */
  datatype Spot = Spot(m: Machine, sent: seq<Event>, screens: nat, setups: nat, log: seq<Check>)

  const START: Spot := Spot(FreshMachine, [], 0, 0, [])

  function GateOf(s: AppState): Option<Gate> {
    match s
    case PlatformAndVirtualizationCheck => Some(PlatformGate)
    case ConsoleTopologyCheck => Some(ConsoleGate)
    case GraphicsAndKeyboardSelfTest => Some(GraphicsGate)
    case CryptographicSelfTest => Some(CryptoGate)
    case _ => None
  }

  /** The states the driver goes on from. */
  predicate OnCourse(s: AppState) {
    s in {Start, ReleaseAndEnvironmentWarning, WatchdogDisable, SetupSelection} || GateOf(s).Some?
  }

  /** The event the driver sends there. */
  function NextEvent(w: Script, s: Spot): Event
    requires OnCourse(s.m.state)
  {
    match s.m.state
    case ReleaseAndEnvironmentWarning => if w.prepare.Leave? then Back else Continue
    case SetupSelection => SetupEvent(w.setup(s.setups))
    case state =>
      (match GateOf(state) case Some(g) => GateEvent(Report(w, g, |s.log|)) case None => Continue)
  }

  function SetupEvent(a: SetupAnswer): Event {
    match a
    case Commit(words24, mode, instrument) => SetupCommitted(if words24 then TwentyFour else Twelve, mode, instrument)
    case GoBack => Back
  }

  /** The checks made when the step is over. */
  function NextLog(w: Script, s: Spot): seq<Check> {
    match GateOf(s.m.state)
    case Some(g) => s.log + [Check(g, Report(w, g, |s.log|), |s.sent|, s.screens)]
    case None => s.log
  }

  /** The landings from which the driver goes on. */
  predicate StaysOn(w: Script, s: Spot, to: AppState) {
    match s.m.state
    case Start => to == ReleaseAndEnvironmentWarning
    case ReleaseAndEnvironmentWarning => w.prepare.Acknowledged? && to == WatchdogDisable
    case WatchdogDisable => to == PlatformAndVirtualizationCheck
    case SetupSelection => w.setup(s.setups).GoBack? && to == GraphicsAndKeyboardSelfTest
    case state => (match GateOf(state) case Some(g) => to == state || to == Advance(g) case None => false)
  }

  datatype Turn = Waits | Ends(m: Machine) | GoesOn(m: Machine, screens: nat)

  /** What one step comes to. */
  datatype Leg = Leg(turn: Turn, sent: seq<Event>, log: seq<Check>)

  /** One step of the driver: an event driven out of the error screens, and a landing judged. */
  function Next(w: Script, s: Spot): (leg: Leg)
    requires |s.sent| <= |w.reasserts| && OnCourse(s.m.state)
    ensures |leg.sent| <= |w.reasserts| && (leg.turn.Waits? ==> |leg.sent| == |w.reasserts|)
    ensures leg.turn.GoesOn? ==> |s.sent| < |leg.sent| && OnCourse(leg.turn.m.state)
  {
    var ev, at := NextEvent(w, s), |s.sent|;
    var sent := s.sent + Events(s.m, ev, w.reasserts, at, w.enters, s.screens);
    EventsLead(s.m, ev, w.reasserts, at, w.enters, s.screens);
    match Settle(s.m, ev, w.reasserts, at, w.enters, s.screens)
    case Waiting => Leg(Waits, sent, NextLog(w, s))
    case Landed(m, at', screens) =>
      if StaysOn(w, s, m.state) then Leg(GoesOn(m, screens), sent, NextLog(w, s))
      else if GateOf(s.m.state).Some? && !m.state.ExitToFirmware? then
        var exit := Forced(w.reasserts, at', 8);
        Leg(match exit.end case None => Waits case Some(state) => Ends(m.(state := state)),
            sent + Alternating(exit.sends), NextLog(w, s))
      else Leg(Ends(m), sent, NextLog(w, s))
  }

  /** Where it leaves the driver. */
  function After(s: Spot, leg: Leg): Spot
    requires leg.turn.GoesOn?
  {
    Spot(leg.turn.m, leg.sent, leg.turn.screens, if s.m.state.SetupSelection? then s.setups + 1 else s.setups, leg.log)
  }

  /** The result of a run whose last step was made at `s`. */
  function ResultAt(w: Script, s: Spot, m: Machine): FlowResult {
    if !s.m.state.SetupSelection? then Finish(m, None)
    else match w.setup(s.setups)
         case Commit(_, _, instrument) => Finish(m, RecapOf(s.log)).(instrument := instrument)
         case GoBack => Finish(m, RecapOf(s.log))
  }

  // ---------------------------------------------------------------- whole runs

  /** A run: its result if it has ended, the events sent, and the gate checks made. */
  datatype Course = Course(result: Option<FlowResult>, sent: seq<Event>, log: seq<Check>)

  /** The rest of the run from `s`. */
  function Play(w: Script, s: Spot): Course
    requires |s.sent| <= |w.reasserts| && OnCourse(s.m.state)
    decreases |w.reasserts| - |s.sent|
  {
    var leg := Next(w, s);
    match leg.turn
    case Waits => Course(None, leg.sent, leg.log)
    case Ends(m) => Course(Some(ResultAt(w, s, m)), leg.sent, leg.log)
    case GoesOn(_, _) => Play(w, After(s, leg))
  }

  /** `run_pre_secret_flow`: the one run of a script. */
  function Flow(w: Script): Course {
    if w.disableOk then Play(w, START) else Course(Some(FlowResult(FreshMachine, ExitedToFirmware, Both, None)), [], [])
  }

  // ------------------------------------------------- what every run keeps

  /**
   A logged check was made in its gate's own state, after `at` events, and the event sent
   next, if any was, is the one its verdict calls for.
   */
  ghost predicate WasSent(c: Check, sent: seq<Event>, oks: seq<bool>) {
    && c.at <= |sent| <= |oks|
    && Reached(sent[..c.at], oks).state == GateState(c.gate)
    && (c.at < |sent| ==> sent[c.at] == GateEvent(c.verdict))
  }

  /** Every logged check holds what its gate reported, in order, and was sent. */
  ghost predicate Logged(w: Script, sent: seq<Event>, log: seq<Check>) {
    forall i :: 0 <= i < |log| ==>
      log[i].verdict == Report(w, log[i].gate, i) && WasSent(log[i], sent, w.reasserts)
  }

  /** No check waits for its event. */
  ghost predicate Driven(sent: seq<Event>, log: seq<Check>) {
    forall i :: 0 <= i < |log| ==> log[i].at < |sent|
  }

  /** What must be known of the checks where the driver stands. */
  ghost predicate Stands(w: Script, s: Spot) {
    match GateOf(s.m.state)
    case Some(g) => MayCheck(s.log, g)
    case None => if s.m.state.SetupSelection? then CryptoDone(w, s) else s.log == []
  }

  /** The last check is the crypto self-test's, and its own step is what landed here. */
  ghost predicate CryptoDone(w: Script, s: Spot) {
    && s.log != []
    && var last := s.log[|s.log| - 1];
       && last.gate == CryptoGate && last.at <= |w.reasserts|
       && Settle(s.m.(state := CryptographicSelfTest), GateEvent(last.verdict), w.reasserts, last.at, w.enters,
                 last.screens) == Landed(s.m, |s.sent|, s.screens)
  }

  ghost predicate Sound(w: Script, s: Spot) {
    && |s.sent| <= |w.reasserts| && OnCourse(s.m.state) && s.m == Reached(s.sent, w.reasserts)
    && InOrder(s.log) && Logged(w, s.sent, s.log) && Driven(s.sent, s.log) && Stands(w, s)
    && (forall k :: 0 <= k < s.setups ==> w.setup(k).GoBack?)
  }

  lemma StillSent(c: Check, sent: seq<Event>, more: seq<Event>, oks: seq<bool>)
    requires WasSent(c, sent, oks) && c.at < |sent| && |sent| + |more| <= |oks|
    ensures WasSent(c, sent + more, oks)
  {
    hide Run, GateEvent;
    assert (sent + more)[..c.at] == sent[..c.at];
  }

  /** What was logged before a step stays so, and so does the check it makes. */
  lemma NextIsLogged(w: Script, s: Spot, more: seq<Event>)
    requires Sound(w, s) && |s.sent| + |more| <= |w.reasserts|
    requires more == [] || more[0] == NextEvent(w, s)
    ensures InOrder(NextLog(w, s)) && Logged(w, s.sent + more, NextLog(w, s))
    ensures more != [] ==> Driven(s.sent + more, NextLog(w, s))
  {
    hide Run, Reached, WasSent, Report, GateEvent, CryptoDone;
    forall i | 0 <= i < |s.log| ensures WasSent(s.log[i], s.sent + more, w.reasserts) {
      StillSent(s.log[i], s.sent, more, w.reasserts);
    }
    if GateOf(s.m.state).Some? {
      var c := NextLog(w, s)[|s.log|];
      assert WasSent(c, s.sent + more, w.reasserts) by {
        assert (s.sent + more)[..c.at] == s.sent;
        IsGateState(s.m.state);
        CheckIsSent(c, s.sent + more, w.reasserts);
      }
    }
  }

  lemma IsGateState(s: AppState)
    ensures GateOf(s).Some? ==> GateState(GateOf(s).value) == s
  {
  }

  lemma CheckIsSent(c: Check, sent: seq<Event>, oks: seq<bool>)
    requires c.at <= |sent| <= |oks| && Reached(sent[..c.at], oks).state == GateState(c.gate)
    requires c.at < |sent| ==> sent[c.at] == GateEvent(c.verdict)
    ensures WasSent(c, sent, oks)
  {
    hide Reached;
  }

  /** The events a step adds begin with its own, and lead where it says. */
  lemma NextLeads(w: Script, s: Spot) returns (more: seq<Event>)
    requires Sound(w, s)
    ensures Next(w, s).sent == s.sent + more && (more == [] || more[0] == NextEvent(w, s))
    ensures !Next(w, s).turn.Waits? ==> more != [] && Next(w, s).turn.m == Reached(Next(w, s).sent, w.reasserts)
  {
    hide Settle, Events, Reached, Stands, InOrder, Logged, Driven, StaysOn, NextEvent, NextLog,
         Forced, Run, Inputs, Alternating;
    var ev, at, oks := NextEvent(w, s), |s.sent|, w.reasserts;
    var driven := Events(s.m, ev, oks, at, w.enters, s.screens);
    EventsLead(s.m, ev, oks, at, w.enters, s.screens);
    ReachedOn(s.sent, driven, oks);
    more := Next(w, s).sent[at..];
    var landed := Settle(s.m, ev, oks, at, w.enters, s.screens);
    if landed.Landed? && GateOf(s.m.state).Some? && !landed.m.state.ExitToFirmware? {
      ForcedFrom(w, s);
      ForcedLeads(s.sent + driven, oks);
    }
  }

  /** A forced exit leads where it says. */
  lemma ForcedLeads(sent: seq<Event>, oks: seq<bool>)
    requires |sent| <= |oks|
    requires !Reached(sent, oks).state.IsPostSecret() && !Reached(sent, oks).state.IsTerminal()
    ensures var exit := Forced(oks, |sent|, 8);
            exit.end.Some? ==>
              Reached(sent + Alternating(exit.sends), oks) == Reached(sent, oks).(state := exit.end.value)
  {
    hide Reached, Forced, Run;
    AlternatingLead(Reached(sent, oks), oks, |sent|, 8);
    ReachedOn(sent, Alternating(Forced(oks, |sent|, 8).sends), oks);
  }

  /** The exit is forced from a state before the secret, and not from a terminal one. */
  lemma ForcedFrom(w: Script, s: Spot)
    requires |s.sent| <= |w.reasserts| && GateOf(s.m.state).Some?
    ensures var r := Settle(s.m, NextEvent(w, s), w.reasserts, |s.sent|, w.enters, s.screens);
            r.Landed? ==>
              r.m == s.m.(state := r.m.state) && !r.m.state.IsPostSecret()
              && (r.m.state.IsTerminal() ==> r.m.state.ExitToFirmware?)
  {
    hide Settle, Report;
    IsGateState(s.m.state);
    var g := GateOf(s.m.state).value;
    GateLanding(g, Report(w, g, |s.log|), s.m, w.reasserts, |s.sent|, w.enters, s.screens);
  }

  /** A step that goes on has settled where it goes on from. */
  lemma GoesOnFrom(w: Script, s: Spot)
    requires |s.sent| <= |w.reasserts| && OnCourse(s.m.state) && Next(w, s).turn.GoesOn?
    ensures var leg := Next(w, s);
            && StaysOn(w, s, leg.turn.m.state)
            && Settle(s.m, NextEvent(w, s), w.reasserts, |s.sent|, w.enters, s.screens)
               == Landed(leg.turn.m, |leg.sent|, leg.turn.screens)
  {
    hide Settle, StaysOn, Events, NextEvent;
    EventsLead(s.m, NextEvent(w, s), w.reasserts, |s.sent|, w.enters, s.screens);
  }

  lemma LegLog(w: Script, s: Spot)
    requires |s.sent| <= |w.reasserts| && OnCourse(s.m.state)
    ensures Next(w, s).log == NextLog(w, s)
  {
    hide Settle, Forced, Events, NextEvent, StaysOn;
  }

  /** Going on, a run stands where the last check permits. */
  lemma NextStands(w: Script, s: Spot)
    requires Sound(w, s) && Next(w, s).turn.GoesOn?
    ensures Stands(w, After(s, Next(w, s)))
  {
    hide Settle, Next, Reached, Logged, Driven, InOrder, Report;
    GoesOnFrom(w, s);
    LegLog(w, s);
    match GateOf(s.m.state)
    case None =>
      PlainStands(w, s);
    case Some(g) =>
      IsGateState(s.m.state);
      GateLanding(g, Report(w, g, |s.log|), s.m, w.reasserts, |s.sent|, w.enters, s.screens);
  }

  lemma PlainStands(w: Script, s: Spot)
    requires |s.sent| <= |w.reasserts| && OnCourse(s.m.state) && Stands(w, s) && GateOf(s.m.state).None?
    requires Next(w, s).turn.GoesOn?
    ensures Stands(w, After(s, Next(w, s)))
  {
    hide Settle, Next, InOrder;
    GoesOnFrom(w, s);
    LegLog(w, s);
  }

  lemma NextIsSound(w: Script, s: Spot)
    requires Sound(w, s) && Next(w, s).turn.GoesOn?
    ensures Sound(w, After(s, Next(w, s)))
  {
    hide Next, Reached, Logged, Driven, InOrder, Stands, NextLog;
    var more := NextLeads(w, s);
    NextIsLogged(w, s, more);
    NextStands(w, s);
    GoesOnFrom(w, s);
    LegLog(w, s);
  }

  lemma StartIsSound(w: Script)
    ensures Sound(w, START)
  {
  }

  /**
   In every run, finished or not, the checks come in order; each one holds what its gate
   reported, was made in that gate's state and answered by its verdict's event; the machine
   is where the events sent lead a fresh one; and a run is unfinished only for want of
   re-assertions.
   */
  ghost predicate Kept(w: Script, c: Course) {
    && |c.sent| <= |w.reasserts| && InOrder(c.log) && Logged(w, c.sent, c.log)
    && match c.result
       case None => |c.sent| == |w.reasserts|
       case Some(r) =>
         && r.machine == Reached(c.sent, w.reasserts)
         && if w.disableOk then OutcomeTells(r)
            else c.sent == [] && r == FlowResult(FreshMachine, ExitedToFirmware, Both, None)
  }

  /** The outcome tells where the machine is. */
  ghost predicate OutcomeTells(r: FlowResult) {
    && (r.outcome.ExitedToFirmware? <==> r.machine.state.ExitToFirmware?)
    && (r.outcome.BackToCaller? <==> r.machine.state.Start?)
    && (r.outcome.HandoffToSecretPhase? <==> r.machine.state in {MachineEntropyAcquisition, PhysicalCollection})
    && (r.outcome.Unexpected? ==> r.outcome.state == r.machine.state)
  }

  lemma {:induction false} PlayIsKept(w: Script, s: Spot)
    requires w.disableOk && Sound(w, s)
    ensures Kept(w, Play(w, s))
    decreases |w.reasserts| - |s.sent|
  {
    hide Next, Reached, Logged, Driven, InOrder, Stands, NextLog, NextEvent;
    var more := NextLeads(w, s);
    NextIsLogged(w, s, more);
    LegLog(w, s);
    if Next(w, s).turn.GoesOn? {
      NextIsSound(w, s);
      PlayIsKept(w, After(s, Next(w, s)));
    }
  }

  lemma FlowIsKept(w: Script)
    ensures Kept(w, Flow(w))
  {
    hide Play, Sound, Logged, InOrder;
    StartIsSound(w);
    if w.disableOk {
      PlayIsKept(w, START);
    } else {
      NothingIsKept(w);
    }
  }

  lemma NothingIsKept(w: Script)
    ensures InOrder([]) && Logged(w, [], []) && Reached([], w.reasserts) == FreshMachine
  {
  }

  // ------------------------------------------------------------- the handoff

  /** At the setup screen: every gate was admitted by its own latest check, the graphics one cleanly. */
  ghost predicate Earned(w: Script, s: Spot) {
    && CryptoDone(w, s) && EarlierGatesAdmitted(s.log, CryptoGate)
    && !Latest(s.log, GraphicsGate).value.verdict.BlocksGeneration()
  }

  /** The driver itself never misreports the class of these two gates. */
  lemma OwnClasses(w: Script, sent: seq<Event>, log: seq<Check>)
    requires Logged(w, sent, log)
    ensures forall c :: c in log && c.gate in {GraphicsGate, CryptoGate} ==> Documented(c)
  {
    hide WasSent;
  }

  lemma {:induction false} LatestIsOfGate(log: seq<Check>, g: Gate)
    ensures Latest(log, g).Some? ==> Latest(log, g).value.gate == g && Latest(log, g).value in log
  {
    if log != [] { LatestIsOfGate(log[..|log| - 1], g); }
  }

  /**
   A check that fails with a documented class is made again: under good re-assertions and an
   Enter, the run goes on in the state it was in.
   */
  lemma FailedCheckIsRepeated(w: Script, s: Spot)
    requires |s.sent| + 1 < |w.reasserts| && w.reasserts[|s.sent|] && w.reasserts[|s.sent| + 1] && w.enters(s.screens)
    requires match s.m.state
             case PlatformAndVirtualizationCheck =>
               var v := w.platform(|s.log|);
               !v.outcome.Clean? && (v.errorClass.Platform? || v.errorClass.Virtualization?)
             case ConsoleTopologyCheck =>
               !w.console(|s.log|).outcome.Clean? && w.console(|s.log|).errorClass.ConsoleTopology?
             case GraphicsAndKeyboardSelfTest => w.graphics(|s.log|) != Available(PassedOrSkipped)
             case CryptographicSelfTest => !w.crypto(|s.log|).Clean?
             case _ => false
    ensures Next(w, s).turn == GoesOn(s.m, s.screens + 1)
  {
    hide Settle, Events, Forced, GateEvent;
    IsGateState(s.m.state);
    var g := GateOf(s.m.state).value;
    RepeatLands(g, Report(w, g, |s.log|), s.m, w.reasserts, |s.sent|, w.enters, s.screens);
  }

  /** A blocking verdict, two good re-assertions and an Enter. */
  lemma RepeatLands(g: Gate, v: Verdict, m: Machine, oks: seq<bool>, at: nat, enters: nat -> bool, screens: nat)
    requires m.state == GateState(g) && v.BlocksGeneration()
    requires at + 1 < |oks| && oks[at] && oks[at + 1] && enters(screens)
    ensures Settle(m, GateEvent(v), oks, at, enters, screens)
            == Landed(m.(state := Resume(v.errorClass)), at + 2, screens + 1)
  {
    hide Step, Resume;
    StepAtGate(g, v, m, true);
    StepAtError(m.(state := PreSecretError(v.errorClass)), true, true);
    assert !Resume(v.errorClass).PreSecretError? by { ResumeIsNoError(v.errorClass); }
  }

  lemma ResumeIsNoError(c: ErrorClass)
    ensures !Resume(c).PreSecretError?
  {
  }

  /** After a failed re-assertion no gate but the last lets the run go on. */
  lemma ReassertFailureStops(w: Script, s: Spot)
    requires |s.sent| < |w.reasserts| && !w.reasserts[|s.sent|]
    requires s.m.state in {PlatformAndVirtualizationCheck, ConsoleTopologyCheck, GraphicsAndKeyboardSelfTest}
    ensures !Next(w, s).turn.GoesOn?
  {
    hide Step, Settle, Events, Forced;
    IsGateState(s.m.state);
    var g := GateOf(s.m.state).value;
    GateLanding(g, Report(w, g, |s.log|), s.m, w.reasserts, |s.sent|, w.enters, s.screens);
    EventsLead(s.m, NextEvent(w, s), w.reasserts, |s.sent|, w.enters, s.screens);
  }

  /** A documented class admits only a clean verdict. */
  lemma AdmitsClean(c: Check)
    requires Admits(c) && Documented(c)
    ensures c.verdict.outcome.Clean?
  {
  }

  lemma SetupIsEarned(w: Script, s: Spot)
    requires Sound(w, s) && s.m.state == SetupSelection
    ensures Earned(w, s) && RecapOf(s.log).Some? && forall g :: Latest(s.log, g).Some?
  {
    hide Reached, Logged, Driven, InOrder, Admits, Documented, Settle;
    OrderAdmits(s.log);
    OwnClasses(w, s.sent, s.log);
    LatestIsOfGate(s.log, GraphicsGate);
    AdmitsClean(Latest(s.log, GraphicsGate).value);
    forall g ensures Latest(s.log, g).Some? {
      match g case PlatformGate => case ConsoleGate => case GraphicsGate => case CryptoGate =>
    }
  }

  /** One of the two re-assertions of this check's step fails, and its last error screen is left by Enter. */
  predicate LetThrough(w: Script, c: Check) {
    && c.at + 1 < |w.reasserts| && !(w.reasserts[c.at] && w.reasserts[c.at + 1])
    && var f := FirstOkAfter(w.reasserts, c.at);
       f.Some? && w.enters(c.screens + (f.value - c.at - 1))
  }

  /** A crypto check that leads to the setup screen is clean, or was let through. */
  lemma SetupIsReached(w: Script, s: Spot)
    requires CryptoDone(w, s) && s.m.state == SetupSelection && Logged(w, s.sent, s.log)
    ensures var c := s.log[|s.log| - 1]; c.verdict.outcome.Clean? || LetThrough(w, c)
  {
    hide Settle, Step, Reached, WasSent, Documented;
    var c := s.log[|s.log| - 1];
    if c.verdict.BlocksGeneration() {
      CryptoFailureLetThrough(c.verdict, s.m.(state := CryptographicSelfTest), w.reasserts, c.at, w.enters, c.screens);
    }
  }

  /**
   The run handed off from setup screen `s`: its commit was sent there, the crypto check's own
   step having led there, under a good re-assertion, and nothing was sent after it; the result
   carries what was committed and the recap of the verdicts that earned it.
   */
  ghost predicate HandsOff(w: Script, s: Spot, c: Course) {
    && Sound(w, s) && s.m.state == SetupSelection && Earned(w, s)
    && |s.sent| < |w.reasserts| && w.reasserts[|s.sent|]
    && var a := w.setup(s.setups);
       && a.Commit? && c.sent == s.sent + [SetupEvent(a)] && c.log == s.log
       && RecapOf(s.log).Some?
       && c.result == Some(FlowResult(Taken(s.m, SetupEvent(a)), HandoffToSecretPhase, a.instrument, RecapOf(s.log)))
  }

  predicate IsHandoff(c: Course) { c.result.Some? && c.result.value.outcome.HandoffToSecretPhase? }

  /** A step that ends in a handoff is a commit at the setup screen. */
  lemma EndsInHandoff(w: Script, s: Spot)
    requires Sound(w, s) && Next(w, s).turn.Ends? && OutcomeOf(Next(w, s).turn.m.state).HandoffToSecretPhase?
    ensures HandsOff(w, s, Play(w, s))
  {
    hide Settle, Step, Run, Reached, Logged, Driven, InOrder, Report, Forced, Latest, Earned, CryptoDone;
    var ev, at, oks := NextEvent(w, s), |s.sent|, w.reasserts;
    if GateOf(s.m.state).Some? {
      assert false;
    } else {
      EdgeLanding(s.m, ev, oks, at, w.enters, s.screens);
      SetupIsEarned(w, s);
      EventsLead(s.m, ev, oks, at, w.enters, s.screens);
    }
  }

  /** Every handoff is one from some setup screen. */
  lemma {:induction false} PlayHandsOff(w: Script, s: Spot) returns (t: Spot)
    requires Sound(w, s) && IsHandoff(Play(w, s))
    ensures HandsOff(w, t, Play(w, s))
    decreases |w.reasserts| - |s.sent|
  {
    hide Next, Stands, InOrder, Logged, Driven, HandsOff;
    match Next(w, s).turn
    case GoesOn(_, _) =>
      NextIsSound(w, s);
      t := PlayHandsOff(w, After(s, Next(w, s)));
    case Ends(m) =>
      EndsInHandoff(w, s);
      t := s;
  }

  /** With documented error classes an earned handoff means clean platform, console and graphics checks. */
  lemma EarnedMeansClean(w: Script, s: Spot)
    requires Earned(w, s)
    requires Documented(Latest(s.log, PlatformGate).value) && Documented(Latest(s.log, ConsoleGate).value)
    ensures Latest(s.log, PlatformGate).value.verdict.outcome.Clean?
    ensures Latest(s.log, ConsoleGate).value.verdict.outcome.Clean?
    ensures Latest(s.log, GraphicsGate).value.verdict.outcome.Clean?
  {
    hide CryptoDone, Latest, Admits, Documented;
    LatestIsOfGate(s.log, PlatformGate);
    LatestIsOfGate(s.log, ConsoleGate);
    AdmitsClean(Latest(s.log, PlatformGate).value);
    AdmitsClean(Latest(s.log, ConsoleGate).value);
  }

  lemma LatestAt(log: seq<Check>, g: Gate) returns (i: nat)
    requires Latest(log, g).Some?
    ensures i < |log| && log[i] == Latest(log, g).value && log[i].gate == g
  {
    LatestIsOfGate(log, g);
    i :| 0 <= i < |log| && log[i] == Latest(log, g).value;
  }

  /**
   What a handoff says of the gates themselves, when what they report of a check that is not
   clean has a documented class: a clean platform check, then a clean console check, then an
   available display whose test passed or was skipped, and last a crypto check that was clean
   or whose own step was let through. The event right after that step is the commit.
   */
  lemma HandoffMeansClean(w: Script) returns (p: nat, k: nat, g: nat, x: nat, s: Spot)
    requires IsHandoff(Flow(w))
    requires forall n :: w.platform(n).BlocksGeneration() ==>
               w.platform(n).errorClass in {ErrorClass.Platform, Virtualization}
    requires forall n :: w.console(n).BlocksGeneration() ==> w.console(n).errorClass == ConsoleTopology
    ensures HandsOff(w, s, Flow(w))
    ensures p < k < g < x && x + 1 == |Flow(w).log|
    ensures w.platform(p).outcome.Clean? && w.console(k).outcome.Clean?
    ensures w.graphics(g) == Available(PassedOrSkipped)
    ensures w.crypto(x).Clean? || LetThrough(w, Flow(w).log[x])
  {
    hide Play, InOrder, Reached, LetThrough, Settle, Latest, Run, WasSent, Driven, EarlierGatesAdmitted;
    s := FlowHandsOff(w);
    SetupIsEarned(w, s);
    p := LatestAt(s.log, PlatformGate);
    k := LatestAt(s.log, ConsoleGate);
    g := LatestAt(s.log, GraphicsGate);
    x := |s.log| - 1;
    GatesInOrder(s.log, p, k, g);
    ReportsInLog(w, s.sent, s.log);
    SetupIsReached(w, s);
    hide Logged, Earned;
    EarnedMeansClean(w, s);
  }

  /** Checks of the first three gates stand before one of the last, in the gates' order. */
  lemma GatesInOrder(log: seq<Check>, p: nat, k: nat, g: nat)
    requires InOrder(log) && p < |log| && k < |log| && g < |log| && log[|log| - 1].gate.CryptoGate?
    requires log[p].gate.PlatformGate? && log[k].gate.ConsoleGate? && log[g].gate.GraphicsGate?
    ensures p < k < g < |log| - 1
  {
    hide InOrder;
    var endOfPlatform, endOfConsole := PhaseOrder(log);
  }

  lemma ReportsInLog(w: Script, sent: seq<Event>, log: seq<Check>)
    requires Logged(w, sent, log)
    ensures forall i :: 0 <= i < |log| ==> log[i].verdict == Report(w, log[i].gate, i)
  {
    hide WasSent, Report;
  }

  /** The first setup answer that is not Back. */
  ghost predicate FirstCommit(w: Script, n: nat) {
    w.setup(n).Commit? && forall k :: 0 <= k < n ==> w.setup(k).GoBack?
  }

  /** The last check of gate `g`. */
  ghost predicate LastOf(log: seq<Check>, g: Gate, i: nat) {
    i < |log| && log[i].gate == g && forall j :: i < j < |log| ==> log[j].gate != g
  }

  /**
   What a handoff carries, told by the script alone: the machine is where the mode of the first
   commit leads, with its word count, mode and instrument; the recap shows what the platform,
   the console and the crypto gate reported at their last checks.
   */
  ghost predicate Carries(w: Script, c: Course, n: nat, p: nat, k: nat, x: nat) {
    && FirstCommit(w, n)
    && LastOf(c.log, PlatformGate, p) && LastOf(c.log, ConsoleGate, k) && LastOf(c.log, CryptoGate, x)
    && c.result.Some? && c.sent != []
    && var (a, r) := (w.setup(n), c.result.value);
       && r.machine.wordCount == Some(if a.words24 then TwentyFour else Twelve)
       && r.machine.mode == Some(a.mode) && r.machine.instrument == Some(a.instrument) == Some(r.instrument)
       && r.machine.state == (match a.mode
                              case DiceOnly => PhysicalCollection
                              case Combined => MachineEntropyAcquisition
                              case MachineOnly => MachineEntropyAcquisition)
       && c.sent[|c.sent| - 1] == SetupCommitted(if a.words24 then TwentyFour else Twelve, a.mode, a.instrument)
       && r.recap.Some?
       && r.recap.value.platform == w.platform(p) && r.recap.value.console == w.console(k)
       && r.recap.value.crypto == Verdict(w.crypto(x), Cryptographic)
  }

  lemma HandoffCarries(w: Script) returns (n: nat, p: nat, k: nat, x: nat)
    requires IsHandoff(Flow(w))
    ensures Carries(w, Flow(w), n, p, k, x)
  {
    hide Play, Step, Reached, Earned, InOrder, Stands, WasSent, Driven, Latest;
    var s := FlowHandsOff(w);
    n := s.setups;
    ReportsInLog(w, s.sent, s.log);
    SetupIsEarned(w, s);
    p := LatestIsLast(s.log, PlatformGate);
    k := LatestIsLast(s.log, ConsoleGate);
    x := LatestIsLast(s.log, CryptoGate);
  }

  lemma {:induction false} LatestIsLast(log: seq<Check>, g: Gate) returns (i: nat)
    requires Latest(log, g).Some?
    ensures LastOf(log, g, i) && log[i] == Latest(log, g).value
  {
    i := |log| - 1;
    if log[i].gate != g {
      i := LatestIsLast(log[..|log| - 1], g);
    }
  }

  lemma FlowHandsOff(w: Script) returns (s: Spot)
    requires IsHandoff(Flow(w))
    ensures HandsOff(w, s, Flow(w))
  {
    hide Play, Sound, HandsOff;
    StartIsSound(w);
    s := PlayHandsOff(w, START);
  }

  // ------------------------------------------------------------ runs that end

  /** Every check is clean, no re-assertion fails, and the user acknowledges and commits. */
  ghost predicate AllClear(w: Script) {
    && w.disableOk && w.prepare.Acknowledged? && w.setup(0).Commit?
    && |w.reasserts| >= 8 && (forall i :: 0 <= i < |w.reasserts| ==> w.reasserts[i])
    && (forall g, n: nat :: !Report(w, g, n).BlocksGeneration())
  }

  /** In an all-clear run: where it stands after each event. */
  function Milestone(n: nat): AppState {
    match n
    case 0 => Start
    case 1 => ReleaseAndEnvironmentWarning
    case 2 => WatchdogDisable
    case 3 => PlatformAndVirtualizationCheck
    case 4 => ConsoleTopologyCheck
    case 5 => GraphicsAndKeyboardSelfTest
    case 6 => CryptographicSelfTest
    case _ => SetupSelection
  }

  /** The step at `s` meets a good re-assertion and a clean check, if any. */
  predicate ClearStep(w: Script, s: Spot) {
    && w.prepare.Acknowledged? && |s.sent| < 7 && s.m.state == Milestone(|s.sent|)
    && |s.sent| < |w.reasserts| && w.reasserts[|s.sent|]
    && match GateOf(s.m.state) case Some(g) => !Report(w, g, |s.log|).BlocksGeneration() case None => true
  }

  lemma ClearLanding(w: Script, s: Spot)
    requires ClearStep(w, s)
    ensures Settle(s.m, NextEvent(w, s), w.reasserts, |s.sent|, w.enters, s.screens)
            == Landed(s.m.(state := Milestone(|s.sent| + 1)), |s.sent| + 1, s.screens)
    ensures StaysOn(w, s, Milestone(|s.sent| + 1))
  {
    hide Settle, Report;
    if |s.sent| < 3 {
      EdgeLanding(s.m, NextEvent(w, s), w.reasserts, |s.sent|, w.enters, s.screens);
    } else {
      var g := GateOf(s.m.state).value;
      CleanLanding(g, Report(w, g, |s.log|), s.m, w.reasserts, |s.sent|, w.enters, s.screens);
    }
  }

  lemma ClearNext(w: Script, s: Spot)
    requires ClearStep(w, s)
    ensures var leg := Next(w, s);
            && leg.turn.GoesOn? && |leg.sent| == |s.sent| + 1 && leg.turn.m.state == Milestone(|leg.sent|)
            && |leg.log| == |s.log| + if |s.sent| < 3 then 0 else 1
  {
    hide Settle, Step, Report, Forced, Events, NextEvent, StaysOn;
    ClearLanding(w, s);
    EventsLead(s.m, NextEvent(w, s), w.reasserts, |s.sent|, w.enters, s.screens);
  }

  lemma {:induction false} ClearPlay(w: Script, s: Spot)
    requires AllClear(w) && |s.sent| <= 7 && s.m.state == Milestone(|s.sent|) && s.setups == 0
    ensures IsHandoff(Play(w, s))
    decreases 7 - |s.sent|
  {
    hide Next, Report;
    if |s.sent| < 7 {
      ClearNext(w, s);
      ClearPlay(w, After(s, Next(w, s)));
    } else {
      CommitEnds(w, s);
    }
  }

  lemma CommitEnds(w: Script, s: Spot)
    requires s.m.state == SetupSelection && w.setup(s.setups).Commit?
    requires |s.sent| < |w.reasserts| && w.reasserts[|s.sent|]
    ensures Next(w, s).turn.Ends? && OutcomeOf(Next(w, s).turn.m.state).HandoffToSecretPhase?
    ensures Next(w, s).log == s.log
  {
    hide Settle, Step, Forced;
    EdgeLanding(s.m, NextEvent(w, s), w.reasserts, |s.sent|, w.enters, s.screens);
  }

  /** When all is clear the run hands off. */
  lemma AllClearHandsOff(w: Script)
    requires AllClear(w)
    ensures IsHandoff(Flow(w))
  {
    hide Play;
    ClearPlay(w, START);
  }

  /** Every check is clean but the crypto self-test, and only the re-assertion of its verdict fails. */
  const UNLUCKY: Script :=
    Script(true, [true, true, true, true, true, true, false, true, true], _ => true,
           _ => Verdict(Clean, ErrorClass.Platform), _ => Verdict(Clean, ConsoleTopology),
           _ => Available(PassedOrSkipped), _ => CheckOutcome.Failed,
           Acknowledged, _ => Commit(false, DiceOnly, Instrument.Dice))

  /** Such a run hands off, its one self-test failed. */
  lemma FailedSelfTestHandsOff()
    ensures IsHandoff(Flow(UNLUCKY)) && |Flow(UNLUCKY).log| == 4
    ensures Flow(UNLUCKY).log[3].gate.CryptoGate? && Flow(UNLUCKY).log[3].verdict.outcome.Failed?
  {
    hide Play, Settle, Reached, InOrder, WasSent, Driven, EarlierGatesAdmitted, Latest, RecapOf;
    UnluckyPlay(START);
    var s := FlowHandsOff(UNLUCKY);
    ReportsInLog(UNLUCKY, s.sent, s.log);
  }

  lemma {:induction false} UnluckyPlay(s: Spot)
    requires |s.sent| <= 6 && s.m.state == Milestone(|s.sent|) && s.setups == 0
    requires |s.log| == if |s.sent| < 3 then 0 else |s.sent| - 3
    ensures IsHandoff(Play(UNLUCKY, s)) && |Play(UNLUCKY, s).log| == 4
    decreases 6 - |s.sent|
  {
    hide Next;
    if |s.sent| < 6 {
      ClearNext(UNLUCKY, s);
      UnluckyPlay(After(s, Next(UNLUCKY, s)));
    } else {
      UnluckyNext(s);
      CommitEnds(UNLUCKY, After(s, Next(UNLUCKY, s)));
    }
  }

  lemma UnluckyNext(s: Spot)
    requires |s.sent| == 6 && s.m.state == CryptographicSelfTest
    ensures var leg := Next(UNLUCKY, s);
            leg.turn.GoesOn? && |leg.sent| == 8 && leg.turn.m.state == SetupSelection && |leg.log| == |s.log| + 1
  {
    hide Settle, Events, Forced, NextEvent, StaysOn;
    UnluckyLanding(s);
    EventsLead(s.m, NextEvent(UNLUCKY, s), UNLUCKY.reasserts, 6, UNLUCKY.enters, s.screens);
  }

  lemma UnluckyLanding(s: Spot)
    requires |s.sent| == 6 && s.m.state == CryptographicSelfTest
    ensures Settle(s.m, NextEvent(UNLUCKY, s), UNLUCKY.reasserts, 6, UNLUCKY.enters, s.screens)
            == Landed(s.m.(state := SetupSelection), 8, s.screens + 1)
    ensures StaysOn(UNLUCKY, s, SetupSelection)
  {
    hide Step;
    StepAtGate(CryptoGate, Report(UNLUCKY, CryptoGate, |s.log|), s.m, false);
    StepAtError(s.m.(state := PreSecretError(ErrorClass.Watchdog)), true, true);
  }

  /** Leaving the first screen ends the run. */
  lemma LeaveEnds(w: Script, s: Spot)
    requires w.prepare.Leave? && s.m == FreshMachine.(state := ReleaseAndEnvironmentWarning)
    requires |s.sent| <= |w.reasserts| && s.log == []
    ensures !Next(w, s).turn.GoesOn? && Next(w, s).log == []
    ensures |s.sent| < |w.reasserts| && w.reasserts[|s.sent|] ==> Next(w, s).turn == Ends(FreshMachine)
  {
    hide Settle, Step, Forced;
    EdgeLanding(s.m, Back, w.reasserts, |s.sent|, w.enters, s.screens);
  }

  /** The first event leads to the first screen, or ends the run. */
  lemma OpeningNext(w: Script)
    ensures var leg := Next(w, START);
            && leg.log == []
            && (leg.turn.GoesOn? ==> leg.turn.m == FreshMachine.(state := ReleaseAndEnvironmentWarning))
            && (w.reasserts != [] && w.reasserts[0] ==> leg.turn.GoesOn? && |leg.sent| == 1)
  {
    hide Settle, Step, Forced;
    EdgeLanding(FreshMachine, Continue, w.reasserts, 0, w.enters, 0);
    EventsLead(FreshMachine, Continue, w.reasserts, 0, w.enters, 0);
  }

  /** Leaving the first screen checks no gate, and goes back to the caller under good re-assertions. */
  lemma LeavingChecksNothing(w: Script)
    requires w.prepare.Leave?
    ensures Flow(w).log == []
    ensures w.disableOk && |w.reasserts| >= 2 && w.reasserts[0] && w.reasserts[1] ==>
              Flow(w).result.Some? && Flow(w).result.value.outcome.BackToCaller?
  {
    hide Next;
    if w.disableOk {
      OpeningNext(w);
      if Next(w, START).turn.GoesOn? {
        var s := After(START, Next(w, START));
        LeaveEnds(w, s);
        assert Play(w, START) == Play(w, s);
      }
    }
  }

  /** Without them it does not: a failed platform check reporting the console class moves on. */
  lemma MisreportedClassExample(m: Machine)
    requires m.state == PlatformAndVirtualizationCheck
    ensures var v := Verdict(CheckOutcome.Failed, ConsoleTopology);
            && Settle(m, GateEvent(v), [true, true], 0, _ => true, 0) == Landed(m.(state := ConsoleTopologyCheck), 2, 1)
            && Admits(Check(PlatformGate, v, 0, 0)) && !Documented(Check(PlatformGate, v, 0, 0))
  {
    var enters: nat -> bool := _ => true;
    var m' := Step(m, GateEvent(Verdict(CheckOutcome.Failed, ConsoleTopology)), true);
    assert m'.state == PreSecretError(ConsoleTopology);
    assert Settle(m', Continue, [true, true], 1, enters, 1) == Landed(m.(state := ConsoleTopologyCheck), 2, 1);
  }

}
