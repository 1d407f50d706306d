/**
 The application state machine (`crates/seed-protocol/src/state/mod.rs`).

 `Step` is one call of `transition` on a snapshot of the machine: the watchdog is
 re-asserted first (`ok` is what that returned), then the event is routed. The class
 `StateMachine` updates its fields in place and is proved to do exactly that. The
 lemmas are about every sequence of events and watchdog outcomes.
 */
module Protocol {
  import opened Wrappers
  import opened Contracts

  datatype ErrorClass =
    | Platform | Watchdog | ConsoleTopology | Virtualization | GraphicsOrKeyboard
    | EntropyPolicy | MachineSource | PhysicalEntryState | Derivation | Cryptographic
    | StateMachineError | Integrity | ShutdownError

  datatype AppState =
    | Start
    | ReleaseAndEnvironmentWarning
    | WatchdogDisable
    | PlatformAndVirtualizationCheck
    | ConsoleTopologyCheck
    | GraphicsAndKeyboardSelfTest
    | CryptographicSelfTest
    | SetupSelection
    | MachineEntropyAcquisition
    | PhysicalCollection
    | FinalGenerationConfirmation
    | FinalEntropyDerivation
    | MnemonicGeneration
    | MnemonicDisplay
    | DestroyConfirm
    | DisplayScrub
    | CompleteHiddenReentry
    | ReentryMismatchChoice
    | PassphraseOffer
    | PassphraseEntry
    | PassphraseConfirm
    | DerivationVerificationDisplay
    | CompletionEducation
    | SecretArenaScrub
    | FramebufferScrub
    | Shutdown
    | ShutdownFailedHalt
    | ExitToFirmware
    | PreSecretError(class_: ErrorClass)
    | ScrubWhatIsReachable
    | BlankDisplay
    | ShutdownOrHalt
  {
    /** Final entropy exists, or has existed, in this run. */
    predicate IsPostSecret() {
      !(Start? || ReleaseAndEnvironmentWarning? || WatchdogDisable?
        || PlatformAndVirtualizationCheck? || ConsoleTopologyCheck?
        || GraphicsAndKeyboardSelfTest? || CryptographicSelfTest? || SetupSelection?
        || MachineEntropyAcquisition? || PhysicalCollection? || FinalGenerationConfirmation?
        || ExitToFirmware? || PreSecretError?)
    }

    predicate IsFatalChain() { ScrubWhatIsReachable? || BlankDisplay? || ShutdownOrHalt? }

    predicate IsTerminal() { ShutdownOrHalt? || ShutdownFailedHalt? || ExitToFirmware? }
  }

  datatype PreSecretDisposition = ReturnToMenu | Exit

  datatype EntropyMode = Combined | DiceOnly | MachineOnly {
    predicate NeedsMachine() { Combined? || MachineOnly? }
    predicate NeedsPhysical() { Combined? || DiceOnly? }
  }

  datatype Instrument = Dice | Coins | Both

  datatype Event =
    | Continue
    | Escape
    | Back
    | CheckPassed
    | CheckFailed(class_: ErrorClass, disposition: PreSecretDisposition)
    | SetupCommitted(wordCount: WordCount, mode: EntropyMode, instrument: Instrument)
    | MachineEntropyComplete
    | MachineEntropyFailed(disposition: PreSecretDisposition)
    | PhysicalBudgetMet
    | FinalConfirm
    | DerivationComplete
    | DerivationFailed(disposition: PreSecretDisposition)
    | MnemonicReady
    | HideAndReenter
    | DestroyRequested
    | DestroyConfirmed
    | ScrubComplete
    | ReentryPositionMatched
    | ReentryComplete
    | ReentryMismatch
    | RetryPosition
    | RevealAgain
    | PassphraseOfferYes
    | PassphraseUseEmpty
    | PassphraseEntered
    | PassphraseConfirmMatch
    | PassphraseConfirmMismatch
    | ShowVerification
    | SkipVerification
    | VerificationAcknowledged
    | VerificationFailed
    | EducationAcknowledged
    | ShutdownRequested
    | ShutdownFailed
    | Fault(class_: ErrorClass)

  /** The mandatory startup gate an error of this class sends the user back to, if any. */
  function MandatoryGateRetry(c: ErrorClass): Option<AppState> {
    match c
    case Platform => Some(PlatformAndVirtualizationCheck)
    case Virtualization => Some(PlatformAndVirtualizationCheck)
    case ConsoleTopology => Some(ConsoleTopologyCheck)
    case GraphicsOrKeyboard => Some(GraphicsAndKeyboardSelfTest)
    case Cryptographic => Some(CryptographicSelfTest)
    case _ => None
  }

  /** Where `Continue` leads from an error of this class. */
  function Resume(c: ErrorClass): AppState {
    match MandatoryGateRetry(c)
    case Some(gate) => gate
    case None => SetupSelection
  }

  function CheckFailedTarget(c: ErrorClass, d: PreSecretDisposition): AppState {
    match d
    case ReturnToMenu => PreSecretError(c)
    case Exit => ExitToFirmware
  }

  /** A snapshot of the machine: its state and the non-secret context it carries. */
  datatype Machine = Machine(state: AppState, wordCount: Option<WordCount>, mode: Option<EntropyMode>,
                             instrument: Option<Instrument>)

  const FreshMachine := Machine(Start, None, None, None)

  /** The transition table; `None` when `ev` is not legal from `from`. */
  function LegalEdge(from: AppState, mode: Option<EntropyMode>, ev: Event): Option<AppState> {
    if from.IsPostSecret() then PostSecretEdge(from, ev) else PreSecretEdge(from, mode, ev)
  }

  /** The rows of the table before the secret-creation boundary. */
  function PreSecretEdge(from: AppState, mode: Option<EntropyMode>, ev: Event): Option<AppState> {
    match from
    case Start => if ev.Continue? then Some(ReleaseAndEnvironmentWarning) else None
    case ReleaseAndEnvironmentWarning => (
      match ev
      case Continue => Some(WatchdogDisable)
      case Escape => Some(ExitToFirmware)
      case Back => Some(Start)
      case _ => None)
    case WatchdogDisable => (
      match ev
      case Continue => Some(PlatformAndVirtualizationCheck)
      case Back => Some(ReleaseAndEnvironmentWarning)
      case _ => None)
    case PlatformAndVirtualizationCheck => GateEdge(ev, ConsoleTopologyCheck, WatchdogDisable)
    case ConsoleTopologyCheck => GateEdge(ev, GraphicsAndKeyboardSelfTest, PlatformAndVirtualizationCheck)
    case GraphicsAndKeyboardSelfTest => GateEdge(ev, CryptographicSelfTest, ConsoleTopologyCheck)
    case CryptographicSelfTest => GateEdge(ev, SetupSelection, GraphicsAndKeyboardSelfTest)
    case SetupSelection => (
      match ev
      case SetupCommitted(_, m, _) => Some(if m.NeedsMachine() then MachineEntropyAcquisition else PhysicalCollection)
      case Back => Some(GraphicsAndKeyboardSelfTest)
      case _ => None)
    case MachineEntropyAcquisition => (
      match ev
      case MachineEntropyComplete =>
        Some(if mode.Some? && mode.value.NeedsPhysical() then PhysicalCollection else FinalGenerationConfirmation)
      case MachineEntropyFailed(d) => Some(CheckFailedTarget(MachineSource, d))
      case Back => Some(SetupSelection)
      case _ => None)
    case PhysicalCollection => (
      match ev
      case PhysicalBudgetMet => Some(FinalGenerationConfirmation)
      case Back => Some(SetupSelection)
      case _ => None)
    case FinalGenerationConfirmation => (
      match ev
      case FinalConfirm => Some(FinalEntropyDerivation)
      case Escape => Some(SetupSelection)
      case Back => Some(SetupSelection)
      case _ => None)
    case PreSecretError(c) => (
      match ev
      case Continue => Some(Resume(c))
      case Escape => Some(ExitToFirmware)
      case _ => None)
    case _ => None
  }

  function GateEdge(ev: Event, advance: AppState, back: AppState): Option<AppState> {
    match ev
    case CheckPassed => Some(advance)
    case CheckFailed(c, d) => Some(CheckFailedTarget(c, d))
    case Back => Some(back)
    case _ => None
  }

  /** The rows of the table at or after the secret-creation boundary. */
  function PostSecretEdge(from: AppState, ev: Event): Option<AppState> {
    match from
    case FinalEntropyDerivation =>
      if ev.DerivationComplete? then Some(MnemonicGeneration)
      else if ev.DerivationFailed? then Some(ScrubWhatIsReachable)
      else None
    case MnemonicGeneration => if ev.MnemonicReady? then Some(MnemonicDisplay) else None
    case MnemonicDisplay =>
      if ev.HideAndReenter? then Some(DisplayScrub)
      else if ev.DestroyRequested? then Some(DestroyConfirm)
      else None
    case DestroyConfirm =>
      if ev.DestroyConfirmed? then Some(SecretArenaScrub)
      else if ev.Continue? then Some(MnemonicDisplay)
      else None
    case DisplayScrub => if ev.ScrubComplete? then Some(CompleteHiddenReentry) else None
    case CompleteHiddenReentry =>
      if ev.ReentryPositionMatched? then Some(CompleteHiddenReentry)
      else if ev.ReentryComplete? then Some(PassphraseOffer)
      else if ev.ReentryMismatch? then Some(ReentryMismatchChoice)
      else None
    case ReentryMismatchChoice =>
      if ev.RetryPosition? then Some(CompleteHiddenReentry)
      else if ev.RevealAgain? then Some(MnemonicDisplay)
      else if ev.DestroyRequested? then Some(DestroyConfirm)
      else None
    case PassphraseOffer =>
      if ev.PassphraseOfferYes? then Some(PassphraseEntry)
      else if ev.PassphraseUseEmpty? then Some(DerivationVerificationDisplay)
      else None
    case PassphraseEntry =>
      if ev.PassphraseEntered? then Some(PassphraseConfirm)
      else if ev.PassphraseUseEmpty? then Some(DerivationVerificationDisplay)
      else None
    case PassphraseConfirm =>
      if ev.PassphraseConfirmMatch? then Some(DerivationVerificationDisplay)
      else if ev.PassphraseConfirmMismatch? then Some(PassphraseEntry)
      else None
    case DerivationVerificationDisplay =>
      if ev.ShowVerification? then Some(DerivationVerificationDisplay)
      else if ev.SkipVerification? then Some(CompletionEducation)
      else if ev.VerificationAcknowledged? then Some(CompletionEducation)
      else if ev.VerificationFailed? then Some(ScrubWhatIsReachable)
      else None
    case CompletionEducation => if ev.EducationAcknowledged? then Some(SecretArenaScrub) else None
    case SecretArenaScrub => if ev.ScrubComplete? then Some(FramebufferScrub) else None
    case FramebufferScrub => if ev.ScrubComplete? then Some(Shutdown) else None
    case Shutdown =>
      if ev.ShutdownRequested? then Some(Shutdown)
      else if ev.ShutdownFailed? then Some(ShutdownFailedHalt)
      else None
    case _ => None
  }

  /** Where an event with no legal edge leads, and the class of the fatal error if one began. */
  function IllegalEdge(from: AppState, ev: Event): (AppState, Option<ErrorClass>) {
    if from.IsPostSecret() then
      (ScrubWhatIsReachable, Some(if ev.Fault? then ev.class_ else StateMachineError))
    else
      (match ev
       case CheckFailed(c, d) => CheckFailedTarget(c, d)
       case MachineEntropyFailed(d) => CheckFailedTarget(MachineSource, d)
       case DerivationFailed(d) => CheckFailedTarget(Derivation, d)
       case Fault(c) => PreSecretError(c)
       case _ => PreSecretError(StateMachineError), None)
  }

  datatype Transition = Moved(next: AppState, wasIllegal: bool, fatalClass: Option<ErrorClass>)

  /** What one call reports; `ok` is the outcome of the watchdog re-assertion. */
  function Route(from: AppState, mode: Option<EntropyMode>, ev: Event, ok: bool): Transition {
    if from.IsTerminal() then Moved(from, false, None)
    else if from.IsFatalChain() then
      Moved(if from.ScrubWhatIsReachable? then BlankDisplay else ShutdownOrHalt, false, None)
    else if !ok then
      if from.IsPostSecret() then Moved(ScrubWhatIsReachable, true, Some(Watchdog))
      else Moved(PreSecretError(Watchdog), true, None)
    else
      match LegalEdge(from, mode, ev)
      case Some(next) => Moved(next, false, None)
      case None => var (next, class_) := IllegalEdge(from, ev); Moved(next, true, class_)
  }

  /** The machine after one call: the context changes only when a setup is accepted. */
  function Step(m: Machine, ev: Event, ok: bool): Machine {
    var m' := m.(state := Route(m.state, m.mode, ev, ok).next);
    if m.state.SetupSelection? && ok && ev.SetupCommitted? then
      m'.(wordCount := Some(ev.wordCount), mode := Some(ev.mode), instrument := Some(ev.instrument))
    else m'
  }

  class StateMachine {
    var state: AppState
    var wordCount: Option<WordCount>
    var mode: Option<EntropyMode>
    var instrument: Option<Instrument>

    function View(): Machine
      reads this
    {
      Machine(state, wordCount, mode, instrument)
    }

    constructor ()
      ensures View() == FreshMachine
    {
      state, wordCount, mode, instrument := Start, None, None, None;
    }

    /** `reassertOk` is what the watchdog hook, called exactly once, returned. */
    method Transition(ev: Event, reassertOk: bool) returns (t: Transition)
      modifies this
      ensures t == Route(old(state), old(mode), ev, reassertOk)
      ensures View() == Step(old(View()), ev, reassertOk) && t.next == state
    {
      var from := state;
      if from.IsTerminal() {
        return Moved(from, false, None);
      }
      if from.IsFatalChain() {
        state := if from.ScrubWhatIsReachable? then BlankDisplay else ShutdownOrHalt;
        return Moved(state, false, None);
      }
      if !reassertOk {
        if from.IsPostSecret() {
          state := ScrubWhatIsReachable;
          return Moved(state, true, Some(Watchdog));
        }
        state := PreSecretError(Watchdog);
        return Moved(state, true, None);
      }
      if from.SetupSelection? && ev.SetupCommitted? {
        wordCount, mode, instrument := Some(ev.wordCount), Some(ev.mode), Some(ev.instrument);
      }
      match LegalEdge(from, mode, ev) {
        case Some(next) =>
          state := next;
          t := Moved(next, false, None);
        case None =>
          var (next, class_) := IllegalEdge(from, ev);
          state := next;
          t := Moved(next, true, class_);
      }
    }
  }

  // ------------------------------------------------------ safety over whole runs

  /** One call of `transition`: the event sent and whether the re-assertion succeeded. */
  datatype Input = Input(ev: Event, ok: bool)

  function Run(m: Machine, inputs: seq<Input>): Machine
    decreases |inputs|
  {
    if inputs == [] then m else Run(Step(m, inputs[0].ev, inputs[0].ok), inputs[1..])
  }

  /**
   Once a secret exists no sequence of events and watchdog outcomes leaves the
   post-secret states: never back to a menu, never out to the firmware.
   */
  lemma {:induction false} SecretIsNeverLeft(m: Machine, inputs: seq<Input>)
    requires m.state.IsPostSecret()
    ensures Run(m, inputs).state.IsPostSecret()
    ensures !Run(m, inputs).state.ExitToFirmware?
    decreases |inputs|
  {
    if inputs != [] {
      PostSecretStep(m, inputs[0]);
      SecretIsNeverLeft(Step(m, inputs[0].ev, inputs[0].ok), inputs[1..]);
    }
  }

  lemma PostSecretStep(m: Machine, i: Input)
    requires m.state.IsPostSecret()
    ensures Step(m, i.ev, i.ok).state.IsPostSecret()
  {
    var edge := PostSecretEdge(m.state, i.ev);
    assert edge.Some? ==> edge.value.IsPostSecret();
  }

  /** The only way into the post-secret states is an accepted final confirmation. */
  lemma SecretBoundary(m: Machine, i: Input)
    requires !m.state.IsPostSecret()
    ensures Step(m, i.ev, i.ok).state.IsPostSecret()
            <==> m.state.FinalGenerationConfirmation? && i.ev.FinalConfirm? && i.ok
    ensures Step(m, i.ev, i.ok).state.IsPostSecret() ==> Step(m, i.ev, i.ok).state.FinalEntropyDerivation?
  {
    var g := GateEdge(i.ev, SetupSelection, SetupSelection);
  }

  /** So every run that reaches a secret contains that confirmation, accepted in that state. */
  lemma {:induction false} SecretNeedsConfirmation(m: Machine, inputs: seq<Input>) returns (k: nat)
    requires !m.state.IsPostSecret() && Run(m, inputs).state.IsPostSecret()
    ensures k < |inputs| && inputs[k] == Input(FinalConfirm, true)
    ensures Run(m, inputs[..k]).state == FinalGenerationConfirmation
    decreases |inputs|
  {
    SecretBoundary(m, inputs[0]);
    var m' := Step(m, inputs[0].ev, inputs[0].ok);
    if m'.state.IsPostSecret() {
      k := 0;
    } else {
      var k' := SecretNeedsConfirmation(m', inputs[1..]);
      k := k' + 1;
      assert inputs[..k][1..] == inputs[1..][..k'];
    }
  }

  /**
   After a fault, an event the table does not list or a failed re-assertion, any three
   further calls at most end in the terminal halt, whatever they are, and it is final.
   */
  lemma FaultHalts(m: Machine, i: Input, more: seq<Input>)
    requires m.state.IsPostSecret() && !m.state.IsTerminal() && !m.state.IsFatalChain()
    requires !i.ok || PostSecretEdge(m.state, i.ev).None?
    requires |more| >= 2
    ensures Run(Step(m, i.ev, i.ok), more).state == ShutdownOrHalt
  {
    var m1 := Step(m, i.ev, i.ok);
    var m2 := Step(m1, more[0].ev, more[0].ok);
    var m3 := Step(m2, more[1].ev, more[1].ok);
    assert m1.state == ScrubWhatIsReachable && m2.state == BlankDisplay && m3.state == ShutdownOrHalt;
    assert Run(m1, more) == Run(m2, more[1..]) == Run(m3, more[1..][1..]);
    TerminalAbsorbs(m3, more[1..][1..]);
  }

  lemma {:induction false} TerminalAbsorbs(m: Machine, inputs: seq<Input>)
    requires m.state.IsTerminal()
    ensures Run(m, inputs) == m
    decreases |inputs|
  {
    if inputs != [] { TerminalAbsorbs(m, inputs[1..]); }
  }

  // ------------------------------------------------------- the ways into each state

  /** The states from which an event is routed by the table. */
  predicate Live(s: AppState) {
    !(s.ShutdownOrHalt? || s.ShutdownFailedHalt? || s.ExitToFirmware? || s.ScrubWhatIsReachable? || s.BlankDisplay?)
  }

  /** At or after the secret an event is routed by the table, or into the fatal chain. */
  lemma AfterSecret(m: Machine, ev: Event)
    requires Live(m.state) && m.state.IsPostSecret()
    ensures Step(m, ev, true).state == match PostSecretEdge(m.state, ev)
                                       case Some(next) => next
                                       case None => ScrubWhatIsReachable
    ensures Step(m, ev, true).state.IsPostSecret()
  {
    hide PostSecretEdge;
    PostSecretStep(m, Input(ev, true));
  }

  /** Before it by its own table, or into an error screen or out; only the confirmation leads past it. */
  lemma BeforeSecret(m: Machine, ev: Event)
    requires Live(m.state) && !m.state.IsPostSecret()
    ensures match PreSecretEdge(m.state, m.mode, ev)
            case Some(next) => Step(m, ev, true).state == next
            case None => Step(m, ev, true).state.PreSecretError? || Step(m, ev, true).state.ExitToFirmware?
    ensures Step(m, ev, true).state.IsPostSecret() ==>
              m.state.FinalGenerationConfirmation? && Step(m, ev, true).state.FinalEntropyDerivation?
  {
    hide PreSecretEdge;
    SecretBoundary(m, Input(ev, true));
  }

  /** Every way into each gate, under a good re-assertion. */
  lemma WaysToGates(m: Machine, ev: Event)
    requires Live(m.state)
    ensures var (from, to) := (m.state, Step(m, ev, true).state);
            && (to.Start? <==> from.ReleaseAndEnvironmentWarning? && ev.Back?)
            && (to.ReleaseAndEnvironmentWarning? <==>
                  (from.Start? && ev.Continue?) || (from.WatchdogDisable? && ev.Back?))
            && (to.WatchdogDisable? <==>
                  || (from.ReleaseAndEnvironmentWarning? && ev.Continue?)
                  || (from.PlatformAndVirtualizationCheck? && ev.Back?))
            && (to.PlatformAndVirtualizationCheck? <==>
                  || (from.WatchdogDisable? && ev.Continue?)
                  || (from.ConsoleTopologyCheck? && ev.Back?)
                  || (from.PreSecretError? && (from.class_.Platform? || from.class_.Virtualization?) && ev.Continue?))
            && (to.ConsoleTopologyCheck? <==>
                  || (from.PlatformAndVirtualizationCheck? && ev.CheckPassed?)
                  || (from.GraphicsAndKeyboardSelfTest? && ev.Back?)
                  || (from.PreSecretError? && from.class_.ConsoleTopology? && ev.Continue?))
            && (to.GraphicsAndKeyboardSelfTest? <==>
                  || (from.ConsoleTopologyCheck? && ev.CheckPassed?)
                  || ((from.CryptographicSelfTest? || from.SetupSelection?) && ev.Back?)
                  || (from.PreSecretError? && from.class_.GraphicsOrKeyboard? && ev.Continue?))
            && (to.CryptographicSelfTest? <==>
                  || (from.GraphicsAndKeyboardSelfTest? && ev.CheckPassed?)
                  || (from.PreSecretError? && from.class_.Cryptographic? && ev.Continue?))
  {
    hide Step, PostSecretEdge;
    if m.state.IsPostSecret() {
      hide PreSecretEdge;
      AfterSecret(m, ev);
    } else {
      BeforeSecret(m, ev);
    }
  }

  /** Every way into the setup and the collection of entropy. */
  lemma WaysToConfirmation(m: Machine, ev: Event)
    requires Live(m.state)
    ensures var (from, to) := (m.state, Step(m, ev, true).state);
            && (to.SetupSelection? <==>
                  || (from.CryptographicSelfTest? && ev.CheckPassed?)
                  || (from.MachineEntropyAcquisition? && ev.Back?) || (from.PhysicalCollection? && ev.Back?)
                  || (from.FinalGenerationConfirmation? && ev.Back?)
                  || (from.FinalGenerationConfirmation? && ev.Escape?)
                  || (from.PreSecretError? && ev.Continue?
                      && !(from.class_.Platform? || from.class_.Virtualization? || from.class_.ConsoleTopology?
                           || from.class_.GraphicsOrKeyboard? || from.class_.Cryptographic?)))
            && (to.MachineEntropyAcquisition? <==>
                  from.SetupSelection? && ev.SetupCommitted? && (ev.mode.Combined? || ev.mode.MachineOnly?))
            && (to.PhysicalCollection? <==>
                  || (from.SetupSelection? && ev.SetupCommitted? && ev.mode == DiceOnly)
                  || (from.MachineEntropyAcquisition? && ev.MachineEntropyComplete?
                      && m.mode.Some? && !m.mode.value.MachineOnly?))
            && (to.FinalGenerationConfirmation? <==>
                  || (from.MachineEntropyAcquisition? && ev.MachineEntropyComplete?
                      && (m.mode.None? || m.mode.value.MachineOnly?))
                  || (from.PhysicalCollection? && ev.PhysicalBudgetMet?))
  {
    hide Step, PostSecretEdge;
    if m.state.IsPostSecret() {
      hide PreSecretEdge;
      AfterSecret(m, ev);
    } else {
      BeforeSecret(m, ev);
    }
  }

  /** Every way into an error screen or out to the firmware; the event alone decides the class. */
  lemma WaysOutBeforeSecret(m: Machine, ev: Event)
    requires Live(m.state)
    ensures var (from, to) := (m.state, Step(m, ev, true).state);
            && (to.ExitToFirmware? <==>
                  !from.IsPostSecret() &&
                  match ev
                  case Escape => from.ReleaseAndEnvironmentWarning? || from.PreSecretError?
                  case CheckFailed(_, d) => d == Exit
                  case MachineEntropyFailed(d) => d == Exit
                  case DerivationFailed(d) => d == Exit
                  case _ => false)
            && (!from.IsPostSecret() ==>
                  match ev
                  case Fault(c) => to == PreSecretError(c)
                  case CheckFailed(c, ReturnToMenu) => to == PreSecretError(c)
                  case MachineEntropyFailed(ReturnToMenu) => to == PreSecretError(MachineSource)
                  case DerivationFailed(ReturnToMenu) => to == PreSecretError(Derivation)
                  case _ => to.PreSecretError? ==> to.class_ == StateMachineError)
  {
  }

  /** Every way to the words, and their destruction. */
  lemma WaysToWords(m: Machine, ev: Event)
    requires Live(m.state)
    ensures var (from, to) := (m.state, Step(m, ev, true).state);
            && (to.MnemonicGeneration? <==> from.FinalEntropyDerivation? && ev.DerivationComplete?)
            && (to.MnemonicDisplay? <==>
                  || (from.MnemonicGeneration? && ev.MnemonicReady?)
                  || (from.DestroyConfirm? && ev.Continue?)
                  || (from.ReentryMismatchChoice? && ev.RevealAgain?))
            && (to.DestroyConfirm? <==> (from.MnemonicDisplay? || from.ReentryMismatchChoice?) && ev.DestroyRequested?)
  {
    hide Step, PreSecretEdge;
    if m.state.IsPostSecret() {
      AfterSecret(m, ev);
    } else {
      hide PostSecretEdge;
      BeforeSecret(m, ev);
    }
  }

  /** Every way through the hidden re-entry. */
  lemma WaysToReentry(m: Machine, ev: Event)
    requires Live(m.state)
    ensures var (from, to) := (m.state, Step(m, ev, true).state);
            && (to.DisplayScrub? <==> from.MnemonicDisplay? && ev.HideAndReenter?)
            && (to.CompleteHiddenReentry? <==>
                  || (from.DisplayScrub? && ev.ScrubComplete?)
                  || (from.CompleteHiddenReentry? && ev.ReentryPositionMatched?)
                  || (from.ReentryMismatchChoice? && ev.RetryPosition?))
            && (to.ReentryMismatchChoice? <==> from.CompleteHiddenReentry? && ev.ReentryMismatch?)
  {
    hide Step, PreSecretEdge;
    if m.state.IsPostSecret() {
      AfterSecret(m, ev);
    } else {
      hide PostSecretEdge;
      BeforeSecret(m, ev);
    }
  }

  /** Every way through the passphrase. */
  lemma WaysToPassphrase(m: Machine, ev: Event)
    requires Live(m.state)
    ensures var (from, to) := (m.state, Step(m, ev, true).state);
            && (to.PassphraseOffer? <==> from.CompleteHiddenReentry? && ev.ReentryComplete?)
            && (to.PassphraseEntry? <==>
                  || (from.PassphraseOffer? && ev.PassphraseOfferYes?)
                  || (from.PassphraseConfirm? && ev.PassphraseConfirmMismatch?))
            && (to.PassphraseConfirm? <==> from.PassphraseEntry? && ev.PassphraseEntered?)
  {
    hide Step, PreSecretEdge;
    if m.state.IsPostSecret() {
      AfterSecret(m, ev);
    } else {
      hide PostSecretEdge;
      BeforeSecret(m, ev);
    }
  }

  /** Every way to the derivation display and past it. */
  lemma WaysToDisplay(m: Machine, ev: Event)
    requires Live(m.state)
    ensures var (from, to) := (m.state, Step(m, ev, true).state);
            && (to.DerivationVerificationDisplay? <==>
                  || ((from.PassphraseOffer? || from.PassphraseEntry?) && ev.PassphraseUseEmpty?)
                  || (from.PassphraseConfirm? && ev.PassphraseConfirmMatch?)
                  || (from.DerivationVerificationDisplay? && ev.ShowVerification?))
            && (to.CompletionEducation? <==>
                  from.DerivationVerificationDisplay? && (ev.SkipVerification? || ev.VerificationAcknowledged?))
  {
    hide Step, PreSecretEdge;
    if m.state.IsPostSecret() {
      AfterSecret(m, ev);
    } else {
      hide PostSecretEdge;
      BeforeSecret(m, ev);
    }
  }

  /** Every way into the scrubs and the shutdown. */
  lemma WaysToShutdown(m: Machine, ev: Event)
    requires Live(m.state)
    ensures var (from, to) := (m.state, Step(m, ev, true).state);
            && (to.SecretArenaScrub? <==>
                  || (from.DestroyConfirm? && ev.DestroyConfirmed?)
                  || (from.CompletionEducation? && ev.EducationAcknowledged?))
            && (to.FramebufferScrub? <==> from.SecretArenaScrub? && ev.ScrubComplete?)
            && (to.Shutdown? <==>
                  (from.FramebufferScrub? && ev.ScrubComplete?) || (from.Shutdown? && ev.ShutdownRequested?))
            && (to.ShutdownFailedHalt? <==> from.Shutdown? && ev.ShutdownFailed?)
  {
    hide Step, PreSecretEdge;
    if m.state.IsPostSecret() {
      AfterSecret(m, ev);
    } else {
      hide PostSecretEdge;
      BeforeSecret(m, ev);
    }
  }

  /** What a step does otherwise: a failed re-assertion, the fatal chain, a terminal state. */
  lemma WithoutTheTable(m: Machine, ev: Event, ok: bool)
    requires !ok || !Live(m.state)
    ensures Step(m, ev, ok) == m.(state :=
              if (m.state.ShutdownOrHalt? || m.state.ShutdownFailedHalt? || m.state.ExitToFirmware?) then m.state
              else if m.state == ScrubWhatIsReachable then BlankDisplay
              else if m.state == BlankDisplay then ShutdownOrHalt
              else if m.state.IsPostSecret() then ScrubWhatIsReachable
              else PreSecretError(ErrorClass.Watchdog))
  {
  }

  /**
   What a call reports. It is illegal when a live state's re-assertion fails or its event leads
   to no place of its own; a fatal class comes with it exactly after the secret, the watchdog's
   for a failed re-assertion, a fault's own, and the state machine's for anything else.
   */
  lemma WhatIsReported(from: AppState, mode: Option<EntropyMode>, ev: Event, ok: bool)
    ensures var t := Route(from, mode, ev, ok);
            && (t.wasIllegal <==> Live(from) && (!ok || LegalEdge(from, mode, ev).None?))
            && (t.fatalClass.Some? <==> t.wasIllegal && from.IsPostSecret())
            && (t.fatalClass.Some? && !ok ==> t.fatalClass == Some(ErrorClass.Watchdog))
            && (t.fatalClass.Some? && ok && ev.Fault? ==> t.fatalClass == Some(ev.class_))
            && (t.fatalClass.Some? && ok && !ev.Fault? ==> t.fatalClass == Some(StateMachineError))
  {
    hide LegalEdge;
  }

  // -------------------------------------------------------- what runs go through

  lemma {:induction false} RunOn(m: Machine, a: seq<Input>, b: seq<Input>)
    ensures Run(m, a + b) == Run(Run(m, a), b)
    decreases |a|
  {
    hide Step;
    if a == [] {
      assert a + b == b;
    } else {
      assert (a + b)[1..] == a[1..] + b;
      RunOn(Step(m, a[0].ev, a[0].ok), a[1..], b);
    }
  }

  /** The machine after the first `k` inputs, one more taken. */
  lemma RunNext(m: Machine, inputs: seq<Input>, k: nat)
    requires k < |inputs|
    ensures Run(m, inputs[..k + 1]) == Step(Run(m, inputs[..k]), inputs[k].ev, inputs[k].ok)
  {
    hide Step;
    assert inputs[..k + 1] == inputs[..k] + [inputs[k]];
    RunOn(m, inputs[..k], [inputs[k]]);
    assert [inputs[k]][1..] == [];
  }

  /** A run that gets inside some states was outside at some step and inside after it. */
  lemma {:induction false} EntryStep(m: Machine, inputs: seq<Input>, inside: AppState -> bool) returns (k: nat)
    requires !inside(m.state) && inside(Run(m, inputs).state)
    ensures k < |inputs| && !inside(Run(m, inputs[..k]).state)
    ensures inside(Step(Run(m, inputs[..k]), inputs[k].ev, inputs[k].ok).state)
    decreases |inputs|
  {
    hide Step;
    k := |inputs| - 1;
    RunNext(m, inputs, k);
    assert inputs[..k + 1] == inputs;
    if inside(Run(m, inputs[..k]).state) {
      var prefix := inputs[..k];
      k := EntryStep(m, prefix, inside);
      assert prefix[..k] == inputs[..k];
    }
  }

  /** Only an event of the table leads into a state that no error and no end is. */
  lemma EntersByTable(m: Machine, i: Input, to: AppState)
    requires Step(m, i.ev, i.ok).state == to && m.state != to
    requires Live(to) && !to.PreSecretError?
    ensures Live(m.state) && i.ok
  {
    if !i.ok || !Live(m.state) { WithoutTheTable(m, i.ev, i.ok); }
  }

  /**
   Every run that comes to the shutdown has destroyed or completed the ceremony, scrubbed the
   secret arena and then the framebuffer, each in its own state and in that order.
   */
  lemma ShutdownScrubsBoth(m: Machine, inputs: seq<Input>) returns (i: nat, j: nat, k: nat)
    requires !(m.state.SecretArenaScrub? || m.state.FramebufferScrub? || m.state.Shutdown?)
    requires Run(m, inputs).state == Shutdown
    ensures i < j < k < |inputs|
    ensures inputs[k] == Input(ScrubComplete, true) && Run(m, inputs[..k]).state == FramebufferScrub
    ensures inputs[j] == Input(ScrubComplete, true) && Run(m, inputs[..j]).state == SecretArenaScrub
    ensures inputs[i].ok
    ensures || (Run(m, inputs[..i]).state == DestroyConfirm && inputs[i].ev == DestroyConfirmed)
            || (Run(m, inputs[..i]).state == CompletionEducation && inputs[i].ev == EducationAcknowledged)
  {
    hide Step;
    k := Entry(m, inputs, Shutdown);
    j := Entry(m, inputs[..k], FramebufferScrub);
    assert inputs[..k][..j] == inputs[..j];
    i := Entry(m, inputs[..j], SecretArenaScrub);
    assert inputs[..j][..i] == inputs[..i];
  }

  /** The step at which a run last entered a state, by the table, and from where. */
  lemma Entry(m: Machine, inputs: seq<Input>, to: AppState) returns (k: nat)
    requires m.state != to && Run(m, inputs).state == to && Live(to) && !to.PreSecretError?
    ensures k < |inputs| && inputs[k].ok
    ensures var at := Run(m, inputs[..k]);
            at.state != to && Live(at.state) && Step(at, inputs[k].ev, true).state == to
    ensures var (from, ev) := (Run(m, inputs[..k]).state, inputs[k].ev);
            match to
            case Shutdown => from.FramebufferScrub? && ev.ScrubComplete?
            case FramebufferScrub => from.SecretArenaScrub? && ev.ScrubComplete?
            case SecretArenaScrub =>
              (from.DestroyConfirm? && ev.DestroyConfirmed?) || (from.CompletionEducation? && ev.EducationAcknowledged?)
            case DerivationVerificationDisplay =>
              || ((from.PassphraseOffer? || from.PassphraseEntry?) && ev.PassphraseUseEmpty?)
              || (from.PassphraseConfirm? && ev.PassphraseConfirmMatch?)
            case PassphraseOffer => from.CompleteHiddenReentry? && ev.ReentryComplete?
            case _ => true
  {
    hide Step;
    k := EntryStep(m, inputs, s => s == to);
    EntersByTable(Run(m, inputs[..k]), inputs[k], to);
    WaysToPassphrase(Run(m, inputs[..k]), inputs[k].ev);
    WaysToDisplay(Run(m, inputs[..k]), inputs[k].ev);
    WaysToShutdown(Run(m, inputs[..k]), inputs[k].ev);
  }

  predicate OnPassphrase(s: AppState) {
    (s.PassphraseOffer? || s.PassphraseEntry? || s.PassphraseConfirm? || s.DerivationVerificationDisplay?)
  }

  /**
   Every run that comes to the derivation display has completed the hidden re-entry, and has
   then confirmed a passphrase by a match or chosen the empty one: a mismatch never gets there.
   */
  lemma DisplayNeedsPassphrase(m: Machine, inputs: seq<Input>) returns (j: nat, k: nat)
    requires !OnPassphrase(m.state) && Run(m, inputs).state == DerivationVerificationDisplay
    ensures j < k < |inputs| && inputs[j].ok && inputs[k].ok
    ensures Run(m, inputs[..j]).state == CompleteHiddenReentry && inputs[j].ev == ReentryComplete
    ensures || (Run(m, inputs[..k]).state == PassphraseConfirm && inputs[k].ev == PassphraseConfirmMatch)
            || (Run(m, inputs[..k]).state.PassphraseOffer? && inputs[k].ev == PassphraseUseEmpty)
            || (Run(m, inputs[..k]).state.PassphraseEntry? && inputs[k].ev == PassphraseUseEmpty)
  {
    hide Step;
    k := Entry(m, inputs, DerivationVerificationDisplay);
    j := EntryStep(m, inputs[..k], OnPassphrase);
    assert inputs[..k][..j] == inputs[..j];
    var at := Run(m, inputs[..j]);
    var to := Step(at, inputs[j].ev, inputs[j].ok).state;
    EntersByTable(at, inputs[j], to);
    WaysToPassphrase(at, inputs[j].ev);
    WaysToDisplay(at, inputs[j].ev);
  }

  /** From the committed setup up to the final confirmation. */
  predicate Collecting(s: AppState) {
    s.MachineEntropyAcquisition? || s.PhysicalCollection? || s.FinalGenerationConfirmation?
  }

  /** The context is that of the last setup committed. */
  predicate Committed(m: Machine, i: Input) {
    && i.ok && i.ev.SetupCommitted?
    && m.wordCount == Some(i.ev.wordCount) && m.mode == Some(i.ev.mode) && m.instrument == Some(i.ev.instrument)
  }

  /**
   What every run has collected when it asks for the final confirmation: right before it a
   setup was committed, and its mode's sources were completed, machine entropy first. The
   machine carries the context committed.
   */
  lemma EntropyIsCollected(m: Machine, inputs: seq<Input>) returns (c: nat)
    requires !Collecting(m.state)
    requires Run(m, inputs).state == FinalGenerationConfirmation
    ensures c < |inputs| && Committed(Run(m, inputs), inputs[c]) && Run(m, inputs[..c]).state == SetupSelection
    ensures var machine, dice := Input(MachineEntropyComplete, true), Input(PhysicalBudgetMet, true);
            inputs[c + 1..] == match inputs[c].ev.mode
                               case DiceOnly => [dice]
                               case MachineOnly => [machine]
                               case Combined => [machine, dice]
  {
    hide Step;
    var n := |inputs| - 1;
    var before := LastStep(m, inputs);
    assert inputs[n..] == [inputs[n]];
    if before.state == PhysicalCollection {
      c := PhysicalIsCommitted(m, inputs[..n]);
      assert inputs[..n][..c] == inputs[..c] && inputs[c + 1..] == inputs[..n][c + 1..] + inputs[n..];
    } else {
      c := MachineIsCommitted(m, inputs[..n]);
      assert inputs[..n][..c] == inputs[..c] && inputs[c + 1..] == inputs[..n][c + 1..] + inputs[n..];
    }
  }

  lemma PhysicalIsCommitted(m: Machine, inputs: seq<Input>) returns (c: nat)
    requires !(m.state.MachineEntropyAcquisition? || m.state.PhysicalCollection?)
    requires Run(m, inputs).state == PhysicalCollection
    ensures c < |inputs| && Committed(Run(m, inputs), inputs[c]) && Run(m, inputs[..c]).state == SetupSelection
    ensures if inputs[c].ev.mode == DiceOnly then inputs[c + 1..] == []
            else inputs[c].ev.mode == Combined && inputs[c + 1..] == [Input(MachineEntropyComplete, true)]
  {
    hide Step;
    var n := |inputs| - 1;
    var before := LastStep(m, inputs);
    assert inputs[n..] == [inputs[n]];
    if before.state == SetupSelection {
      c := n;
    } else {
      c := MachineIsCommitted(m, inputs[..n]);
      assert inputs[..n][..c] == inputs[..c];
    }
  }

  lemma MachineIsCommitted(m: Machine, inputs: seq<Input>) returns (c: nat)
    requires m.state != MachineEntropyAcquisition && Run(m, inputs).state == MachineEntropyAcquisition
    ensures c + 1 == |inputs| && Committed(Run(m, inputs), inputs[c]) && Run(m, inputs[..c]).state == SetupSelection
    ensures (inputs[c].ev.mode.Combined? || inputs[c].ev.mode.MachineOnly?)
  {
    hide Step;
    var before := LastStep(m, inputs);
    c := |inputs| - 1;
  }

  /** The last step of a run that ends on the way from setup to the confirmation. */
  lemma LastStep(m: Machine, inputs: seq<Input>) returns (before: Machine)
    requires m.state != Run(m, inputs).state
    requires Collecting(Run(m, inputs).state)
    ensures inputs != [] && before == Run(m, inputs[..|inputs| - 1])
    ensures var (i, after) := (inputs[|inputs| - 1], Run(m, inputs));
            && after == Step(before, i.ev, i.ok) && i.ok
            && (if before.state == SetupSelection then Committed(after, i)
                else after.mode == before.mode && after.wordCount == before.wordCount
                     && after.instrument == before.instrument)
            && match after.state
               case MachineEntropyAcquisition =>
                 && before.state == SetupSelection && i.ev.SetupCommitted?
                 && (i.ev.mode.Combined? || i.ev.mode.MachineOnly?)
               case PhysicalCollection =>
                 || (before.state == SetupSelection && i.ev.SetupCommitted? && i.ev.mode == DiceOnly)
                 || (before.state == MachineEntropyAcquisition && i.ev == MachineEntropyComplete
                     && before.mode.Some? && !before.mode.value.MachineOnly?)
               case _ =>
                 || (before.state == PhysicalCollection && i.ev == PhysicalBudgetMet)
                 || (before.state == MachineEntropyAcquisition && i.ev == MachineEntropyComplete
                     && (before.mode.None? || before.mode.value.MachineOnly?))
  {
    var n := |inputs| - 1;
    RunNext(m, inputs, n);
    assert inputs[..n + 1] == inputs;
    before := Run(m, inputs[..n]);
    var i := inputs[n];
    if i.ok && Live(before.state) {
      WaysToConfirmation(before, i.ev);
    } else {
      WithoutTheTable(before, i.ev, i.ok);
    }
  }

  /** So every run that comes to a secret confirmed the entropy that its last setup called for. */
  lemma SecretIsEarned(m: Machine, inputs: seq<Input>) returns (c: nat, k: nat)
    requires !m.state.IsPostSecret() && Run(m, inputs).state.IsPostSecret()
    requires !Collecting(m.state)
    ensures c < k < |inputs| && inputs[k] == Input(FinalConfirm, true) && Committed(Run(m, inputs[..k]), inputs[c])
    ensures var machine, dice := Input(MachineEntropyComplete, true), Input(PhysicalBudgetMet, true);
            inputs[c + 1..k] == match inputs[c].ev.mode
                                case DiceOnly => [dice]
                                case MachineOnly => [machine]
                                case Combined => [machine, dice]
  {
    hide Step;
    k := SecretNeedsConfirmation(m, inputs);
    c := EntropyIsCollected(m, inputs[..k]);
    assert inputs[..k][c + 1..] == inputs[c + 1..k];
  }
}
