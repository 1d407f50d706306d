/**
 What the compatibility verification screens (`crates/alea-verify/src/verify.rs`) show and
 what each key does, on values: the places a run can be at, the place a key leads to, and
 the screens that are right at each place.
 */
module VerifyScreens {
  import opened Wrappers
  import opened Bits
  import opened Utf8Strings
  import opened Bip39
  import opened Contracts
  import opened EntropyEncoding
  import opened CompatDerive

  datatype Key = Char(c: char) | Enter | Backspace | Escape | OtherKey

  const PROFILE_IDS: seq<string> := ["coldcard-dice", "seedsigner-dice", "seedsigner-coin"]

  /** Every id of the menu names a profile a user may choose. */
  function UserProfiles(): (ps: seq<CompatProfile>)
    ensures |ps| == 3 && ps == PROFILES[..3]
  {
    ThreeProfiles();
    [Profile(PROFILE_IDS[0]).value, Profile(PROFILE_IDS[1]).value, Profile(PROFILE_IDS[2]).value]
  }

  const ENCODINGS: seq<Encoding> := [Binary, Base6, Dice, Base10, Hex, Cards]

  predicate Allowed(p: CompatProfile, text: string) {
    forall i :: 0 <= i < |text| ==> AlphabetAllows(p.alphabet, text[i] as int)
  }

  /** The device would give words for that many events. */
  predicate Canonical(p: CompatProfile, len: nat) {
    exists count :: DeviceProduces(p.rule, len, count)
  }

  /** The lengths of bit strings that give words. */
  predicate SupportedBits(n: nat) { 128 <= n < 160 || 256 <= n < 288 }

  // ------------------------------------------------------------------- keys

  datatype Nav = Activate(index: nat) | Quit | Ignore

  /** A menu of `len` rows: a digit chooses a row that exists. */
  function HandleMenuKey(len: nat, key: Key): (r: Nav)
    ensures r.Activate? ==> r.index < len && key.Char? && key.c as int == '1' as int + r.index
  {
    match key
    case Char(c) =>
      if '1' <= c <= '9' && c as int - '0' as int <= len then Activate(c as int - '1' as int) else Ignore
    case Escape => Quit
    case _ => Ignore
  }

  datatype WordCountAction = Chosen(count: WordCount) | CancelChoice | NoChoice

  function HandleWordCountKey(key: Key): WordCountAction {
    match key
    case Char(c) => if c == '1' then Chosen(Twelve) else if c == '2' then Chosen(TwentyFour) else NoChoice
    case Escape => CancelChoice
    case _ => NoChoice
  }

  datatype ResultAction = ToggleEntropy | CustomPath | Back

  function HandleResultKey(key: Key): ResultAction {
    if key == Char('e') || key == Char('E') then ToggleEntropy
    else if key == Char('p') || key == Char('P') then CustomPath else Back
  }

  function HandleEncodingResultKey(key: Key): ResultAction {
    if key == Char('p') || key == Char('P') then CustomPath else Back
  }

  // ----------------------------------------------------------------- places

  /** Where a run stands when a screen is drawn, with the text it holds there. */
  datatype Place =
    | AtProfiles
    | AtEntry(profile: CompatProfile, text: string)
    | AtDetail(profile: CompatProfile, text: string)
    | AtChoice(profile: CompatProfile, text: string)
    | AtResult(profile: CompatProfile, text: string, requested: Option<WordCount>, showEntropy: bool)
    | AtEncodings
    | AtEncodingEntry(encoding: Encoding, text: string)
    | AtEncodingDetail(encoding: Encoding, text: string)
    | AtEncodingResult(encoding: Encoding, text: string)
    | AtEnd

  /** The characters an entry screen takes: those of the alphabet, or all without one. */
  predicate Takes(alphabet: Option<EventAlphabet>, c: char) {
    c != '?' && (alphabet.Some? ==> AlphabetAllows(alphabet.value, c as int))
  }

  /** The text after an editing key. */
  function Edited(text: string, key: Key, alphabet: Option<EventAlphabet>): string {
    match key
    case Char(c) => if Takes(alphabet, c) then text + [c] else text
    case Backspace => if text == "" then "" else text[..|text| - 1]
    case _ => text
  }

  datatype EntryAction = Submit | Cancel | ShowDetail | Nothing

  /** What a key asks for, on either entry screen. */
  function ActionOf(key: Key, text: string): EntryAction {
    if key == Char('?') then ShowDetail
    else if key == Enter && text != "" then Submit
    else if key == Escape then Cancel else Nothing
  }

  /** A key that asks for something does not edit. */
  lemma ActionsKeepText(text: string, key: Key, alphabet: Option<EventAlphabet>)
    requires ActionOf(key, text) != Nothing
    ensures Edited(text, key, alphabet) == text
  {
  }

  /** What a key read at a place leads to. */
  function After(place: Place, key: Key): Place {
    match place
    case AtProfiles =>
      (match HandleMenuKey(4, key)
       case Activate(i) => if i == 3 then AtEncodings else AtEntry(UserProfiles()[i], "")
       case Quit => AtEnd
       case Ignore => AtProfiles)
    case AtEntry(p, text) =>
      (match ActionOf(key, text)
       case Submit => if p.rule.FreeChoice? then AtChoice(p, text) else AtResult(p, text, None, false)
       case Cancel => AtProfiles
       case ShowDetail => AtDetail(p, text)
       case Nothing => AtEntry(p, Edited(text, key, Some(p.alphabet))))
    case AtDetail(p, text) => AtEntry(p, text)
    case AtChoice(p, text) =>
      (match HandleWordCountKey(key)
       case Chosen(count) => AtResult(p, text, Some(count), false)
       case CancelChoice => AtEntry(p, text)
       case NoChoice => place)
    case AtResult(p, text, requested, show) =>
      if !Canonical(p, |text|) then AtProfiles
      else (match HandleResultKey(key)
            case ToggleEntropy => AtResult(p, text, requested, !show)
            case CustomPath => place
            case Back => AtProfiles)
    case AtEncodings =>
      (match HandleMenuKey(6, key)
       case Activate(i) => AtEncodingEntry(ENCODINGS[i], "")
       case Quit => AtProfiles
       case Ignore => AtEncodings)
    case AtEncodingEntry(e, text) =>
      (match ActionOf(key, text)
       case Submit => AtEncodingResult(e, text)
       case Cancel => AtEncodings
       case ShowDetail => AtEncodingDetail(e, text)
       case Nothing => AtEncodingEntry(e, Edited(text, key, None)))
    case AtEncodingDetail(e, text) => AtEncodingEntry(e, text)
    case AtEncodingResult(e, text) =>
      if SupportedBits(|EventBits(e, text)|) && HandleEncodingResultKey(key) == CustomPath then place else AtEncodings
    case AtEnd => AtEnd
  }

  /** What every place a run comes to satisfies. */
  predicate PlaceOk(place: Place) {
    match place
    case AtEntry(p, text) => p in UserProfiles() && Allowed(p, text)
    case AtDetail(p, text) => p in UserProfiles() && Allowed(p, text)
    case AtChoice(p, text) => p in UserProfiles() && Allowed(p, text) && text != "" && p.rule.FreeChoice?
    case AtResult(p, text, requested, _) =>
      p in UserProfiles() && Allowed(p, text) && text != "" && (p.rule.FreeChoice? <==> requested.Some?)
    case AtEncodingResult(_, text) => text != ""
    case _ => true
  }

  /** Keys keep it: a word count is asked for exactly where it is free, text stays in its alphabet. */
  lemma OkAfter(place: Place, key: Key)
    requires PlaceOk(place)
    ensures PlaceOk(After(place, key))
  {
    hide UserProfiles, PROFILES, EventBits, Canonical;
    var next := After(place, key);
    assert next.AtEntry? ==> Allowed(next.profile, next.text);
  }

  predicate HasText(place: Place) { !place.AtProfiles? && !place.AtEncodings? && !place.AtEnd? }

  /** The text held at a place. */
  function TextOf(place: Place): string { if HasText(place) then place.text else "" }

  /** The key opens the custom-path tool, which then reads keys of its own. */
  predicate OpensTool(place: Place, key: Key) {
    match place
    case AtResult(p, text, _, _) => Canonical(p, |text|) && HandleResultKey(key) == CustomPath
    case AtEncodingResult(e, text) => SupportedBits(|EventBits(e, text)|) && HandleEncodingResultKey(key) == CustomPath
    case _ => false
  }

  /** What a key does at a result that shows words. */
  lemma AtWords(p: CompatProfile, text: string, requested: Option<WordCount>, show: bool, key: Key)
    requires Canonical(p, |text|)
    ensures var here, action := AtResult(p, text, requested, show), HandleResultKey(key);
            && (OpensTool(here, key) <==> action == CustomPath)
            && After(here, key) == match action
               case ToggleEntropy => AtResult(p, text, requested, !show)
               case CustomPath => here
               case Back => AtProfiles
  {
  }

  /** What a key does on the entry screens and their detail pages. */
  lemma AtEntryScreen(p: CompatProfile, text: string, key: Key)
    ensures var here := AtEntry(p, text);
            && !OpensTool(here, key) && !OpensTool(AtDetail(p, text), key)
            && After(AtDetail(p, text), key) == here
            && After(here, key) == match ActionOf(key, text)
               case Submit => if p.rule.FreeChoice? then AtChoice(p, text) else AtResult(p, text, None, false)
               case Cancel => AtProfiles
               case ShowDetail => AtDetail(p, text)
               case Nothing => AtEntry(p, Edited(text, key, Some(p.alphabet)))
  {
  }

  lemma AtEncodingScreen(e: Encoding, text: string, key: Key)
    ensures var here := AtEncodingEntry(e, text);
            && !OpensTool(here, key) && !OpensTool(AtEncodingDetail(e, text), key)
            && After(AtEncodingDetail(e, text), key) == here
            && After(here, key) == match ActionOf(key, text)
               case Submit => AtEncodingResult(e, text)
               case Cancel => AtEncodings
               case ShowDetail => AtEncodingDetail(e, text)
               case Nothing => AtEncodingEntry(e, Edited(text, key, None))
  {
  }

  /** Only a key at the profile menu ends a run. */
  lemma LeavesFromMenu(place: Place, key: Key)
    requires After(place, key) == AtEnd
    ensures !HasText(place)
  {
    hide UserProfiles, PROFILES, EventBits, Canonical;
  }

  /** Where a run is: the place, how many keys were read, and how often the tool was opened. */
  datatype Spot = Spot(place: Place, at: nat, visits: nat)

  const START: Spot := Spot(AtProfiles, 0, 0)

  /**
   Where the next key leads, past the keys the tool reads if it is opened; nowhere when the
   keys run out. `pathKeys` says how many keys the tool reads at each visit.
   */
  function Onward(spot: Spot, keys: seq<Key>, pathKeys: nat -> nat): Option<Spot> {
    if spot.at >= |keys| then None
    else
      var key := keys[spot.at];
      var next := After(spot.place, key);
      if !OpensTool(spot.place, key) then Some(Spot(next, spot.at + 1, spot.visits))
      else if spot.at + 1 + pathKeys(spot.visits) > |keys| then None
      else Some(Spot(next, spot.at + 1 + pathKeys(spot.visits), spot.visits + 1))
  }

  function Go(place: Place, keys: seq<Key>): Place
    decreases |keys|
  {
    if keys == [] then place else Go(After(place, keys[0]), keys[1..])
  }

  function Typed(text: string): seq<Key> {
    seq(|text|, i requires 0 <= i < |text| => Char(text[i]))
  }

  lemma TypesOne(p: CompatProfile, held: string, c: char)
    requires AlphabetAllows(p.alphabet, c as int)
    ensures After(AtEntry(p, held), Char(c)) == AtEntry(p, held + [c])
  {
    hide UserProfiles, PROFILES, EventBits, Canonical;
  }

  /** Typing events of the alphabet adds exactly them to the text. */
  lemma {:induction false} TypedIsHeld(p: CompatProfile, held: string, text: string)
    requires Allowed(p, text)
    ensures Go(AtEntry(p, held), Typed(text)) == AtEntry(p, held + text)
    decreases |text|
  {
    hide After, AlphabetAllows;
    if text == "" {
      assert held + text == held;
    } else {
      var next := held + [text[0]];
      assert AlphabetAllows(p.alphabet, text[0] as int);
      TypesOne(p, held, text[0]);
      assert Typed(text)[1..] == Typed(text[1..]);
      TypedIsHeld(p, next, text[1..]);
      assert next + text[1..] == held + text;
    }
  }

  lemma {:induction false} GoOn(place: Place, a: seq<Key>, b: seq<Key>)
    ensures Go(place, a + b) == Go(Go(place, a), b)
    decreases |a|
  {
    hide After;
    if a == [] {
      assert a + b == b;
    } else {
      assert (a + b)[1..] == a[1..] + b;
      GoOn(After(place, a[0]), a[1..], b);
    }
  }

  lemma OneKey(place: Place, key: Key)
    ensures Go(place, [key]) == After(place, key)
  {
    hide After;
    assert [key][1..] == [];
  }

  function DigitKey(d: nat): Key
    requires d <= 9
  {
    Char(('0' as int + d) as char)
  }

  /**
   From the menu, choosing a profile, typing its events and submitting them reaches the
   result of exactly those events, with the word count chosen where the choice is free.
   */
  lemma EventsReachTheirResult(i: nat, text: string, count: WordCount)
    requires i < 3 && Allowed(UserProfiles()[i], text) && text != ""
    ensures var p := UserProfiles()[i];
            var choice := if p.rule.FreeChoice? then [DigitKey(if count.Twelve? then 1 else 2)] else [];
            Go(AtProfiles, [DigitKey(i + 1)] + Typed(text) + [Enter] + choice)
            == AtResult(p, text, if p.rule.FreeChoice? then Some(count) else None, false)
  {
    hide UserProfiles, PROFILES;
    var p := UserProfiles()[i];
    var choice := if p.rule.FreeChoice? then [DigitKey(if count.Twelve? then 1 else 2)] else [];
    var keys := [DigitKey(i + 1)] + Typed(text);
    MenuThenTyped(i, text);
    GoOn(AtProfiles, keys, [Enter]);
    GoOn(AtProfiles, keys + [Enter], choice);
  }

  /** From the menu, choosing a profile and typing its events holds exactly those. */
  lemma MenuThenTyped(i: nat, text: string)
    requires i < 3 && Allowed(UserProfiles()[i], text)
    ensures Go(AtProfiles, [DigitKey(i + 1)] + Typed(text)) == AtEntry(UserProfiles()[i], text)
  {
    hide UserProfiles, PROFILES, Allowed;
    GoOn(AtProfiles, [DigitKey(i + 1)], Typed(text));
    assert Go(AtProfiles, [DigitKey(i + 1)]) == AtEntry(UserProfiles()[i], "");
    TypedIsHeld(UserProfiles()[i], "", text);
    assert "" + text == text;
  }

  // ----------------------------------------------- what each key is for, in letters

  /** At the profile menu: a digit opens the row it names, Escape leaves, no other key does anything. */
  lemma KeysAtProfiles(key: Key)
    ensures After(AtProfiles, key) ==
            match key
            case Escape => AtEnd
            case Char('1') => AtEntry(PROFILES[0], "")
            case Char('2') => AtEntry(PROFILES[1], "")
            case Char('3') => AtEntry(PROFILES[2], "")
            case Char('4') => AtEncodings
            case _ => AtProfiles
  {
    hide EventBits, Canonical, Edited, ActionOf;
  }

  /** At the menu of encodings: rows in this order, Escape goes back. */
  lemma KeysAtEncodings(key: Key)
    ensures After(AtEncodings, key) ==
            match key
            case Escape => AtProfiles
            case Char('1') => AtEncodingEntry(Binary, "")
            case Char('2') => AtEncodingEntry(Base6, "")
            case Char('3') => AtEncodingEntry(Encoding.Dice, "")
            case Char('4') => AtEncodingEntry(Base10, "")
            case Char('5') => AtEncodingEntry(Encoding.Hex, "")
            case Char('6') => AtEncodingEntry(Cards, "")
            case _ => AtEncodings
  {
    hide UserProfiles, PROFILES, EventBits, Canonical, Edited, ActionOf;
  }

  /** At an entry screen, and at the word count where the choice is free. */
  lemma KeysAtEntry(p: CompatProfile, text: string, key: Key)
    ensures After(AtEntry(p, text), key) ==
            match key
            case Escape => AtProfiles
            case Enter =>
              if text == "" then AtEntry(p, text)
              else if p.rule.FreeChoice? then AtChoice(p, text) else AtResult(p, text, None, false)
            case Backspace => AtEntry(p, if text == "" then "" else text[..|text| - 1])
            case Char('?') => AtDetail(p, text)
            case Char(c) =>
              AtEntry(p, if (match p.alphabet case Dice1to6 => c in "123456" case Coin01 => c in "01")
                         then text + [c] else text)
            case OtherKey => AtEntry(p, text)
    ensures After(AtChoice(p, text), key) ==
            match key
            case Escape => AtEntry(p, text)
            case Char('1') => AtResult(p, text, Some(Twelve), false)
            case Char('2') => AtResult(p, text, Some(TwentyFour), false)
            case _ => AtChoice(p, text)
  {
  }

  /** At the entry screen of an encoding, which takes every character but the question mark. */
  lemma KeysAtEncodingEntry(e: Encoding, text: string, key: Key)
    ensures After(AtEncodingEntry(e, text), key) ==
            match key
            case Escape => AtEncodings
            case Enter => if text == "" then AtEncodingEntry(e, text) else AtEncodingResult(e, text)
            case Backspace => AtEncodingEntry(e, if text == "" then "" else text[..|text| - 1])
            case Char('?') => AtEncodingDetail(e, text)
            case Char(c) => AtEncodingEntry(e, text + [c])
            case OtherKey => AtEncodingEntry(e, text)
  {
  }

  /**
   At a result: where words are shown, exactly e and E toggle the entropy and exactly p and P
   open the tool; every other key drops the text, and so does every key at a refusal.
   */
  lemma KeysAtResult(p: CompatProfile, text: string, requested: Option<WordCount>, show: bool, key: Key)
    ensures var here, words := AtResult(p, text, requested, show), Canonical(p, |text|);
            && (OpensTool(here, key) <==> words && key in {Char('p'), Char('P')})
            && After(here, key) == if words && key in {Char('e'), Char('E')} then AtResult(p, text, requested, !show)
                                   else if words && key in {Char('p'), Char('P')} then here
                                   else AtProfiles
  {
  }

  lemma KeysAtEncodingResult(e: Encoding, text: string, key: Key)
    ensures var here := AtEncodingResult(e, text);
            var opens := SupportedBits(|EventBits(e, text)|) && key in {Char('p'), Char('P')};
            (OpensTool(here, key) <==> opens) && After(here, key) == if opens then here else AtEncodings
  {
  }

  /** Escape always goes up. */
  lemma EscapeGoesUp(place: Place)
    ensures After(place, Escape) ==
            match place
            case AtDetail(p, text) => AtEntry(p, text)
            case AtChoice(p, text) => AtEntry(p, text)
            case AtEncodingDetail(e, text) => AtEncodingEntry(e, text)
            case AtEncodingEntry(_, _) => AtEncodings
            case AtEncodingResult(_, _) => AtEncodings
            case AtProfiles => AtEnd
            case AtEnd => AtEnd
            case _ => AtProfiles
  {
    hide UserProfiles, PROFILES, EventBits, Canonical;
  }

  /** From anywhere, four Escapes leave. */
  lemma FourEscapesLeave(place: Place)
    ensures Go(place, [Escape, Escape, Escape, Escape]) == AtEnd
  {
    hide After;
    var a := After(place, Escape);
    var b := After(a, Escape);
    var c := After(b, Escape);
    EscapeGoesUp(place);
    EscapeGoesUp(a);
    EscapeGoesUp(b);
    EscapeGoesUp(c);
    OneKey(c, Escape);
    assert [Escape, Escape][1..] == [Escape];
    assert [Escape, Escape, Escape][1..] == [Escape, Escape];
    assert [Escape, Escape, Escape, Escape][1..] == [Escape, Escape, Escape];
  }

  /** From the menu, choosing row `k` of the encodings, typing and submitting reaches that encoding's result. */
  lemma SymbolsReachTheirResult(k: nat, text: string)
    requires k < 6 && text != "" && '?' !in text
    ensures Go(AtProfiles, [Char('4'), DigitKey(k + 1)] + Typed(text) + [Enter])
            == AtEncodingResult([Binary, Base6, Encoding.Dice, Base10, Encoding.Hex, Cards][k], text)
  {
    hide UserProfiles, PROFILES;
    var e := [Binary, Base6, Encoding.Dice, Base10, Encoding.Hex, Cards][k];
    var row := [Char('4'), DigitKey(k + 1)];
    assert row == [Char('4')] + [DigitKey(k + 1)];
    GoOn(AtProfiles, [Char('4')], [DigitKey(k + 1)]);
    OneKey(AtProfiles, Char('4'));
    OneKey(AtEncodings, DigitKey(k + 1));
    GoOn(AtProfiles, row, Typed(text));
    SymbolsAreHeld(e, "", text);
    assert "" + text == text;
    GoOn(AtProfiles, row + Typed(text), [Enter]);
    OneKey(AtEncodingEntry(e, text), Enter);
  }

  /** Typing anything but the question mark adds exactly that to the text. */
  lemma {:induction false} SymbolsAreHeld(e: Encoding, held: string, text: string)
    requires '?' !in text
    ensures Go(AtEncodingEntry(e, held), Typed(text)) == AtEncodingEntry(e, held + text)
    decreases |text|
  {
    if text == "" {
      assert held + text == held;
    } else {
      KeysAtEncodingEntry(e, held, Char(text[0]));
      hide After;
      assert Typed(text)[1..] == Typed(text[1..]);
      SymbolsAreHeld(e, held + [text[0]], text[1..]);
      assert held + [text[0]] + text[1..] == held + text;
    }
  }

  /** Backspace undoes a typed event. */
  lemma BackspaceUndoes(p: CompatProfile, text: string, c: char)
    requires AlphabetAllows(p.alphabet, c as int)
    ensures Go(AtEntry(p, text), [Char(c), Backspace]) == AtEntry(p, text)
  {
    var next := AtEntry(p, text + [c]);
    TypesOne(p, text, c);
    assert (text + [c])[..|text|] == text;
    assert After(next, Backspace) == AtEntry(p, text);
    assert [Char(c), Backspace][1..] == [Backspace];
    assert Go(next, [Backspace]) == Go(AtEntry(p, text), []);
  }

  // ---------------------------------------------------------------- screens

  /** What a successful derivation shows. */
  datatype Success = Success(wordCount: WordCount, words: seq<nat>, usedLen: nat, entropy: seq<Byte>, entropyLen: nat)

  datatype Screen =
    | ProfileMenuScreen
    | EntryScreen(profile: CompatProfile)
    | DetailScreen(profile: CompatProfile)
    | ChoiceScreen(profile: CompatProfile)
    | ResultScreen(profile: CompatProfile, success: Success, showEntropy: bool)
    | NeedsChoiceScreen(profile: CompatProfile)
    | CannotProduceScreen(profile: CompatProfile, entered: nat, words: nat)
    | NotCanonicalScreen(profile: CompatProfile, entered: nat)
    | UnexpectedScreen
    | EncodingMenuScreen
    | EncodingEntryScreen(encoding: Encoding)
    | EncodingDetailScreen(encoding: Encoding)
    | EncodingResultScreen(output: EntropyOutput)
    | EncodingRefusalScreen(encoding: Encoding, error: EntropyError)

  function WordsOf(count: WordCount): nat { if count.Twelve? then 12 else 24 }

  /** `render_refusal`. */
  function RefusalScreen(p: CompatProfile, entered: nat, requested: Option<WordCount>): Screen {
    if p.rule.FreeChoice? then NeedsChoiceScreen(p)
    else if requested.Some? then CannotProduceScreen(p, entered, WordsOf(requested.value))
    else NotCanonicalScreen(p, entered)
  }

  /** The refusals no run is to show: ambiguous, phantom and unexplained ones. */
  predicate LastResort(screen: Screen) {
    screen.NeedsChoiceScreen? || screen.CannotProduceScreen? || screen.UnexpectedScreen?
  }

  /** The words and the entropy shown belong together, and to the digest of what was typed. */
  ghost predicate Shows(x: Success, typed: string, sha256: Hash) {
    var bytes := Utf8(typed);
    && x.usedLen == ClampU16(|bytes|)
    && |x.words| == WordsOf(x.wordCount)
    && x.entropyLen == (if x.wordCount.Twelve? then 16 else 32) && |x.entropy| == 32
    && x.entropy[..x.entropyLen] <= sha256(bytes)
    && (forall i :: x.entropyLen <= i < 32 ==> x.entropy[i] == 0)
    && Encodes(x.words + seq(24 - |x.words|, _ => 0), x.wordCount, x.entropy[..x.entropyLen], sha256)
  }

  /** The words of a result: those the device gives, of the count chosen where it is free. */
  ghost predicate RightResult(screen: Screen, p: CompatProfile, text: string, requested: Option<WordCount>, show: bool,
                              sha256: Hash)
  {
    && screen.ResultScreen? && screen.profile == p && screen.showEntropy == show
    && DeviceProduces(p.rule, |text|, screen.success.wordCount)
    && (p.rule.FreeChoice? ==> requested == Some(screen.success.wordCount))
    && Shows(screen.success, text, sha256)
  }

  /** What raw entropy shows: its one outcome, words or refusal. */
  ghost predicate RightEncoding(screen: Screen, e: Encoding, text: string, sha256: Hash) {
    if screen.EncodingResultScreen? then IsOutcome(e, text, Ok(screen.output), sha256)
    else screen.EncodingRefusalScreen? && screen.encoding == e && IsOutcome(e, text, Err(screen.error), sha256)
  }

  /**
   The one screen that is right at each place. A refusal is right only for a length-derived
   profile and a number of events it does not know, and then nothing else is.
   */
  ghost predicate Right(place: Place, screen: Screen, sha256: Hash) {
    match place
    case AtProfiles => screen == ProfileMenuScreen
    case AtEntry(p, _) => screen == EntryScreen(p)
    case AtDetail(p, _) => screen == DetailScreen(p)
    case AtChoice(p, _) => screen == ChoiceScreen(p)
    case AtResult(p, text, requested, show) =>
      if Canonical(p, |text|) then RightResult(screen, p, text, requested, show, sha256)
      else p.rule.DerivedFromLength? && screen == NotCanonicalScreen(p, ClampU16(|text|))
    case AtEncodings => screen == EncodingMenuScreen
    case AtEncodingEntry(e, _) => screen == EncodingEntryScreen(e)
    case AtEncodingDetail(e, _) => screen == EncodingDetailScreen(e)
    case AtEncodingResult(e, text) => RightEncoding(screen, e, text, sha256)
    case AtEnd => false
  }

  lemma RightIsNoLastResort(place: Place, screen: Screen, sha256: Hash)
    requires Right(place, screen, sha256)
    ensures !LastResort(screen) && !place.AtEnd?
  {
    hide Shows, IsOutcome, DeviceProduces, Canonical;
  }

  // ------------------------------------------------------ what is submitted

  /** Text of the alphabet is its own bytes. */
  lemma {:induction false} AllowedBytes(p: CompatProfile, text: string)
    requires Allowed(p, text)
    ensures |Utf8(text)| == |text| && AllAllowed(p.alphabet, Utf8(text))
  {
    if text != "" { AllowedBytes(p, text[1..]); }
  }

  /**
   What submitting can lead to: the device's word count, or the one refusal of a profile
   whose word count follows from the length. Nothing else comes out of the entry screens.
   */
  lemma SubmitOutcome(p: CompatProfile, text: string, requested: Option<WordCount>)
    requires PlaceOk(AtResult(p, text, requested, false))
    ensures Utf8(text) != [] && AllAllowed(p.alphabet, Utf8(text))
    ensures match Selected(p, Utf8(text), requested)
            case Ok(count) =>
              DeviceProduces(p.rule, |text|, count) && requested == if p.rule.FreeChoice? then Some(count) else None
            case Err(e) =>
              p.rule.DerivedFromLength? && !Canonical(p, |text|) && e == Refused(ClampU16(|text|), NotCanonical)
  {
    hide UserProfiles, PROFILES, Allowed, AllAllowed, Utf8;
    AllowedBytes(p, text);
  }
}
