/**
 Method A of the compatibility crate (`crates/seed-compat/src/lib.rs`): the reviewed device
 profiles, and the derivation that hashes the typed events as they are. The digest is a
 parameter, and the display texts of a profile are not part of this model.
 */
module CompatDerive {
  import opened Wrappers
  import opened Bits
  import opened Utf8Strings
  import opened Bip39
  import opened Contracts
  import opened EntropyEncoding

  datatype EventAlphabet = Dice1to6 | Coin01

  datatype WordCountRule =
    | DerivedFromLength(len12: nat, len24: nat)
    | FreeChoice(advisoryMin12: nat, advisoryMin24: nat)

  datatype CompatProfile = CompatProfile(
    id: string, alphabet: EventAlphabet, coinsSupported: bool, rule: WordCountRule, requiresHwConfirmation: bool)

  const INTERNAL_ORACLE_ONLY_IDS: seq<string> := ["iancoleman-hex"]

  const PROFILES: seq<CompatProfile> := [
    CompatProfile("coldcard-dice", Dice1to6, false, FreeChoice(50, 99), true),
    CompatProfile("seedsigner-dice", Dice1to6, false, DerivedFromLength(50, 99), false),
    CompatProfile("seedsigner-coin", Coin01, true, DerivedFromLength(128, 256), false),
    CompatProfile("iancoleman-hex", Dice1to6, true, FreeChoice(50, 99), false)
  ]

  /** The first profile of that name. */
  function Find(profiles: seq<CompatProfile>, id: string): (p: Option<CompatProfile>)
    ensures p.Some? ==> p.value in profiles && p.value.id == id
    ensures p.None? ==> forall q :: q in profiles ==> q.id != id
  {
    if profiles == [] then None else if profiles[0].id == id then Some(profiles[0]) else Find(profiles[1..], id)
  }

  /** A profile a user may choose. */
  function Profile(id: string): (p: Option<CompatProfile>) {
    if id in INTERNAL_ORACLE_ONLY_IDS then None else Find(PROFILES, id)
  }

  lemma ThreeProfiles()
    ensures Profile("coldcard-dice") == Some(PROFILES[0])
    ensures Profile("seedsigner-dice") == Some(PROFILES[1])
    ensures Profile("seedsigner-coin") == Some(PROFILES[2])
    ensures Profile("iancoleman-hex") == None
  {
    assert PROFILES[1..][0] == PROFILES[1];
    assert PROFILES[1..][1..][0] == PROFILES[2];
    assert "coldcard-dice"[0] != "seedsigner-dice"[0];
    assert |"seedsigner-dice"| == |"seedsigner-coin"|;
    assert "seedsigner-dice"[11] != "seedsigner-coin"[11];
    assert "iancoleman-hex"[0] == 'i';
  }

  predicate AlphabetAllows(alphabet: EventAlphabet, b: int) {
    match alphabet
    case Dice1to6 => '1' as int <= b <= '6' as int
    case Coin01 => b == '0' as int || b == '1' as int
  }

  predicate AllAllowed(alphabet: EventAlphabet, events: seq<Byte>) {
    forall i :: 0 <= i < |events| ==> AlphabetAllows(alphabet, events[i])
  }

  /** `position`: where the first byte outside the alphabet stands. */
  method FirstBadByte(events: seq<Byte>, alphabet: EventAlphabet) returns (at: Option<nat>)
    ensures at.None? <==> AllAllowed(alphabet, events)
    ensures at.Some? ==> IsFirstBad(alphabet, events, at.value)
  {
    for i := 0 to |events|
      invariant forall j :: 0 <= j < i ==> AlphabetAllows(alphabet, events[j])
    {
      if !AlphabetAllows(alphabet, events[i]) {
        return Some(i);
      }
    }
    at := None;
  }

  predicate IsFirstBad(alphabet: EventAlphabet, events: seq<Byte>, at: nat) {
    && at < |events| && !AlphabetAllows(alphabet, events[at])
    && AllAllowed(alphabet, events[..at])
  }

  datatype Reason = NotCanonical | Disagrees | NeedsChoice

  datatype CompatError = BadAlphabet(at: nat) | Refused(entered: nat, reason: Reason) | Empty

  function SelectWordCount(rule: WordCountRule, len: nat, requested: Option<WordCount>, entered: nat)
    : Result<WordCount, CompatError>
  {
    match rule
    case DerivedFromLength(len12, len24) =>
      if len == len12 || len == len24 then
        var derived := if len == len12 then Twelve else TwentyFour;
        if requested.Some? && requested.value != derived then Err(Refused(entered, Disagrees)) else Ok(derived)
      else Err(Refused(entered, NotCanonical))
    case FreeChoice(_, _) =>
      if requested.Some? then Ok(requested.value) else Err(Refused(entered, NeedsChoice))
  }

  /** The word counts a device can produce from that many events. */
  predicate DeviceProduces(rule: WordCountRule, len: nat, count: WordCount) {
    match rule
    case DerivedFromLength(len12, len24) => len == if count.Twelve? then len12 else len24
    case FreeChoice(_, _) => true
  }

  /**
   No phantom pairing: a word count comes out exactly when the device can produce it from
   that many events and it is the one asked for; asking is optional only where the length
   decides.
   */
  lemma NoPhantomPairing(p: CompatProfile, len: nat, requested: Option<WordCount>, entered: nat, count: WordCount)
    requires p in PROFILES
    ensures SelectWordCount(p.rule, len, requested, entered) == Ok(count) <==>
            && DeviceProduces(p.rule, len, count)
            && (requested == Some(count) || (requested == None && p.rule.DerivedFromLength?))
  {
  }

  /** The events each device takes: dice faces 1 to 6, or flips written 0 and 1. */
  lemma DeviceAlphabets(id: string, bytes: seq<Byte>)
    requires Profile(id).Some?
    ensures AllAllowed(Profile(id).value.alphabet, bytes) <==>
            forall i :: 0 <= i < |bytes| ==>
              if id == "seedsigner-coin" then bytes[i] in {48, 49} else bytes[i] in {49, 50, 51, 52, 53, 54}
  {
    ThreeProfiles();
    assert Profile(id).value in PROFILES;
  }

  /** What each device makes of events it accepts, in numbers. */
  lemma DeviceNumbers(id: string, bytes: seq<Byte>, requested: Option<WordCount>)
    requires Profile(id).Some? && bytes != [] && AllAllowed(Profile(id).value.alphabet, bytes)
    ensures var r, n := Selected(Profile(id).value, bytes, requested), |bytes|;
            && id in ["coldcard-dice", "seedsigner-dice", "seedsigner-coin"]
            && (id == "coldcard-dice" ==>
                  r == match requested
                       case Some(count) => Ok(count)
                       case None => Err(Refused(if n < 65536 then n else 65535, NeedsChoice)))
            && (id == "seedsigner-dice" ==> FixedBy(r, n, requested, 50, 99))
            && (id == "seedsigner-coin" ==> FixedBy(r, n, requested, 128, 256))
  {
    ThreeProfiles();
    assert Profile(id).value in PROFILES;
  }

  /** One count of events gives twelve words, one gives twenty-four, and no other gives any. */
  predicate FixedBy(r: Result<WordCount, CompatError>, n: nat, requested: Option<WordCount>, len12: nat, len24: nat) {
    var entered := if n < 65536 then n else 65535;
    if n == len12 then r == if requested == Some(TwentyFour) then Err(Refused(entered, Disagrees)) else Ok(Twelve)
    else if n == len24 then r == if requested == Some(Twelve) then Err(Refused(entered, Disagrees)) else Ok(TwentyFour)
    else r == Err(Refused(entered, NotCanonical))
  }

  /** The derived words. `Scrub` zeroes them; the source also does so when the value is dropped. */
  class CompatOutput {
    const wordCount: WordCount
    const usedLen: nat
    const mnemonicIndexes: array<nat>

    constructor (wordCount: WordCount, indexes: seq<nat>, usedLen: nat)
      requires |indexes| == 24
      ensures this.wordCount == wordCount && this.usedLen == usedLen
      ensures fresh(mnemonicIndexes) && mnemonicIndexes[..] == indexes
    {
      this.wordCount, this.usedLen := wordCount, usedLen;
      mnemonicIndexes := new nat[24](i requires 0 <= i < |indexes| => indexes[i]);
    }

    method Scrub()
      modifies mnemonicIndexes
      ensures forall i :: 0 <= i < mnemonicIndexes.Length ==> mnemonicIndexes[i] == 0
    {
      for i := 0 to mnemonicIndexes.Length
        invariant forall j :: 0 <= j < i ==> mnemonicIndexes[j] == 0
      {
        mnemonicIndexes[i] := 0;
      }
    }
  }

  /** What a derivation gives, decided in the order the source decides it. */
  function Selected(p: CompatProfile, bytes: seq<Byte>, requested: Option<WordCount>): Result<WordCount, CompatError>
    requires bytes != [] && AllAllowed(p.alphabet, bytes)
  {
    SelectWordCount(p.rule, |bytes|, requested, ClampU16(|bytes|))
  }

  method Derive(p: CompatProfile, events: string, requested: Option<WordCount>, sha256: Hash)
    returns (r: Result<CompatOutput, CompatError>)
    ensures var bytes := Utf8(events);
            && (r == Err(Empty) <==> bytes == [])
            && (r.Err? && r.error.BadAlphabet? <==> !AllAllowed(p.alphabet, bytes))
            && (r.Err? && r.error.BadAlphabet? ==> IsFirstBad(p.alphabet, bytes, r.error.at))
            && (bytes != [] && AllAllowed(p.alphabet, bytes) ==>
                  match Selected(p, bytes, requested)
                  case Err(e) => r == Err(e)
                  case Ok(count) =>
                    && r.Ok? && fresh(r.value) && fresh(r.value.mnemonicIndexes)
                    && r.value.wordCount == count && r.value.usedLen == ClampU16(|bytes|)
                    && Encodes(r.value.mnemonicIndexes[..], count,
                               sha256(bytes)[..if count.Twelve? then 16 else 32], sha256))
  {
    var bytes := Utf8(events);
    if bytes == [] {
      return Err(Empty);
    }
    var bad := FirstBadByte(bytes, p.alphabet);
    if bad.Some? {
      return Err(BadAlphabet(bad.value));
    }
    var entered := ClampU16(|bytes|);
    var selected := SelectWordCount(p.rule, |bytes|, requested, entered);
    if selected.Err? {
      return Err(selected.error);
    }
    var count := selected.value;
    var digest := sha256(bytes);
    var entropy := if count.Twelve? then digest[..16] else digest[..32];
    var indexes := EntropyToIndexes(entropy, sha256);
    // The entropy is 16 or 32 bytes long, so the conversion does not fail.
    var output := new CompatOutput(count, indexes.value.1, entered);
    r := Ok(output);
  }
}
