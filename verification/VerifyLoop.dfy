/**
 The compatibility verification loop (`crates/alea-verify/src/verify.rs`): the stages, the
 buffers of typed text, the derivation of what was typed, and the wiping of every text.

 A run reads a finite sequence of keys; where the source would block on a key that never
 comes, the run is `Waiting`. What is drawn is recorded with the place it was drawn at and
 the key that answered it. The custom-path tool is a number of keys it reads.
 */
module VerifyLoop {
  import opened Wrappers
  import opened Bits
  import opened Utf8Strings
  import opened Bip39
  import opened Contracts
  import opened EntropyEncoding
  import opened CompatDerive
  import opened VerifyScreens

  /** `EVENT_BUFFER_CAP`, in bytes. */
  const EVENT_BUFFER_CAP: nat := 512

  // ------------------------------------------------------------- typed text

  ghost predicate AllZero(a: array<Byte>)
    reads a
  {
    forall i :: 0 <= i < a.Length ==> a[i] == 0
  }

  /** A growable string: the text, and the allocation whose first `len` bytes are its UTF-8. */
  class TextBuffer {
    var text: string
    var mem: array<Byte>
    var len: nat

    ghost predicate Valid()
      reads this, mem
    {
      len <= mem.Length && mem[..len] == Utf8(text)
    }

    constructor (capacity: nat)
      ensures Valid() && text == "" && fresh(mem) && mem.Length == capacity
    {
      text, mem, len := "", new Byte[capacity], 0;
    }

    /**
     An allocation with no room for so many more bytes is outgrown: the text moves, unwiped, to
     one of at least twice its size. Where the allocator extends it in place, the outgrown one
     is the front of the new one.
     */
    method Reserve(additional: nat)
      requires Valid()
      modifies this`mem
      ensures Valid() && len + additional <= mem.Length
      ensures if len + additional <= old(mem).Length then mem == old(mem) else fresh(mem)
    {
      if len + additional > mem.Length {
        var larger := new Byte[Max(8, Max(2 * mem.Length, len + additional))];
        forall i | 0 <= i < len {
          larger[i] := mem[i];
        }
        assert larger[..len] == mem[..len];
        mem := larger;
      }
    }

    method Push(c: char)
      requires Valid()
      modifies this, mem
      ensures Valid() && text == old(text) + [c]
      ensures if |Utf8(text)| <= old(mem).Length then mem == old(mem) else fresh(mem) && mem.Length >= |Utf8(text)|
    {
      hide Utf8, Utf8Char;
      Utf8Append(text, c);
      var bytes := Utf8Char(c);
      Reserve(|bytes|);
      for i := 0 to |bytes|
        modifies mem
        invariant mem[..len + i] == Utf8(text) + bytes[..i]
      {
        mem[len + i] := bytes[i];
      }
      len := len + |bytes|;
      text := text + [c];
    }

    /** The bytes of the popped character stay in the allocation. */
    method Pop()
      requires Valid()
      modifies this
      ensures Valid() && mem == old(mem)
      ensures text == if old(text) == "" then "" else old(text)[..|old(text)| - 1]
    {
      if text != "" {
        var n := |text| - 1;
        Utf8Append(text[..n], text[n]);
        assert text[..n] + [text[n]] == text;
        len := len - |Utf8Char(text[n])|;
        text := text[..n];
      }
    }

    /** `scrub_string`: the whole allocation, not just the part in use. */
    method Scrub()
      requires Valid()
      modifies this, mem
      ensures Valid() && mem == old(mem) && AllZero(mem) && text == ""
    {
      for i := 0 to mem.Length
        invariant mem == old(mem)
        invariant forall j :: 0 <= j < i ==> mem[j] == 0
      {
        mem[i] := 0;
      }
      text, len := "", 0;
    }
  }

  function Max(a: nat, b: nat): nat { if a < b then b else a }

  // ---------------------------------------------------------------- the run

  /** A screen and where the run was when it was drawn; the key that answers it is the one at `spot.at`. */
  datatype Frame = Frame(spot: Spot, screen: Screen)

  class Session {
    const keys: seq<Key>
    /** How many keys the custom-path tool reads at its `n`th visit. */
    const pathKeys: nat -> nat
    var at: nat
    var visits: nat
    var log: seq<Frame>
    /** Every allocation made for typed text; those wiped; those outgrown by their text. */
    ghost var made: set<array<Byte>>
    ghost var retired: set<array<Byte>>
    ghost var outgrown: set<array<Byte>>

    constructor (keys: seq<Key>, pathKeys: nat -> nat)
      ensures this.keys == keys && this.pathKeys == pathKeys
      ensures at == 0 && visits == 0 && log == [] && made == {} && retired == {} && outgrown == {}
    {
      this.keys, this.pathKeys := keys, pathKeys;
      at, visits, log := 0, 0, [];
      made, retired, outgrown := {}, {}, {};
    }
  }

  datatype Stage =
    | ProfileMenu
    | EventEntry(profile: CompatProfile, buffer: TextBuffer)
    | WordCountChoice(profile: CompatProfile, buffer: TextBuffer)
    | Submitted(profile: CompatProfile, buffer: TextBuffer, requested: Option<WordCount>, showEntropy: bool)
    | EncodingMenu
    | EncodingEntry(encoding: Encoding, buffer: TextBuffer)
    | EncodingResult(encoding: Encoding, buffer: TextBuffer)
    | Done

  predicate HoldsText(stage: Stage) { !stage.ProfileMenu? && !stage.EncodingMenu? && !stage.Done? }

  /** The next stage holds this text, or none. */
  predicate SameText(stage: Stage, b: TextBuffer) { HoldsText(stage) ==> stage.buffer == b }

  ghost function PlaceOf(stage: Stage): Place
    requires HoldsText(stage) ==> stage.buffer.Valid()
    reads if HoldsText(stage) then {stage.buffer, stage.buffer.mem} else {}
  {
    match stage
    case ProfileMenu => AtProfiles
    case EventEntry(p, b) => AtEntry(p, b.text)
    case WordCountChoice(p, b) => AtChoice(p, b.text)
    case Submitted(p, b, requested, show) => AtResult(p, b.text, requested, show)
    case EncodingMenu => AtEncodings
    case EncodingEntry(e, b) => AtEncodingEntry(e, b.text)
    case EncodingResult(e, b) => AtEncodingResult(e, b.text)
    case Done => AtEnd
  }

  function Last(log: seq<Frame>): Spot
    requires log != []
  {
    log[|log| - 1].spot
  }

  /** A run starts at the profile menu, and each key leads from its frame to the next one. */
  ghost predicate Linked(log: seq<Frame>, keys: seq<Key>, pathKeys: nat -> nat) {
    && (log != [] ==> log[0].spot == START)
    && forall i :: 0 < i < |log| ==> Onward(log[i - 1].spot, keys, pathKeys) == Some(log[i].spot)
  }

  /** Where the run is after those frames. */
  ghost predicate Follows(log: seq<Frame>, spot: Spot, keys: seq<Key>, pathKeys: nat -> nat) {
    if log == [] then spot == START else Onward(Last(log), keys, pathKeys) == Some(spot)
  }

  /** How often a text was dropped between two frames. */
  function Drops(log: seq<Frame>): nat {
    if |log| < 2 then 0
    else Drops(log[..|log| - 1]) + DropsAt(log[|log| - 2].spot.place, log[|log| - 1].spot.place)
  }

  function DropsAt(here: Place, next: Place): nat { if HasText(here) && !HasText(next) then 1 else 0 }

  /** A text was drawn that no first allocation could hold. */
  ghost predicate LongDrawn(log: seq<Frame>) {
    exists f :: f in log && IsLong(f.spot.place)
  }

  predicate IsLong(place: Place) { |Utf8(TextOf(place))| > EVENT_BUFFER_CAP }

  /** As many allocations were wiped as texts were dropped on the way to `next`. */
  ghost predicate Wiped(s: Session, next: Place)
    reads s`log, s`retired
  {
    |s.retired| == Drops(s.log) + if s.log == [] then 0 else DropsAt(Last(s.log).place, next)
  }

  /** An allocation was outgrown exactly if a long text was drawn, or is held now. */
  ghost predicate Grown(s: Session, long: bool)
    reads s`log, s`outgrown
  {
    s.outgrown != {} <==> LongDrawn(s.log) || long
  }

  /** The run so far is linked, every screen is right, and all retired memory is zero. */
  ghost predicate Kept(s: Session, sha256: Hash)
    reads s, s.retired
  {
    && s.at <= |s.keys|
    && Linked(s.log, s.keys, s.pathKeys)
    && (forall f :: f in s.log ==> Right(f.spot.place, f.screen, sha256))
    && (forall a :: a in s.retired ==> AllZero(a))
  }

  /** Without a live text, every allocation made was wiped or outgrown. */
  ghost predicate Empty(s: Session)
    reads s`made, s`retired, s`outgrown
  {
    s.made == s.retired + s.outgrown
  }

  /** With one, its allocation is the only other. */
  ghost predicate Holds(s: Session, b: TextBuffer)
    reads s`made, s`retired, s`outgrown, b, b.mem
  {
    && s.made == s.retired + s.outgrown + {b.mem}
    && b.Valid() && b.mem !in s.retired && b.mem !in s.outgrown
    && b.mem.Length >= EVENT_BUFFER_CAP && (b.mem.Length > EVENT_BUFFER_CAP ==> s.outgrown != {})
  }

  ghost predicate Accounted(s: Session, stage: Stage)
    reads s`made, s`retired, s`outgrown
    reads if HoldsText(stage) then {stage.buffer, stage.buffer.mem} else {}
  {
    if HoldsText(stage) then Holds(s, stage.buffer) else Empty(s)
  }

  /** The run can go on at `next`. */
  ghost predicate Ready(s: Session, next: Place)
    reads s`log, s`at, s`visits
  {
    PlaceOk(next) && Follows(s.log, Spot(next, s.at, s.visits), s.keys, s.pathKeys)
  }

  /** The stage is where the last key led, and the books agree. */
  ghost predicate Stands(s: Session, stage: Stage)
    reads s`log, s`at, s`visits, s`retired, s`outgrown
    reads if HoldsText(stage) then {stage.buffer, stage.buffer.mem} else {}
  {
    && (HoldsText(stage) ==> stage.buffer.Valid())
    && var place := PlaceOf(stage);
       Ready(s, place) && Wiped(s, place) && Grown(s, IsLong(place))
  }

  /** The keys ran out at the last frame; a text is held there or not. */
  ghost predicate Stuck(s: Session, holds: bool)
    reads s`log, s`retired, s`outgrown
  {
    && s.log != [] && Onward(Last(s.log), s.keys, s.pathKeys) == None
    && HasText(Last(s.log).place) == holds
    && |s.retired| == Drops(s.log) && Grown(s, false)
  }

  /** The last screen was drawn at `here`, and every text dropped before was wiped. */
  ghost predicate Drawn(s: Session, here: Place)
    reads s`log, s`retired
  {
    s.log != [] && Last(s.log).place == here && |s.retired| == Drops(s.log)
  }

  /** The last key opened the custom-path tool. */
  ghost predicate AtTool(s: Session, here: Place)
    reads s`log, s`at, s`visits
  {
    && 0 < s.at <= |s.keys| && s.log != [] && Last(s.log) == Spot(here, s.at - 1, s.visits)
    && OpensTool(here, s.keys[s.at - 1])
  }

  /** The first frame added to the log was drawn at `place`, and is the right one there. */
  ghost predicate Draws(before: seq<Frame>, log: seq<Frame>, place: Place, sha256: Hash) {
    && |before| < |log| && before == log[..|before|]
    && var f := log[|before|];
       f.spot.place == place && Right(place, f.screen, sha256)
  }

  lemma DrawnBooks(log: seq<Frame>, f: Frame)
    ensures Drops(log + [f]) == Drops(log) + if log == [] then 0 else DropsAt(Last(log).place, f.spot.place)
    ensures LongDrawn(log + [f]) <==> LongDrawn(log) || IsLong(f.spot.place)
  {
    assert (log + [f])[..|log|] == log;
    if LongDrawn(log) {
      var g :| g in log && IsLong(g.spot.place);
      assert g in log + [f];
    }
    assert f in log + [f];
  }

  /** Draw a screen and read the key that answers it. */
  method Ask(s: Session, place: Place, screen: Screen, ghost sha256: Hash) returns (key: Option<Key>)
    requires Kept(s, sha256) && Right(place, screen, sha256)
    requires Ready(s, place) && Wiped(s, place) && Grown(s, IsLong(place))
    modifies s`log, s`at
    ensures Kept(s, sha256) && s.log == old(s.log) + [Frame(Spot(place, old(s.at), s.visits), screen)]
    ensures Drawn(s, place) && Grown(s, false) && Grown(s, IsLong(place)) && old(s.at) <= s.at
    ensures key == if old(s.at) < |s.keys| then Some(s.keys[old(s.at)]) else None
    ensures match key
            case None => Stuck(s, HasText(place))
            case Some(k) =>
              && s.at == old(s.at) + 1 && PlaceOk(After(place, k))
              && if OpensTool(place, k) then AtTool(s, place) && s.keys[s.at - 1] == k else Ready(s, After(place, k))
  {
    hide Right, AllZero, After, PlaceOk, OpensTool, LongDrawn, Drops;
    DrawnBooks(s.log, Frame(Spot(place, s.at, s.visits), screen));
    s.log := s.log + [Frame(Spot(place, s.at, s.visits), screen)];
    if s.at == |s.keys| {
      return None;
    }
    key := Some(s.keys[s.at]);
    s.at := s.at + 1;
    OkAfter(place, key.value);
  }

  /** The custom-path tool: it returns when it has read its keys. */
  method RunCustomPath(s: Session, ghost here: Place, ghost sha256: Hash) returns (done: bool)
    requires Kept(s, sha256) && AtTool(s, here) && Drawn(s, here) && Grown(s, false)
    requires PlaceOk(After(here, s.keys[s.at - 1]))
    modifies s`at, s`visits
    ensures Kept(s, sha256) && old(s.at) <= s.at && Drawn(s, here)
    ensures if done then Ready(s, After(here, s.keys[old(s.at) - 1])) else Stuck(s, HasText(here))
  {
    hide Right, AllZero, Linked, After, OpensTool, LongDrawn, Drops, PlaceOk;
    var n := s.pathKeys(s.visits);
    if n > |s.keys| - s.at {
      return false;
    }
    s.visits := s.visits + 1;
    s.at := s.at + n;
    done := true;
  }

  lemma Arrived(s: Session, stage: Stage)
    requires Stands(s, stage)
    ensures HoldsText(stage) ==> stage.buffer.Valid()
    ensures Ready(s, PlaceOf(stage)) && Wiped(s, PlaceOf(stage)) && Grown(s, IsLong(PlaceOf(stage)))
    ensures PlaceOk(PlaceOf(stage))
  {
    hide Wiped, Grown, PlaceOk;
  }

  lemma StillWiped(s: Session, here: Place, next: Place)
    requires Drawn(s, here) && (HasText(here) ==> HasText(next))
    ensures Wiped(s, next)
  {
    hide Drops;
  }

  /** The run goes on at a stage that keeps the text, or where none was held. */
  lemma GoesOn(s: Session, here: Place, stage: Stage)
    requires HoldsText(stage) ==> stage.buffer.Valid()
    requires Drawn(s, here) && Ready(s, PlaceOf(stage)) && Grown(s, IsLong(PlaceOf(stage)))
    requires HasText(here) ==> HoldsText(stage)
    ensures Stands(s, stage)
  {
    hide Ready, Grown, Drops;
  }

  // ------------------------------------------------------- opening and wiping

  /** `String::with_capacity(EVENT_BUFFER_CAP)`. */
  method Open(s: Session, ghost sha256: Hash) returns (b: TextBuffer)
    requires Kept(s, sha256) && Empty(s)
    modifies s`made
    ensures Kept(s, sha256) && Holds(s, b) && s.made == old(s.made) + {b.mem}
    ensures fresh(b) && fresh(b.mem) && b.Valid() && b.text == ""
  {
    hide Right, AllZero, Linked;
    b := new TextBuffer(EVENT_BUFFER_CAP);
    s.made := s.made + {b.mem};
  }

  /** Wipe a text before it is dropped. */
  method Retire(s: Session, b: TextBuffer, ghost sha256: Hash)
    requires Kept(s, sha256) && Holds(s, b)
    modifies s`retired, b, b.mem
    ensures Kept(s, sha256) && Empty(s) && b.mem == old(b.mem)
    ensures s.retired == old(s.retired) + {b.mem} && b.mem !in old(s.retired) && AllZero(b.mem)
  {
    hide Right, Linked;
    b.Scrub();
    s.retired := s.retired + {b.mem};
  }

  /** Wipe a text on the way to a menu. */
  method DropText(s: Session, b: TextBuffer, ghost here: Place, ghost stage: Stage, ghost sha256: Hash)
    requires Kept(s, sha256) && Holds(s, b) && Drawn(s, here) && HasText(here)
    requires !HoldsText(stage) && Ready(s, PlaceOf(stage)) && Grown(s, false)
    modifies s`retired, b, b.mem
    ensures Kept(s, sha256) && Empty(s) && Stands(s, stage)
    ensures b.mem == old(b.mem) && b.mem in s.retired && AllZero(b.mem) && old(s.retired) <= s.retired
  {
    hide Kept, Ready, Grown, Drops, AllZero;
    Retire(s, b, sha256);
  }

  /** One more character; the books are kept when the allocation is outgrown. */
  method Type(s: Session, b: TextBuffer, c: char, ghost sha256: Hash)
    requires Kept(s, sha256) && Holds(s, b)
    modifies s`made, s`outgrown, b, b.mem
    ensures Kept(s, sha256) && Holds(s, b)
    ensures b.Valid() && b.text == old(b.text) + [c]
    ensures if |Utf8(b.text)| <= old(b.mem.Length)
            then b.mem == old(b.mem) && s.made == old(s.made) && s.outgrown == old(s.outgrown)
            else fresh(b.mem) && s.made == old(s.made) + {b.mem} && s.outgrown == old(s.outgrown) + {old(b.mem)}
    ensures s.outgrown != {} <==> old(s.outgrown) != {} || |Utf8(b.text)| > EVENT_BUFFER_CAP
  {
    hide Right, AllZero, Linked;
    ghost var before := b.mem;
    b.Push(c);
    if b.mem != before {
      s.made := s.made + {b.mem};
      s.outgrown := s.outgrown + {before};
    }
  }

  method HandleEntryKey(s: Session, p: CompatProfile, b: TextBuffer, key: Key, ghost sha256: Hash)
    returns (action: EntryAction)
    requires Kept(s, sha256) && Holds(s, b) && Grown(s, false)
    modifies s`made, s`outgrown, b, b.mem
    ensures Kept(s, sha256) && Holds(s, b)
    ensures b.Valid() && b.text == Edited(old(b.text), key, Some(p.alphabet))
    ensures action == ActionOf(key, old(b.text))
    ensures b.mem == old(b.mem) || fresh(b.mem)
    ensures old(s.made) <= s.made && old(s.outgrown) <= s.outgrown
    ensures Grown(s, |Utf8(b.text)| > EVENT_BUFFER_CAP) && (action != Nothing ==> s.outgrown == old(s.outgrown))
  {
    hide Kept, LongDrawn;
    match key
    case Char(c) =>
      if c == '?' {
        return ShowDetail;
      }
      if AlphabetAllows(p.alphabet, c as int) {
        Type(s, b, c, sha256);
      }
      action := Nothing;
    case Backspace =>
      b.Pop();
      action := Nothing;
    case Enter =>
      action := if b.len > 0 then Submit else Nothing;
    case Escape =>
      action := Cancel;
    case OtherKey =>
      action := Nothing;
  }

  method HandleEncodingEntryKey(s: Session, b: TextBuffer, key: Key, ghost sha256: Hash) returns (action: EntryAction)
    requires Kept(s, sha256) && Holds(s, b) && Grown(s, false)
    modifies s`made, s`outgrown, b, b.mem
    ensures Kept(s, sha256) && Holds(s, b)
    ensures b.Valid() && b.text == Edited(old(b.text), key, None)
    ensures action == ActionOf(key, old(b.text))
    ensures b.mem == old(b.mem) || fresh(b.mem)
    ensures old(s.made) <= s.made && old(s.outgrown) <= s.outgrown
    ensures Grown(s, |Utf8(b.text)| > EVENT_BUFFER_CAP) && (action != Nothing ==> s.outgrown == old(s.outgrown))
  {
    hide Kept, LongDrawn;
    match key
    case Char(c) =>
      if c == '?' {
        return ShowDetail;
      }
      Type(s, b, c, sha256);
      action := Nothing;
    case Backspace =>
      b.Pop();
      action := Nothing;
    case Enter =>
      action := if b.len > 0 then Submit else Nothing;
    case Escape =>
      action := Cancel;
    case OtherKey =>
      action := Nothing;
  }

  /** The `[?]` page of an entry screen, which any key leaves. */
  method ShowPage(s: Session, ghost b: TextBuffer, ghost here: Place, page: Place, screen: Screen, stage: Stage,
                  ghost sha256: Hash) returns (next: Option<Stage>)
    requires Kept(s, sha256) && Holds(s, b) && HoldsText(stage) && stage.buffer == b && b.Valid()
    requires page.AtDetail? || page.AtEncodingDetail?
    requires PlaceOf(stage) == After(page, Enter) && TextOf(page) == TextOf(PlaceOf(stage))
    requires Drawn(s, here) && Ready(s, page) && Grown(s, IsLong(page)) && Right(page, screen, sha256)
    modifies s`log, s`at
    ensures Kept(s, sha256) && Holds(s, b) && next == (if next.Some? then Some(stage) else None)
    ensures if next.Some? then Stands(s, stage) && old(s.at) < s.at else Stuck(s, true)
  {
    hide Kept, Stands, Ready, Drawn, Grown, Wiped, Stuck, AtTool, Holds, PlaceOk, Right, EventBits, Canonical,
         UserProfiles, PROFILES;
    StillWiped(s, here, page);
    var anyKey := Ask(s, page, screen, sha256);
    if anyKey == None {
      return None;
    }
    GoesOn(s, page, stage);
    next := Some(stage);
  }

  // ----------------------------------------------------- one stage at a time

  method OnProfileMenu(s: Session, ghost sha256: Hash) returns (next: Option<Stage>)
    requires Kept(s, sha256) && Accounted(s, ProfileMenu) && Stands(s, ProfileMenu)
    modifies s
    ensures Kept(s, sha256)
    ensures next.Some? ==> Accounted(s, next.value) && Stands(s, next.value) && old(s.at) < s.at
    ensures next == None ==> Empty(s) && Stuck(s, false)
    ensures old(s.made) <= s.made && old(s.retired) <= s.retired && old(s.outgrown) <= s.outgrown
    ensures next.Some? && HoldsText(next.value) ==> fresh(next.value.buffer) && fresh(next.value.buffer.mem)
  {
    hide Kept, Stands, Ready, Drawn, Grown, Wiped, Stuck, AtTool, AllZero, Holds, Empty, UserProfiles, PROFILES,
         PlaceOk;
    Arrived(s, ProfileMenu);
    var here := AtProfiles;
    var profiles := UserProfiles();
    var key := Ask(s, here, ProfileMenuScreen, sha256);
    if key == None {
      return None;
    }
    match HandleMenuKey(|profiles| + 1, key.value)
    case Activate(index) =>
      if index == |profiles| {
        GoesOn(s, here, EncodingMenu);
        return Some(EncodingMenu);
      }
      var b := Open(s, sha256);
      GoesOn(s, here, EventEntry(profiles[index], b));
      next := Some(EventEntry(profiles[index], b));
    case Quit =>
      GoesOn(s, here, Done);
      next := Some(Done);
    case Ignore =>
      GoesOn(s, here, ProfileMenu);
      next := Some(ProfileMenu);
  }

  method OnEncodingMenu(s: Session, ghost sha256: Hash) returns (next: Option<Stage>)
    requires Kept(s, sha256) && Accounted(s, EncodingMenu) && Stands(s, EncodingMenu)
    modifies s
    ensures Kept(s, sha256)
    ensures next.Some? ==> Accounted(s, next.value) && Stands(s, next.value) && old(s.at) < s.at
    ensures next == None ==> Empty(s) && Stuck(s, false)
    ensures old(s.made) <= s.made && old(s.retired) <= s.retired && old(s.outgrown) <= s.outgrown
    ensures next.Some? && HoldsText(next.value) ==> fresh(next.value.buffer) && fresh(next.value.buffer.mem)
  {
    hide Kept, Stands, Ready, Drawn, Grown, Wiped, Stuck, AtTool, AllZero, Holds, Empty, UserProfiles, PROFILES,
         PlaceOk;
    Arrived(s, EncodingMenu);
    var here := AtEncodings;
    var key := Ask(s, here, EncodingMenuScreen, sha256);
    if key == None {
      return None;
    }
    match HandleMenuKey(|ENCODINGS|, key.value)
    case Activate(index) =>
      var b := Open(s, sha256);
      GoesOn(s, here, EncodingEntry(ENCODINGS[index], b));
      next := Some(EncodingEntry(ENCODINGS[index], b));
    case Quit =>
      GoesOn(s, here, ProfileMenu);
      next := Some(ProfileMenu);
    case Ignore =>
      GoesOn(s, here, EncodingMenu);
      next := Some(EncodingMenu);
  }

  method OnEventEntry(s: Session, p: CompatProfile, b: TextBuffer, ghost sha256: Hash) returns (next: Option<Stage>)
    requires Kept(s, sha256) && Accounted(s, EventEntry(p, b)) && Stands(s, EventEntry(p, b))
    modifies s, b, b.mem
    ensures Kept(s, sha256)
    ensures next.Some? ==>
              Accounted(s, next.value) && Stands(s, next.value) && old(s.at) < s.at
              && SameText(next.value, b) && (b.mem == old(b.mem) || fresh(b.mem))
    ensures next == None ==> Holds(s, b) && Stuck(s, true)
    ensures next.Some? && !HoldsText(next.value) ==> b.mem in s.retired && AllZero(b.mem)
    ensures old(s.made) <= s.made && old(s.retired) <= s.retired && old(s.outgrown) <= s.outgrown
  {
    hide Kept, Stands, Ready, Drawn, Grown, Wiped, Stuck, AtTool, AllZero, Holds, Empty, UserProfiles, PROFILES,
         PlaceOk, Edited, ActionOf, EventBits, Canonical, RightEncoding, RightResult, After, OpensTool;
    Arrived(s, EventEntry(p, b));
    var here := AtEntry(p, b.text);
    var key := Ask(s, here, EntryScreen(p), sha256);
    if key == None {
      return None;
    }
    AtEntryScreen(p, b.text, key.value);
    next := OnEventKey(s, p, b, key.value, sha256);
  }

  /** A key at the entry screen. */
  method OnEventKey(s: Session, p: CompatProfile, b: TextBuffer, key: Key, ghost sha256: Hash)
    returns (next: Option<Stage>)
    requires Kept(s, sha256) && Holds(s, b) && b.Valid()
    requires var here := AtEntry(p, b.text);
             && PlaceOk(here) && Drawn(s, here) && Grown(s, false) && Grown(s, IsLong(here))
             && Ready(s, After(here, key))
    modifies s, b, b.mem
    ensures Kept(s, sha256)
    ensures next.Some? ==>
              Accounted(s, next.value) && Stands(s, next.value) && old(s.at) <= s.at
              && SameText(next.value, b) && (b.mem == old(b.mem) || fresh(b.mem))
    ensures next == None ==> Holds(s, b) && Stuck(s, true)
    ensures next.Some? && !HoldsText(next.value) ==> b.mem in s.retired && AllZero(b.mem)
    ensures old(s.made) <= s.made && old(s.retired) <= s.retired && old(s.outgrown) <= s.outgrown
  {
    hide Kept, Stands, Ready, Drawn, Grown, Wiped, Stuck, AtTool, AllZero, Holds, Empty, UserProfiles, PROFILES,
         PlaceOk, Edited, ActionOf, EventBits, Canonical, RightEncoding, RightResult, After, OpensTool, Utf8;
    var here := AtEntry(p, b.text);
    AtEntryScreen(p, b.text, key);
    if ActionOf(key, b.text) != Nothing { ActionsKeepText(b.text, key, Some(p.alphabet)); }
    var action := HandleEntryKey(s, p, b, key, sha256);
    match action
    case Submit =>
      var stage := if p.rule.FreeChoice? then WordCountChoice(p, b) else Submitted(p, b, None, false);
      GoesOn(s, here, stage);
      next := Some(stage);
    case Cancel =>
      DropText(s, b, here, ProfileMenu, sha256);
      next := Some(ProfileMenu);
    case ShowDetail =>
      AtEntryScreen(p, b.text, Enter);
      next := ShowPage(s, b, here, AtDetail(p, b.text), DetailScreen(p), EventEntry(p, b), sha256);
    case Nothing =>
      GoesOn(s, here, EventEntry(p, b));
      next := Some(EventEntry(p, b));
  }

  method OnWordCount(s: Session, p: CompatProfile, b: TextBuffer, ghost sha256: Hash) returns (next: Option<Stage>)
    requires Kept(s, sha256) && Accounted(s, WordCountChoice(p, b)) && Stands(s, WordCountChoice(p, b))
    modifies s
    ensures Kept(s, sha256)
    ensures next.Some? ==>
              Accounted(s, next.value) && Stands(s, next.value) && old(s.at) < s.at
              && HoldsText(next.value) && SameText(next.value, b)
    ensures next == None ==> Holds(s, b) && Stuck(s, true)
    ensures old(s.made) <= s.made && old(s.retired) <= s.retired && old(s.outgrown) <= s.outgrown
  {
    hide Kept, Stands, Ready, Drawn, Grown, Wiped, Stuck, AtTool, AllZero, Holds, Empty, UserProfiles, PROFILES,
         PlaceOk;
    Arrived(s, WordCountChoice(p, b));
    var here := AtChoice(p, b.text);
    var key := Ask(s, here, ChoiceScreen(p), sha256);
    if key == None {
      return None;
    }
    match HandleWordCountKey(key.value)
    case Chosen(count) =>
      GoesOn(s, here, Submitted(p, b, Some(count), false));
      next := Some(Submitted(p, b, Some(count), false));
    case CancelChoice =>
      GoesOn(s, here, EventEntry(p, b));
      next := Some(EventEntry(p, b));
    case NoChoice =>
      GoesOn(s, here, WordCountChoice(p, b));
      next := Some(WordCountChoice(p, b));
  }

  method OnEncodingEntry(s: Session, e: Encoding, b: TextBuffer, ghost sha256: Hash) returns (next: Option<Stage>)
    requires Kept(s, sha256) && Accounted(s, EncodingEntry(e, b)) && Stands(s, EncodingEntry(e, b))
    modifies s, b, b.mem
    ensures Kept(s, sha256)
    ensures next.Some? ==>
              Accounted(s, next.value) && Stands(s, next.value) && old(s.at) < s.at
              && SameText(next.value, b) && (b.mem == old(b.mem) || fresh(b.mem))
    ensures next == None ==> Holds(s, b) && Stuck(s, true)
    ensures next.Some? && !HoldsText(next.value) ==> b.mem in s.retired && AllZero(b.mem)
    ensures old(s.made) <= s.made && old(s.retired) <= s.retired && old(s.outgrown) <= s.outgrown
  {
    hide Kept, Stands, Ready, Drawn, Grown, Wiped, Stuck, AtTool, AllZero, Holds, Empty, UserProfiles, PROFILES,
         PlaceOk, Edited, ActionOf, EventBits, Canonical, RightEncoding, RightResult, After, OpensTool;
    Arrived(s, EncodingEntry(e, b));
    var here := AtEncodingEntry(e, b.text);
    var key := Ask(s, here, EncodingEntryScreen(e), sha256);
    if key == None {
      return None;
    }
    AtEncodingScreen(e, b.text, key.value);
    next := OnEncodingKey(s, e, b, key.value, sha256);
  }

  /** A key at the entry screen. */
  method OnEncodingKey(s: Session, e: Encoding, b: TextBuffer, key: Key, ghost sha256: Hash)
    returns (next: Option<Stage>)
    requires Kept(s, sha256) && Holds(s, b) && b.Valid()
    requires var here := AtEncodingEntry(e, b.text);
             && PlaceOk(here) && Drawn(s, here) && Grown(s, false) && Grown(s, IsLong(here))
             && Ready(s, After(here, key))
    modifies s, b, b.mem
    ensures Kept(s, sha256)
    ensures next.Some? ==>
              Accounted(s, next.value) && Stands(s, next.value) && old(s.at) <= s.at
              && SameText(next.value, b) && (b.mem == old(b.mem) || fresh(b.mem))
    ensures next == None ==> Holds(s, b) && Stuck(s, true)
    ensures next.Some? && !HoldsText(next.value) ==> b.mem in s.retired && AllZero(b.mem)
    ensures old(s.made) <= s.made && old(s.retired) <= s.retired && old(s.outgrown) <= s.outgrown
  {
    hide Kept, Stands, Ready, Drawn, Grown, Wiped, Stuck, AtTool, AllZero, Holds, Empty, UserProfiles, PROFILES,
         PlaceOk, Edited, ActionOf, EventBits, Canonical, RightEncoding, RightResult, After, OpensTool, Utf8;
    var here := AtEncodingEntry(e, b.text);
    AtEncodingScreen(e, b.text, key);
    if ActionOf(key, b.text) != Nothing { ActionsKeepText(b.text, key, None); }
    var action := HandleEncodingEntryKey(s, b, key, sha256);
    match action
    case Submit =>
      GoesOn(s, here, EncodingResult(e, b));
      next := Some(EncodingResult(e, b));
    case Cancel =>
      DropText(s, b, here, EncodingMenu, sha256);
      next := Some(EncodingMenu);
    case ShowDetail =>
      AtEncodingScreen(e, b.text, Enter);
      next := ShowPage(s, b, here, AtEncodingDetail(e, b.text), EncodingDetailScreen(e), EncodingEntry(e, b), sha256);
    case Nothing =>
      GoesOn(s, here, EncodingEntry(e, b));
      next := Some(EncodingEntry(e, b));
  }

  // ------------------------------------------------------------ the results

  /** `finish`: the words looked up, and the entropy read off the digest a second time. */
  method Finish(events: string, out: CompatOutput, sha256: Hash) returns (x: Success)
    requires out.usedLen == ClampU16(|Utf8(events)|)
    requires Encodes(out.mnemonicIndexes[..], out.wordCount,
                     sha256(Utf8(events))[..if out.wordCount.Twelve? then 16 else 32], sha256)
    modifies out.mnemonicIndexes
    ensures Shows(x, events, sha256) && x.wordCount == out.wordCount
    ensures forall i :: 0 <= i < out.mnemonicIndexes.Length ==> out.mnemonicIndexes[i] == 0
  {
    hide IndexesValue, BytesValue, Utf8, Pow2;
    ghost var indexes := out.mnemonicIndexes[..];
    var digest := sha256(Utf8(events));
    var entropyLen := if out.wordCount.Twelve? then 16 else 32;
    var entropy: seq<Byte> := digest[..entropyLen] + seq(32 - entropyLen, _ => 0);
    assert entropy[..entropyLen] == digest[..entropyLen];
    var n := WordsOf(out.wordCount);
    var words: seq<nat> := [];
    for i := 0 to n
      invariant words == indexes[..i] && out.mnemonicIndexes[..] == indexes
    {
      var index := out.mnemonicIndexes[i];
      // The lookup in the list of 2048 words is in range.
      assert index < 2048;
      words := words + [index];
    }
    assert words + seq(24 - |words|, _ => 0) == indexes;
    x := Success(out.wordCount, words, out.usedLen, entropy, entropyLen);
    out.Scrub();
  }

  /** The derivation, called on what the entry screens submit. */
  method DeriveSubmitted(p: CompatProfile, text: string, requested: Option<WordCount>, sha256: Hash)
    returns (r: Result<CompatOutput, CompatError>)
    requires PlaceOk(AtResult(p, text, requested, false))
    ensures match r
            case Ok(o) =>
              && fresh(o) && fresh(o.mnemonicIndexes)
              && DeviceProduces(p.rule, |text|, o.wordCount)
              && requested == (if p.rule.FreeChoice? then Some(o.wordCount) else None)
              && o.usedLen == ClampU16(|Utf8(text)|)
              && Encodes(o.mnemonicIndexes[..], o.wordCount,
                         sha256(Utf8(text))[..if o.wordCount.Twelve? then 16 else 32], sha256)
            case Err(e) =>
              p.rule.DerivedFromLength? && !Canonical(p, |text|) && e == Refused(ClampU16(|text|), NotCanonical)
  {
    hide PlaceOk, AllAllowed, Utf8, Encodes, Selected, Canonical, DeviceProduces;
    SubmitOutcome(p, text, requested);
    r := Derive(p, text, requested, sha256);
  }

  method OnResult(s: Session, p: CompatProfile, b: TextBuffer, requested: Option<WordCount>, showEntropy: bool,
                  sha256: Hash) returns (next: Option<Stage>)
    requires var stage := Submitted(p, b, requested, showEntropy);
             Kept(s, sha256) && Accounted(s, stage) && Stands(s, stage)
    modifies s, b, b.mem
    ensures Kept(s, sha256) && Draws(old(s.log), s.log, old(AtResult(p, b.text, requested, showEntropy)), sha256)
    ensures next.Some? ==>
              Accounted(s, next.value) && Stands(s, next.value) && old(s.at) < s.at
              && SameText(next.value, b) && (b.mem == old(b.mem) || fresh(b.mem))
    ensures next == None ==> Holds(s, b) && Stuck(s, true)
    ensures next.Some? && !HoldsText(next.value) ==> b.mem in s.retired && AllZero(b.mem)
    ensures old(s.made) <= s.made && old(s.retired) <= s.retired && old(s.outgrown) <= s.outgrown
  {
    hide Kept, Stands, Ready, Drawn, Grown, Wiped, Stuck, AtTool, AllZero, Holds, Empty, UserProfiles, PROFILES,
         Allowed, Utf8, Encodes, Shows;
    Arrived(s, Submitted(p, b, requested, showEntropy));
    var here := AtResult(p, b.text, requested, showEntropy);
    var text := b.text;
    var r := DeriveSubmitted(p, text, requested, sha256);
    match r
    case Ok(output) =>
      next := OnDerived(s, p, b, requested, showEntropy, output, sha256);
    case Err(error) =>
      if error.Refused? {
        var screen := RefusalScreen(p, error.entered, requested);
        var anyKey := Ask(s, here, screen, sha256);
        if anyKey == None {
          return None;
        }
        DropText(s, b, here, ProfileMenu, sha256);
        next := Some(ProfileMenu);
      } else {
        // The source draws its last-resort refusal here; no run gets here.
        assert false;
      }
  }

  lemma ResultIsRight(p: CompatProfile, text: string, requested: Option<WordCount>, show: bool, x: Success,
                      sha256: Hash)
    requires DeviceProduces(p.rule, |text|, x.wordCount) && Shows(x, text, sha256)
    requires p.rule.FreeChoice? ==> requested == Some(x.wordCount)
    ensures Right(AtResult(p, text, requested, show), ResultScreen(p, x, show), sha256) && Canonical(p, |text|)
  {
    hide Shows;
  }

  /** The arm of a successful derivation. */
  method OnDerived(s: Session, p: CompatProfile, b: TextBuffer, requested: Option<WordCount>, showEntropy: bool,
                   output: CompatOutput, sha256: Hash) returns (next: Option<Stage>)
    requires var stage := Submitted(p, b, requested, showEntropy);
             Kept(s, sha256) && Accounted(s, stage) && Stands(s, stage)
    requires DeviceProduces(p.rule, |b.text|, output.wordCount)
    requires requested == (if p.rule.FreeChoice? then Some(output.wordCount) else None)
    requires output.usedLen == ClampU16(|Utf8(b.text)|)
    requires Encodes(output.mnemonicIndexes[..], output.wordCount,
                     sha256(Utf8(b.text))[..if output.wordCount.Twelve? then 16 else 32], sha256)
    modifies s, b, b.mem, output.mnemonicIndexes
    ensures Kept(s, sha256) && Draws(old(s.log), s.log, old(AtResult(p, b.text, requested, showEntropy)), sha256)
    ensures next.Some? ==>
              Accounted(s, next.value) && Stands(s, next.value) && old(s.at) < s.at
              && SameText(next.value, b) && (b.mem == old(b.mem) || fresh(b.mem))
    ensures next == None ==> Holds(s, b) && Stuck(s, true)
    ensures next.Some? && !HoldsText(next.value) ==> b.mem in s.retired && AllZero(b.mem)
    ensures old(s.made) <= s.made && old(s.retired) <= s.retired && old(s.outgrown) <= s.outgrown
  {
    hide Kept, Stands, Ready, Drawn, Grown, Wiped, Stuck, AtTool, AllZero, Holds, Empty, UserProfiles, PROFILES,
         Allowed, Utf8, Encodes, Shows, DeviceProduces, Right, Canonical, After,
         OpensTool;
    Arrived(s, Submitted(p, b, requested, showEntropy));
    var here := AtResult(p, b.text, requested, showEntropy);
    var text := b.text;
    var x := Finish(text, output, sha256);
    ResultIsRight(p, text, requested, showEntropy, x, sha256);
    var key := Ask(s, here, ResultScreen(p, x, showEntropy), sha256);
    if key == None {
      return None;
    }
    next := OnResultKey(s, p, b, requested, showEntropy, key.value, sha256);
  }

  /** A key at a result that shows words. */
  method OnResultKey(s: Session, p: CompatProfile, b: TextBuffer, requested: Option<WordCount>, showEntropy: bool,
                     key: Key, sha256: Hash) returns (next: Option<Stage>)
    requires Kept(s, sha256) && Holds(s, b) && b.Valid()
    requires var here := AtResult(p, b.text, requested, showEntropy);
             && PlaceOk(here) && Canonical(p, |b.text|)
             && Drawn(s, here) && Grown(s, false) && Grown(s, IsLong(here)) && PlaceOk(After(here, key))
             && if OpensTool(here, key) then AtTool(s, here) && s.keys[s.at - 1] == key else Ready(s, After(here, key))
    modifies s, b, b.mem
    ensures Kept(s, sha256) && old(s.at) <= s.at && s.log == old(s.log)
    ensures next.Some? ==>
              Accounted(s, next.value) && Stands(s, next.value)
              && SameText(next.value, b) && (b.mem == old(b.mem) || fresh(b.mem))
    ensures next == None ==> Holds(s, b) && Stuck(s, true)
    ensures next.Some? && !HoldsText(next.value) ==> b.mem in s.retired && AllZero(b.mem)
    ensures old(s.made) <= s.made && old(s.retired) <= s.retired && old(s.outgrown) <= s.outgrown
  {
    hide Kept, Stands, Ready, Drawn, Grown, Wiped, Stuck, AtTool, AllZero, Holds, Empty, UserProfiles, PROFILES,
         Allowed, Utf8, Encodes, DeviceProduces, Canonical, After, OpensTool;
    var text := b.text;
    var here := AtResult(p, text, requested, showEntropy);
    AtWords(p, text, requested, showEntropy, key);
    match HandleResultKey(key)
    case ToggleEntropy =>
      GoesOn(s, here, Submitted(p, b, requested, !showEntropy));
      next := Some(Submitted(p, b, requested, !showEntropy));
    case CustomPath =>
      var again := DeriveSubmitted(p, text, requested, sha256);
      if again.Ok? {
        var done := RunCustomPath(s, here, sha256);
        if !done {
          return None;
        }
        again.value.Scrub();
      }
      GoesOn(s, here, Submitted(p, b, requested, showEntropy));
      next := Some(Submitted(p, b, requested, showEntropy));
    case Back =>
      DropText(s, b, here, ProfileMenu, sha256);
      next := Some(ProfileMenu);
  }

  /** The raw-entropy derivation, said for the screens: it succeeds exactly where words are right. */
  method EncodeSubmitted(e: Encoding, text: string, sha256: Hash) returns (r: Result<EntropyOutput, EntropyError>)
    ensures r.Ok? <==> SupportedBits(|EventBits(e, text)|)
    ensures Right(AtEncodingResult(e, text),
                  if r.Ok? then EncodingResultScreen(r.value) else EncodingRefusalScreen(e, r.error), sha256)
  {
    hide EventBits, Reproduces, Ignored, Symbols;
    r := EntropyEncodingDerive(e, text, sha256);
  }

  method OnEncodingResult(s: Session, e: Encoding, b: TextBuffer, sha256: Hash) returns (next: Option<Stage>)
    requires Kept(s, sha256) && Accounted(s, EncodingResult(e, b)) && Stands(s, EncodingResult(e, b))
    modifies s, b, b.mem
    ensures Kept(s, sha256) && Draws(old(s.log), s.log, old(AtEncodingResult(e, b.text)), sha256)
    ensures next.Some? ==>
              Accounted(s, next.value) && Stands(s, next.value) && old(s.at) < s.at
              && SameText(next.value, b) && (b.mem == old(b.mem) || fresh(b.mem))
    ensures next == None ==> Holds(s, b) && Stuck(s, true)
    ensures next.Some? && !HoldsText(next.value) ==> b.mem in s.retired && AllZero(b.mem)
    ensures old(s.made) <= s.made && old(s.retired) <= s.retired && old(s.outgrown) <= s.outgrown
  {
    hide Kept, Stands, Ready, Drawn, Grown, Wiped, Stuck, AtTool, AllZero, Holds, Empty, UserProfiles, PROFILES,
         EventBits, SupportedBits, Canonical, PlaceOk, Right;
    Arrived(s, EncodingResult(e, b));
    var here := AtEncodingResult(e, b.text);
    var text := b.text;
    var r := EncodeSubmitted(e, text, sha256);
    match r
    case Ok(output) =>
      next := OnEncoded(s, e, b, output, sha256);
    case Err(error) =>
      var anyKey := Ask(s, here, EncodingRefusalScreen(e, error), sha256);
      if anyKey == None {
        return None;
      }
      DropText(s, b, here, EncodingMenu, sha256);
      next := Some(EncodingMenu);
  }

  /** The arm of a successful derivation. */
  method OnEncoded(s: Session, e: Encoding, b: TextBuffer, output: EntropyOutput, sha256: Hash)
    returns (next: Option<Stage>)
    requires Kept(s, sha256) && Accounted(s, EncodingResult(e, b)) && Stands(s, EncodingResult(e, b))
    requires SupportedBits(|EventBits(e, b.text)|)
    requires Right(AtEncodingResult(e, b.text), EncodingResultScreen(output), sha256)
    modifies s, b, b.mem
    ensures Kept(s, sha256) && Draws(old(s.log), s.log, old(AtEncodingResult(e, b.text)), sha256)
    ensures next.Some? ==>
              Accounted(s, next.value) && Stands(s, next.value) && old(s.at) < s.at
              && SameText(next.value, b) && (b.mem == old(b.mem) || fresh(b.mem))
    ensures next == None ==> Holds(s, b) && Stuck(s, true)
    ensures next.Some? && !HoldsText(next.value) ==> b.mem in s.retired && AllZero(b.mem)
    ensures old(s.made) <= s.made && old(s.retired) <= s.retired && old(s.outgrown) <= s.outgrown
  {
    hide Kept, Stands, Ready, Drawn, Grown, Wiped, Stuck, AtTool, AllZero, Holds, Empty, UserProfiles, PROFILES,
         EventBits, SupportedBits, Canonical, PlaceOk, Right;
    Arrived(s, EncodingResult(e, b));
    var here := AtEncodingResult(e, b.text);
    var text := b.text;
    var key := Ask(s, here, EncodingResultScreen(output), sha256);
    if key == None {
      return None;
    }
    if HandleEncodingResultKey(key.value) == CustomPath {
      var again := EncodeSubmitted(e, text, sha256);
      if again.Ok? {
        var done := RunCustomPath(s, here, sha256);
        if !done {
          return None;
        }
      }
      GoesOn(s, here, EncodingResult(e, b));
      next := Some(EncodingResult(e, b));
    } else {
      DropText(s, b, here, EncodingMenu, sha256);
      next := Some(EncodingMenu);
    }
  }

  // --------------------------------------------------------------- the loop

  datatype Ending = Left | Waiting

  lemma Opening(s: Session)
    requires s.made == {} && s.retired == {} && s.outgrown == {} && s.log == [] && s.at == 0 && s.visits == 0
    ensures Accounted(s, ProfileMenu) && Stands(s, ProfileMenu) && Linked(s.log, s.keys, s.pathKeys)
  {
  }

  lemma Owned(s: Session, stage: Stage)
    requires Accounted(s, stage)
    ensures s.made == s.retired + s.outgrown + if HoldsText(stage) then {stage.buffer.mem} else {}
  {
  }

  /** In a linked log of right screens no last resort is drawn, and nothing at the end. */
  lemma NoLastResort(s: Session, sha256: Hash)
    requires Kept(s, sha256)
    ensures forall f :: f in s.log ==> !LastResort(f.screen) && !f.spot.place.AtEnd?
  {
    hide Right, AllZero, Linked;
    forall f | f in s.log ensures !LastResort(f.screen) && !f.spot.place.AtEnd? {
      RightIsNoLastResort(f.spot.place, f.screen, sha256);
    }
  }

  /** The log of a run: linked from the start, and ended by leaving or for want of keys. */
  ghost predicate IsRun(log: seq<Frame>, keys: seq<Key>, pathKeys: nat -> nat, ending: Ending) {
    && Linked(log, keys, pathKeys) && log != [] && (forall f :: f in log ==> !f.spot.place.AtEnd?)
    && match Onward(Last(log), keys, pathKeys)
       case None => ending.Waiting?
       case Some(spot) => ending.Left? && spot.place.AtEnd?
  }

  /** What is known when a run has left, and when it waits for a key. */
  lemma Closing(s: Session, sha256: Hash)
    requires Kept(s, sha256) && Stands(s, Done)
    ensures IsRun(s.log, s.keys, s.pathKeys, Left)
    ensures |s.retired| == Drops(s.log) && (s.outgrown != {} <==> LongDrawn(s.log))
  {
    hide Drops, LongDrawn, Right, AllZero, After, OpensTool;
    NoLastResort(s, sha256);
    LeavesFromMenu(Last(s.log).place, s.keys[Last(s.log).at]);
  }

  lemma Stopping(s: Session, holds: bool, sha256: Hash)
    requires Kept(s, sha256) && Stuck(s, holds)
    ensures IsRun(s.log, s.keys, s.pathKeys, Waiting) && HasText(Last(s.log).place) == holds
    ensures |s.retired| == Drops(s.log) && (s.outgrown != {} <==> LongDrawn(s.log))
  {
    hide Drops, LongDrawn, Right, AllZero, Onward;
    NoLastResort(s, sha256);
  }

  /**
   `run_over`. The log is the one run these keys make, each screen the right one of its
   place: words appear only with the digest, the profile and the count that give them; a
   refusal appears exactly for a length-derived profile and a count it does not know; the
   last-resort refusals never appear. For every text dropped an allocation was wiped, and
   all that were are zero. Every allocation made was wiped, is live, or was outgrown; one
   was outgrown exactly when a text of more than 512 bytes was drawn.
   */
  method RunOver(s: Session, sha256: Hash) returns (ending: Ending, ghost live: set<array<Byte>>)
    requires s.at == 0 && s.visits == 0 && s.log == []
    requires s.made == {} && s.retired == {} && s.outgrown == {}
    modifies s
    ensures IsRun(s.log, s.keys, s.pathKeys, ending)
    ensures forall f :: f in s.log ==> Right(f.spot.place, f.screen, sha256) && !LastResort(f.screen)
    ensures |s.retired| == Drops(s.log) && forall a :: a in s.retired ==> AllZero(a)
    ensures s.made == s.retired + s.outgrown + live
    ensures |live| == if ending.Waiting? && HasText(Last(s.log).place) then 1 else 0
    ensures s.outgrown != {} <==> LongDrawn(s.log)
    ensures ending.Left? && !LongDrawn(s.log) ==> forall a :: a in s.made ==> AllZero(a)
  {
    hide Right, AllZero, Linked, LastResort, Stands, Stuck, Drops, LongDrawn, IsRun, Holds, Empty;
    var stage := ProfileMenu;
    Opening(s);
    while true
      invariant Kept(s, sha256) && Accounted(s, stage) && Stands(s, stage)
      invariant HoldsText(stage) ==> fresh(stage.buffer) && fresh(stage.buffer.mem)
      decreases |s.keys| - s.at
    {
      var next: Option<Stage>;
      match stage {
        case ProfileMenu => next := OnProfileMenu(s, sha256);
        case EventEntry(p, b) => next := OnEventEntry(s, p, b, sha256);
        case WordCountChoice(p, b) => next := OnWordCount(s, p, b, sha256);
        case Submitted(p, b, requested, show) => next := OnResult(s, p, b, requested, show, sha256);
        case EncodingMenu => next := OnEncodingMenu(s, sha256);
        case EncodingEntry(e, b) => next := OnEncodingEntry(s, e, b, sha256);
        case EncodingResult(e, b) => next := OnEncodingResult(s, e, b, sha256);
        case Done =>
          Closing(s, sha256);
          NoLastResort(s, sha256);
          Owned(s, Done);
          return Left, {};
      }
      if next == None {
        Stopping(s, HoldsText(stage), sha256);
        NoLastResort(s, sha256);
        Owned(s, stage);
        return Waiting, if HoldsText(stage) then {stage.buffer.mem} else {};
      }
      stage := next.value;
    }
  }

  // ------------------------------------------------------ what runs come to

  /** The first `n` keys open no tool and do not leave. */
  ghost predicate Plainly(keys: seq<Key>, n: nat)
    requires n <= |keys|
  {
    forall i :: 0 <= i < n ==> StaysAt(Go(AtProfiles, keys[..i]), keys[i])
  }

  predicate StaysAt(place: Place, key: Key) { !OpensTool(place, key) && After(place, key) != AtEnd }

  /** Every run draws the place its first keys lead to. */
  lemma {:induction false} RunReaches(log: seq<Frame>, keys: seq<Key>, pathKeys: nat -> nat, ending: Ending, n: nat)
    requires IsRun(log, keys, pathKeys, ending) && n <= |keys| && Plainly(keys, n)
    ensures n < |log| && log[n].spot == Spot(Go(AtProfiles, keys[..n]), n, 0)
  {
    hide After, OpensTool;
    if n > 0 {
      RunReaches(log, keys, pathKeys, ending, n - 1);
      var here := log[n - 1].spot;
      assert StaysAt(here.place, keys[n - 1]);
      assert Onward(here, keys, pathKeys) == Some(Spot(After(here.place, keys[n - 1]), n, 0));
      GoOn(AtProfiles, keys[..n - 1], [keys[n - 1]]);
      assert keys[..n] == keys[..n - 1] + [keys[n - 1]];
      OneKey(here.place, keys[n - 1]);
    }
  }

  /** No key opens the tool. */
  ghost predicate NoTool(keys: seq<Key>) {
    forall i :: 0 <= i < |keys| ==> !OpensTool(Go(AtProfiles, keys[..i]), keys[i])
  }

  lemma {:induction false} NoToolSpots(log: seq<Frame>, keys: seq<Key>, pathKeys: nat -> nat, ending: Ending, i: nat)
    requires IsRun(log, keys, pathKeys, ending) && NoTool(keys) && i < |log|
    ensures i <= |keys| && log[i].spot == Spot(Go(AtProfiles, keys[..i]), i, 0)
  {
    hide After, OpensTool;
    if i > 0 {
      NoToolSpots(log, keys, pathKeys, ending, i - 1);
      var here := log[i - 1].spot;
      assert Onward(here, keys, pathKeys) == Some(log[i].spot);
      assert !OpensTool(here.place, keys[i - 1]);
      GoOn(AtProfiles, keys[..i - 1], [keys[i - 1]]);
      assert keys[..i] == keys[..i - 1] + [keys[i - 1]];
      OneKey(here.place, keys[i - 1]);
    }
  }

  /** A run whose keys end in four Escapes and open no tool leaves, and never waits for a key. */
  lemma EscapesLeave(log: seq<Frame>, keys: seq<Key>, pathKeys: nat -> nat, ending: Ending, before: seq<Key>)
    requires IsRun(log, keys, pathKeys, ending) && NoTool(keys)
    requires keys == before + [Escape, Escape, Escape, Escape]
    ensures ending.Left?
  {
    hide After, OpensTool;
    var i := |log| - 1;
    NoToolSpots(log, keys, pathKeys, ending, i);
    assert log[i] in log && keys[..|keys|] == keys;
    if i == |keys| {
      GoOn(AtProfiles, before, [Escape, Escape, Escape, Escape]);
      FourEscapesLeave(Go(AtProfiles, before));
      assert false;
    } else {
      assert !OpensTool(log[i].spot.place, keys[i]);
    }
  }

  /** Choosing the first profile and typing 513 ones makes any run outgrow an allocation. */
  lemma LongTextIsDrawn(log: seq<Frame>, keys: seq<Key>, pathKeys: nat -> nat, ending: Ending, text: string)
    requires IsRun(log, keys, pathKeys, ending) && text == seq(513, _ => '1')
    requires [DigitKey(1)] + Typed(text) <= keys
    ensures LongDrawn(log)
  {
    hide UserProfiles, IsRun;
    var typed := [DigitKey(1)] + Typed(text);
    var p := UserProfiles()[0];
    assert p == PROFILES[0];
    forall i | 0 <= i < 514 ensures StaysAt(Go(AtProfiles, keys[..i]), keys[i]) {
      TypedStays(p, keys, text, i);
    }
    RunReaches(log, keys, pathKeys, ending, 514);
    assert keys[..514] == typed;
    MenuThenTyped(0, text);
    AllowedBytes(p, text);
    assert log[514] in log && IsLong(log[514].spot.place);
  }

  lemma TypedStays(p: CompatProfile, keys: seq<Key>, text: string, i: nat)
    requires p == UserProfiles()[0] && Allowed(p, text) && i <= |text|
    requires [DigitKey(1)] + Typed(text) <= keys
    ensures StaysAt(Go(AtProfiles, keys[..i]), keys[i])
  {
    hide UserProfiles, PROFILES, AlphabetAllows;
    assert keys[i] == ([DigitKey(1)] + Typed(text))[i];
    if i > 0 {
      assert keys[..i] == [DigitKey(1)] + Typed(text[..i - 1]);
      MenuThenTyped(0, text[..i - 1]);
      TypesOne(p, text[..i - 1], text[i - 1]);
    }
  }
}
