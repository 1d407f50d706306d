/**
 The raw-entropy front end (`crates/seed-compat/src/entropy_encoding.rs`): typed symbols
 to bits, the last whole 32-bit blocks of them to bytes, the bytes to word indexes.

 `EventBits` is the whole concatenated bit string, unbounded. The bounded accumulator
 `BitBuf` refines it, and `EntropyEncodingDerive` is specified on it. Symbol and character
 counters are unbounded here.
 */
module EntropyEncoding {
  import opened Wrappers
  import opened Contracts
  import opened Arithmetic
  import opened Bits
  import opened Utf8Strings
  import opened Bip39

  const MAX_ENTROPY_BITS := 2048

  datatype Encoding = Binary | Base6 | Dice | Base10 | Hex | Cards

  // ----------------------------------------------------------- symbol tables

  const HEX_BITS: seq<string> := [
    "0000", "0001", "0010", "0011", "0100", "0101", "0110", "0111",
    "1000", "1001", "1010", "1011", "1100", "1101", "1110", "1111"]

  function HexDigit(ch: char): Option<nat> {
    if '0' <= ch <= '9' then Some(ch as int - '0' as int)
    else if 'a' <= ch <= 'f' then Some(ch as int - 'a' as int + 10)
    else if 'A' <= ch <= 'F' then Some(ch as int - 'A' as int + 10)
    else None
  }

  /** The code of a one-character symbol; `None` outside the encoding's alphabet. */
  function SingleCharBits(e: Encoding, ch: char): Option<string> {
    match e
    case Binary => if ch == '0' then Some("0") else if ch == '1' then Some("1") else None
    case Base6 =>
      if ch == '0' then Some("00") else if ch == '1' then Some("01") else if ch == '2' then Some("10")
      else if ch == '3' then Some("11") else if ch == '4' then Some("0") else if ch == '5' then Some("1") else None
    case Dice =>
      if ch == '1' then Some("01") else if ch == '2' then Some("10") else if ch == '3' then Some("11")
      else if ch == '4' then Some("0") else if ch == '5' then Some("1") else if ch == '6' then Some("00") else None
    case Base10 =>
      if ch == '0' then Some("000") else if ch == '1' then Some("001") else if ch == '2' then Some("010")
      else if ch == '3' then Some("011") else if ch == '4' then Some("100") else if ch == '5' then Some("101")
      else if ch == '6' then Some("110") else if ch == '7' then Some("111") else if ch == '8' then Some("0")
      else if ch == '9' then Some("1") else None
    case Hex => (match HexDigit(ch) case Some(v) => Some(HEX_BITS[v]) case None => None)
    case Cards => None
  }

  function Upper(b: nat): nat { if 'a' as int <= b <= 'z' as int then b - 32 else b }

  /** Rank in the order A, 2 to 9, T, J, Q, K. */
  function CardRank(b: nat): Option<nat> {
    var u := Upper(b);
    if u == 'A' as int then Some(0)
    else if '2' as int <= u <= '9' as int then Some(u - '1' as int)
    else if u == 'T' as int then Some(9)
    else if u == 'J' as int then Some(10)
    else if u == 'Q' as int then Some(11)
    else if u == 'K' as int then Some(12)
    else None
  }

  /** Suit in the order C, D, H, S. */
  function CardSuit(b: nat): Option<nat> {
    var u := Upper(b);
    if u == 'C' as int then Some(0)
    else if u == 'D' as int then Some(1)
    else if u == 'H' as int then Some(2)
    else if u == 'S' as int then Some(3)
    else None
  }

  /** The low `width` bits of `v`, most significant first. */
  function BitsOf(v: nat, width: nat): (r: seq<bool>)
    ensures |r| == width
  {
    if width == 0 then [] else [v / Pow2(width - 1) % 2 == 1] + BitsOf(v, width - 1)
  }

  /** Card `idx`: five bits for 0..32, four for 32..48, two for 48..52. */
  function CardCode(idx: nat): seq<bool> {
    if idx < 32 then BitsOf(idx, 5) else if idx < 48 then BitsOf(idx - 32, 4) else BitsOf(idx - 48, 2)
  }

  function StrBits(s: string): (r: seq<bool>)
    ensures |r| == |s|
  {
    seq(|s|, i requires 0 <= i < |s| => s[i] == '1')
  }

  // ------------------------------------------------ what an input stands for

  /** A rank immediately followed by a suit. */
  predicate IsCard(b: seq<nat>) {
    |b| >= 2 && CardRank(b[0]).Some? && CardSuit(b[1]).Some?
  }

  function CodeOf(b: seq<nat>): seq<bool>
    requires IsCard(b)
  {
    CardCode(CardSuit(b[1]).value * 13 + CardRank(b[0]).value)
  }

  /** The codes of the cards that stand at any index at all, in order. */
  function CardBits(b: seq<nat>): seq<bool> {
    if b == [] then [] else (if IsCard(b) then CodeOf(b) else []) + CardBits(b[1..])
  }

  /** The number of indexes at which a card stands. */
  function CardCount(b: seq<nat>): nat {
    if b == [] then 0 else (if IsCard(b) then 1 else 0) + CardCount(b[1..])
  }

  /** The codes of the symbols of a one-character encoding, in order. */
  function CharBits(e: Encoding, s: string): seq<bool> {
    if s == "" then [] else CharCode(e, s[0]) + CharBits(e, s[1..])
  }

  function CharCode(e: Encoding, ch: char): seq<bool> {
    match SingleCharBits(e, ch) case Some(t) => StrBits(t) case None => []
  }

  function CharCount(e: Encoding, s: string): nat {
    if s == "" then 0 else (if SingleCharBits(e, s[0]).Some? then 1 else 0) + CharCount(e, s[1..])
  }

  /** Characters as numbers. */
  function Codes(s: string): (r: seq<nat>)
    ensures |r| == |s|
  {
    seq(|s|, i requires 0 <= i < |s| => s[i] as int)
  }

  /** All bits an input stands for. */
  function EventBits(e: Encoding, s: string): seq<bool> {
    if e.Cards? then CardBits(Codes(s)) else CharBits(e, s)
  }

  /** How many symbols it contains. */
  function Symbols(e: Encoding, s: string): nat {
    if e.Cards? then CardCount(Codes(s)) else CharCount(e, s)
  }

  /** How many of its characters belong to a symbol. */
  function Consumed(e: Encoding, s: string): nat {
    if e.Cards? then 2 * Symbols(e, s) else Symbols(e, s)
  }

  function Ignored(e: Encoding, s: string): (r: nat)
    ensures r + Consumed(e, s) == |s|
  {
    ConsumedFits(e, s);
    |s| - Consumed(e, s)
  }

  function ClampU16(v: nat): (r: nat)
    ensures r <= 65535 && (r == v || (r < v && r == 65535))
  {
    if v > 65535 then 65535 else v
  }

  // -------------------------------------------------------- the accumulator

  class BitBuf {
    const bits: array<bool>
    var len: nat
    var overflow: bool
    /** Everything ever pushed. */
    ghost var pushed: seq<bool>

    /** The first 2048 pushed bits are stored; `overflow` tells whether there were more. */
    ghost predicate Valid()
      reads this, bits
    {
      && bits.Length == MAX_ENTROPY_BITS
      && len == (if |pushed| < MAX_ENTROPY_BITS then |pushed| else MAX_ENTROPY_BITS)
      && bits[..len] == pushed[..len]
      && (overflow <==> |pushed| > MAX_ENTROPY_BITS)
    }

    constructor ()
      ensures Valid() && pushed == [] && fresh(bits)
    {
      bits := new bool[MAX_ENTROPY_BITS](_ => false);
      len, overflow, pushed := 0, false, [];
    }

    method PushBit(b: bool)
      requires Valid()
      modifies this, bits
      ensures Valid() && pushed == old(pushed) + [b]
    {
      if len < MAX_ENTROPY_BITS {
        bits[len] := b;
        len := len + 1;
      } else {
        overflow := true;
      }
      pushed := pushed + [b];
    }

    method PushStr(s: string)
      requires Valid()
      modifies this, bits
      ensures Valid() && pushed == old(pushed) + StrBits(s)
    {
      for i := 0 to |s|
        invariant Valid() && pushed == old(pushed) + StrBits(s)[..i]
      {
        PushBit(s[i] == '1');
        assert StrBits(s)[..i + 1] == StrBits(s)[..i] + [s[i] == '1'];
      }
      assert StrBits(s)[..|s|] == StrBits(s);
    }
  }

  method PushCardBits(buf: BitBuf, idx: nat)
    requires buf.Valid() && idx < 52
    modifies buf, buf.bits
    ensures buf.Valid() && buf.pushed == old(buf.pushed) + CardCode(idx)
  {
    hide Pow2;
    var value, width := idx, 5;
    if 32 <= idx < 48 {
      value, width := idx - 32, 4;
    } else if idx >= 48 {
      value, width := idx - 48, 2;
    }
    var k: nat := width;
    while k > 0
      invariant k <= width && buf.Valid()
      invariant old(buf.pushed) + BitsOf(value, width) == buf.pushed + BitsOf(value, k)
    {
      k := k - 1;
      Assoc(buf.pushed, [value / Pow2(k) % 2 == 1], BitsOf(value, k));
      buf.PushBit(value / Pow2(k) % 2 == 1);
    }
  }

  // ------------------------------------------------------------- the results

  datatype EntropyError =
    | NoSymbols(ignoredChars: nat)
    | TooLong
    | UnsupportedLength(retainedBits: nat, totalBits: nat, iancolemanWords: nat, acceptedSymbols: nat, ignoredChars: nat)

  datatype EntropyOutput = EntropyOutput(
    encoding: Encoding, wordCount: WordCount, mnemonicIndexes: seq<nat>,
    entropy: seq<Byte>, entropyLen: nat,
    acceptedSymbols: nat, ignoredChars: nat, retainedBits: nat, totalBits: nat)

  /** The longest multiple of 32 bits that fits in `total`. */
  function Retained(total: nat): nat { total / 32 * 32 }

  /**
   A successful derivation: the entropy bytes spell the whole bit string's value modulo
   two to the retained length, bytes past the entropy are zero, the words encode it, and
   every count is exact (the ignored count saturates).
   */
  ghost predicate Reproduces(o: EntropyOutput, e: Encoding, s: string, sha256: Hash) {
    var bits := EventBits(e, s);
    && o.encoding == e
    && o.totalBits == |bits| && o.retainedBits == Retained(|bits|) && o.retainedBits in {128, 256}
    && 8 * o.entropyLen == o.retainedBits
    && |o.entropy| == 32
    && BytesValue(o.entropy, o.entropyLen) == Value(bits, 0, |bits|) % Pow2(o.retainedBits)
    && (forall j :: o.entropyLen <= j < 32 ==> o.entropy[j] == 0)
    && Encodes(o.mnemonicIndexes, o.wordCount, o.entropy[..o.entropyLen], sha256)
    && o.acceptedSymbols == Symbols(e, s)
    && o.ignoredChars == ClampU16(Ignored(e, s))
  }

  // ----------------------------------------------------- about the scan

  lemma Assoc<T>(a: seq<T>, b: seq<T>, c: seq<T>)
    ensures (a + b) + c == a + (b + c)
  {
  }

  /** The two card alphabets are disjoint, so no two cards share a character. */
  lemma CardsNeverOverlap(b: seq<nat>)
    requires IsCard(b)
    ensures !IsCard(b[1..])
    ensures CardBits(b) == CodeOf(b) + CardBits(b[2..]) && CardCount(b) == 1 + CardCount(b[2..])
  {
    assert b[1..][1..] == b[2..];
    assert CardBits(b[1..]) == [] + CardBits(b[2..]);
  }

  lemma {:induction false} CardsFit(b: seq<nat>)
    ensures 2 * CardCount(b) <= |b|
    decreases |b|
  {
    if IsCard(b) {
      CardsNeverOverlap(b);
      CardsFit(b[2..]);
    } else if b != [] {
      CardsFit(b[1..]);
    }
  }

  lemma {:induction false} CharsFit(e: Encoding, s: string)
    ensures CharCount(e, s) <= |s|
  {
    if s != "" { CharsFit(e, s[1..]); }
  }

  /** No character is counted twice, so the ignored count never saturates at zero. */
  lemma ConsumedFits(e: Encoding, s: string)
    ensures Consumed(e, s) <= |s|
  {
    CharsFit(e, s);
    CardsFit(Codes(s));
  }

  /** A position without a card adds nothing. */
  lemma NoCardHere(b: seq<nat>)
    requires b != [] && !IsCard(b)
    ensures CardBits(b) == CardBits(b[1..]) && CardCount(b) == CardCount(b[1..])
  {
    hide IsCard;
    assert CardBits(b) == [] + CardBits(b[1..]);
  }

  lemma {:induction false} CardsSkipHigh(h: seq<nat>, rest: seq<nat>)
    requires forall b :: b in h ==> b >= 128
    ensures CardBits(h + rest) == CardBits(rest) && CardCount(h + rest) == CardCount(rest)
  {
    if h == [] {
      assert h + rest == rest;
    } else {
      assert (h + rest)[1..] == h[1..] + rest;
      assert h[0] in h && forall b :: b in h[1..] ==> b in h;
      assert !IsCard(h + rest);
      hide CardBits, CardCount, IsCard;
      NoCardHere(h + rest);
      CardsSkipHigh(h[1..], rest);
    }
  }

  /** Scanning the UTF-8 bytes finds the cards that stand among the characters, no others. */
  lemma {:induction false} CardsInUtf8(s: string)
    ensures CardBits(Utf8(s)) == CardBits(Codes(s)) && CardCount(Utf8(s)) == CardCount(Codes(s))
  {
    if s != "" {
      var h, rest := Utf8Char(s[0]), Utf8(s[1..]);
      CardsInUtf8(s[1..]);
      assert Codes(s)[1..] == Codes(s[1..]);
      if s[0] as int >= 128 {
        CardsSkipHigh(h, rest);
        NoCardHere(Codes(s));
      } else {
        FirstByte(s[1..]);
        assert (h + rest)[1..] == rest;
        assert IsCard(h + rest) <==> IsCard(Codes(s));
      }
    }
  }

  lemma FirstByte(s: string)
    ensures s == "" <==> Utf8(s) == []
    ensures s != "" ==> CardSuit(Utf8(s)[0]) == CardSuit(s[0] as int)
  {
    if s != "" && s[0] as int >= 128 {
      assert Utf8Char(s[0])[0] in Utf8Char(s[0]);
    }
  }

  lemma {:induction false} CardCountBound(b: seq<nat>)
    ensures CardCount(b) <= |CardBits(b)|
  {
    if b != [] { CardCountBound(b[1..]); }
  }

  lemma CodeNotEmpty(e: Encoding, ch: char)
    ensures SingleCharBits(e, ch).Some? ==> |SingleCharBits(e, ch).value| >= 1
  {
    if e.Hex? && HexDigit(ch).Some? { assert HEX_BITS[HexDigit(ch).value] in HEX_BITS; }
  }

  lemma {:induction false} CharCountBound(e: Encoding, s: string)
    ensures CharCount(e, s) <= |CharBits(e, s)|
  {
    if s != "" {
      CharCountBound(e, s[1..]);
      CodeNotEmpty(e, s[0]);
    }
  }

  /** Every symbol has a code of at least one bit. */
  lemma SymbolsBound(e: Encoding, s: string)
    ensures Symbols(e, s) <= |EventBits(e, s)|
    ensures Symbols(e, s) == 0 <==> EventBits(e, s) == []
  {
    CardCountBound(Codes(s));
    CharCountBound(e, s);
    NoSymbolsNoBits(e, s);
  }

  lemma NoSymbolsNoBits(e: Encoding, s: string)
    ensures Symbols(e, s) == 0 ==> EventBits(e, s) == []
  {
    NoCardsNoBits(Codes(s));
    NoCharsNoBits(e, s);
  }

  lemma {:induction false} NoCardsNoBits(b: seq<nat>)
    ensures CardCount(b) == 0 ==> CardBits(b) == []
  {
    if b != [] { NoCardsNoBits(b[1..]); }
  }

  lemma {:induction false} NoCharsNoBits(e: Encoding, s: string)
    ensures CharCount(e, s) == 0 ==> CharBits(e, s) == []
  {
    if s != "" { NoCharsNoBits(e, s[1..]); }
  }

  // ------------------------------------------------------------ the packing

  /** The byte at `j` once the first `i` of the bits from `start` on have been packed. */
  ghost function PackedByte(s: seq<bool>, start: nat, i: nat, j: nat): nat
    requires start + i <= |s|
  {
    if 8 * j + 8 <= i then Value(s, start + 8 * j, start + 8 * j + 8)
    else if 8 * j < i then Value(s, start + 8 * j, start + i) * Pow2(8 * j + 8 - i)
    else 0
  }

  lemma PackedByteBound(s: seq<bool>, start: nat, i: nat, j: nat)
    requires start + i <= |s|
    ensures PackedByte(s, start, i, j) < 256
  {
    Pow2Small();
    if 8 * j + 8 <= i {
      ValueBound(s, start + 8 * j, start + 8 * j + 8);
    } else if 8 * j < i {
      var v, n, k := Value(s, start + 8 * j, start + i), i - 8 * j, 8 * j + 8 - i;
      ValueBound(s, start + 8 * j, start + i);
      Pow2Add(n, k);
      MulDist(v, Pow2(n) - v, Pow2(k));
      MulAtLeast(Pow2(n) - v, Pow2(k));
    }
  }

  /** Packing one more bit sets one bit that was clear. */
  lemma PackStep(s: seq<bool>, start: nat, i: nat)
    requires start + i < |s|
    ensures var j, k := i / 8, 7 - i % 8;
            && PackedByte(s, start, i, j) / Pow2(k) % 2 == 0
            && PackedByte(s, start, i + 1, j) == PackedByte(s, start, i, j) + Num(s[start + i]) * Pow2(k)
  {
    var j, k := i / 8, 7 - i % 8;
    var v, p := Value(s, start + 8 * j, start + i), Pow2(k);
    assert 8 * j + 8 - i == k + 1 && Pow2(k + 1) == 2 * p;
    assert Value(s, start + 8 * j, start + i + 1) == 2 * v + Num(s[start + i]);
    assert PackedByte(s, start, i, j) == v * (2 * p);
    MulAssoc(v, 2, p);
    MulDist(2 * v, Num(s[start + i]), p);
    DivModUnique((v * 2) * p, v * 2, p, 0);
    assert k == 0 ==> p == 1;
  }

  lemma PackOther(s: seq<bool>, start: nat, i: nat, j: nat)
    requires start + i < |s| && j != i / 8
    ensures PackedByte(s, start, i + 1, j) == PackedByte(s, start, i, j)
  {
  }

  /** `byte | (1 << k)`. */
  function SetBit(b: Byte, k: nat): int
    requires k < 8
  {
    if b / Pow2(k) % 2 == 1 then b else b + Pow2(k)
  }

  /** The last `retained` bits of `bits`, packed most significant first into a zeroed buffer. */
  method Pack(bits: seq<bool>, retained: nat) returns (entropy: seq<Byte>)
    requires retained <= |bits| && retained in {128, 256}
    ensures |entropy| == 32
    ensures BytesValue(entropy, retained / 8) == Value(bits, |bits| - retained, |bits|)
    ensures forall j :: retained / 8 <= j < 32 ==> entropy[j] == 0
  {
    var start := |bits| - retained;
    entropy := seq(32, _ => 0);
    for i := 0 to retained
      invariant |entropy| == 32
      invariant forall j :: 0 <= j < 32 ==> entropy[j] == PackedByte(bits, start, i, j)
    {
      PackStep(bits, start, i);
      PackedByteBound(bits, start, i + 1, i / 8);
      forall j | 0 <= j < 32 && j != i / 8 ensures PackedByte(bits, start, i + 1, j) == entropy[j] {
        PackOther(bits, start, i, j);
      }
      if bits[start + i] {
        entropy := entropy[i / 8 := SetBit(entropy[i / 8], 7 - i % 8)];
      }
    }
    assert forall j :: 0 <= j < retained / 8 ==> entropy[j] == Value(bits, start + 8 * j, start + 8 * j + 8);
    PackedValue(entropy, bits, start, retained / 8);
  }

  // ---------------------------------------------------------- the derivation

  /** Fills the accumulator; returns how many symbols were accepted. */
  method Scan(e: Encoding, input: string, buf: BitBuf) returns (accepted: nat, consumed: nat)
    requires buf.Valid() && buf.pushed == []
    modifies buf, buf.bits
    ensures buf.Valid() && buf.pushed == EventBits(e, input)
    ensures accepted == Symbols(e, input) && consumed == Consumed(e, input)
  {
    if e.Cards? {
      accepted := ScanCards(Utf8(input), buf);
      consumed := 2 * accepted;
      CardsInUtf8(input);
    } else {
      accepted := ScanChars(e, input, buf);
      consumed := accepted;
    }
  }

  method ScanChars(e: Encoding, input: string, buf: BitBuf) returns (accepted: nat)
    requires buf.Valid() && buf.pushed == []
    modifies buf, buf.bits
    ensures buf.Valid() && buf.pushed == CharBits(e, input) && accepted == CharCount(e, input)
  {
    accepted := 0;
    for i := 0 to |input|
      invariant buf.Valid() && buf.pushed + CharBits(e, input[i..]) == CharBits(e, input)
      invariant accepted + CharCount(e, input[i..]) == CharCount(e, input)
    {
      CharStep(e, input, i);
      Assoc(buf.pushed, CharCode(e, input[i]), CharBits(e, input[i + 1..]));
      var code := SingleCharBits(e, input[i]);
      if code.Some? {
        buf.PushStr(code.value);
        accepted := accepted + 1;
      } else {
        assert buf.pushed + [] == buf.pushed;
      }
    }
  }

  lemma CharStep(e: Encoding, s: string, i: nat)
    requires i < |s|
    ensures CharBits(e, s[i..]) == CharCode(e, s[i]) + CharBits(e, s[i + 1..])
    ensures CharCount(e, s[i..]) == (if SingleCharBits(e, s[i]).Some? then 1 else 0) + CharCount(e, s[i + 1..])
  {
    assert s[i..][1..] == s[i + 1..];
  }

  lemma CardStep(b: seq<nat>, i: nat, r: Option<nat>, s: Option<nat>)
    requires i < |b| && r == CardRank(b[i]) && s == (if i + 1 < |b| then CardSuit(b[i + 1]) else None)
    ensures r.Some? && s.Some? ==>
              && i + 2 <= |b|
              && CardBits(b[i..]) == CardCode(s.value * 13 + r.value) + CardBits(b[i + 2..])
              && CardCount(b[i..]) == 1 + CardCount(b[i + 2..])
    ensures !(r.Some? && s.Some?) ==>
              CardBits(b[i..]) == CardBits(b[i + 1..]) && CardCount(b[i..]) == CardCount(b[i + 1..])
  {
    var t := b[i..];
    if r.Some? && s.Some? {
      CardsNeverOverlap(t);
      assert t[2..] == b[i + 2..];
    } else {
      assert !IsCard(t) && t[1..] == b[i + 1..];
      assert CardBits(t) == [] + CardBits(b[i + 1..]);
    }
  }

  /** The left-to-right card scan: a match consumes both bytes, anything else one. */
  method ScanCards(b: seq<nat>, buf: BitBuf) returns (accepted: nat)
    requires buf.Valid() && buf.pushed == []
    modifies buf, buf.bits
    ensures buf.Valid() && buf.pushed == CardBits(b) && accepted == CardCount(b)
  {
    assert b[0..] == b && CardBits([]) == [] && CardCount([]) == 0;
    hide CardBits, CardCount, CardCode;
    accepted := 0;
    var i := 0;
    while i < |b|
      invariant 0 <= i <= |b| && buf.Valid()
      invariant buf.pushed + CardBits(b[i..]) == CardBits(b)
      invariant accepted + CardCount(b[i..]) == CardCount(b)
    {
      var r := CardRank(b[i]);
      var s := if i + 1 < |b| then CardSuit(b[i + 1]) else None;
      CardStep(b, i, r, s);
      if r.Some? && s.Some? {
        Assoc(buf.pushed, CardCode(s.value * 13 + r.value), CardBits(b[i + 2..]));
        PushCardBits(buf, s.value * 13 + r.value);
        accepted := accepted + 1;
        i := i + 2;
      } else {
        i := i + 1;
      }
    }
  }

  /**
   What a derivation gives, for every encoding and input: which outcome, decided by the
   length of the whole bit string alone, and what each outcome carries.
   */
  ghost predicate IsOutcome(e: Encoding, input: string, r: Result<EntropyOutput, EntropyError>, sha256: Hash) {
    var n := |EventBits(e, input)|;
    var ignored := ClampU16(Ignored(e, input));
    && (r.Ok? <==> 128 <= n < 160 || 256 <= n < 288)
    && (r == Err(NoSymbols(ignored)) <==> n == 0)
    && (r == Err(TooLong) <==> n > 2048)
    && (r.Err? && 0 < n <= 2048 ==>
          r.error == UnsupportedLength(n - n % 32, n, n / 32 * 3, Symbols(e, input), ignored))
    && (r.Ok? ==> Reproduces(r.value, e, input, sha256))
  }

  /** The refusal of an input whose bit string has no supported length. */
  lemma Refusal(e: Encoding, s: string, error: EntropyError, sha256: Hash)
    requires var n, ignored := |EventBits(e, s)|, ClampU16(Ignored(e, s));
             && !(128 <= n < 160 || 256 <= n < 288)
             && error == if n == 0 then NoSymbols(ignored) else if n > MAX_ENTROPY_BITS then TooLong
                         else UnsupportedLength(Retained(n), n, n / 32 * 3, Symbols(e, s), ignored)
    ensures IsOutcome(e, s, Err(error), sha256)
  {
    hide EventBits, Symbols, Ignored, Reproduces;
  }

  method EntropyEncodingDerive(encoding: Encoding, input: string, sha256: Hash)
    returns (r: Result<EntropyOutput, EntropyError>)
    ensures IsOutcome(encoding, input, r, sha256)
  {
    hide Reproduces, Encodes, EventBits, Value, BytesValue, IsOutcome;
    var buf := new BitBuf();
    var accepted, consumed := Scan(encoding, input, buf);
    SymbolsBound(encoding, input);
    var ignored := ClampU16(if |input| > consumed then |input| - consumed else 0);
    assert ignored == ClampU16(Ignored(encoding, input));
    if accepted == 0 {
      Refusal(encoding, input, NoSymbols(ignored), sha256);
      return Err(NoSymbols(ignored));
    }
    if buf.overflow {
      Refusal(encoding, input, TooLong, sha256);
      return Err(TooLong);
    }
    var total := buf.len;
    var bits := buf.bits[..total];
    assert bits == EventBits(encoding, input);
    var retained := total / 32 * 32;
    if retained != 128 && retained != 256 {
      var error := UnsupportedLength(ClampU16(retained), ClampU16(total), retained / 32 * 3, ClampU16(accepted), ignored);
      Refusal(encoding, input, error, sha256);
      return Err(error);
    }
    var o := Finish(encoding, bits, retained, ClampU16(accepted), ignored, sha256);
    Assembled(o, encoding, input, sha256);
    r := Ok(o);
  }

  lemma Assembled(o: EntropyOutput, e: Encoding, s: string, sha256: Hash)
    requires var bits := EventBits(e, s);
      && o.encoding == e && o.totalBits == |bits| && o.retainedBits == Retained(|bits|) && o.retainedBits in {128, 256}
      && 8 * o.entropyLen == o.retainedBits && |o.entropy| == 32
      && BytesValue(o.entropy, o.entropyLen) == Value(bits, 0, |bits|) % Pow2(o.retainedBits)
    requires forall j :: o.entropyLen <= j < 32 ==> o.entropy[j] == 0
    requires Encodes(o.mnemonicIndexes, o.wordCount, o.entropy[..o.entropyLen], sha256)
    requires o.acceptedSymbols == Symbols(e, s) && o.ignoredChars == ClampU16(Ignored(e, s))
    ensures Reproduces(o, e, s, sha256) && IsOutcome(e, s, Ok(o), sha256)
  {
    hide EventBits, Symbols, Ignored, Encodes, Value, BytesValue;
  }

  /** The last steps: pack the tail, convert it, assemble the output. */
  method Finish(encoding: Encoding, bits: seq<bool>, retained: nat, accepted: nat, ignored: nat, sha256: Hash)
    returns (o: EntropyOutput)
    requires retained == Retained(|bits|) && retained in {128, 256}
    ensures o.encoding == encoding && o.totalBits == |bits| && o.retainedBits == retained
    ensures o.acceptedSymbols == accepted && o.ignoredChars == ignored
    ensures 8 * o.entropyLen == retained && |o.entropy| == 32
    ensures BytesValue(o.entropy, o.entropyLen) == Value(bits, 0, |bits|) % Pow2(retained)
    ensures forall j :: o.entropyLen <= j < 32 ==> o.entropy[j] == 0
    ensures Encodes(o.mnemonicIndexes, o.wordCount, o.entropy[..o.entropyLen], sha256)
  {
    var entropy := Pack(bits, retained);
    TailIsMod(bits, retained);
    var core := EntropyToIndexes(entropy[..retained / 8], sha256);
    o := EntropyOutput(encoding, core.value.0, core.value.1, entropy, retained / 8, accepted, ignored,
                       ClampU16(retained), ClampU16(|bits|));
  }

  // --------------------------------------------------------------- corollaries

  /** The words of a successful derivation spell the last retained bits, then the checksum. */
  lemma WordsSpellLastBits(o: EntropyOutput, e: Encoding, s: string, sha256: Hash)
    requires Reproduces(o, e, s, sha256)
    ensures IndexesValue(o.mnemonicIndexes, if o.wordCount.Twelve? then 12 else 24) / Pow2(o.entropyLen / 4)
            == Value(EventBits(e, s), 0, |EventBits(e, s)|) % Pow2(o.retainedBits)
  {
    var entropy := o.entropy[..o.entropyLen];
    EntropyFromIndexes(o.mnemonicIndexes, o.wordCount, entropy, sha256);
    BytesValuePrefix(o.entropy, entropy, o.entropyLen);
  }

  lemma {:induction false} BytesValuePrefix(b: seq<Byte>, c: seq<Byte>, n: nat)
    requires n <= |b| && n <= |c| && forall j :: 0 <= j < n ==> b[j] == c[j]
    ensures BytesValue(b, n) == BytesValue(c, n)
  {
    if n > 0 { BytesValuePrefix(b, c, n - 1); }
  }

  /** A six is a base-6 zero; a zero is no die face. */
  function Relabel(c: char): char {
    if c == '6' then '0' else if c == '0' then '6' else c
  }

  function RelabelAll(s: string): string {
    if s == "" then "" else [Relabel(s[0])] + RelabelAll(s[1..])
  }

  /** Dice derivation is base-6 derivation of the relabelled faces. */
  lemma {:induction false} DiceIsBase6(s: string)
    ensures |RelabelAll(s)| == |s|
    ensures EventBits(Dice, s) == EventBits(Base6, RelabelAll(s))
    ensures Symbols(Dice, s) == Symbols(Base6, RelabelAll(s))
  {
    if s != "" {
      var t := RelabelAll(s);
      assert t[1..] == RelabelAll(s[1..]);
      assert SingleCharBits(Dice, s[0]) == SingleCharBits(Base6, t[0]);
      DiceIsBase6(s[1..]);
    }
  }

  /** Base 256 is injective: the bytes spelled by a number are unique. */
  lemma {:induction false} BytesUnique(a: seq<Byte>, b: seq<Byte>, n: nat)
    requires n <= |a| && n <= |b| && BytesValue(a, n) == BytesValue(b, n)
    ensures forall i :: 0 <= i < n ==> a[i] == b[i]
  {
    if n > 0 {
      assert a[n - 1] == b[n - 1];
      BytesUnique(a, b, n - 1);
    }
  }

  /** An outcome with another encoding's name on it. */
  function Renamed(r: Result<EntropyOutput, EntropyError>, e: Encoding): Result<EntropyOutput, EntropyError> {
    match r case Ok(o) => Ok(o.(encoding := e)) case Err(_) => r
  }

  /** Outcomes of two inputs with the same bits and counts differ in nothing but the encoding. */
  lemma SameOutcome(e: Encoding, s: string, r: Result<EntropyOutput, EntropyError>,
                    e': Encoding, s': string, r': Result<EntropyOutput, EntropyError>, sha256: Hash)
    requires IsOutcome(e, s, r, sha256) && IsOutcome(e', s', r', sha256)
    requires EventBits(e, s) == EventBits(e', s') && Symbols(e, s) == Symbols(e', s') && Ignored(e, s) == Ignored(e', s')
    ensures r' == Renamed(r, e')
  {
    hide EventBits, Symbols, Ignored, Encodes, Value, BytesValue, Pow2;
    if r.Ok? {
      var o, o' := r.value, r'.value;
      BytesUnique(o.entropy, o'.entropy, o.entropyLen);
      assert o.entropy == o'.entropy;
      EncodesUnique(o.mnemonicIndexes, o.wordCount, o'.mnemonicIndexes, o'.wordCount, o.entropy[..o.entropyLen], sha256);
    }
  }

  /** Whatever dice input derives, words or refusal, base 6 derives from the relabelled faces. */
  lemma DiceOutcomeIsBase6(s: string, r: Result<EntropyOutput, EntropyError>, r': Result<EntropyOutput, EntropyError>,
                           sha256: Hash)
    requires IsOutcome(Dice, s, r, sha256) && IsOutcome(Base6, RelabelAll(s), r', sha256)
    ensures r' == Renamed(r, Base6)
  {
    hide EventBits, Symbols, IsOutcome;
    DiceIsBase6(s);
    SameOutcome(Dice, s, r, Base6, RelabelAll(s), r', sha256);
  }

  /** One input has one outcome. */
  lemma OutcomeIsUnique(e: Encoding, s: string, r: Result<EntropyOutput, EntropyError>,
                        r': Result<EntropyOutput, EntropyError>, sha256: Hash)
    requires IsOutcome(e, s, r, sha256) && IsOutcome(e, s, r', sha256)
    ensures r == r'
  {
    SameOutcome(e, s, r, e, s, r', sha256);
    assert r.Ok? ==> r.value.encoding == e;
  }

  /** Inserting an unmatched character changes only the ignored count, by one. */
  lemma {:induction false} UnmatchedIsIgnored(e: Encoding, a: string, c: char, b: string)
    requires !e.Cards? && SingleCharBits(e, c).None?
    ensures EventBits(e, a + [c] + b) == EventBits(e, a + b)
    ensures Symbols(e, a + [c] + b) == Symbols(e, a + b)
    ensures Ignored(e, a + [c] + b) == Ignored(e, a + b) + 1
    decreases |a|
  {
    if a == "" {
      assert a + [c] + b == [c] + b && a + b == b;
      assert ([c] + b)[1..] == b;
    } else {
      assert (a + [c] + b)[1..] == a[1..] + [c] + b && (a + b)[1..] == a[1..] + b;
      UnmatchedIsIgnored(e, a[1..], c, b);
    }
  }

  // ------------------------------------------------------- what the codes mean

  /** The characters each encoding takes. */
  function Letters(e: Encoding): string {
    match e
    case Binary => "01"
    case Base6 => "012345"
    case Dice => "123456"
    case Base10 => "0123456789"
    case Hex => "0123456789abcdefABCDEF"
    case Cards => ""
  }

  /** The bits spell `v`, with `width` of them. */
  predicate Reads(bits: seq<bool>, width: nat, v: nat) { |bits| == width && Value(bits, 0, width) == v }

  /**
   What the one-character codes mean. A binary digit is its own bit. A base-6 digit is two bits
   up to 3 and one bit from 4 on, a decimal digit three bits up to 7 and one bit from 8 on,
   what is left of the digit in either case; a die is the base-6 digit it shows, six a zero. A
   hexadecimal digit is four bits.
   */
  lemma CodesSpellDigits(e: Encoding, ch: char)
    ensures ch !in Letters(e) ==> CharCode(e, ch) == [] && SingleCharBits(e, ch).None?
    ensures ch in Letters(e) ==>
              && SingleCharBits(e, ch).Some?
              && var (code, v) := (CharCode(e, ch), ch as int - 48);
                 match e
                 case Binary => Reads(code, 1, v)
                 case Base6 => if v < 4 then Reads(code, 2, v) else Reads(code, 1, v - 4)
                 case Dice =>
                   if v == 6 then Reads(code, 2, 0) else if v < 4 then Reads(code, 2, v) else Reads(code, 1, v - 4)
                 case Base10 => if v < 8 then Reads(code, 3, v) else Reads(code, 1, v - 8)
                 case Hex =>
                   Reads(code, 4, if ch <= '9' then v else if ch <= 'F' then ch as int - 55 else ch as int - 87)
                 case Cards => true
  {
    match e
    case Binary => BinaryCode(ch);
    case Base6 => Base6Code(ch);
    case Dice => DiceCode(ch);
    case Base10 => Base10Code(ch);
    case Hex => HexCode(ch);
    case Cards =>
  }

  lemma BinaryCode(ch: char)
    ensures ch in Letters(Binary) <==> SingleCharBits(Binary, ch).Some?
    ensures ch in Letters(Binary) ==>
              var (code, v) := (CharCode(Binary, ch), ch as int - 48); Reads(code, 1, v)
  {
    if SingleCharBits(Binary, ch).Some? { SpelledBits(SingleCharBits(Binary, ch).value); }
  }

  lemma Base6Code(ch: char)
    ensures ch in Letters(Base6) <==> SingleCharBits(Base6, ch).Some?
    ensures ch in Letters(Base6) ==>
              var (code, v) := (CharCode(Base6, ch), ch as int - 48);
              if v < 4 then Reads(code, 2, v) else Reads(code, 1, v - 4)
  {
    if SingleCharBits(Base6, ch).Some? { SpelledBits(SingleCharBits(Base6, ch).value); }
  }

  lemma DiceCode(ch: char)
    ensures ch in Letters(Dice) <==> SingleCharBits(Dice, ch).Some?
    ensures ch in Letters(Dice) ==>
              var (code, v) := (CharCode(Dice, ch), ch as int - 48);
              if v == 6 then Reads(code, 2, 0) else if v < 4 then Reads(code, 2, v) else Reads(code, 1, v - 4)
  {
    if SingleCharBits(Dice, ch).Some? { SpelledBits(SingleCharBits(Dice, ch).value); }
  }

  lemma Base10Code(ch: char)
    ensures ch in Letters(Base10) <==> SingleCharBits(Base10, ch).Some?
    ensures ch in Letters(Base10) ==>
              var (code, v) := (CharCode(Base10, ch), ch as int - 48);
              if v < 8 then Reads(code, 3, v) else Reads(code, 1, v - 8)
  {
    if SingleCharBits(Base10, ch).Some? { SpelledBits(SingleCharBits(Base10, ch).value); }
  }

  lemma HexCode(ch: char)
    ensures ch in Letters(Hex) <==> SingleCharBits(Hex, ch).Some?
    ensures ch in Letters(Hex) ==>
              Reads(CharCode(Hex, ch), 4,
                    if ch <= '9' then ch as int - 48 else if ch <= 'F' then ch as int - 55 else ch as int - 87)
  {
    HexLetter(ch);
    HexCharCode(ch);
  }

  /** The value of a short string of zeros and ones. */
  lemma SpelledBits(t: string)
    requires |t| <= 4
    ensures var b := StrBits(t);
            && (|t| == 1 ==> Value(b, 0, 1) == Num(b[0]))
            && (|t| == 2 ==> Value(b, 0, 2) == 2 * Num(b[0]) + Num(b[1]))
            && (|t| == 3 ==> Value(b, 0, 3) == 4 * Num(b[0]) + 2 * Num(b[1]) + Num(b[2]))
            && (|t| == 4 ==> Value(b, 0, 4) == 8 * Num(b[0]) + 4 * Num(b[1]) + 2 * Num(b[2]) + Num(b[3]))
  {
    var b := StrBits(t);
    if |t| > 1 { assert Value(b, 0, 1) == Num(b[0]); }
    if |t| > 2 { assert Value(b, 0, 2) == 2 * Value(b, 0, 1) + Num(b[1]); }
    if |t| > 3 { assert Value(b, 0, 3) == 2 * Value(b, 0, 2) + Num(b[2]); }
  }

  lemma HexLetter(ch: char)
    ensures HexDigit(ch).Some? <==> ch in "0123456789abcdefABCDEF"
  {
  }

  /** The accepted symbols are the characters the encoding takes. */
  lemma {:induction false} SymbolsAreLetters(e: Encoding, s: string)
    requires !e.Cards?
    ensures Symbols(e, s) == Occurrences(s, Letters(e))
  {
    if s != "" {
      CodesSpellDigits(e, s[0]);
      SymbolsAreLetters(e, s[1..]);
    }
  }

  function Occurrences(s: string, letters: string): nat {
    if s == "" then 0 else (if s[0] in letters then 1 else 0) + Occurrences(s[1..], letters)
  }

  /** In binary the bits are the digits typed. */
  lemma {:induction false} BinaryIsItself(s: string)
    requires forall c :: c in s ==> c in "01"
    ensures |EventBits(Binary, s)| == |s|
    ensures forall i :: 0 <= i < |s| ==> (EventBits(Binary, s)[i] <==> s[i] == '1')
  {
    if s != "" {
      assert s[0] in s && forall c :: c in s[1..] ==> c in s;
      CodesSpellDigits(Binary, s[0]);
      BinaryIsItself(s[1..]);
    }
  }

  /** A card is a rank of A23456789TJQK and a suit of CDHS, in either case. */
  lemma CardNames(b: nat, k: nat)
    ensures CardRank(b) == Some(k) <==>
            k < 13 && (b == "A23456789TJQK"[k] as int || b == "a23456789tjqk"[k] as int)
    ensures CardSuit(b) == Some(k) <==> k < 4 && (b == "CDHS"[k] as int || b == "cdhs"[k] as int)
  {
  }

  /** Thirteen cards a suit: the code of rank `r` of suit `s` spells its place in its width class. */
  lemma CardsByName(b: seq<nat>, r: nat, s: nat)
    requires |b| >= 2 && r < 13 && s < 4
    requires b[0] == "A23456789TJQK"[r] as int || b[0] == "a23456789tjqk"[r] as int
    requires b[1] == "CDHS"[s] as int || b[1] == "cdhs"[s] as int
    ensures IsCard(b)
    ensures var idx := 13 * s + r;
            if idx < 32 then Reads(CodeOf(b), 5, idx)
            else if idx < 48 then Reads(CodeOf(b), 4, idx - 32) else Reads(CodeOf(b), 2, idx - 48)
  {
    CardNames(b[0], r);
    CardNames(b[1], s);
    CardCodeValue(13 * s + r);
  }

  lemma {:induction false} BitsOfValue(v: nat, width: nat)
    ensures Value(BitsOf(v, width), 0, width) == v % Pow2(width)
  {
    var s := BitsOf(v, width);
    if width > 0 {
      var p := Pow2(width - 1);
      BitsOfValue(v, width - 1);
      ValueAppend([v / p % 2 == 1], BitsOf(v, width - 1));
      assert Value([v / p % 2 == 1], 0, 1) == v / p % 2;
      ModHalves(v, p);
    }
  }

  lemma ModHalves(v: nat, p: nat)
    requires p > 0
    ensures v % (2 * p) == v / p % 2 * p + v % p
  {
    var h, r := v / p, v % p;
    assert v == p * h + r;
    assert p * h == h * p;
    MulDist(h / 2 * 2, h % 2, p);
    MulAssoc(h / 2, 2, p);
    assert v == h / 2 * (2 * p) + (h % 2 * p + r);
    assert h % 2 * p <= p;
    DivModUnique(v, h / 2, 2 * p, h % 2 * p + r);
  }

  lemma {:induction false} ValueOfPrefix(a: seq<bool>, b: seq<bool>, n: nat)
    requires n <= |a|
    ensures Value(a + b, 0, n) == Value(a, 0, n)
  {
    if n > 0 {
      ValueOfPrefix(a, b, n - 1);
      assert (a + b)[n - 1] == a[n - 1];
    }
  }

  lemma {:induction false} ValueOfSuffix(a: seq<bool>, b: seq<bool>, n: nat)
    requires n <= |b|
    ensures Value(a + b, |a|, |a| + n) == Value(b, 0, n)
  {
    if n > 0 {
      ValueOfSuffix(a, b, n - 1);
      assert (a + b)[|a| + n - 1] == b[n - 1];
    }
  }

  lemma ValueAppend(a: seq<bool>, b: seq<bool>)
    ensures Value(a + b, 0, |a| + |b|) == Value(a, 0, |a|) * Pow2(|b|) + Value(b, 0, |b|)
  {
    ValueSplit(a + b, 0, |a|, |a| + |b|);
    ValueOfPrefix(a, b, |a|);
    ValueOfSuffix(a, b, |b|);
  }

  /** A card's code spells its index within its width class. */
  lemma CardCodeValue(idx: nat)
    requires idx < 52
    ensures idx < 32 ==> |CardCode(idx)| == 5 && Value(CardCode(idx), 0, 5) == idx
    ensures 32 <= idx < 48 ==> |CardCode(idx)| == 4 && Value(CardCode(idx), 0, 4) == idx - 32
    ensures 48 <= idx ==> |CardCode(idx)| == 2 && Value(CardCode(idx), 0, 2) == idx - 48
  {
    Pow2Small();
    if idx < 32 {
      BitsOfSmall(idx, 5);
    } else if idx < 48 {
      BitsOfSmall(idx - 32, 4);
    } else {
      BitsOfSmall(idx - 48, 2);
    }
  }

  lemma BitsOfSmall(v: nat, width: nat)
    requires v < Pow2(width)
    ensures Value(BitsOf(v, width), 0, width) == v
  {
    BitsOfValue(v, width);
    DivModUnique(v, 0, Pow2(width), v);
  }

  /** The hexadecimal number the hex digits of `s` spell, other characters skipped. */
  function HexNumber(s: string): nat {
    if s == "" then 0
    else (match HexDigit(s[0]) case Some(v) => v * Pow2(4 * CharCount(Hex, s[1..])) case None => 0) + HexNumber(s[1..])
  }

  lemma HexCodeValue(v: nat)
    requires v < 16
    ensures |HEX_BITS[v]| == 4 && Value(StrBits(HEX_BITS[v]), 0, 4) == v
  {
    var b := StrBits(HEX_BITS[v]);
    assert Value(b, 0, 2) == 2 * Num(b[0]) + Num(b[1]);
    assert Value(b, 0, 4) == 4 * Value(b, 0, 2) + 2 * Num(b[2]) + Num(b[3]);
  }

  /** In hex, the bits are those of the number typed: no base conversion, no estimate. */
  lemma {:induction false} HexSpellsNumber(s: string)
    ensures |EventBits(Hex, s)| == 4 * Symbols(Hex, s)
    ensures Value(EventBits(Hex, s), 0, |EventBits(Hex, s)|) == HexNumber(s)
  {
    if s != "" {
      HexSpellsNumber(s[1..]);
      ValueAppend(CharCode(Hex, s[0]), CharBits(Hex, s[1..]));
      HexCharCode(s[0]);
    }
  }

  lemma HexCharCode(ch: char)
    ensures HexDigit(ch).Some? <==> SingleCharBits(Hex, ch).Some?
    ensures |CharCode(Hex, ch)| == if HexDigit(ch).Some? then 4 else 0
    ensures Value(CharCode(Hex, ch), 0, |CharCode(Hex, ch)|) == if HexDigit(ch).Some? then HexDigit(ch).value else 0
  {
    if HexDigit(ch).Some? { HexCodeValue(HexDigit(ch).value); }
  }
}
