/**
 Entropy to word indexes (`crates/seed-core/src/bip39/mod.rs`). SHA-256 itself is a
 parameter: any function from byte strings to 32 bytes.
 */
module Bip39 {
  import opened Wrappers
  import opened Arithmetic
  import opened Bits
  import opened Contracts

  type Digest = d: seq<Byte> | |d| == 32 witness seq(32, _ => 0)

  type Hash = seq<Byte> -> Digest

  datatype Bip39Error = InvalidEntropyLength

  /** Bit `pos` of `entropy || checksum`, most significant bit of each byte first. */
  function ReadBit(entropy: seq<Byte>, checksum: Digest, pos: nat): bool
    requires pos < 8 * |entropy| + 256
  {
    var entropyBits := 8 * |entropy|;
    if pos < entropyBits then BitOf(entropy[pos / 8], 7 - pos % 8)
    else BitOf(checksum[(pos - entropyBits) / 8], 7 - (pos - entropyBits) % 8)
  }

  /** The bits the words are cut from: the entropy, then the first eighth of a digest bit per entropy byte. */
  function Stream(entropy: seq<Byte>, checksum: Digest): (s: seq<bool>)
    requires |entropy| in {16, 32}
    ensures |s| == 8 * |entropy| + |entropy| / 4
  {
    seq(8 * |entropy| + |entropy| / 4, pos requires 0 <= pos < 8 * |entropy| + |entropy| / 4 =>
      ReadBit(entropy, checksum, pos))
  }

  /** The number the first `n` word indexes spell in base 2048. */
  function IndexesValue(indexes: seq<nat>, n: nat): nat
    requires n <= |indexes|
  {
    if n == 0 then 0 else 2048 * IndexesValue(indexes, n - 1) + indexes[n - 1]
  }

  /**
   What the indexes of `entropy` are: numbers below 2048 that spell the entropy followed
   by the first `|entropy| / 4` bits of its digest, the rest of the buffer zero.
   */
  ghost predicate Encodes(indexes: seq<nat>, count: WordCount, entropy: seq<Byte>, sha256: Hash) {
    && |indexes| == 24 && |entropy| in {16, 32}
    && count == (if |entropy| == 16 then Twelve else TwentyFour)
    && var n := if count.Twelve? then 12 else 24;
       var checksumBits := |entropy| / 4;
       && (forall i :: 0 <= i < n ==> indexes[i] < 2048)
       && (forall i :: n <= i < 24 ==> indexes[i] == 0)
       && IndexesValue(indexes, n)
          == BytesValue(entropy, |entropy|) * Pow2(checksumBits) + sha256(entropy)[0] / Pow2(8 - checksumBits)
  }

  method EntropyToIndexes(entropy: seq<Byte>, sha256: Hash) returns (r: Result<(WordCount, seq<nat>), Bip39Error>)
    ensures |entropy| in {16, 32} <==> r.Ok?
    ensures r.Ok? ==> Encodes(r.value.1, r.value.0, entropy, sha256)
  {
    hide ReadBit, Encodes;
    if |entropy| != 16 && |entropy| != 32 {
      return Err(InvalidEntropyLength);
    }
    var count, wordCount := if |entropy| == 16 then 12 else 24, if |entropy| == 16 then Twelve else TwentyFour;
    var checksum := sha256(entropy);
    ghost var stream := Stream(entropy, checksum);
    var indexes := seq(24, _ => 0);
    for i := 0 to count
      invariant |indexes| == 24
      invariant forall j :: 0 <= j < i ==> indexes[j] == Value(stream, 11 * j, 11 * j + 11)
      invariant forall j :: i <= j < 24 ==> indexes[j] == 0
    {
      var value: nat := 0;
      for b := 0 to 11
        invariant value == Value(stream, 11 * i, 11 * i + b)
      {
        var bit := ReadBit(entropy, checksum, 11 * i + b);
        assert stream[11 * i + b] == bit;
        value := 2 * value + Num(bit);
      }
      indexes := indexes[i := value];
    }
    ChunksEncode(indexes, entropy, sha256);
    r := Ok((wordCount, indexes));
  }

  /** Cutting the bits into elevens encodes the entropy. */
  lemma ChunksEncode(indexes: seq<nat>, entropy: seq<Byte>, sha256: Hash)
    requires |indexes| == 24 && |entropy| in {16, 32}
    requires var n := 3 * |entropy| / 4;
             var stream := Stream(entropy, sha256(entropy));
             && (forall j :: 0 <= j < n ==> indexes[j] == Value(stream, 11 * j, 11 * j + 11))
             && (forall j :: n <= j < 24 ==> indexes[j] == 0)
    ensures Encodes(indexes, if |entropy| == 16 then Twelve else TwentyFour, entropy, sha256)
  {
    hide Value, ReadBit, BytesValue, IndexesValue;
    var checksum := sha256(entropy);
    IndexesSpellStream(indexes, Stream(entropy, checksum), 3 * |entropy| / 4);
    StreamSpellsEntropy(entropy, checksum);
  }

  lemma {:induction false} IndexesSpellStream(indexes: seq<nat>, stream: seq<bool>, n: nat)
    requires n <= |indexes| && 11 * n <= |stream|
    requires forall j :: 0 <= j < n ==> indexes[j] == Value(stream, 11 * j, 11 * j + 11)
    ensures IndexesValue(indexes, n) == Value(stream, 0, 11 * n)
    ensures forall j :: 0 <= j < n ==> indexes[j] < 2048
  {
    if n > 0 {
      IndexesSpellStream(indexes, stream, n - 1);
      ValueSplit(stream, 0, 11 * (n - 1), 11 * n);
      ValueBound(stream, 11 * (n - 1), 11 * n);
      Pow2Small();
      assert indexes[n - 1] == Value(stream, 11 * (n - 1), 11 * (n - 1) + 11);
    }
  }

  lemma StreamByte(entropy: seq<Byte>, checksum: Digest, j: nat)
    requires |entropy| in {16, 32} && j < |entropy|
    ensures entropy[j] == Value(Stream(entropy, checksum), 8 * j, 8 * j + 8)
  {
    var s := Stream(entropy, checksum);
    forall p | 8 * j <= p < 8 * j + 8 ensures s[p] == BitOf(entropy[j], 7 - (p - 8 * j)) {
      assert p / 8 == j && p % 8 == p - 8 * j;
    }
    ByteOfBits(s, 8 * j, entropy[j]);
  }

  lemma StreamChecksum(entropy: seq<Byte>, checksum: Digest)
    requires |entropy| in {16, 32}
    ensures Spells(Stream(entropy, checksum), 8 * |entropy|, |entropy| / 4, checksum[0])
  {
  }

  lemma StreamSpellsEntropy(entropy: seq<Byte>, checksum: Digest)
    requires |entropy| in {16, 32}
    ensures var s, n := Stream(entropy, checksum), |entropy|;
            Value(s, 0, 8 * n + n / 4) == BytesValue(entropy, n) * Pow2(n / 4) + checksum[0] / Pow2(8 - n / 4)
  {
    hide Stream, Value, BytesValue, Pow2, Spells;
    var s, n := Stream(entropy, checksum), |entropy|;
    StreamEntropyPart(entropy, checksum);
    StreamChecksum(entropy, checksum);
    EntropyThenChecksum(s, 8 * n, n / 4, checksum[0]);
  }

  lemma EntropyThenChecksum(s: seq<bool>, k: nat, c: nat, top: Byte)
    requires Spells(s, k, c, top)
    ensures Value(s, 0, k + c) == Value(s, 0, k) * Pow2(c) + top / Pow2(8 - c)
  {
    ValueSplit(s, 0, k, k + c);
    TopBits(s, k, top, c);
  }

  lemma StreamEntropyPart(entropy: seq<Byte>, checksum: Digest)
    requires |entropy| in {16, 32}
    ensures Value(Stream(entropy, checksum), 0, 8 * |entropy|) == BytesValue(entropy, |entropy|)
  {
    hide Stream, Value, BytesValue;
    var s := Stream(entropy, checksum);
    forall j | 0 <= j < |entropy| ensures entropy[j] == Value(s, 0 + 8 * j, 0 + 8 * j + 8) {
      StreamByte(entropy, checksum, j);
    }
    PackedValue(entropy, s, 0, |entropy|);
  }

  /** The words determine the entropy: dropping the checksum bits gives it back. */
  lemma EntropyFromIndexes(indexes: seq<nat>, count: WordCount, entropy: seq<Byte>, sha256: Hash)
    requires Encodes(indexes, count, entropy, sha256)
    ensures IndexesValue(indexes, if count.Twelve? then 12 else 24) / Pow2(|entropy| / 4)
            == BytesValue(entropy, |entropy|)
  {
    var c := |entropy| / 4;
    var top := sha256(entropy)[0];
    Pow2Small();
    Pow2Add(c, 8 - c);
    assert Pow2(c) * Pow2(8 - c) == 256;
    assert top / Pow2(8 - c) < Pow2(c) by {
      if c == 4 { assert Pow2(4) == 16; } else { assert c == 8; }
    }
    DivModUnique(IndexesValue(indexes, if count.Twelve? then 12 else 24), BytesValue(entropy, |entropy|), Pow2(c),
                 top / Pow2(8 - c));
  }

  /** Base 2048 is injective: the indexes spelled by a number are unique. */
  lemma {:induction false} IndexesUnique(a: seq<nat>, b: seq<nat>, n: nat)
    requires n <= |a| && n <= |b| && IndexesValue(a, n) == IndexesValue(b, n)
    requires forall i :: 0 <= i < n ==> a[i] < 2048 && b[i] < 2048
    ensures forall i :: 0 <= i < n ==> a[i] == b[i]
  {
    if n > 0 {
      DivModUnique(IndexesValue(a, n), IndexesValue(a, n - 1), 2048, a[n - 1]);
      DivModUnique(IndexesValue(b, n), IndexesValue(b, n - 1), 2048, b[n - 1]);
      assert a[n - 1] == b[n - 1];
      IndexesUnique(a, b, n - 1);
    }
  }

  /** The entropy determines what encodes it. */
  lemma EncodesUnique(a: seq<nat>, m: WordCount, b: seq<nat>, n: WordCount, entropy: seq<Byte>, sha256: Hash)
    requires Encodes(a, m, entropy, sha256) && Encodes(b, n, entropy, sha256)
    ensures m == n && a == b
  {
    hide IndexesValue, BytesValue, Pow2;
    IndexesUnique(a, b, if m.Twelve? then 12 else 24);
  }
}
