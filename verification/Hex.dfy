/**
 Hexadecimal text: the encoder of the vector report (`bytes_to_hex`, `pipeline.rs`) and the
 decoder of the vector file (`hex_to_bytes`, `vectors.rs`). A panic of the decoder is `None`.
 */
module Hex {
  import opened Wrappers
  import opened Bits

  const HEX: string := "0123456789abcdef"

  predicate IsHexDigit(c: char) { '0' <= c <= '9' || 'a' <= c <= 'f' }

  function DigitValue(c: char): (v: nat)
    requires IsHexDigit(c)
    ensures v < 16 && HEX[v] == c
  {
    if c <= '9' then c as int - '0' as int else c as int - 'a' as int + 10
  }

  lemma DigitOfValue(v: nat)
    requires v < 16
    ensures IsHexDigit(HEX[v]) && DigitValue(HEX[v]) == v
  {
  }

  /** The `k`th digit of the text: high half first. */
  function HexAt(bytes: seq<Byte>, k: nat): (c: char)
    requires k < 2 * |bytes|
  {
    HEX[if k % 2 == 0 then bytes[k / 2] / 16 else bytes[k / 2] % 16]
  }

  function ToHex(bytes: seq<Byte>): (t: string)
    ensures |t| == 2 * |bytes|
    ensures forall k :: 0 <= k < |t| ==> t[k] == HexAt(bytes, k)
  {
    seq(2 * |bytes|, k requires 0 <= k < 2 * |bytes| => HexAt(bytes, k))
  }

  method BytesToHex(bytes: seq<Byte>) returns (s: string)
    ensures s == ToHex(bytes)
    ensures |s| == 2 * |bytes|
    ensures forall i :: 0 <= i < |bytes| ==>
              && s[2 * i] == "0123456789abcdef"[bytes[i] / 16]
              && s[2 * i + 1] == "0123456789abcdef"[bytes[i] % 16]
  {
    s := "";
    for i := 0 to |bytes|
      invariant |s| == 2 * i && forall k :: 0 <= k < 2 * i ==> s[k] == HexAt(bytes, k)
    {
      var b := bytes[i];
      s := s + [HEX[b / 16]];
      s := s + [HEX[b % 16]];
    }
  }

  /** The byte the two digits at `i` spell. */
  function Pair(t: string, i: nat): Byte
    requires i + 1 < |t| && IsHexDigit(t[i]) && IsHexDigit(t[i + 1])
  {
    16 * DigitValue(t[i]) + DigitValue(t[i + 1])
  }

  predicate IsHex(t: string) {
    |t| % 2 == 0 && forall i :: 0 <= i < |t| ==> IsHexDigit(t[i])
  }

  function HexToBytes(t: string): Option<seq<Byte>> {
    if IsHex(t) then Some(seq(|t| / 2, i requires 0 <= i < |t| / 2 => Pair(t, 2 * i))) else None
  }

  lemma HexAtDigit(bytes: seq<Byte>, k: nat)
    requires k < 2 * |bytes|
    ensures IsHexDigit(HexAt(bytes, k))
    ensures DigitValue(HexAt(bytes, k)) == if k % 2 == 0 then bytes[k / 2] / 16 else bytes[k / 2] % 16
  {
    DigitOfValue(bytes[k / 2] / 16);
    DigitOfValue(bytes[k / 2] % 16);
  }

  lemma EncodesPair(t: string, bytes: seq<Byte>, i: nat)
    requires i < |bytes| && t == ToHex(bytes)
    ensures IsHexDigit(t[2 * i]) && IsHexDigit(t[2 * i + 1]) && Pair(t, 2 * i) == bytes[i]
  {
    HexAtDigit(bytes, 2 * i);
    HexAtDigit(bytes, 2 * i + 1);
  }

  lemma DecodesPair(t: string, bytes: seq<Byte>, k: nat)
    requires k < |t| && HexToBytes(t) == Some(bytes)
    ensures t[k] == HexAt(bytes, k)
  {
    var i := k / 2;
    assert k == 2 * i || k == 2 * i + 1;
    assert bytes[i] == 16 * DigitValue(t[2 * i]) + DigitValue(t[2 * i + 1]);
    assert bytes[i] / 16 == DigitValue(t[2 * i]) && bytes[i] % 16 == DigitValue(t[2 * i + 1]);
  }

  /** The decoder accepts exactly the texts the encoder writes, and undoes it. */
  lemma HexInverse(t: string, bytes: seq<Byte>)
    ensures HexToBytes(t) == Some(bytes) <==> t == ToHex(bytes)
  {
    hide HexAt, Pair, DigitValue, IsHexDigit, HEX;
    if t == ToHex(bytes) {
      forall k | 0 <= k < |t| ensures IsHexDigit(t[k]) { HexAtDigit(bytes, k); }
      forall i | 0 <= i < |bytes| ensures Pair(t, 2 * i) == bytes[i] { EncodesPair(t, bytes, i); }
      assert IsHex(t) && HexToBytes(t).value == bytes;
    }
    if HexToBytes(t) == Some(bytes) {
      forall k | 0 <= k < |t| ensures t[k] == HexAt(bytes, k) { DecodesPair(t, bytes, k); }
    }
  }

  /** Every lowercase text of even length decodes, and re-encodes to itself; nothing else decodes. */
  lemma DecodesHex(t: string)
    ensures HexToBytes(t).Some? <==> |t| % 2 == 0 && forall i :: 0 <= i < |t| ==> t[i] in "0123456789abcdef"
    ensures HexToBytes(t).Some? ==> ToHex(HexToBytes(t).value) == t
  {
    if IsHex(t) { HexInverse(t, HexToBytes(t).value); }
  }
}
