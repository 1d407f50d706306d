/**
 The passphrase buffer (`crates/seed-core/src/passphrase.rs`): a bounded list of printable
 ASCII in a fixed array whose unused cells are zero, and its constant-time comparison.
 Volatile writes and timing are not part of this model, only what is stored and returned.
 */
module Passphrase {
  const MAX_PASSPHRASE_LEN: nat := 128
  const ASCII_MIN: bv8 := 0x20
  const ASCII_MAX: bv8 := 0x7E

  predicate IsPrintableAscii(byte: bv8) { ASCII_MIN <= byte <= ASCII_MAX }

  datatype PushResult = Pushed | NotPrintableAscii | Full

  class PassphraseAscii {
    const buf: array<bv8>
    var len: nat

    /** Printable up to `len`, zero from there on. */
    ghost predicate Valid()
      reads this, buf
    {
      && buf.Length == MAX_PASSPHRASE_LEN && len <= MAX_PASSPHRASE_LEN
      && (forall i :: 0 <= i < len ==> IsPrintableAscii(buf[i]))
      && (forall i :: len <= i < MAX_PASSPHRASE_LEN ==> buf[i] == 0)
    }

    function AsBytes(): seq<bv8>
      requires Valid()
      reads this, buf
    {
      buf[..len]
    }

    constructor ()
      ensures Valid() && fresh(buf) && AsBytes() == []
    {
      buf := new bv8[MAX_PASSPHRASE_LEN](_ => 0);
      len := 0;
    }

    /** A refused byte leaves every cell as it was. */
    method PushAscii(byte: bv8) returns (r: PushResult)
      requires Valid()
      modifies this, buf
      ensures Valid()
      ensures r == (if !IsPrintableAscii(byte) then NotPrintableAscii
                    else if |old(AsBytes())| == 128 then Full else Pushed)
      ensures AsBytes() == if r.Pushed? then old(AsBytes()) + [byte] else old(AsBytes())
    {
      if !IsPrintableAscii(byte) {
        return NotPrintableAscii;
      }
      if len == MAX_PASSPHRASE_LEN {
        return Full;
      }
      buf[len] := byte;
      len := len + 1;
      r := Pushed;
    }

    method PushChar(c: char) returns (r: PushResult)
      requires Valid()
      modifies this, buf
      ensures Valid()
      ensures r.Pushed? <==> 0x20 <= c as int <= 0x7E && |old(AsBytes())| < 128
      ensures r.Full? ==> |old(AsBytes())| == 128
      ensures |AsBytes()| == |old(AsBytes())| + (if r.Pushed? then 1 else 0) && old(AsBytes()) <= AsBytes()
      ensures r.Pushed? ==> AsBytes()[|old(AsBytes())|] as int == c as int
    {
      if c as int >= 128 {
        return NotPrintableAscii;
      }
      r := PushAscii(c as int as bv8);
    }

    /** The removed cell is zeroed. */
    method Backspace()
      requires Valid()
      modifies this, buf
      ensures Valid()
      ensures AsBytes() == if old(AsBytes()) == [] then [] else old(AsBytes())[..|old(AsBytes())| - 1]
    {
      if len == 0 {
        return;
      }
      len := len - 1;
      buf[len] := 0;
    }

    method Scrub()
      requires Valid()
      modifies this, buf
      ensures Valid() && AsBytes() == []
    {
      for i := 0 to MAX_PASSPHRASE_LEN
        invariant forall j :: 0 <= j < i ==> buf[j] == 0
      {
        buf[i] := 0;
      }
      len := 0;
    }

    /**
     The comparison looks at all 128 cells and folds the eight bytes of the length
     difference into the same accumulator; it is true exactly for equal passphrases.
     */
    method CtEq(other: PassphraseAscii) returns (equal: bool)
      requires Valid() && other.Valid()
      ensures equal <==> AsBytes() == other.AsBytes()
    {
      hide ByteAt, Wide;
      var acc: bv8 := 0;
      for i := 0 to MAX_PASSPHRASE_LEN
        invariant acc == 0 <==> forall j :: 0 <= j < i ==> buf[j] == other.buf[j]
      {
        Accumulate(acc, buf[i], other.buf[i]);
        acc := acc | (buf[i] ^ other.buf[i]);
      }
      var lenDiff := Wide(len) ^ Wide(other.len);
      var folded: bv8 := 0;
      var shift: nat := 0;
      while shift < 64
        invariant shift in {0, 8, 16, 24, 32, 40, 48, 56, 64}
        invariant folded == 0 <==> LowBitsZero(lenDiff, shift)
      {
        var byte := ByteAt(lenDiff, shift);
        FoldStep(lenDiff, shift);
        OrZero(folded, byte);
        folded := folded | byte;
        shift := shift + 8;
      }
      LengthsDiffer(len, other.len);
      OrZero(acc, folded);
      acc := acc | folded;
      equal := acc == 0;
      EqualBytes(other);
    }

    /** Two valid buffers hold the same passphrase exactly when all their cells agree. */
    lemma EqualBytes(other: PassphraseAscii)
      requires Valid() && other.Valid()
      ensures AsBytes() == other.AsBytes() <==>
              (len == other.len && forall j :: 0 <= j < MAX_PASSPHRASE_LEN ==> buf[j] == other.buf[j])
    {
      if AsBytes() == other.AsBytes() {
        assert forall j :: 0 <= j < len ==> AsBytes()[j] == other.AsBytes()[j];
      }
    }

    /** The length is folded in for defence only: cells that all agree have the same length. */
    lemma CellsGiveLength(other: PassphraseAscii)
      requires Valid() && other.Valid() && buf[..] == other.buf[..]
      ensures len == other.len
    {
      assert forall i :: 0 <= i < MAX_PASSPHRASE_LEN ==> buf[i] == buf[..][i] == other.buf[i];
      var atMine, atTheirs := if len < MAX_PASSPHRASE_LEN then buf[len] else 0,
        if other.len < MAX_PASSPHRASE_LEN then buf[other.len] else 0;
    }
  }

  /** `(d >> shift) as u8` for a shift by whole bytes. */
  function ByteAt(d: bv64, shift: nat): bv8
    requires shift in {0, 8, 16, 24, 32, 40, 48, 56}
  {
    (match shift
     case 0 => d & 0xFF
     case 8 => (d >> 8) & 0xFF
     case 16 => (d >> 16) & 0xFF
     case 24 => (d >> 24) & 0xFF
     case 32 => (d >> 32) & 0xFF
     case 40 => (d >> 40) & 0xFF
     case 48 => (d >> 48) & 0xFF
     case _ => (d >> 56) & 0xFF) as bv8
  }

  /** The low `n` bits are zero. */
  predicate LowBitsZero(d: bv64, n: nat)
    requires n in {0, 8, 16, 24, 32, 40, 48, 56, 64}
  {
    0 == match n
      case 0 => 0
      case 8 => d & 0xFF
      case 16 => d & 0xFFFF
      case 24 => d & 0xFF_FFFF
      case 32 => d & 0xFFFF_FFFF
      case 40 => d & 0xFF_FFFF_FFFF
      case 48 => d & 0xFFFF_FFFF_FFFF
      case 56 => d & 0xFF_FFFF_FFFF_FFFF
      case _ => d
  }

  lemma Accumulate(acc: bv8, x: bv8, y: bv8)
    ensures acc | (x ^ y) == 0 <==> acc == 0 && x == y
  {
  }

  lemma OrZero(x: bv8, y: bv8)
    ensures x | y == 0 <==> x == 0 && y == 0
  {
  }

  lemma FoldStep(d: bv64, shift: nat)
    requires shift in {0, 8, 16, 24, 32, 40, 48, 56}
    ensures LowBitsZero(d, shift + 8) <==> LowBitsZero(d, shift) && ByteAt(d, shift) == 0
  {
    if shift == 0 {
    } else if shift == 8 {
    } else if shift == 16 {
    } else if shift == 24 {
    } else if shift == 32 {
    } else if shift == 40 {
    } else if shift == 48 {
    } else {
    }
  }

  /** A length as a byte: nothing is lost up to 128. */
  function Narrow(n: nat): (b: bv8)
    requires n <= MAX_PASSPHRASE_LEN
    ensures b as int == n
  {
    n as bv8
  }

  /** A length as a machine word. */
  function Wide(n: nat): bv64
    requires n <= MAX_PASSPHRASE_LEN
  {
    Narrow(n) as bv64
  }

  lemma LengthsDiffer(a: nat, b: nat)
    requires a <= MAX_PASSPHRASE_LEN && b <= MAX_PASSPHRASE_LEN
    ensures Wide(a) ^ Wide(b) == 0 <==> a == b
  {
    hide Narrow;
    Widened(Narrow(a), Narrow(b));
    XorZero(Wide(a), Wide(b));
  }

  lemma Widened(x: bv8, y: bv8)
    ensures x as bv64 == y as bv64 <==> x == y
  {
  }

  lemma XorZero(x: bv64, y: bv64)
    ensures x ^ y == 0 <==> x == y
  {
  }
}
