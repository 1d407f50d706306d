/** Text as its UTF-8 bytes. */
module Utf8Strings {
  import opened Bits

  /** UTF-8, section 3 of RFC 3629. */
  function Utf8Char(c: char): (r: seq<Byte>)
    ensures c as int < 128 ==> r == [c as int]
    ensures c as int >= 128 ==> r != [] && forall b :: b in r ==> b >= 128
  {
    var v := c as int;
    if v < 0x80 then [v]
    else if v < 0x800 then [0xC0 + v / 0x40, 0x80 + v % 0x40]
    else if v < 0x10000 then [0xE0 + v / 0x1000, 0x80 + v / 0x40 % 0x40, 0x80 + v % 0x40]
    else [0xF0 + v / 0x40000, 0x80 + v / 0x1000 % 0x40, 0x80 + v / 0x40 % 0x40, 0x80 + v % 0x40]
  }

  /** What the bytes of a character spell: six bits each behind the first. */
  function Spelled(b: seq<Byte>): int {
    if |b| == 1 then b[0] as int
    else if |b| == 2 then 64 * (b[0] as int - 192) + (b[1] as int - 128)
    else if |b| == 3 then 4096 * (b[0] as int - 224) + 64 * (b[1] as int - 128) + (b[2] as int - 128)
    else if |b| == 4 then
      262144 * (b[0] as int - 240) + 4096 * (b[1] as int - 128) + 64 * (b[2] as int - 128) + (b[3] as int - 128)
    else -1
  }

  /** The bytes give the code point back, there are as many as it needs, and all but the first continue. */
  lemma Utf8CharSpells(c: char)
    ensures var v := c as int;
            |Utf8Char(c)| == if v < 128 then 1 else if v < 2048 then 2 else if v < 65536 then 3 else 4
    ensures Spelled(Utf8Char(c)) == c as int
    ensures forall i :: 1 <= i < |Utf8Char(c)| ==> 128 <= Utf8Char(c)[i] < 192
  {
    Sextets(c as int);
  }

  lemma Sextets(v: nat)
    ensures v == 64 * (v / 64) + v % 64
    ensures v == 4096 * (v / 4096) + 64 * (v / 64 % 64) + v % 64
    ensures v == 262144 * (v / 262144) + 4096 * (v / 4096 % 64) + 64 * (v / 64 % 64) + v % 64
  {
    var a := v / 64;
    var b := a / 64;
    assert v / 4096 == b && v / 262144 == b / 64;
  }

  function Utf8(s: string): seq<Byte> {
    if s == "" then [] else Utf8Char(s[0]) + Utf8(s[1..])
  }

  lemma {:induction false} Utf8Append(s: string, c: char)
    ensures Utf8(s + [c]) == Utf8(s) + Utf8Char(c)
  {
    hide Utf8Char;
    if s == "" {
      assert Utf8([c]) == Utf8Char(c) + Utf8("");
    } else {
      assert (s + [c])[1..] == s[1..] + [c];
      Utf8Append(s[1..], c);
    }
  }
}
