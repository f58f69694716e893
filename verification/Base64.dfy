/** The base64 encoding of section 4 of RFC 4648, which every stream chunk carries. */
module Base64 {
  import opened Options

  type Byte = b: int | 0 <= b < 256

  type Sextet = n: int | 0 <= n < 64

  function Letter(n: Sextet): char {
    if n < 26 then ('A' as int + n) as char
    else if n < 52 then ('a' as int + n - 26) as char
    else if n < 62 then ('0' as int + n - 52) as char
    else if n == 62 then '+'
    else '/'
  }

  function Value(c: char): (v: Option<int>)
    ensures v.Some? ==> 0 <= v.value < 64 && Letter(v.value) == c
  {
    if 'A' <= c <= 'Z' then Some(c as int - 'A' as int)
    else if 'a' <= c <= 'z' then Some(c as int - 'a' as int + 26)
    else if '0' <= c <= '9' then Some(c as int - '0' as int + 52)
    else if c == '+' then Some(62)
    else if c == '/' then Some(63)
    else None
  }

  lemma LetterHasItsValue(n: Sextet)
    ensures Value(Letter(n)) == Some(n) && Letter(n) != '='
  {
  }

  function Encode(bytes: seq<Byte>): string {
    if bytes == [] then ""
    else if |bytes| == 1 then
      [Letter(bytes[0] / 4), Letter(bytes[0] % 4 * 16), '=', '=']
    else if |bytes| == 2 then
      [Letter(bytes[0] / 4), Letter(bytes[0] % 4 * 16 + bytes[1] / 16), Letter(bytes[1] % 16 * 4), '=']
    else
      [Letter(bytes[0] / 4), Letter(bytes[0] % 4 * 16 + bytes[1] / 16),
       Letter(bytes[1] % 16 * 4 + bytes[2] / 64), Letter(bytes[2] % 64)] + Encode(bytes[3..])
  }

  /** One group of four letters; padding only where the last group allows it. */
  function DecodeGroup(a: char, b: char, c: char, d: char, last: bool): Option<seq<Byte>> {
    match (Value(a), Value(b), Value(c), Value(d))
    case (Some(p), Some(q), Some(r), Some(s)) =>
      Some([p * 4 + q / 16, q % 16 * 16 + r / 4, r % 4 * 64 + s])
    case (Some(p), Some(q), Some(r), None) =>
      if last && d == '=' && r % 4 == 0 then Some([p * 4 + q / 16, q % 16 * 16 + r / 4]) else None
    case (Some(p), Some(q), None, None) =>
      if last && c == '=' && d == '=' && q % 16 == 0 then Some([p * 4 + q / 16]) else None
    case _ => None
  }

  function Decode(text: string): Option<seq<Byte>> {
    if text == "" then Some([])
    else if |text| < 4 then None
    else
      match (DecodeGroup(text[0], text[1], text[2], text[3], |text| == 4), Decode(text[4..]))
      case (Some(group), Some(rest)) => Some(group + rest)
      case _ => None
  }

  lemma FullGroup(x: Byte, y: Byte, z: Byte, last: bool)
    ensures DecodeGroup(Letter(x / 4), Letter(x % 4 * 16 + y / 16), Letter(y % 16 * 4 + z / 64), Letter(z % 64), last)
         == Some([x, y, z])
  {
    FourLetters(x / 4, x % 4 * 16 + y / 16, y % 16 * 4 + z / 64, z % 64, last);
    Sextets(x, y, z);
  }

  lemma FourLetters(p: Sextet, q: Sextet, r: Sextet, s: Sextet, last: bool)
    ensures DecodeGroup(Letter(p), Letter(q), Letter(r), Letter(s), last)
         == Some([p * 4 + q / 16, q % 16 * 16 + r / 4, r % 4 * 64 + s])
  {
    LetterHasItsValue(p);
    LetterHasItsValue(q);
    LetterHasItsValue(r);
    LetterHasItsValue(s);
  }

  lemma Sextets(x: Byte, y: Byte, z: Byte)
    ensures x / 4 * 4 + (x % 4 * 16 + y / 16) / 16 == x
    ensures (x % 4 * 16 + y / 16) % 16 * 16 + (y % 16 * 4 + z / 64) / 4 == y
    ensures (y % 16 * 4 + z / 64) % 4 * 64 + z % 64 == z
  {
  }

  lemma PaddedGroups(x: Byte, y: Byte)
    ensures DecodeGroup(Letter(x / 4), Letter(x % 4 * 16), '=', '=', true) == Some([x])
    ensures DecodeGroup(Letter(x / 4), Letter(x % 4 * 16 + y / 16), Letter(y % 16 * 4), '=', true) == Some([x, y])
  {
    LetterHasItsValue(x / 4);
    LetterHasItsValue(x % 4 * 16);
    LetterHasItsValue(x % 4 * 16 + y / 16);
    LetterHasItsValue(y % 16 * 4);
  }

  lemma DecodeSplit(text: string, group: seq<Byte>, rest: seq<Byte>)
    requires |text| >= 4
    requires DecodeGroup(text[0], text[1], text[2], text[3], |text| == 4) == Some(group)
    requires Decode(text[4..]) == Some(rest)
    ensures Decode(text) == Some(group + rest)
  {
  }

  lemma OneByte(x: Byte)
    ensures Decode(Encode([x])) == Some([x]) && |Encode([x])| == 4
  {
    PaddedGroups(x, 0);
    assert Encode([x])[4..] == "";
    DecodeSplit(Encode([x]), [x], []);
    assert [x] + [] == [x];
  }

  lemma TwoBytes(x: Byte, y: Byte)
    ensures Decode(Encode([x, y])) == Some([x, y]) && |Encode([x, y])| == 4
  {
    PaddedGroups(x, y);
    assert Encode([x, y])[4..] == "";
    DecodeSplit(Encode([x, y]), [x, y], []);
    assert [x, y] + [] == [x, y];
  }

  lemma EncodeThree(x: Byte, y: Byte, z: Byte, rest: seq<Byte>)
    ensures Encode([x, y, z] + rest)
         == [Letter(x / 4), Letter(x % 4 * 16 + y / 16), Letter(y % 16 * 4 + z / 64), Letter(z % 64)] + Encode(rest)
  {
    assert ([x, y, z] + rest)[3..] == rest;
  }

  lemma DecodeGroupOf(a: char, b: char, c: char, d: char, rest: string, group: seq<Byte>, bytes: seq<Byte>)
    requires DecodeGroup(a, b, c, d, rest == "") == Some(group) && Decode(rest) == Some(bytes)
    ensures Decode([a, b, c, d] + rest) == Some(group + bytes)
  {
    var text := [a, b, c, d] + rest;
    assert text[4..] == rest;
    DecodeSplit(text, group, bytes);
  }

  lemma ThreeBytes(x: Byte, y: Byte, z: Byte, rest: seq<Byte>)
    requires Decode(Encode(rest)) == Some(rest)
    ensures Decode(Encode([x, y, z] + rest)) == Some([x, y, z] + rest)
    ensures |Encode([x, y, z] + rest)| == 4 + |Encode(rest)|
  {
    EncodeThree(x, y, z, rest);
    FullGroup(x, y, z, Encode(rest) == "");
    DecodeGroupOf(Letter(x / 4), Letter(x % 4 * 16 + y / 16), Letter(y % 16 * 4 + z / 64), Letter(z % 64),
                  Encode(rest), [x, y, z], rest);
  }

  /** Decoding recovers exactly the bytes that were encoded. */
  lemma {:induction false} DecodeEncode(bytes: seq<Byte>)
    ensures Decode(Encode(bytes)) == Some(bytes)
  {
    if |bytes| == 1 {
      assert bytes == [bytes[0]];
      OneByte(bytes[0]);
    } else if |bytes| == 2 {
      assert bytes == [bytes[0], bytes[1]];
      TwoBytes(bytes[0], bytes[1]);
    } else if |bytes| >= 3 {
      assert bytes == [bytes[0], bytes[1], bytes[2]] + bytes[3..];
      DecodeEncode(bytes[3..]);
      ThreeBytes(bytes[0], bytes[1], bytes[2], bytes[3..]);
    }
  }

  // ---------------------------------------------------------------------
  // The encoding itself
  // ---------------------------------------------------------------------

  /** The letters stand in the order of table 1 of RFC 4648: three runs of neighbours, then
      two signs. */
  lemma LettersRunThroughTheAlphabet(n: Sextet)
    ensures Letter(0) == 'A' && Letter(25) == 'Z' && Letter(26) == 'a' && Letter(51) == 'z'
    ensures Letter(52) == '0' && Letter(61) == '9' && Letter(62) == '+' && Letter(63) == '/'
    ensures n !in {25, 51, 61, 62, 63} ==> Letter(n + 1) as int == Letter(n) as int + 1
  {
  }

  lemma Quotient64(a: nat, b: nat)
    requires b < 64
    ensures (a * 64 + b) / 64 == a && (a * 64 + b) % 64 == b
  {
  }

  function Bits(x: Byte, y: Byte, z: Byte): nat {
    x as int * 65536 + y as int * 256 + z as int
  }

  /** The 24 bits of three bytes, taken six by six from behind. */
  lemma SixBySix(x: Byte, y: Byte, z: Byte)
    ensures var p, q, r, s := x / 4, x % 4 * 16 + y / 16, y % 16 * 4 + z / 64, z % 64;
      && Bits(x, y, z) == ((p * 64 + q) * 64 + r) * 64 + s
      && Bits(x, y, z) % 64 == s && Bits(x, y, z) / 64 % 64 == r
      && Bits(x, y, z) / 64 / 64 % 64 == q && Bits(x, y, z) / 64 / 64 / 64 == p
  {
    var p: nat, q: nat, r: nat, s: nat := x / 4, x % 4 * 16 + y / 16, y % 16 * 4 + z / 64, z % 64;
    TwentyFourBits(x, y, z);
    Quotient64((p * 64 + q) * 64 + r, s);
    Quotient64(p * 64 + q, r);
    Quotient64(p, q);
  }

  lemma TwentyFourBits(x: Byte, y: Byte, z: Byte)
    ensures Bits(x, y, z) == ((x / 4 * 64 + (x % 4 * 16 + y / 16)) * 64 + (y % 16 * 4 + z / 64)) * 64 + z % 64
  {
  }

  /** The letters for 24 bits. */
  function FourOf(bits: nat): string
    requires bits < 16777216
  {
    [Letter(bits / 262144), Letter(bits / 4096 % 64), Letter(bits / 64 % 64), Letter(bits % 64)]
  }

  lemma LettersOfThree(x: Byte, y: Byte, z: Byte)
    ensures Bits(x, y, z) < 16777216
    ensures FourOf(Bits(x, y, z))
         == [Letter(x / 4), Letter(x % 4 * 16 + y / 16), Letter(y % 16 * 4 + z / 64), Letter(z % 64)]
  {
    SixBySix(x, y, z);
    Divisors(Bits(x, y, z));
  }

  lemma Divisors(bits: nat)
    ensures bits / 64 / 64 == bits / 4096 && bits / 64 / 64 / 64 == bits / 262144
  {
  }

  /** Three bytes are encoded as the four letters for their 24 bits, and what follows on its
      own. */
  lemma GroupOfBits(x: Byte, y: Byte, z: Byte, rest: seq<Byte>)
    ensures Bits(x, y, z) < 16777216
    ensures Encode([x, y, z] + rest) == FourOf(Bits(x, y, z)) + Encode(rest)
  {
    EncodeThree(x, y, z, rest);
    LettersOfThree(x, y, z);
  }

  /** One or two bytes left over are filled up with zero bits, and the group with '='. */
  lemma LastGroupIsPadded(x: Byte, y: Byte)
    ensures Encode([x]) == Encode([x, 0, 0])[..2] + "=="
    ensures Encode([x, y]) == Encode([x, y, 0])[..3] + "="
  {
  }
}
