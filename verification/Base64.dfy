/** Base64, section 4 of RFC 4648, and the chunked conversion that feeds it. */
module Base64 {
  import opened Options
  import opened Wire

  type sextet = i: int | 0 <= i < 64

  function Digit(i: sextet): char {
    if i < 26 then (i + 65) as char
    else if i < 52 then (i + 71) as char
    else if i < 62 then (i - 4) as char
    else if i == 62 then '+'
    else '/'
  }

  function DigitValue(c: char): (r: Option<sextet>) {
    if 'A' <= c <= 'Z' then Some(c as int - 65)
    else if 'a' <= c <= 'z' then Some(c as int - 71)
    else if '0' <= c <= '9' then Some(c as int + 4)
    else if c == '+' then Some(62)
    else if c == '/' then Some(63)
    else None
  }

  /** Digits are told apart by the decoder, and none of them is the padding character. */
  lemma DigitRoundTrip(i: sextet)
    ensures DigitValue(Digit(i)) == Some(i) && Digit(i) != '='
  {
  }

  function Encode(b: seq<byte>): string {
    if b == [] then ""
    else if |b| == 1 then [Digit(b[0] / 4), Digit(b[0] % 4 * 16), '=', '=']
    else if |b| == 2 then
      [Digit(b[0] / 4), Digit(b[0] % 4 * 16 + b[1] / 16), Digit(b[1] % 16 * 4), '=']
    else
      [Digit(b[0] / 4), Digit(b[0] % 4 * 16 + b[1] / 16),
       Digit(b[1] % 16 * 4 + b[2] / 64), Digit(b[2] % 64)] + Encode(b[3..])
  }

  /** One group of four digits; padding is allowed in the last group only. */
  function DecodeGroup(s: string, last: bool): Option<seq<byte>>
    requires |s| == 4
  {
    var d0, d1, d2, d3 := DigitValue(s[0]), DigitValue(s[1]), DigitValue(s[2]), DigitValue(s[3]);
    if d0.None? || d1.None? then None
    else
      var b0: byte := d0.value * 4 + d1.value / 16;
      if last && s[2] == '=' && s[3] == '=' then Some([b0])
      else if d2.None? then None
      else
        var b1: byte := d1.value % 16 * 16 + d2.value / 4;
        if last && s[3] == '=' then Some([b0, b1])
        else if d3.None? then None
        else Some([b0, b1, d2.value % 4 * 64 + d3.value])
  }

  function Decode(s: string): Option<seq<byte>> {
    if s == "" then Some([])
    else if |s| < 4 then None
    else
      match DecodeGroup(s[..4], |s| == 4)
      case None => None
      case Some(group) =>
        match Decode(s[4..])
        case None => None
        case Some(rest) => Some(group + rest)
  }

  lemma FullGroup(a: byte, b: byte, c: byte, last: bool)
    ensures DecodeGroup([Digit(a / 4), Digit(a % 4 * 16 + b / 16), Digit(b % 16 * 4 + c / 64), Digit(c % 64)], last)
         == Some([a, b, c])
  {
    hide Digit, DigitValue;
    DigitRoundTrip(a / 4);
    DigitRoundTrip(a % 4 * 16 + b / 16);
    DigitRoundTrip(b % 16 * 4 + c / 64);
    DigitRoundTrip(c % 64);
  }

  lemma PaddedGroup(a: byte, b: byte)
    ensures DecodeGroup([Digit(a / 4), Digit(a % 4 * 16), '=', '='], true) == Some([a])
    ensures DecodeGroup([Digit(a / 4), Digit(a % 4 * 16 + b / 16), Digit(b % 16 * 4), '='], true) == Some([a, b])
  {
    DigitRoundTrip(a / 4);
    DigitRoundTrip(a % 4 * 16);
    DigitRoundTrip(a % 4 * 16 + b / 16);
    DigitRoundTrip(b % 16 * 4);
  }

  lemma DecodeGroups(group: string, rest: string, g: seq<byte>, r: seq<byte>)
    requires |group| == 4 && DecodeGroup(group, rest == "") == Some(g) && Decode(rest) == Some(r)
    ensures Decode(group + rest) == Some(g + r)
  {
    hide DecodeGroup;
    var s := group + rest;
    assert s[..4] == group && s[4..] == rest;
  }

  lemma DecodeNothing()
    ensures Decode("") == Some([])
  {
  }

  lemma DecodeLast(group: string, g: seq<byte>)
    requires |group| == 4 && DecodeGroup(group, true) == Some(g)
    ensures Decode(group) == Some(g)
  {
    assert group + "" == group && g + [] == g;
    DecodeGroups(group, "", g, []);
  }

  /** Decoding inverts encoding for byte strings of every length. */
  lemma {:induction false} Base64RoundTrip(b: seq<byte>)
    ensures Decode(Encode(b)) == Some(b)
    ensures |Encode(b)| == (|b| + 2) / 3 * 4
  {
    hide Digit, DigitValue, DecodeGroup, Decode;
    if b == [] {
      DecodeNothing();
    } else if |b| == 1 {
      PaddedGroup(b[0], 0);
      DecodeLast(Encode(b), [b[0]]);
      assert b == [b[0]];
    } else if |b| == 2 {
      PaddedGroup(b[0], b[1]);
      DecodeLast(Encode(b), [b[0], b[1]]);
      assert b == [b[0], b[1]];
    } else {
      Base64RoundTrip(b[3..]);
      var group := [Digit(b[0] / 4), Digit(b[0] % 4 * 16 + b[1] / 16),
                    Digit(b[1] % 16 * 4 + b[2] / 64), Digit(b[2] % 64)];
      FullGroup(b[0], b[1], b[2], Encode(b[3..]) == "");
      DecodeGroups(group, Encode(b[3..]), [b[0], b[1], b[2]], b[3..]);
      assert b == [b[0], b[1], b[2]] + b[3..];
    }
  }

  // ---- The text itself ----

  /** Table 1 of section 4 of RFC 4648. */
  lemma Alphabet(i: sextet)
    ensures i < 26 ==> Digit(i) as int == 'A' as int + i
    ensures 26 <= i < 52 ==> Digit(i) as int == 'a' as int + i - 26
    ensures 52 <= i < 62 ==> Digit(i) as int == '0' as int + i - 52
    ensures Digit(62) == '+' && Digit(63) == '/'
  {
  }

  /** The digits of a group are its bits, six at a time and the highest first. */
  function Digits(n: nat): string
    requires n < 16777216
  {
    [Digit(n / 262144), Digit(n / 4096 % 64), Digit(n / 64 % 64), Digit(n % 64)]
  }

  function FromGroup(a: byte, b: byte, c: byte): (n: nat)
    ensures n < 16777216
  {
    var x: int, y: int, z: int := a, b, c;
    65536 * x + 256 * y + z
  }

  lemma FourDigits(d0: int, d1: int, d2: int, d3: int, n: int)
    requires 0 <= d0 < 64 && 0 <= d1 < 64 && 0 <= d2 < 64 && 0 <= d3 < 64
    requires n == 262144 * d0 + 4096 * d1 + 64 * d2 + d3
    ensures n / 262144 == d0 && n / 4096 % 64 == d1 && n / 64 % 64 == d2 && n % 64 == d3
  {
    assert n / 4096 == 64 * d0 + d1;
    assert n / 64 == 64 * (64 * d0 + d1) + d2;
  }

  lemma GroupDigits(a: byte, b: byte, c: byte)
    ensures var n := FromGroup(a, b, c);
            && n / 262144 == a / 4 && n / 4096 % 64 == a % 4 * 16 + b / 16
            && n / 64 % 64 == b % 16 * 4 + c / 64 && n % 64 == c % 64
  {
    var a0: int, a1: int, b0: int, b1: int, c0: int, c1: int := a / 4, a % 4, b / 16, b % 16, c / 64, c % 64;
    assert a == 4 * a0 + a1 && b == 16 * b0 + b1 && c == 64 * c0 + c1;
    FourDigits(a0, a1 * 16 + b0, b1 * 4 + c0, c1, FromGroup(a, b, c));
  }

  lemma DigitsOfGroup(a: byte, b: byte, c: byte)
    ensures Digits(FromGroup(a, b, c)) ==
            [Digit(a / 4), Digit(a % 4 * 16 + b / 16), Digit(b % 16 * 4 + c / 64), Digit(c % 64)]
  {
    hide Digit;
    GroupDigits(a, b, c);
  }

  lemma EncodedShort(a: byte, b: byte)
    ensures Encode([a]) == Digits(FromGroup(a, 0, 0))[..2] + "=="
    ensures Encode([a, b]) == Digits(FromGroup(a, b, 0))[..3] + "="
  {
    DigitsOfGroup(a, 0, 0);
    DigitsOfGroup(a, b, 0);
    hide Digit, Digits, FromGroup;
    var none: byte := 0;
    assert none / 16 == 0 && none / 64 == 0;
  }

  lemma EncodedNothing()
    ensures Encode([]) == ""
  {
  }

  lemma EncodedFull(b: seq<byte>)
    requires |b| >= 3
    ensures Encode(b) == Digits(FromGroup(b[0], b[1], b[2])) + Encode(b[3..])
  {
    DigitsOfGroup(b[0], b[1], b[2]);
    hide Digit, Digits, FromGroup;
  }

  /**
    Three bytes are the 24-bit number of one group; what is missing at the end counts as zero, and
    the digits that say nothing are padding.
   */
  lemma EncodedGroups(b: seq<byte>)
    ensures b == [] ==> Encode(b) == ""
    ensures |b| == 1 ==> Encode(b) == Digits(FromGroup(b[0], 0, 0))[..2] + "=="
    ensures |b| == 2 ==> Encode(b) == Digits(FromGroup(b[0], b[1], 0))[..3] + "="
    ensures |b| >= 3 ==> Encode(b) == Digits(FromGroup(b[0], b[1], b[2])) + Encode(b[3..])
  {
    hide Encode, Digits, FromGroup;
    EncodedNothing();
    if |b| == 1 {
      EncodedShort(b[0], 0);
      assert b == [b[0]];
    } else if |b| == 2 {
      EncodedShort(b[0], b[1]);
      assert b == [b[0], b[1]];
    } else if |b| >= 3 {
      EncodedFull(b);
    }
  }

  predicate IsDigit(c: char) {
    'A' <= c <= 'Z' || 'a' <= c <= 'z' || '0' <= c <= '9' || c == '+' || c == '/'
  }

  /** Only whole groups of digits decode, with padding at most in the last two places. */
  lemma {:induction false} DecodesOnlyGroups(s: string)
    ensures Decode(s).Some? ==> |s| % 4 == 0
    ensures Decode(s).Some? ==>
              forall i :: 0 <= i < |s| ==> IsDigit(s[i]) || (s[i] == '=' && i >= |s| - 2)
  {
    if |s| >= 4 && Decode(s).Some? {
      DecodesOnlyGroups(s[4..]);
      DecodedGroup(s[..4], |s| == 4);
      forall i | 0 <= i < |s| ensures IsDigit(s[i]) || (s[i] == '=' && i >= |s| - 2) {
        if i < 4 { assert s[i] == s[..4][i]; } else { assert s[i] == s[4..][i - 4]; }
      }
    }
  }

  lemma DecodedGroup(g: string, last: bool)
    requires |g| == 4 && DecodeGroup(g, last).Some?
    ensures forall i :: 0 <= i < 4 ==> IsDigit(g[i]) || (last && g[i] == '=' && i >= 2)
  {
  }

  // ---- Bytes to text ----

  const CHUNK: nat := 0x8000

  /** `String.fromCharCode` of each byte. */
  function BinaryString(b: seq<byte>): string {
    if b == [] then "" else BinaryString(b[..|b| - 1]) + [b[|b| - 1] as char]
  }

  function Codes(s: string): Option<seq<byte>> {
    if s == "" then Some([])
    else match Codes(s[..|s| - 1])
         case None => None
         case Some(b) => if s[|s| - 1] as int < 256 then Some(b + [s[|s| - 1] as int]) else None
  }

  /** `btoa` takes the codes for bytes, and throws when one is not. */
  function Btoa(binary: string): Option<string> {
    match Codes(binary)
    case None => None
    case Some(b) => Some(Encode(b))
  }

  lemma {:induction false} BinaryConcat(a: seq<byte>, b: seq<byte>)
    ensures BinaryString(a + b) == BinaryString(a) + BinaryString(b)
  {
    if b == [] {
      assert a + b == a;
    } else {
      BinaryConcat(a, b[..|b| - 1]);
      assert (a + b)[..|a + b| - 1] == a + b[..|b| - 1];
    }
  }

  lemma {:induction false} CodesOfBinary(b: seq<byte>)
    ensures Codes(BinaryString(b)) == Some(b)
  {
    if b != [] {
      CodesOfBinary(b[..|b| - 1]);
      var s, front := BinaryString(b), BinaryString(b[..|b| - 1]);
      assert s == front + [b[|b| - 1] as char];
      assert s[..|s| - 1] == front && s[|s| - 1] as int == b[|b| - 1];
      assert b == b[..|b| - 1] + [b[|b| - 1]];
    }
  }

  /** The 32 KiB chunks make up the same binary string as the whole, so its base64 is the same. */
  method ToBase64(bytes: seq<byte>) returns (b64: string)
    ensures b64 == Encode(bytes)
    ensures Decode(b64) == Some(bytes)
  {
    var binary, i := "", 0;
    while i < |bytes|
      invariant 0 <= i <= |bytes|
      invariant binary == BinaryString(bytes[..i])
    {
      var end := if i + CHUNK < |bytes| then i + CHUNK else |bytes|;
      BinaryConcat(bytes[..i], bytes[i..end]);
      assert bytes[..i] + bytes[i..end] == bytes[..end];
      binary := binary + BinaryString(bytes[i..end]);
      i := end;
    }
    assert bytes[..i] == bytes;
    CodesOfBinary(bytes);
    Base64RoundTrip(bytes);
    b64 := Btoa(binary).value;
  }
}
