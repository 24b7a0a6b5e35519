/** The streaming Base64 encoder: it keeps two bits of state between bytes, and appends exactly the
    Base64 text of section 4 of RFC 4648, with the padding optional as section 3.2 allows.
  */
module Base64 {
  import opened Basics

  type Sextet = x: int | 0 <= x < 64

  const BASE64_CHARS: string :=
    "ABCDEFGHIJKLMNOPQRSTUVWXYZ" + "abcdefghijklmnopqrstuvwxyz" + "0123456789+/"

  /** The letter for six bits, by the ranges of the alphabet. */
  function Letter(v: Sextet): char {
    if v < 26 then ('A' as int + v) as char
    else if v < 52 then ('a' as int + (v - 26)) as char
    else if v < 62 then ('0' as int + (v - 52)) as char
    else if v == 62 then '+' else '/'
  }

  /** The encoder's table is that alphabet. */
  lemma TableIsAlphabet(v: Sextet)
    ensures |BASE64_CHARS| == 64 && BASE64_CHARS[v] == Letter(v)
  {
  }

  // ---------------------------------------------------------------------------
  // The standard's encoding
  // ---------------------------------------------------------------------------

  /** The 24-bit group of three bytes, taken six bits at a time. */
  function Group(a: Octet, b: Octet, c: Octet): int {
    0x1_0000 * a + 0x100 * b + c
  }

  function Digit(group: int, k: nat): Sextet
    requires k < 4
  {
    match k
    case 0 => group / 0x4_0000 % 64
    case 1 => group / 0x1000 % 64
    case 2 => group / 0x40 % 64
    case 3 => group % 64
  }

  function Letters(group: int): string {
    [Letter(Digit(group, 0)), Letter(Digit(group, 1)), Letter(Digit(group, 2)), Letter(Digit(group, 3))]
  }

  /** Groups of three bytes, the last one filled up with zero bits and cut after the last data bit. */
  function Encode(bytes: seq<Octet>, padding: bool): string {
    if |bytes| == 0 then ""
    else if |bytes| == 1 then Letters(Group(bytes[0], 0, 0))[..2] + (if padding then "==" else "")
    else if |bytes| == 2 then Letters(Group(bytes[0], bytes[1], 0))[..3] + (if padding then "=" else "")
    else Letters(Group(bytes[0], bytes[1], bytes[2])) + Encode(bytes[3..], padding)
  }

  // ---------------------------------------------------------------------------
  // The streaming encoder
  // ---------------------------------------------------------------------------

  /** Four digits put together. */
  function FromDigits(d0: Sextet, d1: Sextet, d2: Sextet, d3: Sextet): int {
    0x4_0000 * d0 + 0x1000 * d1 + 0x40 * d2 + d3
  }

  lemma DigitsOf(d0: Sextet, d1: Sextet, d2: Sextet, d3: Sextet)
    ensures var g := FromDigits(d0, d1, d2, d3);
            Digit(g, 0) == d0 && Digit(g, 1) == d1 && Digit(g, 2) == d2 && Digit(g, 3) == d3
  {
    var g := FromDigits(d0, d1, d2, d3);
    assert g / 0x40 == 0x1000 * d0 + 0x40 * d1 + d2;
    assert g / 0x1000 == 0x40 * d0 + d1;
    assert g / 0x4_0000 == d0;
  }

  /** The digits of a group, byte by byte. */
  lemma DigitsByByte(a: Octet, b: Octet, c: Octet)
    ensures Digit(Group(a, b, c), 0) == a / 4
    ensures Digit(Group(a, b, c), 1) == (a % 4) * 16 + b / 16
    ensures Digit(Group(a, b, c), 2) == (b % 16) * 4 + c / 64
    ensures Digit(Group(a, b, c), 3) == c % 64
  {
    var d0, d1, d2, d3 := a / 4, (a % 4) * 16 + b / 16, (b % 16) * 4 + c / 64, c % 64;
    assert a == 4 * (a / 4) + a % 4;
    assert b == 16 * (b / 16) + b % 16;
    assert c == 64 * (c / 64) + c % 64;
    assert Group(a, b, c) == FromDigits(d0, d1, d2, d3);
    DigitsOf(d0, d1, d2, d3);
  }

  /** The letters of a group, each made from one byte or two adjacent ones. */
  lemma LettersByByte(a: Octet, b: Octet, c: Octet)
    ensures Letters(Group(a, b, c)) ==
            [Letter(a / 4), Letter((a % 4) * 16 + b / 16), Letter((b % 16) * 4 + c / 64), Letter(c % 64)]
  {
    DigitsByByte(a, b, c);
  }

  /** What is written after the last byte, with `bits` left over from it. */
  function Flush(state: nat, bits: Sextet, padding: bool): string {
    if state == 0 then ""
    else [Letter(bits)] + (if !padding then "" else if state == 1 then "==" else "=")
  }

  /** The letters a byte completes in each state. */
  function Emit(state: nat, bits: Sextet, byte: Octet): string
    requires Fits(state, bits)
  {
    if state == 0 then [Letter(byte / 4)]
    else if state == 1 then [Letter(byte / 16 + bits)]
    else [Letter(byte / 64 + bits), Letter(byte % 64)]
  }

  /** The bits a byte leaves over; the last byte of a group leaves none, and what was there stays unused. */
  function Leftover(state: nat, bits: Sextet, byte: Octet): Sextet {
    if state == 0 then (byte % 4) * 16 else if state == 1 then (byte % 16) * 4 else bits
  }

  function NextState(state: nat): nat {
    if state == 0 then 1 else if state == 1 then 2 else 0
  }

  /** The left-over bits stand above the place of the next ones. */
  predicate Fits(state: nat, bits: Sextet) {
    state <= 2 && (state == 1 ==> bits % 16 == 0) && (state == 2 ==> bits % 4 == 0)
  }

  /** The rest of the text from a state on. */
  function Stream(state: nat, bits: Sextet, rest: seq<Octet>, padding: bool): string
    requires Fits(state, bits)
    decreases |rest|
  {
    if rest == [] then Flush(state, bits, padding)
    else Emit(state, bits, rest[0])
         + Stream(NextState(state), Leftover(state, bits, rest[0]), rest[1..], padding)
  }

  lemma StreamStep(state: nat, bits: Sextet, rest: seq<Octet>, padding: bool)
    requires Fits(state, bits) && rest != []
    ensures Fits(NextState(state), Leftover(state, bits, rest[0]))
    ensures Stream(state, bits, rest, padding) ==
            Emit(state, bits, rest[0])
            + Stream(NextState(state), Leftover(state, bits, rest[0]), rest[1..], padding)
  {
  }

  lemma LastGroup(rest: seq<Octet>, bits: Sextet, padding: bool)
    requires |rest| <= 2
    ensures Stream(0, bits, rest, padding) == Encode(rest, padding)
  {
    if |rest| == 1 {
      StreamStep(0, bits, rest, padding);
      LettersByByte(rest[0], 0, 0);
    } else if |rest| == 2 {
      StreamStep(0, bits, rest, padding);
      StreamStep(1, Leftover(0, bits, rest[0]), rest[1..], padding);
      LettersByByte(rest[0], rest[1], 0);
    }
  }

  /** Three bytes from the start of a group make its four letters. */
  lemma WholeGroup(rest: seq<Octet>, bits: Sextet, padding: bool)
    requires |rest| >= 3
    ensures var bits2 := Leftover(1, Leftover(0, bits, rest[0]), rest[1]);
            Stream(0, bits, rest, padding) ==
            Letters(Group(rest[0], rest[1], rest[2])) + Stream(0, bits2, rest[3..], padding)
  {
    var one, two := rest[1..], rest[2..];
    var bits1 := Leftover(0, bits, rest[0]);
    var bits2 := Leftover(1, bits1, rest[1]);
    StreamStep(0, bits, rest, padding);
    assert one[1..] == two && one[0] == rest[1];
    StreamStep(1, bits1, one, padding);
    assert two[1..] == rest[3..] && two[0] == rest[2];
    StreamStep(2, bits2, two, padding);
    ghost var tail := Stream(0, bits2, rest[3..], padding);
    var e0, e1, e2 := Emit(0, bits, rest[0]), Emit(1, bits1, rest[1]), Emit(2, bits2, rest[2]);
    assert e0 + (e1 + (e2 + tail)) == (e0 + e1 + e2) + tail;
    LettersByByte(rest[0], rest[1], rest[2]);
    assert e0 + e1 + e2 == Letters(Group(rest[0], rest[1], rest[2]));
  }

  lemma {:induction false} StreamIsEncode(rest: seq<Octet>, bits: Sextet, padding: bool)
    ensures Stream(0, bits, rest, padding) == Encode(rest, padding)
    decreases |rest|
  {
    if |rest| <= 2 {
      LastGroup(rest, bits, padding);
    } else {
      WholeGroup(rest, bits, padding);
      StreamIsEncode(rest[3..], Leftover(1, Leftover(0, bits, rest[0]), rest[1]), padding);
    }
  }

  /** One byte: the letters it completes, the next state and the bits left over. Joining left-over bits to
      the next ones is an addition, since the two have no bit in common. */
  method EncodeByte(state: nat, lastStuff: Sextet, byte: Octet)
    returns (letters: string, nextState: nat, nextStuff: Sextet)
    requires Fits(state, lastStuff)
    ensures letters == Emit(state, lastStuff, byte)
    ensures nextState == NextState(state) && nextStuff == Leftover(state, lastStuff, byte)
  {
    nextStuff := lastStuff;
    if state == 0 {
      letters := [Letter(byte / 4)];
      nextStuff := (byte % 4) * 16;
      nextState := 1;
    } else if state == 1 {
      letters := [Letter(byte / 16 + lastStuff)];
      nextStuff := (byte % 16) * 4;
      nextState := 2;
    } else {
      letters := [Letter(byte / 64 + lastStuff)];
      letters := letters + [Letter(byte % 64)];
      nextState := 0;
    }
  }

  /** One turn of the encoder. */
  lemma EncodeTurn(done: string, state: nat, bits: Sextet, rest: seq<Octet>, padding: bool)
    requires Fits(state, bits) && rest != []
    ensures Fits(NextState(state), Leftover(state, bits, rest[0]))
    ensures done + Emit(state, bits, rest[0])
            + Stream(NextState(state), Leftover(state, bits, rest[0]), rest[1..], padding)
            == done + Stream(state, bits, rest, padding)
  {
    StreamStep(state, bits, rest, padding);
  }

  /** Encodes byte by byte, appending to what is already there. `lastStuff` holds the bits of the last
      byte that no letter has yet. */
  method ImageEncoder(image: seq<Octet>, padding: bool, prefix: string) returns (result: string)
    ensures result == prefix + Encode(image, padding)
  {
    StreamIsEncode(image, 0, padding);
    ghost var whole := Stream(0, 0, image, padding);
    result := prefix;
    var state, index := 0, 0;
    var lastStuff: Sextet := 0;
    assert image[index..] == image;
    while index < |image|
      invariant 0 <= index <= |image| && Fits(state, lastStuff)
      invariant result + Stream(state, lastStuff, image[index..], padding) == prefix + whole
    {
      EncodeTurn(result, state, lastStuff, image[index..], padding);
      assert image[index..][0] == image[index] && image[index..][1..] == image[index + 1..];
      var letters;
      letters, state, lastStuff := EncodeByte(state, lastStuff, image[index]);
      index := index + 1;
      result := result + letters;
    }
    assert image[index..] == [];
    var last := EncodeEnd(state, lastStuff, padding);
    result := result + last;
  }

  /** What is written after the last byte. */
  method EncodeEnd(state: nat, lastStuff: Sextet, padding: bool) returns (letters: string)
    requires Fits(state, lastStuff)
    ensures letters == Flush(state, lastStuff, padding)
  {
    letters := "";
    if state != 0 {
      letters := letters + [Letter(lastStuff)];
      if padding {
        if state == 1 {
          letters := letters + "==";
        } else {
          letters := letters + "=";
        }
      }
    }
  }

  // ---------------------------------------------------------------------------
  // Decoding
  // ---------------------------------------------------------------------------

  /** The six bits that a letter of the alphabet stands for. */
  function ValueOf(letter: char): Option<Sextet> {
    if 'A' <= letter <= 'Z' then Some((letter as int) - ('A' as int))
    else if 'a' <= letter <= 'z' then Some((letter as int) - ('a' as int) + 26)
    else if '0' <= letter <= '9' then Some((letter as int) - ('0' as int) + 52)
    else if letter == '+' then Some(62)
    else if letter == '/' then Some(63)
    else None
  }

  lemma ValueOfLetter(v: Sextet)
    ensures ValueOf(Letter(v)) == Some(v)
    ensures Letter(v) != '='
  {
  }

  /** Decodes whole groups of four letters, and at the end a group that is padded or cut short. */
  function Decode(text: string): Option<seq<Octet>> {
    if text == "" then Some([])
    else if |text| == 2 || (|text| == 4 && text[2..] == "==") then DecodeOne(text)
    else if |text| == 3 || (|text| == 4 && text[3..] == "=") then DecodeTwo(text)
    else if |text| < 4 then None
    else
      match (DecodeThree(text), Decode(text[4..]))
      case (Some(bytes), Some(rest)) => Some(bytes + rest)
      case _ => None
  }

  function DecodeOne(text: string): Option<seq<Octet>>
    requires |text| >= 2
  {
    match (ValueOf(text[0]), ValueOf(text[1]))
    case (Some(d0), Some(d1)) => Some([FromDigits(d0, d1, 0, 0) / 0x1_0000 % 256])
    case _ => None
  }

  function DecodeTwo(text: string): Option<seq<Octet>>
    requires |text| >= 3
  {
    match (ValueOf(text[0]), ValueOf(text[1]), ValueOf(text[2]))
    case (Some(d0), Some(d1), Some(d2)) =>
      var group := FromDigits(d0, d1, d2, 0);
      Some([group / 0x1_0000 % 256, group / 0x100 % 256])
    case _ => None
  }

  function DecodeThree(text: string): Option<seq<Octet>>
    requires |text| >= 4
  {
    match (ValueOf(text[0]), ValueOf(text[1]), ValueOf(text[2]), ValueOf(text[3]))
    case (Some(d0), Some(d1), Some(d2), Some(d3)) =>
      var group := FromDigits(d0, d1, d2, d3);
      Some([group / 0x1_0000 % 256, group / 0x100 % 256, group % 256])
    case _ => None
  }

  lemma BytesOf(a: Octet, b: Octet, c: Octet)
    ensures var g := Group(a, b, c);
            g / 0x1_0000 % 256 == a && g / 0x100 % 256 == b && g % 256 == c
  {
    var g := Group(a, b, c);
    assert g / 0x100 == 0x100 * a + b;
    assert g / 0x1_0000 == a;
  }

  lemma GroupDecodes(a: Octet, b: Octet, c: Octet, rest: string)
    ensures DecodeThree(Letters(Group(a, b, c)) + rest) == Some([a, b, c])
  {
    var g := Group(a, b, c);
    DigitsByByte(a, b, c);
    ValueOfLetter(Digit(g, 0));
    ValueOfLetter(Digit(g, 1));
    ValueOfLetter(Digit(g, 2));
    ValueOfLetter(Digit(g, 3));
    GroupFromDigits(a, b, c);
    BytesOf(a, b, c);
  }

  lemma GroupFromDigits(a: Octet, b: Octet, c: Octet)
    ensures var g := Group(a, b, c);
            FromDigits(Digit(g, 0), Digit(g, 1), Digit(g, 2), Digit(g, 3)) == g
  {
    DigitsByByte(a, b, c);
    assert a == 4 * (a / 4) + a % 4;
    assert b == 16 * (b / 16) + b % 16;
    assert c == 64 * (c / 64) + c % 64;
  }

  lemma ShortGroupsDecode(a: Octet, b: Octet, rest: string)
    ensures DecodeOne(Letters(Group(a, 0, 0))[..2] + rest) == Some([a])
    ensures DecodeTwo(Letters(Group(a, b, 0))[..3] + rest) == Some([a, b])
  {
    GroupFromDigits(a, 0, 0);
    GroupFromDigits(a, b, 0);
    DigitsByByte(a, 0, 0);
    DigitsByByte(a, b, 0);
    BytesOf(a, 0, 0);
    BytesOf(a, b, 0);
    ValueOfLetter(Digit(Group(a, 0, 0), 0));
    ValueOfLetter(Digit(Group(a, 0, 0), 1));
    ValueOfLetter(Digit(Group(a, b, 0), 0));
    ValueOfLetter(Digit(Group(a, b, 0), 1));
    ValueOfLetter(Digit(Group(a, b, 0), 2));
  }

  /** The padded text has four letters for every three bytes begun; without padding it has as many letters
      as it takes to hold the bits. */
  lemma {:induction false} EncodedLength(bytes: seq<Octet>, padding: bool)
    ensures |Encode(bytes, padding)| == TextLength(|bytes|, padding)
    decreases |bytes|
  {
    if |bytes| >= 3 {
      EncodedLength(bytes[3..], padding);
      ThreeMoreBytes(|bytes| - 3);
      assert |Encode(bytes, padding)| == 4 + |Encode(bytes[3..], padding)|;
    } else if |bytes| == 2 {
      assert |Encode(bytes, padding)| == if padding then 4 else 3;
    } else if |bytes| == 1 {
      assert |Encode(bytes, padding)| == if padding then 4 else 2;
    }
  }

  function TextLength(n: nat, padding: bool): nat {
    if padding then 4 * ((n + 2) / 3) else (8 * n + 5) / 6
  }

  lemma ThreeMoreBytes(n: nat)
    ensures 4 * ((n + 3 + 2) / 3) == 4 + 4 * ((n + 2) / 3)
    ensures (8 * (n + 3) + 5) / 6 == 4 + (8 * n + 5) / 6
  {
  }

  /** Decoding what was encoded, padded or not, gives the bytes back. */
  lemma {:induction false} DecodeEncoded(bytes: seq<Octet>, padding: bool)
    ensures Decode(Encode(bytes, padding)) == Some(bytes)
    decreases |bytes|
  {
    if 1 <= |bytes| <= 2 {
      LastGroupDecodes(bytes, padding);
    } else if |bytes| >= 3 {
      var rest := Encode(bytes[3..], padding);
      DecodeEncoded(bytes[3..], padding);
      EncodedLength(bytes[3..], padding);
      WholeGroupDecodes(bytes[0], bytes[1], bytes[2], rest);
      assert bytes == [bytes[0], bytes[1], bytes[2]] + bytes[3..];
    }
  }

  lemma LastGroupDecodes(bytes: seq<Octet>, padding: bool)
    requires 1 <= |bytes| <= 2
    ensures Decode(Encode(bytes, padding)) == Some(bytes)
  {
    if |bytes| == 1 {
      var two, pad := Letters(Group(bytes[0], 0, 0))[..2], if padding then "==" else "";
      OneByteDecodes(bytes[0], two, pad);
      assert Encode(bytes, padding) == two + pad && bytes == [bytes[0]];
    } else {
      var three, pad := Letters(Group(bytes[0], bytes[1], 0))[..3], if padding then "=" else "";
      TwoBytesDecode(bytes[0], bytes[1], three, pad);
      assert Encode(bytes, padding) == three + pad && bytes == [bytes[0], bytes[1]];
    }
  }

  lemma OneByteDecodes(a: Octet, two: string, pad: string)
    requires two == Letters(Group(a, 0, 0))[..2] && (pad == "" || pad == "==")
    ensures Decode(two + pad) == Some([a])
  {
    ShortGroupsDecode(a, 0, pad);
    assert (two + pad)[2..] == pad;
  }

  lemma TwoBytesDecode(a: Octet, b: Octet, three: string, pad: string)
    requires three == Letters(Group(a, b, 0))[..3] && (pad == "" || pad == "=")
    ensures Decode(three + pad) == Some([a, b])
  {
    ShortGroupsDecode(a, b, pad);
    ValueOfLetter(Digit(Group(a, b, 0), 2));
    assert (three + pad)[3..] == pad;
    assert pad == "=" ==> (three + pad)[2..][0] == three[2];
  }

  lemma WholeGroupDecodes(a: Octet, b: Octet, c: Octet, rest: string)
    requires |rest| == 0 || |rest| >= 2
    ensures var text := Letters(Group(a, b, c)) + rest;
            Decode(text) == match Decode(rest)
                            case None => None
                            case Some(bytes) => Some([a, b, c] + bytes)
  {
    var text := Letters(Group(a, b, c)) + rest;
    GroupDecodes(a, b, c, rest);
    assert text[4..] == rest;
    if |text| == 4 {
      NotPadded(a, b, c, text);
    }
  }

  /** Four letters of a whole group do not end like a padded one. */
  lemma NotPadded(a: Octet, b: Octet, c: Octet, text: string)
    requires text == Letters(Group(a, b, c)) + ""
    ensures text[2..] != "==" && text[3..] != "="
  {
    ValueOfLetter(Digit(Group(a, b, c), 3));
    assert text[2..][1] == text[3] && text[3..][0] == text[3];
  }

  /** Different images never encode to the same text. */
  lemma EncodeIsInjective(p: seq<Octet>, q: seq<Octet>, padding: bool)
    requires Encode(p, padding) == Encode(q, padding)
    ensures p == q
  {
    DecodeEncoded(p, padding);
    DecodeEncoded(q, padding);
  }

  /** The test vectors of section 10 of RFC 4648, and one for the last two letters of the alphabet. */
  lemma TestVectors()
    ensures Encode([102], true) == "Zg==" && Encode([102], false) == "Zg"
    ensures Encode([102, 111], true) == "Zm8=" && Encode([102, 111], false) == "Zm8"
    ensures Encode([102, 111, 111], true) == "Zm9v"
    ensures Encode([102, 111, 111, 98, 97, 114], true) == "Zm9vYmFy"
    ensures Encode([251, 255, 191], true) == "+/+/"
  {
    VectorF();
    VectorFo();
    VectorFoo();
    VectorBar();
    VectorLast();
    var foobar: seq<Octet> := [102, 111, 111, 98, 97, 114];
    assert foobar[3..] == [98, 97, 114];
    assert Encode([], true) == "";
  }

  lemma VectorF()
    ensures Letters(Group(102, 0, 0)) == "ZgAA"
  {
    LettersByByte(102, 0, 0);
  }

  lemma VectorFo()
    ensures Letters(Group(102, 111, 0)) == "Zm8A"
  {
    LettersByByte(102, 111, 0);
  }

  lemma VectorFoo()
    ensures Letters(Group(102, 111, 111)) == "Zm9v"
  {
    LettersByByte(102, 111, 111);
  }

  lemma VectorBar()
    ensures Letters(Group(98, 97, 114)) == "YmFy"
  {
    LettersByByte(98, 97, 114);
    assert Letter(24) == 'Y' && Letter(38) == 'm' && Letter(5) == 'F' && Letter(50) == 'y';
  }

  lemma VectorLast()
    ensures Letters(Group(251, 255, 191)) == "+/+/"
  {
    LettersByByte(251, 255, 191);
  }
}
