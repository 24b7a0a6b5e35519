/** The frame around compressed cookies: four bytes of length, most significant first, then the
    compressed text. The compressor itself is a parameter.
  */
module CookieFrame {
  import opened Basics
  import opened CookieCrc

  datatype Inflated = Data(bytes: seq<Byte>) | Corrupt

  /** A compression library. */
  datatype Zlib = Zlib(deflate: seq<Byte> -> seq<Octet>, inflate: seq<Octet> -> Inflated)

  /** What a lossless compressor promises; its streams are never empty. */
  ghost predicate Lossless(z: Zlib) {
    forall s :: z.deflate(s) != [] && z.inflate(z.deflate(s)) == Data(s)
  }

  datatype Uncompressed = Text(bytes: seq<Byte>) | LengthError

  /** The longest string the library can hold; asking for more throws. */
  const MAX_SIZE: nat := 0x3fff_ffff_ffff_ffff

  const TWO_31: nat := 0x8000_0000
  const TWO_32: nat := 0x1_0000_0000

  function Header(n: nat): seq<Octet> {
    [n / 0x100_0000 % 256, n / 0x1_0000 % 256, n / 0x100 % 256, n % 256]
  }

  function ReadHeader(data: seq<Octet>): nat
    requires |data| >= 4
  {
    var d0: int, d1: int, d2: int := data[0], data[1], data[2];
    d0 * 0x100_0000 + d1 * 0x1_0000 + d2 * 0x100 + data[3]
  }

  /** The size to expect: the header is assembled in a signed 32-bit integer and then widened to
      64 bits unsigned. */
  function ExpectedSize(data: seq<Octet>): nat
    requires |data| >= 4
  {
    var v := ReadHeader(data);
    if v < TWO_31 then v else v + 0x1_0000_0000_0000_0000 - TWO_32
  }

  function Zeros(n: nat): seq<Byte> {
    seq(n, _ => 0)
  }

  function Frame(z: Zlib, text: seq<Byte>): seq<Octet> {
    if text == [] then [0, 0, 0, 0] else Header(|text|) + z.deflate(text)
  }

  /** Doubles a buffer until it holds `need` bytes. */
  function Grow(len: nat, need: nat): (size: nat)
    requires len >= 1
    ensures size >= len && size >= need
    decreases need - len
  {
    if len >= need then len else Grow(2 * len, need)
  }

  /** What the bytes are unpacked to. The text keeps the size of the buffer it was unpacked into. */
  function Unframe(z: Zlib, data: seq<Octet>): Uncompressed {
    if |data| <= 4 then Text([])
    else
      var expected := ExpectedSize(data);
      var start := if expected > 1 then expected else 1;
      match z.inflate(data[4..])
      case Corrupt => if start > MAX_SIZE then LengthError else Text([])
      case Data(text) =>
        var len := Grow(start, |text|);
        if len > MAX_SIZE then LengthError else Text(text + Zeros(len - |text|))
  }

  method Compress(z: Zlib, str: seq<Byte>) returns (result: seq<Octet>)
    ensures result == Frame(z, str)
  {
    var nbytes := |str|;
    if nbytes == 0 {
      return [0, 0, 0, 0];
    }
    result := [];
    var len := nbytes + nbytes / 100 + 13;
    var bufError := true;
    while bufError
      invariant len >= 1
      invariant !bufError ==> result == Frame(z, str)
      decreases bufError, |z.deflate(str)| - len
    {
      var deflated := z.deflate(str);
      bufError := |deflated| > len;
      if bufError {
        len := len * 2;
      } else {
        result := [nbytes / 0x100_0000 % 256, nbytes / 0x1_0000 % 256,
                   nbytes / 0x100 % 256, nbytes % 256] + deflated;
      }
    }
  }

  method Uncompress(z: Zlib, data: seq<Octet>) returns (result: Uncompressed)
    ensures result == Unframe(z, data)
  {
    if |data| <= 4 {
      return Text([]);
    }
    result := Text([]);
    var expectedSize := ExpectedSize(data);
    var len := if expectedSize > 1 then expectedSize else 1;
    var inflated := z.inflate(data[4..]);
    var bufError := true;
    while bufError
      invariant len >= 1
      invariant bufError && inflated.Data? ==>
                  Grow(if expectedSize > 1 then expectedSize else 1, |inflated.bytes|) == Grow(len, |inflated.bytes|)
      invariant bufError && inflated.Corrupt? ==> len == if expectedSize > 1 then expectedSize else 1
      invariant if bufError then result == Text([]) else result == Unframe(z, data)
      decreases bufError, if inflated.Data? then |inflated.bytes| - len else 0
    {
      if len > MAX_SIZE {
        return LengthError;
      }
      match inflated {
        case Corrupt =>
          bufError := false;
        case Data(text) =>
          bufError := |text| > len;
          if bufError {
            len := len * 2;
          } else {
            result := Text(text + Zeros(len - |text|));
          }
      }
    }
  }

  // ---------------------------------------------------------------------------
  // Round trip
  // ---------------------------------------------------------------------------

  function Pow2(k: nat): nat {
    if k == 0 then 1 else 2 * Pow2(k - 1)
  }

  predicate IsPow2(n: nat) {
    exists k: nat :: k <= n && n == Pow2(k)
  }

  /** The sizes a frame carries faithfully. Beyond 31 bits the length field loses information, and only
      a power of two is found again, by doubling from one. */
  ghost predicate Recoverable(n: nat) {
    n < 0x8000_0000 || (n >= 0x1_0000_0000 && IsPow2(n))
  }

  lemma HeaderRoundTrip(n: nat, rest: seq<Octet>)
    ensures ReadHeader(Header(n) + rest) == n % TWO_32
  {
    HeaderDigits(n);
  }

  /** The header has the most significant byte first: one more byte at the end of the number moves the
      others up. */
  lemma HeaderIsBigEndian(n: nat, low: Octet)
    ensures |Header(n)| == 4
    ensures Header(256 * n + low) == Header(n)[1..] + [low]
    ensures Header(0x0102_0304) == [1, 2, 3, 4]
  {
    assert (256 * n + low) / 256 == n;
    assert (256 * n + low) / 0x1_0000 == n / 0x100;
    assert (256 * n + low) / 0x100_0000 == n / 0x1_0000;
  }

  lemma HeaderDigits(n: nat)
    ensures n % TWO_32 == (n / 0x100_0000 % 256) * 0x100_0000 + (n / 0x1_0000 % 256) * 0x1_0000
                          + (n / 0x100 % 256) * 0x100 + n % 256
  {
    var n1 := n / 0x100;
    var n2 := n1 / 0x100;
    var n3 := n2 / 0x100;
    assert n / 0x1_0000 == n2 && n / 0x100_0000 == n3;
    var low := (n3 % 256) * 0x100_0000 + (n2 % 256) * 0x1_0000 + (n1 % 256) * 0x100 + n % 256;
    assert n == (n3 / 256) * TWO_32 + low;
  }

  lemma {:induction false} GrowDoubles(len: nat, need: nat) returns (k: nat)
    requires len >= 1
    ensures Grow(len, need) == len * Pow2(k)
    decreases need - len
  {
    k := 0;
    if len < need {
      var j := GrowDoubles(2 * len, need);
      k := j + 1;
      assert 2 * len * Pow2(j) == len * (2 * Pow2(j));
    }
  }

  lemma {:induction false} GrowReachesPow2(i: nat, k: nat)
    requires i <= k
    ensures Pow2(i) >= 1 && Grow(Pow2(i), Pow2(k)) == Pow2(k)
    decreases k - i
  {
    Pow2Monotone(i, k);
    if i < k {
      GrowReachesPow2(i + 1, k);
    }
  }

  lemma {:induction false} Pow2Monotone(i: nat, k: nat)
    requires i <= k
    ensures 1 <= i + 1 <= Pow2(i) && (i < k ==> Pow2(i) < Pow2(k))
    decreases k
  {
    if i < k {
      Pow2Monotone(i, k - 1);
    } else if k > 0 {
      Pow2Monotone(k - 1, k - 1);
    }
  }

  /** An odd factor shares nothing with a power of two. */
  lemma {:induction false} OddFactor(m: nat, v: nat, odd: nat, q: nat) returns (r: nat)
    requires odd % 2 == 1 && v * odd == q * Pow2(m)
    ensures v == r * Pow2(m)
  {
    if m == 0 {
      r := v;
    } else {
      var half := Pow2(m - 1);
      assert q * Pow2(m) == 2 * (q * half);
      EvenFactor(v, odd);
      var w := v / 2;
      assert v == 2 * w;
      assert 2 * (w * odd) == v * odd;
      r := OddFactor(m - 1, w, odd, q);
      assert r * Pow2(m) == 2 * (r * half);
    }
  }

  lemma EvenFactor(v: nat, odd: nat)
    requires odd % 2 == 1 && v * odd % 2 == 0
    ensures v % 2 == 0
  {
    if v % 2 == 1 {
      OddProduct(v / 2, odd / 2);
    }
  }

  lemma OddProduct(a: nat, b: nat)
    ensures (2 * a + 1) * (2 * b + 1) % 2 == 1
  {
    assert (2 * a + 1) * (2 * b + 1) == 2 * (2 * a * b + a + b) + 1;
  }

  lemma Pow2Of32()
    ensures Pow2(32) == TWO_32
  {
    assert Pow2(8) == 256;
    assert Pow2(16) == 0x1_0000;
    assert Pow2(24) == 0x100_0000;
  }

  /** A size that doubling reaches from the value of its own length field has a multiple of 2^32
      in that field. */
  lemma DoubledIsMultiple(v: nat, n: nat, k: nat) returns (r: nat)
    requires n >= TWO_32 && v == n % TWO_32 && n == v * Pow2(k)
    ensures v == r * TWO_32
  {
    Pow2Of32();
    var odd := Pow2(k) - 1;
    var q := n / TWO_32;
    assert v * odd == v * Pow2(k) - v;
    assert q * TWO_32 == n - v;
    r := OddFactor(32, v, odd, q);
  }

  lemma NeverDoubled(v: nat, n: nat, k: nat)
    requires 0 < v < TWO_32 <= n && n % TWO_32 == v
    ensures n != v * Pow2(k)
  {
    if n == v * Pow2(k) {
      var r := DoubledIsMultiple(v, n, k);
    }
  }

  lemma {:induction false} Pow2Splits(i: nat, j: nat)
    ensures Pow2(i + j) == Pow2(i) * Pow2(j)
  {
    if i == 0 {
    } else {
      Pow2Splits(i - 1, j);
      DoubleProduct(Pow2(i - 1), Pow2(j));
      assert Pow2(i + j) == 2 * Pow2(i - 1 + j);
    }
  }

  lemma DoubleProduct(a: nat, b: nat)
    ensures 2 * (a * b) == (2 * a) * b
  {
  }

  lemma LargePow2IsMultiple(n: nat)
    requires n >= TWO_32 && IsPow2(n)
    ensures n % TWO_32 == 0
  {
    var k: nat :| k <= n && n == Pow2(k);
    Pow2Of32();
    if k < 32 {
      Pow2Monotone(k, 32);
    } else {
      Pow2Splits(k - 32, 32);
      MultipleOfTwo32(Pow2(k - 32));
    }
  }

  lemma MultipleOfTwo32(m: nat)
    ensures m * TWO_32 % TWO_32 == 0
  {
  }

  /** The buffer that unpacking starts with and grows ends at the size of the text exactly
      for recoverable sizes. */
  lemma BufferFits(n: nat, expected: nat)
    requires 1 <= n <= MAX_SIZE
    requires var v := n % TWO_32; expected == if v < TWO_31 then v else v + 0x1_0000_0000_0000_0000 - TWO_32
    ensures Grow(if expected > 1 then expected else 1, n) == n <==> Recoverable(n)
  {
    var v := n % TWO_32;
    var start := if expected > 1 then expected else 1;
    if n >= TWO_32 {
      if IsPow2(n) {
        LargePow2IsMultiple(n);
        var k: nat :| k <= n && n == Pow2(k);
        GrowReachesPow2(0, k);
      } else {
        var k := GrowDoubles(start, n);
        if v > 0 && v < TWO_31 {
          NeverDoubled(v, n, k);
        } else if v == 0 {
          Pow2Monotone(k, k);
        }
      }
    }
  }

  /** Exactly the recoverable sizes come back as they were, for every lossless compressor; of the others, those
      whose length has the top bit of the header set fail, and the rest fail or come back with zeros
      behind them. */
  lemma FrameRoundTrip(z: Zlib, text: seq<Byte>)
    requires Lossless(z) && |text| <= MAX_SIZE
    ensures Unframe(z, Frame(z, text)) == Text(text) <==> Recoverable(|text|)
    ensures |text| % 0x1_0000_0000 >= 0x8000_0000 ==> Unframe(z, Frame(z, text)) == LengthError
    ensures Unframe(z, Frame(z, text)).Text? ==>
              exists zeros: nat :: Unframe(z, Frame(z, text)) == Text(text + Zeros(zeros))
  {
    if text == [] {
      assert text + Zeros(0) == text;
    } else {
      var data := Frame(z, text);
      assert z.deflate(text) != [];
      assert data[4..] == z.deflate(text);
      HeaderRoundTrip(|text|, z.deflate(text));
      BufferFits(|text|, ExpectedSize(data));
      var start := if ExpectedSize(data) > 1 then ExpectedSize(data) else 1;
      assert Grow(start, |text|) == |text| ==> text + Zeros(0) == text;
    }
  }
}
