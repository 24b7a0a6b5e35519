/** The cookie jar: packing its cookies into a checked, compressed, encrypted payload, and
    replacing them from one. Compressor, cipher and text encoding are parameters.
  */
module CookieJar {
  import opened Basics
  import opened CookieCrc
  import opened CookieText
  import opened CookieFrame

  datatype Encrypted = Sealed(version: nat, data: seq<Octet>) | EncryptFailed(rc: nat)

  datatype Decrypted = Opened(data: seq<Octet>) | DecryptFailed(rc: nat)

  /** The libraries that the jar calls. */
  datatype Codec = Codec(
    zlib: Zlib,
    encrypt: seq<Octet> -> Encrypted,
    decrypt: (seq<Octet>, nat) -> Decrypted,
    toBase64: seq<Octet> -> string,
    fromBase64: string -> seq<Octet>)

  /** Everything that is packed by these libraries is unpacked to what it was. */
  ghost predicate LosslessCodec(c: Codec) {
    && Lossless(c.zlib)
    && (forall data :: c.encrypt(data).Sealed? ==>
          c.decrypt(c.encrypt(data).data, c.encrypt(data).version) == Opened(data))
    && (forall data :: c.fromBase64(c.toBase64(data)) == data)
  }

  type Checksum32 = bv32

  datatype Packed = Payload(version: nat, checksum: Checksum32, text: string) | PackFailed(rc: nat)

  datatype Unpacked =
    | Cookies(cookies: seq<Cookie>)
    | DecryptError(rc: nat)
    | ChecksumError
    | LengthException

  function TextChecksum(text: seq<Byte>): Checksum32 {
    ReferenceChecksum(text) as Checksum32
  }

  function PackSpec(c: Codec, cookies: seq<Cookie>): Packed {
    var serialized := Serialize(cookies);
    match c.encrypt(Frame(c.zlib, serialized))
    case EncryptFailed(rc) => PackFailed(rc)
    case Sealed(version, data) => Payload(version, TextChecksum(serialized), c.toBase64(data))
  }

  function UnpackSpec(c: Codec, version: nat, checksum: Checksum32, payload: string): Unpacked {
    match c.decrypt(c.fromBase64(payload), version)
    case DecryptFailed(rc) => DecryptError(rc)
    case Opened(data) =>
      match Unframe(c.zlib, data)
      case LengthError => LengthException
      case Text(serialized) =>
        if TextChecksum(serialized) != checksum then ChecksumError else Cookies(Parse(serialized))
  }

  /** Packing and unpacking gives the non-empty lines of the cookies in order, whatever the cookies are,
      when the serialized size is one that the frame carries. */
  lemma UnpackPacked(c: Codec, cookies: seq<Cookie>)
    requires LosslessCodec(c)
    requires |Serialize(cookies)| <= MAX_SIZE && Recoverable(|Serialize(cookies)|)
    requires PackSpec(c, cookies).Payload?
    ensures var p := PackSpec(c, cookies);
            UnpackSpec(c, p.version, p.checksum, p.text) == Cookies(NonEmpty(AllLines(cookies)))
  {
    FrameRoundTrip(c.zlib, Serialize(cookies));
    ParseSerialize(cookies);
  }

  /** Cookies without newlines come back exactly, but for empty ones; the empty jar does too. */
  lemma JarRoundTrip(c: Codec, cookies: seq<Cookie>)
    requires LosslessCodec(c)
    requires forall i :: 0 <= i < |cookies| ==> IsLine(cookies[i])
    requires |Serialize(cookies)| < 0x8000_0000
    requires PackSpec(c, cookies).Payload?
    ensures var p := PackSpec(c, cookies);
            UnpackSpec(c, p.version, p.checksum, p.text) == Cookies(NonEmpty(cookies))
  {
    UnpackPacked(c, cookies);
    LineFreeAllLines(cookies);
  }

  /** Unpacking answers with cookies exactly when the payload decrypts, the data has a text, and the text has
      the given checksum; the cookies are those that the text stands for. Each other case has its own
      error, and a failed decryption passes its code on. */
  lemma UnpackSucceedsExactly(c: Codec, version: nat, checksum: Checksum32, payload: string)
    ensures var d := c.decrypt(c.fromBase64(payload), version);
            var outcome := UnpackSpec(c, version, checksum, payload);
            && (outcome.Cookies? <==>
                  && d.Opened? && Unframe(c.zlib, d.data).Text?
                  && TextChecksum(Unframe(c.zlib, d.data).bytes) == checksum)
            && (outcome.Cookies? ==> outcome.cookies == Parse(Unframe(c.zlib, d.data).bytes))
            && (forall rc :: d == DecryptFailed(rc) <==> outcome == DecryptError(rc))
            && (outcome.LengthException? <==> d.Opened? && Unframe(c.zlib, d.data).LengthError?)
  {
  }

  /** Packing fails exactly when encryption does, with its code. */
  lemma PackFailsExactly(c: Codec, cookies: seq<Cookie>)
    ensures forall rc ::
              PackSpec(c, cookies) == PackFailed(rc)
              <==> c.encrypt(Frame(c.zlib, Serialize(cookies))) == EncryptFailed(rc)
  {
  }

  /** The checksum fits sixteen bits and is the bit-by-bit one. */
  lemma ChecksumIsReference(text: seq<Byte>)
    ensures TextChecksum(text) < 0x1_0000 && TextChecksum(text) as Crc == ReferenceChecksum(text)
  {
  }

  /** A payload whose text was damaged within sixteen bits is refused: it never replaces the cookies. */
  lemma DamageIsRefused(c: Codec, cookies: seq<Cookie>, version: nat, payload: string,
                        damaged: seq<Byte>, start: nat)
    requires PackSpec(c, cookies).Payload?
    requires c.decrypt(c.fromBase64(payload), version).Opened?
    requires Unframe(c.zlib, c.decrypt(c.fromBase64(payload), version).data) == Text(damaged)
    requires |damaged| == |Serialize(cookies)| && damaged != Serialize(cookies)
    requires SameOutside(AllBits(Serialize(cookies)), AllBits(damaged), start)
    ensures UnpackSpec(c, version, PackSpec(c, cookies).checksum, payload) == ChecksumError
  {
    BurstChangesChecksum(Serialize(cookies), damaged, start);
    WideningKeepsDifference(ReferenceChecksum(Serialize(cookies)), ReferenceChecksum(damaged));
  }

  lemma WideningKeepsDifference(s: Crc, t: Crc)
    requires s != t
    ensures s as Checksum32 != t as Checksum32
  {
  }

  /** There is nothing in the data that could be decompressed. */
  predicate Unreadable(z: Zlib, data: seq<Octet>) {
    |data| <= 4 || z.inflate(data[4..]).Corrupt?
  }

  /** Of all unreadable data, that with a length beyond 31 bits raises the length error; all other passes
      as an empty jar exactly when the checksum given is zero, the checksum of no text. */
  lemma CorruptDataIsEmptyJar(c: Codec, version: nat, checksum: Checksum32, payload: string)
    requires c.decrypt(c.fromBase64(payload), version).Opened?
    requires Unreadable(c.zlib, c.decrypt(c.fromBase64(payload), version).data)
    ensures var data := c.decrypt(c.fromBase64(payload), version).data;
            UnpackSpec(c, version, checksum, payload) ==
            if |data| > 4 && ReadHeader(data) >= 0x8000_0000 then LengthException
            else if checksum == 0 then Cookies([]) else ChecksumError
  {
    EmptyChecksum();
    EmptyText();
  }

  lemma EmptyChecksum()
    ensures TextChecksum([]) == 0
  {
    assert AllBits([]) == [];
    assert ShiftBits(INITIAL, []) == INITIAL;
  }

  method ChecksumOf(text: seq<Byte>) returns (checksum: Checksum32)
    ensures checksum == TextChecksum(text)
  {
    var crc := CookieCrc.Checksum(text);
    checksum := crc as Checksum32;
  }

  class Jar {
    var cookies: seq<Cookie>
    var refreshed: bool

    constructor ()
      ensures cookies == [] && !refreshed
    {
      cookies, refreshed := [], false;
    }

    method SetCookies(newCookies: seq<Cookie>)
      modifies this
      ensures cookies == newCookies && refreshed
    {
      cookies := newCookies;
      refreshed := true;
    }

    method MarkAsStale()
      modifies `refreshed
      ensures !refreshed
    {
      refreshed := false;
    }

    method Pack(c: Codec) returns (packed: Packed)
      ensures packed == PackSpec(c, cookies)
      ensures forall rc ::
                c.encrypt(Frame(c.zlib, Serialize(cookies))) == EncryptFailed(rc) ==> packed == PackFailed(rc)
    {
      var serialized := SerializeCookies(cookies);
      var checksum := ChecksumOf(serialized);
      var framed := Compress(c.zlib, serialized);
      match c.encrypt(framed) {
        case EncryptFailed(rc) => packed := PackFailed(rc);
        case Sealed(version, data) => packed := Payload(version, checksum, c.toBase64(data));
      }
    }

    /** Success replaces the cookies and marks them stale; every failure leaves both as they were. */
    method Unpack(c: Codec, version: nat, checksum: Checksum32, payload: string) returns (outcome: Unpacked)
      modifies this
      ensures outcome == UnpackSpec(c, version, checksum, payload)
      ensures forall rc :: c.decrypt(c.fromBase64(payload), version) == DecryptFailed(rc) ==>
                outcome == DecryptError(rc) && cookies == old(cookies) && refreshed == old(refreshed)
      ensures outcome.Cookies? <==>
                && c.decrypt(c.fromBase64(payload), version).Opened?
                && var text := Unframe(c.zlib, c.decrypt(c.fromBase64(payload), version).data);
                   text.Text? && TextChecksum(text.bytes) == checksum
      ensures outcome.Cookies? ==> cookies == outcome.cookies && !refreshed
      ensures !outcome.Cookies? ==> cookies == old(cookies) && refreshed == old(refreshed)
    {
      var decrypted := c.decrypt(c.fromBase64(payload), version);
      if decrypted.DecryptFailed? {
        return DecryptError(decrypted.rc);
      }
      var uncompressed := Uncompress(c.zlib, decrypted.data);
      if uncompressed.LengthError? {
        return LengthException;
      }
      var serialized := uncompressed.bytes;
      var actualChecksum := ChecksumOf(serialized);
      if actualChecksum != checksum {
        return ChecksumError;
      }
      var parsed := Deserialize(serialized, []);
      cookies := parsed;
      refreshed := false;
      outcome := Cookies(parsed);
    }
  }
}
