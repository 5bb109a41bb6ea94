/**
 * The registry's HMAC-SHA256 encoders.  An encoder holds a secret that must
 * be present and non-empty; it encodes a string as the lower-case
 * hexadecimal rendering of the MAC of that string, and a stored hash
 * matches a string exactly when it equals that rendering.  The MAC itself
 * is an input of the model.  The encoders that report an encode type are
 * collected once into a registry keyed by that type.
 */
module Encoding {
  import opened Common
  import opened Registries

  // ---------------------------------------------------------------------
  // bytesToHex
  // ---------------------------------------------------------------------

  /** A Java byte: signed, from -128 to 127. */
  type JByte = b: int | -128 <= b < 128

  /** The unsigned value of a byte, which `%02x` prints. */
  function Unsigned(b: JByte): (v: nat)
    ensures v < 256 && (v - b) % 256 == 0
  {
    if b < 0 then b + 256 else b
  }

  /** String.format("%02x", b): two lower-case hexadecimal digits. */
  function ByteHex(b: JByte): (s: string)
    ensures |s| == 2 && IsLowerHex(s[0]) && IsLowerHex(s[1])
  {
    [HexDigit(Unsigned(b) / 16), HexDigit(Unsigned(b) % 16)]
  }

  /** The rendering of a byte array: the two digits of every byte, in order. */
  function Hex(bytes: seq<JByte>): (s: string)
    ensures |s| == 2 * |bytes|
    ensures forall i :: 0 <= i < |s| ==> IsLowerHex(s[i])
  {
    if bytes == [] then ""
    else Hex(bytes[..|bytes| - 1]) + ByteHex(bytes[|bytes| - 1])
  }

  /** Characters 2i and 2i+1 of the rendering are the two digits of byte i. */
  lemma {:induction false} HexAt(bytes: seq<JByte>, i: nat)
    requires i < |bytes|
    ensures Hex(bytes)[2 * i..2 * i + 2] == ByteHex(bytes[i])
    decreases |bytes|
  {
    var n := |bytes|;
    var front := bytes[..n - 1];
    assert Hex(bytes) == Hex(front) + ByteHex(bytes[n - 1]);
    if i < n - 1 {
      HexAt(front, i);
      assert Hex(bytes)[2 * i..2 * i + 2] == Hex(front)[2 * i..2 * i + 2];
    } else {
      assert Hex(bytes)[2 * i..2 * i + 2] == ByteHex(bytes[n - 1]);
    }
  }

  /** The loop of bytesToHex, appending two digits per byte to a StringBuilder. */
  method BytesToHex(bytes: seq<JByte>) returns (s: string)
    ensures s == Hex(bytes)
  {
    s := "";
    var i := 0;
    while i < |bytes|
      invariant 0 <= i <= |bytes|
      invariant s == Hex(bytes[..i])
    {
      assert bytes[..i + 1][..i] == bytes[..i];
      s := s + ByteHex(bytes[i]);
      i := i + 1;
    }
    assert bytes[..i] == bytes;
  }

  // ----- decoding ---------------------------------------------------------

  /** The byte whose two digits are `hi` and `lo`. */
  function HexByte(hi: char, lo: char): (b: JByte)
    requires IsLowerHex(hi) && IsLowerHex(lo)
  {
    var v := HexValue(hi) * 16 + HexValue(lo);
    if v >= 128 then v - 256 else v
  }

  /** Reads back a rendering: None for an odd length or a character that is not a lower-case hex digit. */
  function Unhex(s: string): (r: Option<seq<JByte>>)
    ensures r.Some? ==> |s| == 2 * |r.value|
    decreases |s|
  {
    if |s| == 0 then Some([])
    else if |s| < 2 || !IsLowerHex(s[|s| - 2]) || !IsLowerHex(s[|s| - 1]) then None
    else
      match Unhex(s[..|s| - 2])
      case None => None
      case Some(front) => Some(front + [HexByte(s[|s| - 2], s[|s| - 1])])
  }

  /** The two digits of a byte read back as that byte. */
  lemma ByteHexRoundTrip(b: JByte)
    ensures HexByte(ByteHex(b)[0], ByteHex(b)[1]) == b
  {
    var u := Unsigned(b);
    HexValueOfDigit(u / 16);
    HexValueOfDigit(u % 16);
    assert HexValue(ByteHex(b)[0]) * 16 + HexValue(ByteHex(b)[1]) == u;
  }

  /** The rendering is decodable: reading it back gives the bytes. */
  lemma {:induction false} HexRoundTrip(bytes: seq<JByte>)
    ensures Unhex(Hex(bytes)) == Some(bytes)
    decreases |bytes|
  {
    if bytes != [] {
      var n := |bytes|;
      var front := bytes[..n - 1];
      HexRoundTrip(front);
      var b := bytes[n - 1];
      assert front + [b] == bytes;
      var s := Hex(bytes);
      assert s == Hex(front) + ByteHex(b);
      AppendTwo(Hex(front), ByteHex(b));
      ByteHexRoundTrip(b);
      assert HexByte(s[|s| - 2], s[|s| - 1]) == b;
      assert Unhex(s) == Some(front + [b]);
    }
  }

  /** Distinct byte arrays have distinct renderings. */
  lemma HexInjective(a: seq<JByte>, b: seq<JByte>)
    requires Hex(a) == Hex(b)
    ensures a == b
  {
    HexRoundTrip(a);
    HexRoundTrip(b);
  }

  // ---------------------------------------------------------------------
  // The encoders
  // ---------------------------------------------------------------------

  /** The encode types the registry asks for. */
  datatype EncodeType = FunctionKey | JwtToken | Password

  /** Enum.name(). */
  function EncodeTypeName(t: EncodeType): string {
    match t
    case FunctionKey => "FUNCTION_KEY"
    case JwtToken => "JWT_TOKEN"
    case Password => "PASSWORD"
  }

  /** HMAC-SHA256 of the UTF-8 bytes of the data under the UTF-8 bytes of the secret. */
  type Mac = (string, string) -> seq<JByte>

  /** An encoder that passed its secret check. */
  datatype HmacEncoder = HmacEncoder(secret: string)

  /** The exceptions a secret check raises. */
  datatype SecretError = IllegalArgument(message: string) | IllegalState(message: string)

  /** AbstractSha256EncodeAdapter's constructor: `None` is a null secret. */
  function NewSha256Encoder(secret: Option<string>): (r: Result<HmacEncoder, SecretError>)
    ensures r.Ok? <==> secret.Some? && |secret.value| > 0
    ensures r.Ok? ==> r.value.secret == secret.value
    ensures r.Err? ==> r.error == IllegalArgument("Secret key cannot be empty")
  {
    if secret.None? || secret.value == "" then Err(IllegalArgument("Secret key cannot be empty"))
    else Ok(HmacEncoder(secret.value))
  }

  /** Sha256EncodeAdapter.init, run once the secret has been injected. */
  function InitSha256Encoder(secret: Option<string>): (r: Result<HmacEncoder, SecretError>)
    ensures r.Ok? <==> secret.Some? && |secret.value| > 0
    ensures r.Ok? ==> r.value.secret == secret.value
    ensures r.Err? ==> r.error == IllegalState("Secret key for hashing cannot be empty")
  {
    if secret.None? || secret.value == "" then Err(IllegalState("Secret key for hashing cannot be empty"))
    else Ok(HmacEncoder(secret.value))
  }

  /** encode: the hexadecimal rendering of the MAC. */
  function Encode(mac: Mac, e: HmacEncoder, data: string): string {
    Hex(mac(e.secret, data))
  }

  /** matches: the stored hash equals the encoding of the data. */
  predicate Matches(mac: Mac, e: HmacEncoder, data: string, hashed: string) {
    Encode(mac, e, data) == hashed
  }

  /**
   * A hash matches exactly when it is the rendering of the data's MAC: it
   * then has two lower-case hex digits per MAC byte and reads back as the
   * MAC; and the encoding of any data matches that data.
   */
  lemma MatchesIff(mac: Mac, e: HmacEncoder, data: string, hashed: string)
    ensures Matches(mac, e, data, hashed) <==> Unhex(hashed) == Some(mac(e.secret, data))
    ensures Matches(mac, e, data, hashed) ==>
              |hashed| == 2 * |mac(e.secret, data)| && forall i :: 0 <= i < |hashed| ==> IsLowerHex(hashed[i])
    ensures Matches(mac, e, data, Encode(mac, e, data))
  {
    var bytes := mac(e.secret, data);
    HexRoundTrip(bytes);
    if Unhex(hashed) == Some(bytes) {
      UnhexSound(hashed);
    }
  }

  /** Whatever reads back as bytes is the rendering of those bytes. */
  lemma {:induction false} UnhexSound(s: string)
    requires Unhex(s).Some?
    ensures Hex(Unhex(s).value) == s
    decreases |s|
  {
    if |s| > 0 {
      var t := s[..|s| - 2];
      UnhexSound(t);
      var front := Unhex(t).value;
      var b := HexByte(s[|s| - 2], s[|s| - 1]);
      var bytes := front + [b];
      assert Unhex(s) == Some(bytes);
      assert bytes[..|bytes| - 1] == front;
      assert Hex(bytes) == t + ByteHex(b);
      HexByteDigits(s[|s| - 2], s[|s| - 1]);
      LastTwo(s);
    }
  }

  /** Two characters appended to a string are its last two, and what precedes them is the string. */
  lemma AppendTwo(a: string, b: string)
    requires |b| == 2
    ensures var s := a + b;
            s[..|s| - 2] == a && s[|s| - 2] == b[0] && s[|s| - 1] == b[1]
  {
    var s := a + b;
    assert |s[..|s| - 2]| == |a|;
    forall i | 0 <= i < |a| ensures s[..|s| - 2][i] == a[i] {
    }
  }

  /** A string of two or more characters is its front followed by its last two characters. */
  lemma LastTwo(s: string)
    requires |s| >= 2
    ensures s == s[..|s| - 2] + [s[|s| - 2], s[|s| - 1]]
  {
    var u := s[..|s| - 2] + [s[|s| - 2], s[|s| - 1]];
    assert |u| == |s|;
    forall i | 0 <= i < |s| ensures u[i] == s[i] {
      if i < |s| - 2 {
        assert u[i] == s[..|s| - 2][i];
      }
    }
  }

  /** Two lower-case digits are the rendering of the byte they read as. */
  lemma HexByteDigits(hi: char, lo: char)
    requires IsLowerHex(hi) && IsLowerHex(lo)
    ensures ByteHex(HexByte(hi, lo)) == [hi, lo]
  {
    var u := HexValue(hi) * 16 + HexValue(lo);
    assert Unsigned(HexByte(hi, lo)) == u;
    assert u / 16 == HexValue(hi) && u % 16 == HexValue(lo);
    DigitOfHexValue(hi);
    DigitOfHexValue(lo);
  }

  lemma DigitOfHexValue(c: char)
    requires IsLowerHex(c)
    ensures HexDigit(HexValue(c)) == c
  {
  }

  // ---------------------------------------------------------------------
  // EncodeAdapterFactory
  // ---------------------------------------------------------------------

  /** EncodeAdapterFactory's constructor: the encoders keyed by the type each reports. */
  function BuildEncoderRegistry(entries: seq<(EncodeType, HmacEncoder)>): Result<map<EncodeType, HmacEncoder>, EncodeType> {
    ToMap(entries)
  }

  /** getAdapter. */
  function GetEncoder(registry: map<EncodeType, HmacEncoder>, t: EncodeType): Result<HmacEncoder, string> {
    Lookup(registry, t, EncodeTypeName(t))
  }

  /** The encoders of the system: the function-key encoder and the JWT-token encoder, each with its own secret. */
  function ShownEncoders(functionSecret: string, tokenSecret: string): seq<(EncodeType, HmacEncoder)> {
    [(FunctionKey, HmacEncoder(functionSecret)), (JwtToken, HmacEncoder(tokenSecret))]
  }

  /**
   * The registry of the system's encoders builds; FUNCTION_KEY and
   * JWT_TOKEN find the encoder with their own secret, and PASSWORD, which
   * no encoder reports, is unsupported.
   */
  lemma EncoderRegistryContents(functionSecret: string, tokenSecret: string)
    ensures BuildEncoderRegistry(ShownEncoders(functionSecret, tokenSecret)).Ok?
    ensures var registry := BuildEncoderRegistry(ShownEncoders(functionSecret, tokenSecret)).value;
            && GetEncoder(registry, FunctionKey) == Ok(HmacEncoder(functionSecret))
            && GetEncoder(registry, JwtToken) == Ok(HmacEncoder(tokenSecret))
            && GetEncoder(registry, Password) == Err("unsupported type: PASSWORD")
  {
    var entries := ShownEncoders(functionSecret, tokenSecret);
    ToMapSpec(entries);
    assert Keys(entries) == [FunctionKey, JwtToken];
    var registry := BuildEncoderRegistry(entries).value;
    assert registry.Keys == {FunctionKey, JwtToken} by {
      assert registry.Keys == set i | 0 <= i < |entries| :: entries[i].0;
    }
    assert entries[0].0 == FunctionKey && entries[1].0 == JwtToken;
    assert "unsupported type: " + "PASSWORD" == "unsupported type: PASSWORD";
  }

  /** Two encoders reporting the same type make the factory's construction fail on that type. */
  lemma DuplicateEncodeTypeFails(entries: seq<(EncodeType, HmacEncoder)>, i: nat, j: nat)
    requires i < j < |entries| && entries[i].0 == entries[j].0
    ensures BuildEncoderRegistry(entries).Err?
    ensures BuildEncoderRegistry(entries).error in Keys(entries)
  {
    ToMapSpec(entries);
    assert Keys(entries)[i] == Keys(entries)[j];
  }
}
