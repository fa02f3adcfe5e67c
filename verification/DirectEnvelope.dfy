/** The wire form of a direct message (apps/web/src/lib/direct-envelope.ts). */
module DirectEnvelope {
  import opened Wrappers
  import opened Base64Url

  const HEADER_BYTES: nat := 40
  const MIN_BYTES: nat := 41
  const SCHEMA_VERSION: nat := 1
  const TWO_32: nat := 0x1_0000_0000

  /** The first integer that a double rounds to infinity: 2^1024 - 2^970. */
  const INFINITE_FROM: nat := 179769313486231580793728971405303415079934132710037826936173778980444968292764750946649017977587207096330286416692887910946555547851940402630657488671505820681908902000708383676273854845811711531764475730270069855571366959622842914819860834936475292719074168444365510704342711559699508093042880

  datatype EnvelopeError =
    | InvalidVersion
    | UnsupportedVersion
    | InvalidBase64
    | TooShort
    | HeaderTooLong      // what the runtime throws when a key does not fit the buffer

  datatype Decoded = Decoded(schemaVersion: nat, dh: seq<byte>, pn: nat, n: nat, ciphertext: seq<byte>)

  // ---- 32-bit fields, most significant byte first ----

  function Uint32(v: int): seq<byte> {
    [v / 0x100_0000 % 256, v / 0x1_0000 % 256, v / 0x100 % 256, v % 256]
  }

  function ReadUint32(b: seq<byte>): nat
    requires |b| == 4
  {
    b[0] as int * 0x100_0000 + b[1] as int * 0x1_0000 + b[2] as int * 0x100 + b[3] as int
  }

  /** A field keeps its value modulo 2^32. */
  lemma Uint32RoundTrip(v: int)
    ensures ReadUint32(Uint32(v)) == v % TWO_32
  {
    var q1 := v / 256;
    var q2 := q1 / 256;
    assert v / 0x100 == q1 && v / 0x1_0000 == q2 && v / 0x100_0000 == q2 / 256;
  }

  // ---- the prefix ----

  predicate IsDigit(c: char) {
    '0' <= c <= '9'
  }

  /** How many digits the text starts with. */
  function DigitsAt(s: string): nat {
    if s == "" || !IsDigit(s[0]) then 0 else 1 + DigitsAt(s[1..])
  }

  /** What a dot in the pattern does not match. */
  predicate IsLineTerminator(c: char) {
    c == '\n' || c == '\r' || c == '\U{2028}' || c == '\U{2029}'
  }

  predicate NoLineTerminator(s: string) {
    s == "" || (!IsLineTerminator(s[0]) && NoLineTerminator(s[1..]))
  }

  function ParseInt(digits: string): nat {
    if digits == "" then 0
    else
      var last := digits[|digits| - 1];
      ParseInt(digits[..|digits| - 1]) * 10 + (if IsDigit(last) then last as int - '0' as int else 0)
  }

  datatype Prefix = Prefix(schemaVersion: nat, payload: string)

  /** A v, one or more digits, a dot and a non-empty rest on one line; or else a legacy payload. */
  predicate IsVersioned(s: string) {
    s != "" && s[0] == 'v'
    && var digits := DigitsAt(s[1..]);
       digits > 0 && 1 + digits < |s| - 1 && s[1 + digits] == '.' && NoLineTerminator(s[2 + digits..])
  }

  function ParsePrefix(s: string): Result<Prefix, EnvelopeError> {
    if !IsVersioned(s) then Success(Prefix(0, s))
    else
      var digits := DigitsAt(s[1..]);
      DigitsFit(s[1..]);
      var version := ParseInt(s[1..1 + digits]);
      if version >= INFINITE_FROM || version < 1 then Failure(InvalidVersion)
      else Success(Prefix(version, s[2 + digits..]))
  }

  lemma {:induction false} DigitsFit(s: string)
    ensures DigitsAt(s) <= |s|
  {
    if s != "" && IsDigit(s[0]) {
      DigitsFit(s[1..]);
    }
  }

  // ---- decoding ----

  function DecodeCombined(version: nat, combined: seq<byte>): Result<Decoded, EnvelopeError> {
    if |combined| < MIN_BYTES then Failure(TooShort)
    else Success(Decoded(version, combined[..32], ReadUint32(combined[32..36]), ReadUint32(combined[36..40]),
                         combined[40..]))
  }

  function Decode(s: string): Result<Decoded, EnvelopeError> {
    match ParsePrefix(s)
    case Failure(e) => Failure(e)
    case Success(prefix) =>
      if prefix.schemaVersion > SCHEMA_VERSION then Failure(UnsupportedVersion)
      else
        match FromUrl(prefix.payload)
        case None => Failure(InvalidBase64)
        case Some(combined) => DecodeCombined(prefix.schemaVersion, combined)
  }

  // ---- encoding, in place ----

  /** Zeros to the length of the header, with the key at the front; a long key runs on into the body. */
  function KeyLaid(dh: seq<byte>, length: nat): (laid: seq<byte>)
    requires |dh| <= length
    ensures |laid| == length && laid[..|dh|] == dh && forall i :: |dh| <= i < length ==> laid[i] == 0
  {
    dh + seq(length - |dh|, _ => 0)
  }

  function Combined(dh: seq<byte>, pn: int, n: int, body: seq<byte>): seq<byte>
    requires |dh| <= HEADER_BYTES + |body|
  {
    KeyLaid(dh, HEADER_BYTES + |body|)[..32] + Uint32(pn) + Uint32(n) + body
  }

  function Encode(dh: seq<byte>, pn: int, n: int, body: seq<byte>): Result<string, EnvelopeError> {
    if |dh| > HEADER_BYTES + |body| then Failure(HeaderTooLong)
    else Success("v1." + ToUrl(Combined(dh, pn, n, body)))
  }

  method SetBytes(out: array<byte>, source: seq<byte>, offset: nat)
    requires offset + |source| <= out.Length
    modifies out
    ensures out[..] == old(out[..offset]) + source + old(out[offset + |source|..])
  {
    for i := 0 to |source|
      invariant out[..offset] == old(out[..offset])
      invariant out[offset..offset + i] == source[..i]
      invariant out[offset + i..] == old(out[offset + i..])
    {
      out[offset + i] := source[i];
    }
  }

  method EncodeDirectEnvelope(dh: array<byte>, pn: int, n: int, ciphertext: array<byte>)
    returns (r: Result<string, EnvelopeError>)
    ensures r == Encode(dh[..], pn, n, ciphertext[..])
  {
    if dh.Length > HEADER_BYTES + ciphertext.Length {
      return Failure(HeaderTooLong);
    }
    var out := new byte[HEADER_BYTES + ciphertext.Length](_ => 0);
    ghost var zeros := out[..];
    SetBytes(out, dh[..], 0);
    assert out[..] == KeyLaid(dh[..], out.Length);
    SetBytes(out, Uint32(pn), 32);
    SetBytes(out, Uint32(n), 36);
    SetBytes(out, ciphertext[..], HEADER_BYTES);
    assert out[..] == Combined(dh[..], pn, n, ciphertext[..]);
    var encoded := ToBase64Url(out);
    r := Success("v1." + encoded);
  }

  // ---- the two directions ----

  lemma CombinedParts(dh: seq<byte>, pn: int, n: int, body: seq<byte>)
    requires |dh| <= HEADER_BYTES + |body|
    ensures var c := Combined(dh, pn, n, body);
            && |c| == HEADER_BYTES + |body|
            && c[..32] == KeyLaid(dh, HEADER_BYTES + |body|)[..32]
            && c[32..36] == Uint32(pn) && c[36..40] == Uint32(n) && c[40..] == body
  {
  }

  /**
   * The wire layout: after the prefix, base64url of the key in the first 32 bytes, the two counters in
   * four bytes each, most significant first, and then the ciphertext.
   */
  lemma WireLayout(dh: seq<byte>, pn: int, n: int, body: seq<byte>) returns (wire: seq<byte>)
    requires |dh| == 32
    ensures Encode(dh, pn, n, body) == Success("v1." + ToUrl(wire))
    ensures |wire| == 40 + |body| && wire[..32] == dh && wire[40..] == body
    ensures wire[32] as int * 0x100_0000 + wire[33] as int * 0x1_0000 + wire[34] as int * 0x100 + wire[35] as int
            == pn % 0x1_0000_0000
    ensures wire[36] as int * 0x100_0000 + wire[37] as int * 0x1_0000 + wire[38] as int * 0x100 + wire[39] as int
            == n % 0x1_0000_0000
  {
    hide Uint32;
    wire := Combined(dh, pn, n, body);
    CombinedParts(dh, pn, n, body);
    Uint32RoundTrip(pn);
    Uint32RoundTrip(n);
    assert wire[32..36] == Uint32(pn) && wire[36..40] == Uint32(n);
    assert wire[32..36][0] == wire[32] && wire[36..40][0] == wire[36];
  }

  lemma {:induction false} UrlCharsOnOneLine(s: seq<sextet>)
    ensures NoLineTerminator(UrlChars(s)) && '.' !in UrlChars(s) && |UrlChars(s)| == |s|
  {
    if s != [] {
      CharRoundTrip(s[0]);
      UrlCharsOnOneLine(s[1..]);
      assert UrlChars(s)[1..] == UrlChars(s[1..]);
    }
  }

  lemma VersionOnePrefix(payload: string)
    requires payload != "" && NoLineTerminator(payload)
    ensures ParsePrefix("v1." + payload) == Success(Prefix(1, payload))
  {
    var s := "v1." + payload;
    assert s[1..] == "1." + payload && s[1..][1..] == "." + payload;
    assert s[0] == 'v' && s[1] == '1' && s[2] == '.' && s[3..] == payload;
    assert DigitsAt(s[1..]) == 1;
    assert s[1..2] == "1" && ParseInt("1") == 1;
  }

  lemma EncodedPayload(bytes: seq<byte>)
    requires bytes != []
    ensures ToUrl(bytes) != "" && NoLineTerminator(ToUrl(bytes)) && '.' !in ToUrl(bytes)
  {
    EncodingIsPlain(bytes);
    UrlCharsOnOneLine(Sextets(bytes));
  }

  /** What comes back from an encoded envelope, whatever was put in. */
  lemma DecodeOfEncode(dh: seq<byte>, pn: int, n: int, body: seq<byte>)
    requires |dh| <= HEADER_BYTES + |body|
    ensures Decode(Encode(dh, pn, n, body).value)
            == if body == [] then Failure(TooShort)
               else Success(Decoded(1, KeyLaid(dh, HEADER_BYTES + |body|)[..32], pn % TWO_32, n % TWO_32, body))
  {
    var c := Combined(dh, pn, n, body);
    CombinedParts(dh, pn, n, body);
    EncodedPayload(c);
    VersionOnePrefix(ToUrl(c));
    RoundTrip(c);
    Uint32RoundTrip(pn);
    Uint32RoundTrip(n);
  }

  /** An envelope survives the wire exactly when its key has 32 bytes, its counters 32 bits and its body a byte. */
  lemma EnvelopeRoundTripExactly(dh: seq<byte>, pn: int, n: int, body: seq<byte>)
    ensures (pn >= 0 && n >= 0 && Encode(dh, pn, n, body).Success?
             && Decode(Encode(dh, pn, n, body).value) == Success(Decoded(1, dh, pn, n, body)))
            <==> |dh| == 32 && 0 <= pn < TWO_32 && 0 <= n < TWO_32 && body != []
  {
    hide Decode;
    hide ToUrl;
    hide Combined;
    hide KeyLaid;
    if |dh| <= HEADER_BYTES + |body| {
      DecodeOfEncode(dh, pn, n, body);
    }
  }

  /** A legacy payload, bare base64url, is never taken for a versioned one, and decodes to its own bytes. */
  lemma LegacyIsNeverVersioned(combined: seq<byte>)
    ensures !IsVersioned(ToUrl(combined))
    ensures Decode(ToUrl(combined)) == DecodeCombined(0, combined)
  {
    RoundTrip(combined);
    if combined == [] {
      assert ToUrl(combined) == "" by {
        EncodingIsPlain(combined);
      }
    } else {
      EncodedPayload(combined);
    }
  }

  // ---- which texts decode ----

  predicate AllZeros(s: string) {
    forall i :: 0 <= i < |s| ==> s[i] == '0'
  }

  predicate AllDigits(s: string) {
    forall i :: 0 <= i < |s| ==> IsDigit(s[i])
  }

  lemma {:induction false} ParseIntIsZero(digits: string)
    requires AllDigits(digits)
    ensures ParseInt(digits) == 0 <==> AllZeros(digits)
  {
    if digits != "" {
      ParseIntIsZero(digits[..|digits| - 1]);
    }
  }

  /** The numeral of one: zeros, then a one. */
  predicate NumeralOfOne(digits: string) {
    digits != "" && digits[|digits| - 1] == '1' && AllZeros(digits[..|digits| - 1])
  }

  lemma ParseIntIsOne(digits: string)
    requires AllDigits(digits)
    ensures ParseInt(digits) == 1 <==> NumeralOfOne(digits)
  {
    if digits != "" {
      ParseIntIsZero(digits[..|digits| - 1]);
    }
  }

  lemma {:induction false} DigitsAreDigits(s: string)
    ensures DigitsAt(s) <= |s| && AllDigits(s[..DigitsAt(s)])
  {
    if s != "" && IsDigit(s[0]) {
      DigitsAreDigits(s[1..]);
      assert s[..DigitsAt(s)] == [s[0]] + s[1..][..DigitsAt(s[1..])];
    }
  }

  /** The version digits of a versioned text, and what follows its dot. */
  function VersionDigits(s: string): string
    requires IsVersioned(s)
  {
    DigitsFit(s[1..]);
    s[1..1 + DigitsAt(s[1..])]
  }

  function VersionedPayload(s: string): string
    requires IsVersioned(s)
  {
    s[2 + DigitsAt(s[1..])..]
  }

  /** The payload is base64url of a header and at least one byte. */
  predicate Carries(payload: string, combined: seq<byte>) {
    FromUrl(payload) == Some(combined) && |combined| >= MIN_BYTES
  }

  /**
   * A text decodes exactly when its payload carries an envelope and it has no version prefix, or one
   * whose digits are zeros and a final one; the version it then gets says which of the two it was.
   */
  lemma DecodesExactly(s: string)
    ensures Decode(s).Success? <==>
              if IsVersioned(s)
              then NumeralOfOne(VersionDigits(s)) && exists combined :: Carries(VersionedPayload(s), combined)
              else exists combined :: Carries(s, combined)
    ensures Decode(s).Success? ==> Decode(s).value.schemaVersion == if IsVersioned(s) then 1 else 0
  {
    hide FromUrl;
    hide ReadUint32;
    if IsVersioned(s) {
      DigitsAreDigits(s[1..]);
      assert VersionDigits(s) == s[1..][..DigitsAt(s[1..])];
      ParseIntIsOne(VersionDigits(s));
      PayloadDecides(1, VersionedPayload(s));
    } else {
      PayloadDecides(0, s);
    }
  }

  /** Why a text is refused: the version is zero or overflows, or is another than one; the payload is no base64, or too short. */
  lemma RefusalsAreExact(s: string)
    ensures var payload := if IsVersioned(s) then VersionedPayload(s) else s;
            Decode(s).Failure? ==>
              Decode(s).error ==
              if IsVersioned(s) && (AllZeros(VersionDigits(s)) || ParseInt(VersionDigits(s)) >= INFINITE_FROM)
              then InvalidVersion
              else if IsVersioned(s) && !NumeralOfOne(VersionDigits(s)) then UnsupportedVersion
              else if FromUrl(payload).None? then InvalidBase64
              else TooShort
    ensures var payload := if IsVersioned(s) then VersionedPayload(s) else s;
            FromUrl(payload).Some? && |FromUrl(payload).value| < 41 ==> Decode(s).Failure?
  {
    hide FromUrl;
    hide ReadUint32;
    if IsVersioned(s) {
      DigitsAreDigits(s[1..]);
      assert VersionDigits(s) == s[1..][..DigitsAt(s[1..])];
      ParseIntIsZero(VersionDigits(s));
      ParseIntIsOne(VersionDigits(s));
    }
  }

  lemma PayloadDecides(version: nat, payload: string)
    ensures (FromUrl(payload).Some? && DecodeCombined(version, FromUrl(payload).value).Success?)
            <==> exists combined :: Carries(payload, combined)
  {
    hide FromUrl;
    if FromUrl(payload).Some? && |FromUrl(payload).value| >= MIN_BYTES {
      assert Carries(payload, FromUrl(payload).value);
    }
  }
}
