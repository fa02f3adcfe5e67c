/**
 * Unpadded base64url (section 5 of RFC 4648), as packages/crypto/src/keys.ts builds it from the
 * platform's btoa and atob.
 */
module Base64Url {
  import opened Wrappers

  type byte = b: int | 0 <= b < 256
  type sextet = b: int | 0 <= b < 64

  // ---- bytes and groups of six bits ----

  function First(a: byte): sextet {
    a / 4
  }

  function Second(a: byte, b: byte): sextet {
    a as int % 4 * 16 + b as int / 16
  }

  function Third(b: byte, c: byte): sextet {
    b as int % 16 * 4 + c as int / 64
  }

  function Sextets(bytes: seq<byte>): seq<sextet> {
    if |bytes| == 0 then []
    else if |bytes| == 1 then [First(bytes[0]), Second(bytes[0], 0)]
    else if |bytes| == 2 then [First(bytes[0]), Second(bytes[0], bytes[1]), Third(bytes[1], 0)]
    else
      [First(bytes[0]), Second(bytes[0], bytes[1]), Third(bytes[1], bytes[2]), bytes[2] % 64] + Sextets(bytes[3..])
  }

  function Upper(p: sextet, q: sextet): byte {
    p as int * 4 + q as int / 16
  }

  function Middle(q: sextet, r: sextet): byte {
    q as int % 16 * 16 + r as int / 4
  }

  function Lower(r: sextet, s: sextet): byte {
    r as int % 4 * 64 + s as int
  }

  /** Bits left over at the end are dropped. */
  function Bytes(s: seq<sextet>): seq<byte> {
    if |s| <= 1 then []
    else if |s| == 2 then [Upper(s[0], s[1])]
    else if |s| == 3 then [Upper(s[0], s[1]), Middle(s[1], s[2])]
    else [Upper(s[0], s[1]), Middle(s[1], s[2]), Lower(s[2], s[3])] + Bytes(s[4..])
  }

  // ---- characters ----

  function CharOf(v: sextet): char {
    if v < 26 then 'A' + v as char
    else if v < 52 then 'a' + (v - 26) as char
    else if v < 62 then '0' + (v - 52) as char
    else if v == 62 then '+'
    else '/'
  }

  function ValueOf(c: char): Option<sextet> {
    if 'A' <= c <= 'Z' then Some(c as int - 'A' as int)
    else if 'a' <= c <= 'z' then Some(c as int - 'a' as int + 26)
    else if '0' <= c <= '9' then Some(c as int - '0' as int + 52)
    else if c == '+' then Some(62)
    else if c == '/' then Some(63)
    else None
  }

  function Chars(s: seq<sextet>): string {
    if s == [] then "" else [CharOf(s[0])] + Chars(s[1..])
  }

  function Values(s: string): Option<seq<sextet>> {
    if s == "" then Some([])
    else
      match ValueOf(s[0])
      case None => None
      case Some(v) =>
        match Values(s[1..])
        case None => None
        case Some(vs) => Some([v] + vs)
  }

  function Repeat(c: char, count: nat): string {
    if count == 0 then "" else [c] + Repeat(c, count - 1)
  }

  function ReplaceAll(s: string, from: char, replacement: string): string {
    if s == "" then "" else (if s[0] == from then replacement else [s[0]]) + ReplaceAll(s[1..], from, replacement)
  }

  // ---- the platform's functions on binary strings ----

  function Btoa(binary: seq<byte>): string {
    Chars(Sextets(binary)) + Repeat('=', (3 - |binary| % 3) % 3)
  }

  predicate IsWhitespace(c: char) {
    c == ' ' || c == '\t' || c == '\n' || c == '\r' || c == '\U{000C}'
  }

  function WithoutWhitespace(s: string): string {
    if s == "" then "" else (if IsWhitespace(s[0]) then "" else [s[0]]) + WithoutWhitespace(s[1..])
  }

  /** One or two padding characters go when the length is a multiple of four. */
  function WithoutPadding(s: string): string {
    if |s| % 4 != 0 || s == "" || s[|s| - 1] != '=' then s
    else if s[|s| - 2] != '=' then s[..|s| - 1]
    else s[..|s| - 2]
  }

  function Atob(s: string): Option<seq<byte>> {
    var data := WithoutPadding(WithoutWhitespace(s));
    if |data| % 4 == 1 then None
    else
      match Values(data)
      case None => None
      case Some(vs) => Some(Bytes(vs))
  }

  // ---- base64url ----

  function ToUrl(bytes: seq<byte>): string {
    ReplaceAll(ReplaceAll(ReplaceAll(Btoa(bytes), '+', "-"), '/', "_"), '=', "")
  }

  function FromUrl(b64: string): Option<seq<byte>> {
    var padded := ReplaceAll(ReplaceAll(b64, '-', "+"), '_', "/");
    Atob(padded + Repeat('=', (4 - |padded| % 4) % 4))
  }

  method ToBase64Url(bytes: array<byte>) returns (s: string)
    ensures s == ToUrl(bytes[..])
  {
    var binary: seq<byte> := [];
    for i := 0 to bytes.Length
      invariant binary == bytes[..i]
    {
      binary := binary + [bytes[i]];
    }
    assert binary == bytes[..];
    s := ReplaceAll(ReplaceAll(ReplaceAll(Btoa(binary), '+', "-"), '/', "_"), '=', "");
  }

  method FromBase64Url(b64: string) returns (r: Option<array<byte>>)
    ensures match FromUrl(b64)
            case None => r.None?
            case Some(bytes) => r.Some? && fresh(r.value) && r.value[..] == bytes
  {
    hide Atob;
    hide ReplaceAll;
    hide Repeat;
    var padded := ReplaceAll(ReplaceAll(b64, '-', "+"), '_', "/");
    var binary := Atob(padded + Repeat('=', (4 - |padded| % 4) % 4));
    if binary.None? {
      return None;
    }
    var bytes := new byte[|binary.value|];
    for i := 0 to |binary.value|
      invariant bytes[..i] == binary.value[..i]
    {
      bytes[i] := binary.value[i];
    }
    r := Some(bytes);
  }

  // ---- the two directions undo each other ----

  lemma GroupRoundTrip(a: byte, b: byte, c: byte)
    ensures Upper(First(a), Second(a, b)) == a
    ensures Middle(Second(a, b), Third(b, c)) == b
    ensures Lower(Third(b, c), c % 64) == c
  {
  }

  lemma FourMore(group: seq<sextet>, rest: seq<sextet>)
    requires |group| == 4
    ensures Bytes(group + rest)
            == [Upper(group[0], group[1]), Middle(group[1], group[2]), Lower(group[2], group[3])] + Bytes(rest)
  {
    assert (group + rest)[4..] == rest;
  }

  lemma {:induction false} SextetsRoundTrip(bytes: seq<byte>)
    ensures Bytes(Sextets(bytes)) == bytes
    ensures |Sextets(bytes)| % 4 == (if |bytes| % 3 == 0 then 0 else |bytes| % 3 + 1)
    decreases |bytes|
  {
    hide Sextets;
    hide Bytes;
    if |bytes| == 0 {
      NoBytesRoundTrip();
      assert bytes == [];
    } else if |bytes| == 1 {
      OneByteRoundTrip(bytes[0]);
      assert bytes == [bytes[0]];
    } else if |bytes| == 2 {
      TwoBytesRoundTrip(bytes[0], bytes[1]);
      assert bytes == [bytes[0], bytes[1]];
    } else {
      ThreeMoreRoundTrip(bytes[0], bytes[1], bytes[2], bytes[3..]);
      assert bytes == [bytes[0], bytes[1], bytes[2]] + bytes[3..];
    }
  }

  lemma NoBytesRoundTrip()
    ensures Bytes(Sextets([])) == [] && |Sextets([])| == 0
  {
  }

  lemma OneByteRoundTrip(a: byte)
    ensures Bytes(Sextets([a])) == [a] && |Sextets([a])| == 2
  {
    hide First;
    hide Second;
    hide Third;
    hide Upper;
    hide Middle;
    hide Lower;
    GroupRoundTrip(a, 0, 0);
    assert Sextets([a]) == [First(a), Second(a, 0)];
  }

  lemma TwoBytesRoundTrip(a: byte, b: byte)
    ensures Bytes(Sextets([a, b])) == [a, b] && |Sextets([a, b])| == 3
  {
    hide First;
    hide Second;
    hide Third;
    hide Upper;
    hide Middle;
    hide Lower;
    GroupRoundTrip(a, b, 0);
    assert Sextets([a, b]) == [First(a), Second(a, b), Third(b, 0)];
  }

  lemma {:induction false} ThreeMoreRoundTrip(a: byte, b: byte, c: byte, rest: seq<byte>)
    ensures var bytes := [a, b, c] + rest;
            && Bytes(Sextets(bytes)) == bytes
            && |Sextets(bytes)| % 4 == (if |bytes| % 3 == 0 then 0 else |bytes| % 3 + 1)
    decreases |rest| + 2
  {
    hide First;
    hide Second;
    hide Third;
    hide Upper;
    hide Middle;
    hide Lower;
    var bytes := [a, b, c] + rest;
    var group: seq<sextet> := [First(a), Second(a, b), Third(b, c), c % 64];
    assert bytes[3..] == rest;
    assert Sextets(bytes) == group + Sextets(rest);
    SextetsRoundTrip(rest);
    GroupRoundTrip(a, b, c);
    FourMore(group, Sextets(rest));
  }

  lemma CharRoundTrip(v: sextet)
    ensures ValueOf(CharOf(v)) == Some(v)
    ensures (CharOf(v) == '+' <==> v == 62) && (CharOf(v) == '/' <==> v == 63)
    ensures CharOf(v) != '=' && CharOf(v) != '-' && CharOf(v) != '_' && CharOf(v) != '.' && !IsWhitespace(CharOf(v))
  {
  }

  lemma {:induction false} CharsRoundTrip(s: seq<sextet>)
    ensures |Chars(s)| == |s| && Values(Chars(s)) == Some(s)
    ensures s != [] ==> Chars(s)[|s| - 1] == CharOf(s[|s| - 1])
    ensures forall i :: 0 <= i < |s| ==> Chars(s)[i] == CharOf(s[i])
  {
    if s != [] {
      CharRoundTrip(s[0]);
      CharsRoundTrip(s[1..]);
      assert Chars(s)[1..] == Chars(s[1..]);
      assert [s[0]] + s[1..] == s;
    }
  }

  /** The url alphabet in place of the standard one. */
  function UrlChar(v: sextet): char {
    if v == 62 then '-' else if v == 63 then '_' else CharOf(v)
  }

  function UrlChars(s: seq<sextet>): string {
    if s == [] then "" else [UrlChar(s[0])] + UrlChars(s[1..])
  }

  lemma {:induction false} ReplacedChars(s: seq<sextet>, pad: string)
    requires ReplaceAll(ReplaceAll(ReplaceAll(pad, '+', "-"), '/', "_"), '=', "") == ""
    ensures ReplaceAll(ReplaceAll(ReplaceAll(Chars(s) + pad, '+', "-"), '/', "_"), '=', "") == UrlChars(s)
  {
    hide CharOf;
    hide ValueOf;
    if s == [] {
      assert Chars(s) + pad == pad;
    } else {
      ReplacedChars(s[1..], pad);
      assert Chars(s) + pad == [CharOf(s[0])] + (Chars(s[1..]) + pad);
      var plus := ReplaceAll(Chars(s[1..]) + pad, '+', "-");
      var slash := ReplaceAll(plus, '/', "_");
      var c := if s[0] == 62 then '-' else CharOf(s[0]);
      CharRoundTrip(s[0]);
      ReplaceHead(CharOf(s[0]), Chars(s[1..]) + pad, '+', "-");
      ReplaceHead(c, plus, '/', "_");
      ReplaceHead(UrlChar(s[0]), slash, '=', "");
    }
  }

  lemma ReplaceHead(head: char, tail: string, from: char, replacement: string)
    ensures ReplaceAll([head] + tail, from, replacement)
            == (if head == from then replacement else [head]) + ReplaceAll(tail, from, replacement)
  {
    assert ([head] + tail)[1..] == tail;
  }

  lemma {:induction false} UnreplacedChars(s: seq<sextet>)
    ensures ReplaceAll(ReplaceAll(UrlChars(s), '-', "+"), '_', "/") == Chars(s)
  {
    hide CharOf;
    hide ValueOf;
    if s != [] {
      UnreplacedChars(s[1..]);
      CharRoundTrip(s[0]);
      var c := if s[0] == 63 then '_' else CharOf(s[0]);
      ReplaceHead(UrlChar(s[0]), UrlChars(s[1..]), '-', "+");
      ReplaceHead(c, ReplaceAll(UrlChars(s[1..]), '-', "+"), '_', "/");
    }
  }

  lemma WhitespaceHead(head: char, tail: string)
    requires !IsWhitespace(head) && WithoutWhitespace(tail) == tail
    ensures WithoutWhitespace([head] + tail) == [head] + tail
  {
    assert ([head] + tail)[1..] == tail;
  }

  lemma {:induction false} NoWhitespaceIn(s: seq<sextet>, pad: string)
    requires WithoutWhitespace(pad) == pad
    ensures WithoutWhitespace(Chars(s) + pad) == Chars(s) + pad
  {
    hide CharOf;
    hide IsWhitespace;
    hide ValueOf;
    hide WithoutWhitespace;
    if s == [] {
      assert Chars(s) + pad == pad;
    } else {
      NoWhitespaceIn(s[1..], pad);
      CharRoundTrip(s[0]);
      assert Chars(s) + pad == [CharOf(s[0])] + (Chars(s[1..]) + pad);
      WhitespaceHead(CharOf(s[0]), Chars(s[1..]) + pad);
    }
  }

  lemma PaddingIsPlain(count: nat)
    requires count <= 2
    ensures var pad := Repeat('=', count);
            && |pad| == count && (pad == "" || pad == "=" || pad == "==")
            && WithoutWhitespace(pad) == pad
            && ReplaceAll(ReplaceAll(ReplaceAll(pad, '+', "-"), '/', "_"), '=', "") == ""
  {
    ReplaceHead('=', "", '+', "-");
    ReplaceHead('=', "", '/', "_");
    ReplaceHead('=', "", '=', "");
    ReplaceHead('=', "=", '+', "-");
    ReplaceHead('=', "=", '/', "_");
    ReplaceHead('=', "=", '=', "");
    assert Repeat('=', 0) == "" && Repeat('=', 1) == "=" && Repeat('=', 2) == "==";
  }

  /** Encoding writes the url alphabet and nothing else: no padding, and no dot. */
  lemma EncodingIsPlain(bytes: seq<byte>)
    ensures ToUrl(bytes) == UrlChars(Sextets(bytes))
  {
    var count := (3 - |bytes| % 3) % 3;
    PaddingIsPlain(count);
    ReplacedChars(Sextets(bytes), Repeat('=', count));
  }

  lemma PaddingIsRemoved(s: seq<sextet>, count: nat)
    requires count <= 2 && (|s| + count) % 4 == 0
    ensures WithoutPadding(Chars(s) + Repeat('=', count)) == Chars(s)
  {
    hide Chars;
    hide Repeat;
    hide CharOf;
    hide Values;
    CharsRoundTrip(s);
    PaddingIsPlain(count);
    var x, pad := Chars(s), Repeat('=', count);
    assert (x + pad)[..|x|] == x;
    if s != [] {
      CharRoundTrip(s[|s| - 1]);
    }
  }

  /** Decoding undoes encoding, for every byte string. */
  lemma RoundTrip(bytes: seq<byte>)
    ensures FromUrl(ToUrl(bytes)) == Some(bytes)
  {
    hide Bytes;
    hide Sextets;
    hide Chars;
    hide UrlChars;
    hide ReplaceAll;
    hide Repeat;
    hide Values;
    hide WithoutPadding;
    hide WithoutWhitespace;
    var s := Sextets(bytes);
    EncodingIsPlain(bytes);
    UnreplacedChars(s);
    SextetsRoundTrip(bytes);
    CharsRoundTrip(s);
    var count := (4 - |s| % 4) % 4;
    PaddingIsPlain(count);
    NoWhitespaceIn(s, Repeat('=', count));
    PaddingIsRemoved(s, count);
  }
}
