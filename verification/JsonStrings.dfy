/** JSON string literals for UTF-8 text: the hand-written escaper, and reading as section 7 of RFC 8259 says. */
module JsonStrings {
  import opened SortedInts
  import opened ByteStrings
  import opened Fnv1a

  // ----- UTF-8 (section 3 of RFC 3629) -----

  /** A Unicode scalar value. */
  predicate Scalar(cp: nat) { cp < 0x11_0000 && !(0xD800 <= cp < 0xE000) }

  predicate Scalars(cps: seq<nat>) { forall i :: 0 <= i < |cps| ==> Scalar(cps[i]) }

  function ByteOf(n: nat): Byte
    requires n < 256
  {
    n as char
  }

  function Utf8(cp: nat): (s: Bytes)
    requires Scalar(cp)
    ensures s != []
  {
    if cp < 0x80 then [ByteOf(cp)]
    else if cp < 0x800 then [ByteOf(0xC0 + cp / 64), ByteOf(0x80 + cp % 64)]
    else if cp < 0x1_0000 then [ByteOf(0xE0 + cp / 4096), ByteOf(0x80 + cp / 64 % 64), ByteOf(0x80 + cp % 64)]
    else [ByteOf(0xF0 + cp / 262144), ByteOf(0x80 + cp / 4096 % 64), ByteOf(0x80 + cp / 64 % 64),
          ByteOf(0x80 + cp % 64)]
  }

  function Utf8Text(cps: seq<nat>): Bytes
    requires Scalars(cps)
  {
    if cps == [] then [] else Utf8(cps[0]) + Utf8Text(cps[1..])
  }

  ghost predicate WellFormed(s: Bytes) { exists cps :: Scalars(cps) && Utf8Text(cps) == s }

  // ----- the escaper -----

  /** append_u_escape. */
  function UEscape(u: nat): (s: Bytes)
    requires u < 0x1_0000
    ensures |s| == 6 && s[0] == '\\' && s[1] == 'u'
  {
    ['\\', 'u', HexDigit(u / 4096 % 16), HexDigit(u / 256 % 16), HexDigit(u / 16 % 16), HexDigit(u % 16)]
  }

  /** One byte below 0x80. */
  function AsciiPiece(b: nat): (s: Bytes)
    requires b < 0x80
    ensures s != []
  {
    if b == 0x22 then ['\\', '"']
    else if b == 0x5C then ['\\', '\\']
    else if b == 0x0A then ['\\', 'n']
    else if b == 0x0D then ['\\', 'r']
    else if b == 0x09 then ['\\', 't']
    else if b == 0x08 then ['\\', 'b']
    else if b == 0x0C then ['\\', 'f']
    else if b < 0x20 then UEscape(b)
    else [ByteOf(b)]
  }

  /** A decoded code point: one escape, or a surrogate pair above the basic plane. */
  function CodePiece(cp: nat): (s: Bytes)
    requires cp < 0x20_0000
    ensures s != []
  {
    if cp > 0xFFFF then
      var adjusted := cp - 0x1_0000;
      UEscape((0xD800 + adjusted / 1024) % 0x1_0000) + UEscape(0xDC00 + adjusted % 1024)
    else UEscape(cp)
  }

  /** How many continuation bytes a lead byte announces, and its payload bits. */
  function Lead(b: nat): Option<(nat, nat)>
    requires b < 256
  {
    if 0xC0 <= b < 0xE0 then Some((1, b - 0xC0))
    else if 0xE0 <= b < 0xF0 then Some((2, b - 0xE0))
    else if 0xF0 <= b < 0xF8 then Some((3, b - 0xF0))
    else None
  }

  predicate Continuation(c: char) { 0x80 <= c as int < 0xC0 }

  /** The bits of the first k bytes after the lead byte, if all of them are continuation bytes. */
  function Gather(s: Bytes, k: nat, bits: nat): (r: Option<nat>)
    requires k < |s|
    ensures r.Some? <==> forall j :: 1 <= j <= k ==> Continuation(s[j])
  {
    if k == 0 then Some(bits)
    else
      var before := Gather(s, k - 1, bits);
      if before.None? || !Continuation(s[k]) then None else Some(before.value * 64 + (s[k] as int - 0x80))
  }

  lemma {:induction false} GatherBound(s: Bytes, k: nat, bits: nat, bound: nat)
    requires k < |s| && bits < bound && Gather(s, k, bits).Some?
    ensures Gather(s, k, bits).value < bound * Pow2(6 * k)
  {
    if k > 0 {
      GatherBound(s, k - 1, bits, bound);
      assert Pow2(6 * k) == 64 * Pow2(6 * (k - 1)) by { Pow2Add(6, 6 * (k - 1)); assert Pow2(3) == 8 && Pow2(6) == 64; }
      var before := Gather(s, k - 1, bits).value;
      TimesSixtyFour(before + 1, bound, Pow2(6 * (k - 1)));
    }
  }

  lemma TimesSixtyFour(x: nat, bound: nat, p: nat)
    requires x <= bound * p
    ensures x * 64 <= bound * (64 * p)
  {
    assert bound * (64 * p) == bound * p * 64;
  }

  /** The multi-byte sequence at the front, as the escaper decodes it: code point and width. It accepts overlong forms
      and surrogates, and gives up on anything else. */
  function Decoded(s: Bytes): (r: Option<(nat, nat)>)
    requires s != []
    ensures r.Some? ==> r.value.0 < 0x20_0000 && 2 <= r.value.1 <= |s|
  {
    var lead := Lead(s[0] as int);
    if lead.None? || lead.value.0 >= |s| then None
    else
      var cp := Gather(s, lead.value.0, lead.value.1);
      if cp.None? then None
      else
        DecodedBound(s);
        Some((cp.value, lead.value.0 + 1))
  }

  lemma DecodedBound(s: Bytes)
    requires s != [] && Lead(s[0] as int).Some? && Lead(s[0] as int).value.0 < |s|
    requires Gather(s, Lead(s[0] as int).value.0, Lead(s[0] as int).value.1).Some?
    ensures Gather(s, Lead(s[0] as int).value.0, Lead(s[0] as int).value.1).value < 0x20_0000
  {
    var lead := Lead(s[0] as int).value;
    assert Pow2(3) == 8 && Pow2(6) == 64;
    Pow2Add(6, 6);
    Pow2Add(12, 6);
    GatherBound(s, lead.0, lead.1, if lead.0 == 1 then 32 else if lead.0 == 2 then 16 else 8);
  }

  /** The escape of the front of the text and the number of bytes it stands for; malformed bytes are taken one by one
      as Latin-1. */
  function Front(s: Bytes): (r: (Bytes, nat))
    requires s != []
    ensures r.0 != [] && 1 <= r.1 <= |s|
  {
    var b := s[0] as int;
    if b < 0x80 then (AsciiPiece(b), 1)
    else
      var decoded := Decoded(s);
      if decoded.None? then (UEscape(b), 1) else (CodePiece(decoded.value.0), decoded.value.1)
  }

  /** The text between the quotes. */
  function Escaped(s: Bytes): Bytes
    decreases |s|
  {
    if s == [] then [] else Front(s).0 + Escaped(s[Front(s).1..])
  }

  // ----- the loops -----

  method AppendUEscape(out: Bytes, codeUnit: nat) returns (appended: Bytes)
    requires codeUnit < 0x1_0000
    ensures appended == out + UEscape(codeUnit)
  {
    appended := out + ['\\', 'u'];
    appended := appended + [HexDigit(codeUnit / 4096 % 16)];
    appended := appended + [HexDigit(codeUnit / 256 % 16)];
    appended := appended + [HexDigit(codeUnit / 16 % 16)];
    appended := appended + [HexDigit(codeUnit % 16)];
  }

  /** The loop over continuation bytes. */
  method DecodeAt(utf8: Bytes, i: nat) returns (decoded: Option<(nat, nat)>)
    requires i < |utf8| && utf8[i] as int >= 0x80
    ensures decoded == Decoded(utf8[i..])
  {
    ghost var s := utf8[i..];
    var lead := Lead(utf8[i] as int);
    if lead.None? { return None; }
    var extraBytes, codePoint := lead.value.0, lead.value.1;
    if i + extraBytes >= |utf8| { return None; }
    for k := 1 to extraBytes + 1
      invariant Gather(s, k - 1, lead.value.1) == Some(codePoint)
    {
      assert utf8[i + k] == s[k];
      if !Continuation(utf8[i + k]) { return None; }
      codePoint := codePoint * 64 + (utf8[i + k] as int - 0x80);
    }
    return Some((codePoint, extraBytes + 1));
  }

  method JsonEscapeString(utf8: Bytes) returns (out: Bytes)
    ensures out == ['"'] + Escaped(utf8) + ['"']
  {
    hide Front;
    out := ['"'];
    var i := 0;
    while i < |utf8|
      invariant i <= |utf8| && ['"'] + Escaped(utf8) == out + Escaped(utf8[i..])
    {
      ghost var before, front := out, Front(utf8[i..]);
      assert utf8[i..][front.1..] == utf8[i + front.1..];
      var width;
      out, width := EscapeFront(out, utf8, i);
      i := i + width;
      assert before + (front.0 + Escaped(utf8[i..])) == (before + front.0) + Escaped(utf8[i..]);
    }
    out := out + ['"'];
  }

  /** The body of the loop. */
  method EscapeFront(out: Bytes, utf8: Bytes, i: nat) returns (appended: Bytes, width: nat)
    requires i < |utf8|
    ensures (appended, width) == (out + Front(utf8[i..]).0, Front(utf8[i..]).1)
  {
    hide AsciiPiece, CodePiece, UEscape, Decoded;
    var byte0 := utf8[i] as int;
    if byte0 < 0x80 {
      appended := EscapeAscii(out, byte0);
      return appended, 1;
    }
    var decoded := DecodeAt(utf8, i);
    if decoded.None? {
      appended := AppendUEscape(out, byte0);
      return appended, 1;
    }
    appended := EscapeCode(out, decoded.value.0);
    width := decoded.value.1;
  }

  method EscapeAscii(out: Bytes, byte0: nat) returns (appended: Bytes)
    requires byte0 < 0x80
    ensures appended == out + AsciiPiece(byte0)
  {
    if byte0 == 0x22 { appended := out + ['\\', '"']; }
    else if byte0 == 0x5C { appended := out + ['\\', '\\']; }
    else if byte0 == 0x0A { appended := out + ['\\', 'n']; }
    else if byte0 == 0x0D { appended := out + ['\\', 'r']; }
    else if byte0 == 0x09 { appended := out + ['\\', 't']; }
    else if byte0 == 0x08 { appended := out + ['\\', 'b']; }
    else if byte0 == 0x0C { appended := out + ['\\', 'f']; }
    else if byte0 < 0x20 { appended := AppendUEscape(out, byte0); }
    else { appended := out + [ByteOf(byte0)]; }
  }

  method EscapeCode(out: Bytes, codePoint: nat) returns (appended: Bytes)
    requires codePoint < 0x20_0000
    ensures appended == out + CodePiece(codePoint)
  {
    if codePoint > 0xFFFF {
      var adjusted := codePoint - 0x1_0000;
      appended := AppendUEscape(out, (0xD800 + adjusted / 1024) % 0x1_0000);
      appended := AppendUEscape(appended, 0xDC00 + adjusted % 1024);
    } else {
      appended := AppendUEscape(out, codePoint);
    }
  }

  // ----- reading (section 7 of RFC 8259, surrogate pairs per section 2.1 of RFC 2781) -----

  function HexValue(c: char): Option<nat> {
    if '0' <= c <= '9' then Some(c as int - '0' as int)
    else if 'a' <= c <= 'f' then Some(c as int - 'a' as int + 10)
    else if 'A' <= c <= 'F' then Some(c as int - 'A' as int + 10)
    else None
  }

  /** A backslash, the letter u and four hexadecimal digits at the front. */
  function ReadUnit(t: Bytes): Option<nat> {
    if |t| < 6 || t[0] != '\\' || t[1] != 'u' then None
    else
      var a, b, c, d := HexValue(t[2]), HexValue(t[3]), HexValue(t[4]), HexValue(t[5]);
      if a.None? || b.None? || c.None? || d.None? then None
      else Some(4096 * a.value + 256 * b.value + 16 * c.value + d.value)
  }

  function ReadShort(c: char): Option<nat> {
    match c
    case '"' => Some(0x22)
    case '\\' => Some(0x5C)
    case '/' => Some(0x2F)
    case 'b' => Some(0x08)
    case 'f' => Some(0x0C)
    case 'n' => Some(0x0A)
    case 'r' => Some(0x0D)
    case 't' => Some(0x09)
    case _ => None
  }

  /** The character at the front of ASCII text inside a string literal, and how many bytes it takes. */
  function ReadChar(t: Bytes): (r: Option<(nat, nat)>)
    requires t != []
    ensures r.Some? ==> 1 <= r.value.1 <= |t|
  {
    if t[0] as int < 0x20 || t[0] as int >= 0x80 || t[0] == '"' then None
    else if t[0] != '\\' then Some((t[0] as int, 1))
    else if |t| > 1 && ReadShort(t[1]).Some? then Some((ReadShort(t[1]).value, 2))
    else
      var high := ReadUnit(t);
      if high.None? then None
      else if 0xD800 <= high.value < 0xDC00 then
        var low := ReadUnit(t[6..]);
        if low.Some? && 0xDC00 <= low.value < 0xE000
        then Some((0x1_0000 + (high.value - 0xD800) * 1024 + (low.value - 0xDC00), 12))
        else Some((high.value, 6))
      else Some((high.value, 6))
  }

  /** The characters up to the closing quote, and what follows it. */
  function ReadString(t: Bytes): Option<(seq<nat>, Bytes)>
    decreases |t|
  {
    if t == [] then None
    else if t[0] == '"' then Some(([], t[1..]))
    else
      var c := ReadChar(t);
      if c.None? then None
      else
        var rest := ReadString(t[c.value.1..]);
        if rest.None? then None else Some(([c.value.0] + rest.value.0, rest.value.1))
  }

  // ----- the round trip -----

  /** The escape of one well-formed character. */
  function Piece(cp: nat): (s: Bytes)
    requires Scalar(cp)
    ensures s != []
  {
    if cp < 0x80 then AsciiPiece(cp) else CodePiece(cp)
  }

  lemma DecodesUtf8(cp: nat, rest: Bytes)
    requires Scalar(cp) && cp >= 0x80
    ensures Decoded(Utf8(cp) + rest) == Some((cp, |Utf8(cp)|))
  {
    hide Decoded, Gather;
    if cp < 0x800 {
      DecodesTwo(cp, rest);
    } else if cp < 0x1_0000 {
      DecodesThree(cp, rest);
    } else {
      DecodesFour(cp, rest);
    }
  }

  lemma DecodesTwo(cp: nat, rest: Bytes)
    requires 0x80 <= cp < 0x800
    ensures Decoded(Utf8(cp) + rest) == Some((cp, 2))
  {
    hide Gather;
    var s, q, r := Utf8(cp) + rest, cp / 64, cp % 64;
    assert s[0] == Utf8(cp)[0] && s[1] == Utf8(cp)[1];
    Gather1(s, q, r);
  }

  lemma DecodesThree(cp: nat, rest: Bytes)
    requires 0x800 <= cp < 0x1_0000 && Scalar(cp)
    ensures Decoded(Utf8(cp) + rest) == Some((cp, 3))
  {
    hide Gather;
    var s, q, r, t := Utf8(cp) + rest, cp / 4096, cp / 64 % 64, cp % 64;
    assert s[0] == Utf8(cp)[0] && s[1] == Utf8(cp)[1] && s[2] == Utf8(cp)[2];
    Digits64(cp);
    Gather2(s, q, r, t);
  }

  lemma DecodesFour(cp: nat, rest: Bytes)
    requires 0x1_0000 <= cp < 0x11_0000
    ensures Decoded(Utf8(cp) + rest) == Some((cp, 4))
  {
    hide Gather;
    var s, p, q, r, t := Utf8(cp) + rest, cp / 262144, cp / 4096 % 64, cp / 64 % 64, cp % 64;
    assert s[0] == Utf8(cp)[0] && s[1] == Utf8(cp)[1] && s[2] == Utf8(cp)[2] && s[3] == Utf8(cp)[3];
    Digits64(cp);
    Gather3(s, p, q, r, t);
  }

  lemma Digits64(cp: nat)
    ensures cp == (cp / 4096 * 64 + cp / 64 % 64) * 64 + cp % 64
    ensures cp / 4096 == cp / 262144 * 64 + cp / 4096 % 64
  {
    assert cp / 4096 == cp / 64 / 64;
    assert cp / 262144 == cp / 4096 / 64;
  }

  lemma Gather1(s: Bytes, a: nat, b: nat)
    requires |s| > 1 && b < 64 && s[1] as int == 0x80 + b
    ensures Gather(s, 1, a) == Some(a * 64 + b)
  {
    assert Gather(s, 0, a) == Some(a);
  }

  lemma Gather2(s: Bytes, a: nat, b: nat, c: nat)
    requires |s| > 2 && b < 64 && c < 64 && s[1] as int == 0x80 + b && s[2] as int == 0x80 + c
    ensures Gather(s, 2, a) == Some((a * 64 + b) * 64 + c)
  {
    Gather1(s, a, b);
  }

  lemma Gather3(s: Bytes, a: nat, b: nat, c: nat, d: nat)
    requires |s| > 3 && b < 64 && c < 64 && d < 64
    requires s[1] as int == 0x80 + b && s[2] as int == 0x80 + c && s[3] as int == 0x80 + d
    ensures Gather(s, 3, a) == Some(((a * 64 + b) * 64 + c) * 64 + d)
  {
    Gather2(s, a, b, c);
  }

  /** The escaper takes one well-formed character at a time. */
  lemma EscapedStep(cp: nat, rest: Bytes)
    requires Scalar(cp)
    ensures Escaped(Utf8(cp) + rest) == Piece(cp) + Escaped(rest)
  {
    var s := Utf8(cp) + rest;
    if cp >= 0x80 { DecodesUtf8(cp, rest); }
    assert s[0] == Utf8(cp)[0] && s[|Utf8(cp)|..] == rest;
    assert Front(s) == (Piece(cp), |Utf8(cp)|);
  }

  lemma ReadsUnit(u: nat, rest: Bytes)
    requires u < 0x1_0000
    ensures ReadUnit(UEscape(u) + rest) == Some(u)
  {
    hide HexDigit, HexValue;
    var t := UEscape(u) + rest;
    assert t[0] == '\\' && t[1] == 'u';
    assert t[2] == HexDigit(u / 4096 % 16) && t[3] == HexDigit(u / 256 % 16);
    assert t[4] == HexDigit(u / 16 % 16) && t[5] == HexDigit(u % 16);
    Digits16(u);
    HexValueOfDigit(u / 4096 % 16);
    HexValueOfDigit(u / 256 % 16);
    HexValueOfDigit(u / 16 % 16);
    HexValueOfDigit(u % 16);
  }

  lemma Digits16(u: nat)
    requires u < 0x1_0000
    ensures 4096 * (u / 4096 % 16) + 256 * (u / 256 % 16) + 16 * (u / 16 % 16) + u % 16 == u
  {
    var a, b, c := u / 16, u / 256, u / 4096;
    assert b == a / 16 && c == b / 16;
    assert u == 16 * a + u % 16 && a == 16 * b + a % 16 && b == 16 * c + b % 16 && c < 16;
  }

  lemma DigitIsLowerCase(d: nat)
    requires d < 16
    ensures LowerHex(HexDigit(d))
  {}

  /** The digits of an escape are lower-case. */
  lemma EscapeIsLowerCase(u: nat)
    requires u < 0x1_0000
    ensures forall i :: 2 <= i < 6 ==> LowerHex(UEscape(u)[i])
  {
    hide HexDigit;
    DigitIsLowerCase(u / 4096 % 16);
    DigitIsLowerCase(u / 256 % 16);
    DigitIsLowerCase(u / 16 % 16);
    DigitIsLowerCase(u % 16);
  }

  lemma HexValueOfDigit(d: nat)
    requires d < 16
    ensures HexValue(HexDigit(d)) == Some(d)
  {}

  /** Reading undoes the escape of one character. */
  lemma ReadsPiece(cp: nat, rest: Bytes)
    requires Scalar(cp)
    ensures ReadChar(Piece(cp) + rest) == Some((cp, |Piece(cp)|)) && Piece(cp)[0] != '"'
  {
    var t := Piece(cp) + rest;
    assert forall k :: 0 <= k < |Piece(cp)| ==> t[k] == Piece(cp)[k];
    if cp > 0xFFFF {
      ReadsPair(cp, rest);
    } else if cp < 0x20 || cp >= 0x80 {
      if Piece(cp) == UEscape(cp) { ReadsUnit(cp, rest); }
    }
  }

  lemma ReadsPair(cp: nat, rest: Bytes)
    requires 0xFFFF < cp < 0x11_0000
    ensures ReadChar(CodePiece(cp) + rest) == Some((cp, 12)) && |CodePiece(cp)| == 12
  {
    hide UEscape, ReadUnit;
    var adjusted := cp - 0x1_0000;
    var high, low := 0xD800 + adjusted / 1024, 0xDC00 + adjusted % 1024;
    var t := CodePiece(cp) + rest;
    assert high % 0x1_0000 == high;
    assert t == UEscape(high) + (UEscape(low) + rest);
    ReadsUnit(high, UEscape(low) + rest);
    ReadsUnit(low, rest);
    assert t[6..] == UEscape(low) + rest;
    assert adjusted == adjusted / 1024 * 1024 + adjusted % 1024;
  }

  /** Un-escaping the output of the escaper gives back the code points of any well-formed text, and finds its end. */
  lemma {:induction false} RoundTrip(cps: seq<nat>, rest: Bytes)
    requires Scalars(cps)
    ensures ReadString(Escaped(Utf8Text(cps)) + ['"'] + rest) == Some((cps, rest))
    decreases |cps|
  {
    hide Escaped, ReadString, Piece;
    if cps == [] {
      ReadsEnd(rest);
    } else {
      EscapedStep(cps[0], Utf8Text(cps[1..]));
      RoundTrip(cps[1..], rest);
      ReadsOne(cps, Escaped(Utf8Text(cps[1..])), rest);
    }
  }

  lemma ReadsEnd(rest: Bytes)
    ensures ReadString(Escaped([]) + ['"'] + rest) == Some(([], rest))
  {
    assert Escaped([]) + ['"'] + rest == ['"'] + rest;
  }

  lemma ReadsOne(cps: seq<nat>, escaped: Bytes, rest: Bytes)
    requires cps != [] && Scalar(cps[0]) && ReadString(escaped + ['"'] + rest) == Some((cps[1..], rest))
    ensures ReadString((Piece(cps[0]) + escaped) + ['"'] + rest) == Some((cps, rest))
  {
    hide Piece, ReadChar;
    var after := escaped + ['"'] + rest;
    var t := Piece(cps[0]) + after;
    assert (Piece(cps[0]) + escaped) + ['"'] + rest == t;
    ReadsPiece(cps[0], after);
    assert t[|Piece(cps[0])|..] == after && t[0] == Piece(cps[0])[0];
    assert [cps[0]] + cps[1..] == cps;
  }

  /** So well-formed texts with the same escape are the same. */
  lemma EscapeInjective(a: Bytes, b: Bytes)
    requires WellFormed(a) && WellFormed(b) && Escaped(a) == Escaped(b)
    ensures a == b
  {
    var x :| Scalars(x) && Utf8Text(x) == a;
    var y :| Scalars(y) && Utf8Text(y) == b;
    RoundTrip(x, []);
    RoundTrip(y, []);
  }

  /** Malformed text can share its escape with other text: a Latin-1 byte and the same character in UTF-8. */
  lemma MalformedCollides()
    ensures var latin, utf8 := [ByteOf(0xE9)], [ByteOf(0xC3), ByteOf(0xA9)];
            Escaped(latin) == Escaped(utf8) && WellFormed(utf8) && !WellFormed(latin)
  {
    var latin, utf8 := [ByteOf(0xE9)], [ByteOf(0xC3), ByteOf(0xA9)];
    assert Front(latin) == (UEscape(0xE9), 1) && latin[1..] == [];
    Gather1(utf8, 3, 0x29);
    assert Front(utf8) == (UEscape(0xE9), 2) && utf8[2..] == [];
    assert Utf8Text([0xE9]) == Utf8(0xE9) + Utf8Text([0xE9][1..]) == utf8;
    forall cps | Scalars(cps) ensures Utf8Text(cps) != latin {
      if cps != [] { assert Utf8Text(cps)[0] == Utf8(cps[0])[0]; }
    }
  }

  /** For any bytes at all the output is printable ASCII (with U+007F as it is), so the literal needs no more care. */
  lemma {:induction false} EscapedIsAscii(s: Bytes)
    ensures forall i :: 0 <= i < |Escaped(s)| ==> 0x20 <= Escaped(s)[i] as int < 0x80
    decreases |s|
  {
    if s != [] {
      FrontIsAscii(s);
      EscapedIsAscii(s[Front(s).1..]);
    }
  }

  lemma FrontIsAscii(s: Bytes)
    requires s != []
    ensures forall i :: 0 <= i < |Front(s).0| ==> 0x20 <= Front(s).0[i] as int < 0x80
  {}
}
