/** UTF-8 and percent-encoding, as the browser applies them to URLs. A `char` is a Unicode scalar value, so
    strings with lone surrogates do not occur here. */
module Encoding {
  import opened Options

  type Byte = b: int | 0 <= b < 256

  // ---------------------------------------------------------------- UTF-8

  function Utf8Char(c: char): (bytes: seq<Byte>)
    ensures 1 <= |bytes| <= 4
  {
    var n := c as int;
    if n < 0x80 then [n]
    else if n < 0x800 then [0xC0 + n / 64, 0x80 + n % 64]
    else if n < 0x1_0000 then [0xE0 + n / 4096, 0x80 + n / 64 % 64, 0x80 + n % 64]
    else [0xF0 + n / 262144, 0x80 + n / 4096 % 64, 0x80 + n / 64 % 64, 0x80 + n % 64]
  }

  function Utf8(s: string): seq<Byte> {
    if s == [] then [] else Utf8Char(s[0]) + Utf8(s[1..])
  }

  /** What the decoder finds at the front of a byte sequence, and how many bytes that takes. */
  datatype Head = Scalar(c: char, used: nat) | Malformed(used: nat)

  predicate Within(bytes: seq<Byte>, i: nat, low: int, high: int) {
    i < |bytes| && low <= bytes[i] <= high
  }

  /** The six payload bits of a continuation byte. */
  function Bits(bytes: seq<Byte>, i: nat): int
    requires i < |bytes|
  {
    var b: int := bytes[i];
    b - 0x80
  }

  function DecodeHead(bytes: seq<Byte>): (h: Head)
    requires bytes != []
    ensures 1 <= h.used <= |bytes|
  {
    var b: int := bytes[0];
    if b < 0x80 then Scalar(b as char, 1)
    else if 0xC2 <= b <= 0xDF then
      if Within(bytes, 1, 0x80, 0xBF) then Scalar(((b - 0xC0) * 64 + Bits(bytes, 1)) as char, 2) else Malformed(1)
    else if 0xE0 <= b <= 0xEF then
      if !Within(bytes, 1, if b == 0xE0 then 0xA0 else 0x80, if b == 0xED then 0x9F else 0xBF) then Malformed(1)
      else if !Within(bytes, 2, 0x80, 0xBF) then Malformed(2)
      else Scalar(((b - 0xE0) * 4096 + Bits(bytes, 1) * 64 + Bits(bytes, 2)) as char, 3)
    else if 0xF0 <= b <= 0xF4 then
      if !Within(bytes, 1, if b == 0xF0 then 0x90 else 0x80, if b == 0xF4 then 0x8F else 0xBF) then Malformed(1)
      else if !Within(bytes, 2, 0x80, 0xBF) then Malformed(2)
      else if !Within(bytes, 3, 0x80, 0xBF) then Malformed(3)
      else Scalar(((b - 0xF0) * 262144 + Bits(bytes, 1) * 4096 + Bits(bytes, 2) * 64 + Bits(bytes, 3)) as char, 4)
    else Malformed(1)
  }

  /** Decoding that replaces malformed input. */
  function Utf8Decode(bytes: seq<Byte>): string {
    if bytes == [] then []
    else
      var h := DecodeHead(bytes);
      [if h.Scalar? then h.c else '\U{FFFD}'] + Utf8Decode(bytes[h.used..])
  }

  /** Decoding that rejects malformed input. */
  function Utf8DecodeStrict(bytes: seq<Byte>): Option<string> {
    if bytes == [] then Some([])
    else
      var h := DecodeHead(bytes);
      var rest := Utf8DecodeStrict(bytes[h.used..]);
      if h.Malformed? || rest.None? then None else Some([h.c] + rest.value)
  }

  /** A code point cut into groups of six bits. */
  lemma SixBitGroups(n: nat)
    ensures n == n / 64 * 64 + n % 64 && n / 64 == n / 4096 * 64 + n / 64 % 64
    ensures n / 4096 == n / 262144 * 64 + n / 4096 % 64
  {
  }

  lemma HeadOfShortChar(c: char, rest: seq<Byte>)
    requires c as int < 0x800
    ensures DecodeHead(Utf8Char(c) + rest) == Scalar(c, |Utf8Char(c)|)
  {
  }

  lemma HeadOfMiddleChar(c: char, rest: seq<Byte>)
    requires 0x800 <= c as int < 0x1_0000
    ensures DecodeHead(Utf8Char(c) + rest) == Scalar(c, |Utf8Char(c)|)
  {
    SixBitGroups(c as int);
  }

  lemma HeadOfLongChar(c: char, rest: seq<Byte>)
    requires 0x1_0000 <= c as int
    ensures DecodeHead(Utf8Char(c) + rest) == Scalar(c, |Utf8Char(c)|)
  {
    SixBitGroups(c as int);
  }

  lemma HeadOfChar(c: char, rest: seq<Byte>)
    ensures DecodeHead(Utf8Char(c) + rest) == Scalar(c, |Utf8Char(c)|)
  {
    hide *;
    if c as int < 0x800 {
      HeadOfShortChar(c, rest);
    } else if c as int < 0x1_0000 {
      HeadOfMiddleChar(c, rest);
    } else {
      HeadOfLongChar(c, rest);
    }
  }

  lemma {:induction false} Utf8RoundTrip(s: string)
    ensures Utf8Decode(Utf8(s)) == s && Utf8DecodeStrict(Utf8(s)) == Some(s)
  {
    if s != [] {
      Utf8RoundTrip(s[1..]);
      HeadOfChar(s[0], Utf8(s[1..]));
      assert Utf8(s)[|Utf8Char(s[0])|..] == Utf8(s[1..]);
    }
  }

  /** One character of each length (RFC 3629, section 3). */
  lemma Utf8Samples()
    ensures Utf8("A") == [0x41] && Utf8("\U{00E9}") == [0xC3, 0xA9] && Utf8("\U{20AC}") == [0xE2, 0x82, 0xAC]
    ensures Utf8("\U{1F600}") == [0xF0, 0x9F, 0x98, 0x80]
  {
  }

  /** Malformed bytes: a broken-off sequence, an overlong one, a surrogate and a value that is too large (Encoding
      Standard, section 8.1.1). */
  lemma MalformedHeads()
    ensures DecodeHead([0xC3]) == Malformed(1) && DecodeHead([0xC0, 0x80]) == Malformed(1)
    ensures DecodeHead([0xE2, 0x82, 0x41]) == Malformed(2) && DecodeHead([0xED, 0xA0, 0x80]) == Malformed(1)
    ensures DecodeHead([0xF0, 0x9F, 0x98]) == Malformed(3) && DecodeHead([0xF4, 0x90, 0x80, 0x80]) == Malformed(1)
  {
  }

  /** One of the decoders puts a replacement character for them, the other rejects the whole. */
  lemma MalformedIsReplaced(bytes: seq<Byte>)
    requires bytes != [] && DecodeHead(bytes).Malformed?
    ensures Utf8Decode(bytes) == "\U{FFFD}" + Utf8Decode(bytes[DecodeHead(bytes).used..])
    ensures Utf8DecodeStrict(bytes).None?
  {
    hide DecodeHead;
  }

  // ---------------------------------------------------------------- percent-encoding

  function HexDigit(d: nat): char
    requires d < 16
  {
    if d < 10 then ('0' as int + d) as char else ('A' as int + d - 10) as char
  }

  predicate IsHex(c: char) {
    '0' <= c <= '9' || 'A' <= c <= 'F' || 'a' <= c <= 'f'
  }

  function HexValue(c: char): (v: nat)
    requires IsHex(c)
    ensures v < 16
  {
    if c <= '9' then c as int - '0' as int
    else if c <= 'F' then c as int - 'A' as int + 10
    else c as int - 'a' as int + 10
  }

  function Escape(b: Byte): string {
    ['%', HexDigit(b / 16), HexDigit(b % 16)]
  }

  function PercentBytes(bytes: seq<Byte>): string {
    if bytes == [] then [] else Escape(bytes[0]) + PercentBytes(bytes[1..])
  }

  function PercentDecode(s: string): seq<Byte> {
    if s == [] then []
    else if s[0] == '%' && |s| >= 3 && IsHex(s[1]) && IsHex(s[2]) then
      [HexValue(s[1]) * 16 + HexValue(s[2])] + PercentDecode(s[3..])
    else Utf8Char(s[0]) + PercentDecode(s[1..])
  }

  /** Escapes have hexadecimal digits of either case, and what is not an escape stays (URL Standard, section 1.3). */
  lemma EscapeSamples()
    ensures PercentDecode("%4a") == PercentDecode("%4A") == [0x4A] && PercentDecode("%4") == [0x25, 0x34]
  {
    assert "%4a"[3..] == [] && "%4A"[3..] == [] && "%4"[1..] == "4" && "4"[1..] == [];
  }

  predicate IsAlphanumeric(c: char) {
    '0' <= c <= '9' || 'A' <= c <= 'Z' || 'a' <= c <= 'z'
  }

  lemma HexRoundTrip(d: nat)
    requires d < 16
    ensures IsHex(HexDigit(d)) && HexValue(HexDigit(d)) == d && IsAlphanumeric(HexDigit(d))
  {
  }

  lemma EscapeDecodes(b: Byte, rest: string)
    ensures PercentDecode(Escape(b) + rest) == [b] + PercentDecode(rest)
    ensures forall c :: c in Escape(b) ==> c == '%' || IsAlphanumeric(c)
  {
    HexRoundTrip(b / 16);
    HexRoundTrip(b % 16);
    hide HexDigit, HexValue, IsHex, IsAlphanumeric;
    assert (Escape(b) + rest)[3..] == rest;
  }

  lemma {:induction false} PercentBytesDecode(bytes: seq<Byte>, rest: string)
    ensures PercentDecode(PercentBytes(bytes) + rest) == bytes + PercentDecode(rest)
    ensures forall c :: c in PercentBytes(bytes) ==> c == '%' || IsAlphanumeric(c)
  {
    hide PercentDecode, Escape, IsAlphanumeric;
    if bytes == [] {
      assert PercentBytes(bytes) + rest == rest;
    } else {
      PercentBytesDecode(bytes[1..], rest);
      EscapeDecodes(bytes[0], PercentBytes(bytes[1..]) + rest);
      assert PercentBytes(bytes) + rest == Escape(bytes[0]) + (PercentBytes(bytes[1..]) + rest);
    }
  }

  // ---------------------------------------------------------------- encodeURIComponent

  predicate IsUnreserved(c: char) {
    IsAlphanumeric(c) || c in "-_.!~*'()"
  }

  function ComponentChar(c: char): string {
    if IsUnreserved(c) then [c] else PercentBytes(Utf8Char(c))
  }

  function EncodeComponent(s: string): string {
    if s == [] then [] else ComponentChar(s[0]) + EncodeComponent(s[1..])
  }

  /** Percent-decoding, then strict UTF-8. */
  function DecodeComponent(s: string): Option<string> {
    Utf8DecodeStrict(PercentDecode(s))
  }

  lemma PlainCharDecodes(c: char, rest: string)
    requires c != '%'
    ensures PercentDecode([c] + rest) == Utf8Char(c) + PercentDecode(rest)
  {
    hide Utf8Char;
    assert ([c] + rest)[1..] == rest;
  }

  lemma ComponentCharDecodes(c: char, rest: string)
    ensures PercentDecode(ComponentChar(c) + rest) == Utf8Char(c) + PercentDecode(rest)
    ensures ComponentChar(c) != [] && '/' !in ComponentChar(c)
  {
    PercentBytesDecode(Utf8Char(c), rest);
    hide Utf8Char, PercentDecode;
    if IsUnreserved(c) {
      PlainCharDecodes(c, rest);
    }
  }

  lemma {:induction false} ComponentBytes(s: string)
    ensures PercentDecode(EncodeComponent(s)) == Utf8(s)
    ensures '/' !in EncodeComponent(s)
    ensures s != [] ==> EncodeComponent(s) != []
  {
    if s != [] {
      hide PercentDecode, ComponentChar;
      ComponentBytes(s[1..]);
      ComponentCharDecodes(s[0], EncodeComponent(s[1..]));
    }
  }

  lemma ComponentRoundTrip(s: string)
    ensures DecodeComponent(EncodeComponent(s)) == Some(s)
  {
    ComponentBytes(s);
    Utf8RoundTrip(s);
  }

  /** The characters that `encodeURIComponent` leaves alone (ECMA-262): letters, digits and these nine. */
  predicate StaysInComponent(c: char) {
    'A' <= c <= 'Z' || 'a' <= c <= 'z' || '0' <= c <= '9' || c in ['-', '_', '.', '!', '~', '*', '\'', '(', ')']
  }

  lemma HexDigitText(d: nat)
    requires d < 16
    ensures HexDigit(d) == "0123456789ABCDEF"[d]
  {
  }

  lemma {:induction false} PercentBytesText(bytes: seq<Byte>)
    ensures |PercentBytes(bytes)| == 3 * |bytes|
    ensures forall i :: 0 <= i < |bytes| ==>
              && PercentBytes(bytes)[3 * i] == '%'
              && PercentBytes(bytes)[3 * i + 1] == "0123456789ABCDEF"[bytes[i] / 16]
              && PercentBytes(bytes)[3 * i + 2] == "0123456789ABCDEF"[bytes[i] % 16]
  {
    if bytes != [] {
      PercentBytesText(bytes[1..]);
      HexDigitText(bytes[0] / 16);
      HexDigitText(bytes[0] % 16);
      var rest := PercentBytes(bytes[1..]);
      assert PercentBytes(bytes) == Escape(bytes[0]) + rest;
      hide PercentBytes, HexDigit;
      forall i | 0 < i < |bytes|
        ensures && PercentBytes(bytes)[3 * i] == '%'
                && PercentBytes(bytes)[3 * i + 1] == "0123456789ABCDEF"[bytes[i] / 16]
                && PercentBytes(bytes)[3 * i + 2] == "0123456789ABCDEF"[bytes[i] % 16]
      {
        assert bytes[1..][i - 1] == bytes[i];
        assert PercentBytes(bytes)[3 * i] == rest[3 * (i - 1)];
        assert PercentBytes(bytes)[3 * i + 1] == rest[3 * (i - 1) + 1];
        assert PercentBytes(bytes)[3 * i + 2] == rest[3 * (i - 1) + 2];
      }
    }
  }

  lemma {:induction false} EncodeJoined(a: string, b: string)
    ensures EncodeComponent(a + b) == EncodeComponent(a) + EncodeComponent(b)
  {
    if a == [] {
      assert a + b == b;
    } else {
      assert (a + b)[1..] == a[1..] + b;
      EncodeJoined(a[1..], b);
    }
  }

  /** Component encoding goes character by character: it leaves exactly those characters alone, and turns every other
      one into the escapes, with upper-case digits, of its UTF-8 bytes. */
  lemma ComponentTextExactly(a: string, c: char, b: string)
    ensures EncodeComponent(a + [c] + b) ==
              EncodeComponent(a) + (if StaysInComponent(c) then [c] else PercentBytes(Utf8Char(c))) + EncodeComponent(b)
    ensures EncodeComponent("") == ""
  {
    EncodeJoined(a + [c], b);
    EncodeJoined(a, [c]);
    assert c in "-_.!~*'()" <==> c in ['-', '_', '.', '!', '~', '*', '\'', '(', ')'];
    assert EncodeComponent([c]) == ComponentChar(c) + EncodeComponent([]);
    assert EncodeComponent([]) == [] && ComponentChar(c) + [] == ComponentChar(c);
  }

  // ---------------------------------------------------------------- application/x-www-form-urlencoded

  predicate IsFormSafe(c: char) {
    IsAlphanumeric(c) || c in "*-._"
  }

  function FormChar(c: char): string {
    if c == ' ' then "+" else if IsFormSafe(c) then [c] else PercentBytes(Utf8Char(c))
  }

  function FormEncode(s: string): string {
    if s == [] then [] else FormChar(s[0]) + FormEncode(s[1..])
  }

  function PlusToSpace(s: string): string {
    seq(|s|, i requires 0 <= i < |s| => if s[i] == '+' then ' ' else s[i])
  }

  function FormDecode(s: string): string {
    Utf8Decode(PercentDecode(PlusToSpace(s)))
  }

  lemma NoPlusToSpace(s: string)
    requires '+' !in s
    ensures PlusToSpace(s) == s
  {
    assert forall i :: 0 <= i < |s| ==> s[i] in s;
  }

  lemma FormCharShape(c: char)
    ensures PlusToSpace(FormChar(c)) == if c == ' ' || IsFormSafe(c) then [c] else PercentBytes(Utf8Char(c))
    ensures '&' !in FormChar(c) && '=' !in FormChar(c) && '#' !in FormChar(c)
    ensures IsFormSafe(c) ==> c != '%'
  {
    hide PercentBytes, Utf8Char;
    PercentBytesDecode(Utf8Char(c), []);
    if c != ' ' && !IsFormSafe(c) {
      NoPlusToSpace(PercentBytes(Utf8Char(c)));
    }
  }

  lemma FormCharDecodes(c: char, rest: string)
    ensures PercentDecode(PlusToSpace(FormChar(c)) + rest) == Utf8Char(c) + PercentDecode(rest)
    ensures '&' !in FormChar(c) && '=' !in FormChar(c) && '#' !in FormChar(c)
  {
    hide *;
    FormCharShape(c);
    if c == ' ' || IsFormSafe(c) {
      PlainCharDecodes(c, rest);
    } else {
      PercentBytesDecode(Utf8Char(c), rest);
    }
  }

  lemma PlusToSpaceDistributes(a: string, b: string)
    ensures PlusToSpace(a + b) == PlusToSpace(a) + PlusToSpace(b)
  {
  }

  lemma {:induction false} FormBytes(s: string)
    ensures PercentDecode(PlusToSpace(FormEncode(s))) == Utf8(s)
    ensures '&' !in FormEncode(s) && '=' !in FormEncode(s) && '#' !in FormEncode(s)
  {
    if s != [] {
      hide PercentDecode, FormChar, PlusToSpace;
      FormBytes(s[1..]);
      FormCharDecodes(s[0], PlusToSpace(FormEncode(s[1..])));
      PlusToSpaceDistributes(FormChar(s[0]), FormEncode(s[1..]));
    }
  }

  lemma FormRoundTrip(s: string)
    ensures FormDecode(FormEncode(s)) == s
  {
    FormBytes(s);
    Utf8RoundTrip(s);
  }

  lemma {:induction false} FormJoined(a: string, b: string)
    ensures FormEncode(a + b) == FormEncode(a) + FormEncode(b)
  {
    if a == [] {
      assert a + b == b;
    } else {
      assert (a + b)[1..] == a[1..] + b;
      FormJoined(a[1..], b);
    }
  }

  /** Form encoding leaves letters, digits and `*-._` alone, turns a space into `+`, and escapes every other
      character. */
  lemma FormTextExactly(a: string, c: char, b: string)
    ensures FormEncode(a + [c] + b) ==
              FormEncode(a)
              + (if c == ' ' then "+"
                 else if || 'A' <= c <= 'Z' || 'a' <= c <= 'z' || '0' <= c <= '9'
                         || c == '*' || c == '-' || c == '.' || c == '_'
                 then [c]
                 else PercentBytes(Utf8Char(c)))
              + FormEncode(b)
    ensures FormEncode("") == ""
  {
    FormJoined(a + [c], b);
    FormJoined(a, [c]);
    assert c in "*-._" <==> c == '*' || c == '-' || c == '.' || c == '_';
    assert FormEncode([c]) == FormChar(c) + FormEncode([]);
    assert FormEncode([]) == [] && FormChar(c) + [] == FormChar(c);
  }
}
