/** Decoding the push server's public key in the mobile app: unpadded base64url to bytes. */
module Base64Url {
  import opened Options
  import opened Encoding

  type Sextet = v: int | 0 <= v < 64

  // ---------------------------------------------------------------- RFC 4648, section 5

  function Common(v: Sextet): char
    requires v < 62
  {
    if v < 26 then ('A' as int + v) as char
    else if v < 52 then ('a' as int + v - 26) as char
    else ('0' as int + v - 52) as char
  }

  function UrlChar(v: Sextet): char {
    if v == 62 then '-' else if v == 63 then '_' else Common(v)
  }

  /** The bytes as groups of six bits, the last group filled up with zeros. */
  function Sextets(bytes: seq<Byte>): seq<Sextet> {
    if bytes == [] then []
    else
      var a: int := bytes[0];
      if |bytes| == 1 then [a / 4, a % 4 * 16]
      else
        var b: int := bytes[1];
        if |bytes| == 2 then [a / 4, a % 4 * 16 + b / 16, b % 16 * 4]
        else
          var c: int := bytes[2];
          [a / 4, a % 4 * 16 + b / 16, b % 16 * 4 + c / 64, c % 64] + Sextets(bytes[3..])
  }

  function EncodeUrl(bytes: seq<Byte>): string {
    seq(|Sextets(bytes)|, i requires 0 <= i < |Sextets(bytes)| => UrlChar(Sextets(bytes)[i]))
  }

  // ---------------------------------------------------------------- atob

  predicate IsAsciiSpace(c: char) {
    c == '\t' || c == '\n' || c == '\U{000C}' || c == '\r' || c == ' '
  }

  function WithoutSpace(s: string): string {
    if s == [] then [] else (if IsAsciiSpace(s[0]) then [] else [s[0]]) + WithoutSpace(s[1..])
  }

  /** Tab, line feed, form feed, carriage return and space. */
  lemma AsciiSpaceExactly(c: char)
    ensures IsAsciiSpace(c) <==> c as int in {0x9, 0xA, 0xC, 0xD, 0x20}
  {
  }

  predicate IsBase64(c: char) {
    'A' <= c <= 'Z' || 'a' <= c <= 'z' || '0' <= c <= '9' || c == '+' || c == '/'
  }

  function CharValue(c: char): Sextet
    requires IsBase64(c)
  {
    if 'A' <= c <= 'Z' then c as int - 'A' as int
    else if 'a' <= c <= 'z' then c as int - 'a' as int + 26
    else if '0' <= c <= '9' then c as int - '0' as int + 52
    else if c == '+' then 62
    else 63
  }

  /** Bytes out of groups of six bits; left-over bits are dropped. */
  function Octets(sextets: seq<Sextet>): seq<Byte> {
    if |sextets| < 2 then []
    else
      var p: int, q: int := sextets[0], sextets[1];
      var first := p * 4 + q / 16;
      if |sextets| == 2 then [first]
      else
        var r: int := sextets[2];
        var second := q % 16 * 16 + r / 4;
        if |sextets| == 3 then [first, second]
        else
          var t: int := sextets[3];
          [first, second, r % 4 * 64 + t] + Octets(sextets[4..])
  }

  function WithoutPadding(s: string): string {
    if |s| % 4 != 0 || s == [] || s[|s| - 1] != '=' then s
    else if s[|s| - 2] == '=' then s[..|s| - 2]
    else s[..|s| - 1]
  }

  predicate AllBase64(data: string) {
    forall i :: 0 <= i < |data| ==> IsBase64(data[i])
  }

  function Values(data: string): seq<Sextet>
    requires AllBase64(data)
  {
    seq(|data|, i requires 0 <= i < |data| => CharValue(data[i]))
  }

  function Characters(octets: seq<Byte>): string {
    seq(|octets|, i requires 0 <= i < |octets| => octets[i] as char)
  }

  /** The forgiving decoding of section 7 of the WHATWG Infra Standard, as a string of byte-sized characters. */
  function Atob(s: string): (raw: Option<string>)
    ensures raw.Some? ==> forall i :: 0 <= i < |raw.value| ==> raw.value[i] as int < 256
  {
    var data := WithoutPadding(WithoutSpace(s));
    if |data| % 4 == 1 || !AllBase64(data) then None else Some(Characters(Octets(Values(data))))
  }

  // ---------------------------------------------------------------- the decoder

  function StandardAlphabet(value: string): string {
    seq(|value|, i requires 0 <= i < |value| =>
      if value[i] == '-' then '+' else if value[i] == '_' then '/' else value[i])
  }

  function PaddingFor(value: string): string {
    seq((4 - |value| % 4) % 4, _ => '=')
  }

  function RawOf(value: string): Option<string> {
    Atob(StandardAlphabet(value) + PaddingFor(value))
  }

  function BytesOf(raw: string): seq<Byte>
    requires forall i :: 0 <= i < |raw| ==> raw[i] as int < 256
  {
    seq(|raw|, i requires 0 <= i < |raw| => raw[i] as int)
  }

  /** The decoder; it fails when `atob` throws. */
  method Base64UrlToBytes(value: string) returns (buffer: Option<array<Byte>>)
    ensures buffer.Some? <==> RawOf(value).Some?
    ensures buffer.Some? ==> buffer.value[..] == BytesOf(RawOf(value).value)
  {
    var raw := RawOf(value);
    if raw.None? {
      return None;
    }
    var bytes := new Byte[|raw.value|];
    var index := 0;
    while index < |raw.value|
      invariant 0 <= index <= |raw.value|
      invariant forall i :: 0 <= i < index ==> bytes[i] == raw.value[i] as int
    {
      bytes[index] := raw.value[index] as int;
      index := index + 1;
    }
    buffer := Some(bytes);
  }

  lemma {:induction false} OctetsOfSextets(bytes: seq<Byte>)
    ensures Octets(Sextets(bytes)) == bytes && |Sextets(bytes)| % 4 != 1
  {
    if |bytes| >= 3 {
      OctetsOfSextets(bytes[3..]);
      assert Sextets(bytes)[4..] == Sextets(bytes[3..]);
    }
  }

  lemma SwappedValue(v: Sextet)
    ensures var c := if UrlChar(v) == '-' then '+' else if UrlChar(v) == '_' then '/' else UrlChar(v);
            IsBase64(c) && CharValue(c) == v
  {
  }

  /** The characters the decoder can use. */
  predicate IsUsable(c: char) {
    IsBase64(c) || c == '-' || c == '_'
  }

  predicate IsBare(c: char) {
    !IsAsciiSpace(c) && c != '='
  }

  lemma {:induction false} NoSpaceToRemove(s: string)
    requires forall c :: c in s ==> !IsAsciiSpace(c)
    ensures WithoutSpace(s) == s
  {
    if s != [] {
      assert s[0] in s && forall c :: c in s[1..] ==> c in s;
      NoSpaceToRemove(s[1..]);
    }
  }

  function Signs(n: nat): string {
    seq(n, _ => '=')
  }

  /** The number of equals signs at the end. */
  function TrailingSigns(s: string): (n: nat)
    ensures n <= |s|
  {
    if s == [] || s[|s| - 1] != '=' then 0 else 1 + TrailingSigns(s[..|s| - 1])
  }

  /** The text in front of the equals signs at the end. */
  function Core(s: string): string {
    s[..|s| - TrailingSigns(s)]
  }

  lemma {:induction false} CoreAndSigns(s: string)
    ensures s == Core(s) + Signs(TrailingSigns(s)) && (Core(s) == [] || Core(s)[|Core(s)| - 1] != '=')
  {
    if s != [] && s[|s| - 1] == '=' {
      var shorter := s[..|s| - 1];
      CoreAndSigns(shorter);
      assert Core(s) == Core(shorter) && s == shorter + [s[|s| - 1]];
      assert Signs(TrailingSigns(shorter)) + ['='] == Signs(TrailingSigns(s));
    }
  }

  lemma {:induction false} WithoutSpaceJoined(s: string, t: string)
    ensures WithoutSpace(s + t) == WithoutSpace(s) + WithoutSpace(t)
  {
    if s == [] {
      assert s + t == t;
    } else {
      assert (s + t)[1..] == s[1..] + t;
      WithoutSpaceJoined(s[1..], t);
    }
  }

  lemma {:induction false} SpaceAndAlphabet(s: string)
    ensures WithoutSpace(StandardAlphabet(s)) == StandardAlphabet(WithoutSpace(s))
  {
    if s != [] {
      assert StandardAlphabet(s)[1..] == StandardAlphabet(s[1..]);
      SpaceAndAlphabet(s[1..]);
    }
  }

  lemma SignsGo(core: string, e: nat)
    requires (core == [] || core[|core| - 1] != '=') && e <= 2 && (e > 0 ==> (|core| + e) % 4 == 0)
    ensures WithoutPadding(core + Signs(e)) == core
  {
    var s := core + Signs(e);
    assert s[..|core|] == core && forall i :: |core| <= i < |s| ==> s[i] == '=';
    assert e == 1 ==> s[|s| - 2] == core[|core| - 1];
    assert e == 0 ==> s == core;
  }

  lemma SignsStay(core: string, e: nat)
    requires e > 2 || (e > 0 && (|core| + e) % 4 != 0)
    ensures !AllBase64(WithoutPadding(core + Signs(e)))
  {
    var data := WithoutPadding(core + Signs(e));
    assert |data| > |core| && data[|core|] == '=';
    assert !IsBase64(data[|core|]);
    hide WithoutPadding;
  }

  /** What is left of a text and e equals signs behind it can be decoded exactly when the signs go away. */
  lemma SignsGoExactly(core: string, e: nat)
    requires core == [] || core[|core| - 1] != '='
    ensures var data := WithoutPadding(core + Signs(e));
            |data| % 4 != 1 && AllBase64(data) <==>
            AllBase64(core) && if e == 0 then |core| % 4 != 1 else e <= 2 && (|core| + e) % 4 == 0
  {
    hide AllBase64, WithoutPadding, Signs;
    if e <= 2 && (e > 0 ==> (|core| + e) % 4 == 0) {
      SignsGo(core, e);
    } else {
      SignsStay(core, e);
    }
  }

  lemma AlphabetOfUsable(s: string)
    ensures AllBase64(StandardAlphabet(s)) <==> forall c :: c in s ==> IsUsable(c)
  {
    var swapped := StandardAlphabet(s);
    assert forall i :: 0 <= i < |s| ==> (IsBase64(swapped[i]) <==> IsUsable(s[i]));
    assert forall i :: 0 <= i < |s| ==> s[i] in s;
    hide StandardAlphabet, IsBase64, IsUsable;
  }

  lemma AlphabetOfSigns(core: string, n: nat)
    ensures StandardAlphabet(core + Signs(n)) == StandardAlphabet(core) + Signs(n)
  {
  }

  lemma SignsJoined(text: string, n: nat, m: nat)
    ensures text + Signs(n) + Signs(m) == text + Signs(n + m)
  {
  }

  lemma PadIsSigns(value: string)
    ensures PaddingFor(value) == Signs(|PaddingFor(value)|) && WithoutSpace(PaddingFor(value)) == PaddingFor(value)
    ensures |PaddingFor(value)| == (4 - |value| % 4) % 4
  {
    NoSpaceToRemove(PaddingFor(value));
  }

  /** What `atob` gets, without white space. */
  lemma PaddedText(value: string)
    ensures var bare := WithoutSpace(value);
            WithoutSpace(StandardAlphabet(value) + PaddingFor(value)) ==
            StandardAlphabet(Core(bare)) + Signs(TrailingSigns(bare) + |PaddingFor(value)|)
  {
    hide *;
    var bare, pad := WithoutSpace(value), PaddingFor(value);
    PadIsSigns(value);
    WithoutSpaceJoined(StandardAlphabet(value), pad);
    SpaceAndAlphabet(value);
    CoreAndSigns(bare);
    AlphabetOfSigns(Core(bare), TrailingSigns(bare));
    SignsJoined(StandardAlphabet(Core(bare)), TrailingSigns(bare), |pad|);
  }

  lemma AlphabetKeepsSigns(s: string)
    ensures |StandardAlphabet(s)| == |s| && (s != [] && s[|s| - 1] != '=' ==> StandardAlphabet(s)[|s| - 1] != '=')
  {
  }

  lemma AtobExactly(value: string)
    ensures var data := WithoutPadding(WithoutSpace(StandardAlphabet(value) + PaddingFor(value)));
            RawOf(value).Some? <==> |data| % 4 != 1 && AllBase64(data)
  {
    hide WithoutPadding, WithoutSpace, StandardAlphabet, PaddingFor, Octets, Values, Characters, AllBase64;
  }

  /** For every value: with white space removed and equals signs taken off its end, what remains must be
      usable; and the signs there and those that were added (by the length with white space) must be none,
      the length not being one more than a multiple of four, or one or two that fill up to such a multiple. */
  lemma DecodesExactly(value: string)
    ensures var bare := WithoutSpace(value);
            var signs := TrailingSigns(bare) + |PaddingFor(value)|;
            RawOf(value).Some? <==>
            && (forall c :: c in Core(bare) ==> IsUsable(c))
            && if signs == 0 then |Core(bare)| % 4 != 1 else signs <= 2 && (|Core(bare)| + signs) % 4 == 0
  {
    hide *;
    var bare := WithoutSpace(value);
    PaddedText(value);
    CoreAndSigns(bare);
    AlphabetKeepsSigns(Core(bare));
    SignsGoExactly(StandardAlphabet(Core(bare)), TrailingSigns(bare) + |PaddingFor(value)|);
    AlphabetOfUsable(Core(bare));
    AtobExactly(value);
  }

  lemma BareHasNoSigns(value: string)
    requires forall c :: c in value ==> IsBare(c)
    ensures TrailingSigns(value) == 0 && Core(value) == value && WithoutSpace(value) == value
  {
    NoSpaceToRemove(value);
    assert value != [] ==> value[|value| - 1] in value;
  }

  /** Without white space and equals signs in the value, only its characters and its length matter. */
  lemma BareDecodesExactly(value: string)
    requires forall c :: c in value ==> IsBare(c)
    ensures RawOf(value).Some? <==> |value| % 4 != 1 && forall c :: c in value ==> IsUsable(c)
  {
    hide *;
    BareHasNoSigns(value);
    PadIsSigns(value);
    DecodesExactly(value);
  }

  lemma BareEnd(value: string)
    requires forall c :: c in value ==> IsBare(c)
    ensures value == [] || value[|value| - 1] != '='
  {
    assert value != [] ==> value[|value| - 1] in value;
  }

  lemma TwoOfThreeGo(core: string)
    requires |core| % 4 == 1
    ensures WithoutPadding(core + Signs(3)) == core + "="
  {
    var s := core + Signs(3);
    assert s[|s| - 1] == '=' && s[|s| - 2] == '=' && s[..|s| - 2] == core + "=";
  }

  /** Padding always gives a multiple of four, and `atob` removes it again unless the length was wrong. */
  lemma PaddingIsRemoved(value: string)
    requires forall c :: c in value ==> IsBare(c)
    ensures var padded := StandardAlphabet(value) + PaddingFor(value);
            && |padded| % 4 == 0 && WithoutSpace(padded) == padded
            && WithoutPadding(padded) == StandardAlphabet(value) + if |value| % 4 == 1 then "=" else ""
  {
    hide *;
    BareHasNoSigns(value);
    PadIsSigns(value);
    PaddedText(value);
    AlphabetKeepsSigns(value);
    var swapped, n := StandardAlphabet(value), |PaddingFor(value)|;
    assert (|swapped| + n) % 4 == 0 && n <= 3;
    if n == 3 {
      TwoOfThreeGo(swapped);
    } else {
      BareEnd(value);
      SignsGo(swapped, n);
    }
  }

  lemma EncodedValues(bytes: seq<Byte>)
    ensures var swapped := StandardAlphabet(EncodeUrl(bytes));
            AllBase64(swapped) && Values(swapped) == Sextets(bytes)
    ensures forall c :: c in EncodeUrl(bytes) ==> IsBare(c)
  {
    var value, sextets := EncodeUrl(bytes), Sextets(bytes);
    var swapped := StandardAlphabet(value);
    hide Sextets;
    forall i | 0 <= i < |value|
      ensures IsBare(value[i]) && IsBase64(swapped[i]) && CharValue(swapped[i]) == sextets[i]
    {
      SwappedValue(sextets[i]);
    }
  }

  /** Samples (RFC 4648, sections 5 and 10): the alphabet in order, `-` and `_` at its end, and no padding. */
  lemma EncodeSamples()
    ensures EncodeUrl([]) == "" && EncodeUrl([0x66]) == "Zg" && EncodeUrl([0x66, 0x6F]) == "Zm8"
    ensures EncodeUrl([0x66, 0x6F, 0x6F]) == "Zm9v" && EncodeUrl([0xFB, 0xFF]) == "-_8"
  {
    assert Sextets([0x66, 0x6F, 0x6F]) == [25, 38, 61, 47] by { assert [0x66, 0x6F, 0x6F][3..] == []; }
    assert Sextets([0x66]) == [25, 32] && Sextets([0x66, 0x6F]) == [25, 38, 60];
    assert Sextets([0xFB, 0xFF]) == [62, 63, 60];
  }

  /** The characters follow each other in four runs: capitals, small letters, digits, and the last two. */
  lemma AlphabetInOrder(v: Sextet)
    ensures UrlChar(0) == 'A' && UrlChar(25) == 'Z' && UrlChar(26) == 'a' && UrlChar(51) == 'z'
    ensures UrlChar(52) == '0' && UrlChar(61) == '9' && UrlChar(62) == '-' && UrlChar(63) == '_'
    ensures v < 61 && v != 25 && v != 51 ==> UrlChar(v + 1) as int == UrlChar(v) as int + 1
  {
  }

  lemma DecodedValues(value: string, sextets: seq<Sextet>)
    requires (forall c :: c in value ==> IsBare(c)) && |value| % 4 != 1
    requires AllBase64(StandardAlphabet(value)) && Values(StandardAlphabet(value)) == sextets
    ensures RawOf(value) == Some(Characters(Octets(sextets)))
  {
    PaddingIsRemoved(value);
    hide AllBase64, Values, WithoutPadding, WithoutSpace, PaddingFor, Octets, Characters, IsBare;
    assert StandardAlphabet(value) + "" == StandardAlphabet(value) && |StandardAlphabet(value)| == |value|;
    hide StandardAlphabet;
  }

  lemma BytesOfCharacters(octets: seq<Byte>)
    ensures BytesOf(Characters(octets)) == octets
  {
  }

  /** Decoding gives back the bytes that were encoded, for every byte sequence. */
  lemma DecodingInvertsEncoding(bytes: seq<Byte>)
    ensures RawOf(EncodeUrl(bytes)).Some? && BytesOf(RawOf(EncodeUrl(bytes)).value) == bytes
  {
    var value := EncodeUrl(bytes);
    EncodedValues(bytes);
    OctetsOfSextets(bytes);
    assert |value| == |Sextets(bytes)|;
    hide *;
    DecodedValues(value, Sextets(bytes));
    BytesOfCharacters(bytes);
  }
}
