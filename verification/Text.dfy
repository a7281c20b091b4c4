/** The string operations the source takes from JavaScript. */
module Text {

  /** What `trim` removes: white space and line terminators. */
  predicate IsSpace(c: char) {
    || '\U{0009}' <= c <= '\U{000D}' || c == ' ' || c == '\U{00A0}' || c == '\U{1680}'
    || '\U{2000}' <= c <= '\U{200A}' || c == '\U{2028}' || c == '\U{2029}' || c == '\U{202F}'
    || c == '\U{205F}' || c == '\U{3000}' || c == '\U{FEFF}'
  }

  /** These are the code points (ECMA-262, white space and line terminators). */
  lemma SpaceExactly(c: char)
    ensures IsSpace(c) <==>
              || c as int in {0x9, 0xA, 0xB, 0xC, 0xD, 0x20, 0xA0, 0x1680}
              || c as int in {0x2028, 0x2029, 0x202F, 0x205F, 0x3000, 0xFEFF}
              || 0x2000 <= c as int <= 0x200A
  {
  }

  predicate IsSlash(c: char) {
    c == '/'
  }

  // ---------------------------------------------------------------- stripping

  function StripLeft(s: string, drop: char -> bool): string {
    if s != [] && drop(s[0]) then StripLeft(s[1..], drop) else s
  }

  function StripRight(s: string, drop: char -> bool): string {
    if s != [] && drop(s[|s| - 1]) then StripRight(s[..|s| - 1], drop) else s
  }

  function Strip(s: string, drop: char -> bool): string {
    StripRight(StripLeft(s, drop), drop)
  }

  predicate EdgesKept(s: string, drop: char -> bool) {
    s == [] || (!drop(s[0]) && !drop(s[|s| - 1]))
  }

  lemma {:induction false} StripLeftIsSuffix(s: string, drop: char -> bool)
    ensures var r := StripLeft(s, drop);
            |r| <= |s| && r == s[|s| - |r|..] && (r != [] ==> !drop(r[0])) && (s != [] && drop(s[0]) ==> |r| < |s|)
  {
    if s != [] && drop(s[0]) {
      StripLeftIsSuffix(s[1..], drop);
    }
  }

  lemma {:induction false} StripRightIsPrefix(s: string, drop: char -> bool)
    ensures var r := StripRight(s, drop);
            && |r| <= |s| && r == s[..|r|] && (r != [] ==> !drop(r[|r| - 1]))
            && (s != [] && drop(s[|s| - 1]) ==> |r| < |s|) && (s != [] && !drop(s[0]) ==> r != [])
  {
    if s != [] && drop(s[|s| - 1]) {
      StripRightIsPrefix(s[..|s| - 1], drop);
    }
  }

  /** Stripping yields a slice with kept edges, and is the identity exactly on strings that have them. */
  lemma StripSlices(s: string, drop: char -> bool)
    ensures var r := Strip(s, drop);
            && |r| <= |s| && EdgesKept(r, drop)
            && (forall c :: c in r ==> c in s)
            && (r == s <==> EdgesKept(s, drop))
            && (|r| == |s| ==> r == s)
  {
    StripLeftIsSuffix(s, drop);
    StripRightIsPrefix(StripLeft(s, drop), drop);
  }

  predicate AllDropped(s: string, drop: char -> bool) {
    forall i :: 0 <= i < |s| ==> drop(s[i])
  }

  lemma {:induction false} StripRightDrops(s: string, t: string, drop: char -> bool)
    requires AllDropped(t, drop)
    ensures StripRight(s + t, drop) == StripRight(s, drop)
  {
    if t == [] {
      assert s + t == s;
    } else {
      assert (s + t)[..|s + t| - 1] == s + t[..|t| - 1] && (s + t)[|s + t| - 1] == t[|t| - 1];
      StripRightDrops(s, t[..|t| - 1], drop);
    }
  }

  lemma {:induction false} StripLeftDrops(s: string, t: string, drop: char -> bool)
    requires AllDropped(s, drop)
    ensures StripLeft(s + t, drop) == StripLeft(t, drop)
  {
    if s == [] {
      assert s + t == t;
    } else {
      assert (s + t)[1..] == s[1..] + t;
      StripLeftDrops(s[1..], t, drop);
    }
  }

  /** Stripping takes off exactly what is to be dropped, at both ends. */
  lemma StripExactly(before: string, core: string, after: string, drop: char -> bool)
    requires AllDropped(before, drop) && AllDropped(after, drop) && EdgesKept(core, drop)
    ensures Strip(before + (core + after), drop) == core
  {
    StripLeftDrops(before, core + after, drop);
    if core == [] {
      assert core + after == after && after + [] == after && [] + after == after;
      StripLeftDrops(after, [], drop);
      assert StripRight([], drop) == [];
    } else {
      assert StripLeft(core + after, drop) == core + after;
      StripRightDrops(core, after, drop);
    }
  }

  // ---------------------------------------------------------------- splitting and joining

  /** `split` on a one-character separator: always at least one piece. */
  function Split(s: string, sep: char): (pieces: seq<string>)
    ensures pieces != []
  {
    if s == [] then [[]]
    else
      var rest := Split(s[1..], sep);
      if s[0] == sep then [[]] + rest else [[s[0]] + rest[0]] + rest[1..]
  }

  function Join(pieces: seq<string>, sep: char): string {
    if pieces == [] then []
    else if |pieces| == 1 then pieces[0]
    else pieces[0] + [sep] + Join(pieces[1..], sep)
  }

  lemma {:induction false} SplitFirst(piece: string, rest: string, sep: char)
    requires sep !in piece
    ensures Split(piece + [sep] + rest, sep) == [piece] + Split(rest, sep)
  {
    var s := piece + [sep] + rest;
    if piece == [] {
      assert s[1..] == rest;
    } else {
      SplitFirst(piece[1..], rest, sep);
      assert piece[0] in piece && s[1..] == piece[1..] + [sep] + rest;
      assert [piece[0]] + piece[1..] == piece;
    }
  }

  lemma {:induction false} SplitOne(piece: string, sep: char)
    requires sep !in piece
    ensures Split(piece, sep) == [piece]
  {
    if piece != [] {
      SplitOne(piece[1..], sep);
      assert piece[0] in piece && [piece[0]] + piece[1..] == piece;
    }
  }

  lemma {:induction false} SplitJoined(pieces: seq<string>, sep: char)
    requires pieces != [] && forall i :: 0 <= i < |pieces| ==> sep !in pieces[i]
    ensures Split(Join(pieces, sep), sep) == pieces
  {
    if |pieces| == 1 {
      SplitOne(pieces[0], sep);
    } else {
      SplitJoined(pieces[1..], sep);
      SplitFirst(pieces[0], Join(pieces[1..], sep), sep);
    }
  }

  lemma {:induction false} SplitHasNoSep(s: string, sep: char)
    ensures forall i :: 0 <= i < |Split(s, sep)| ==> sep !in Split(s, sep)[i]
  {
    if s != [] {
      SplitHasNoSep(s[1..], sep);
    }
  }

  /** `filter(Boolean)` on strings. */
  function NonEmpty(pieces: seq<string>): (kept: seq<string>)
    ensures forall p :: p in kept ==> p in pieces && p != []
  {
    if pieces == [] then [] else (if pieces[0] == [] then [] else [pieces[0]]) + NonEmpty(pieces[1..])
  }

  lemma {:induction false} NonEmptyKeepsAll(pieces: seq<string>)
    requires forall p :: p in pieces ==> p != []
    ensures NonEmpty(pieces) == pieces
  {
    if pieces != [] {
      assert pieces[0] in pieces && forall p :: p in pieces[1..] ==> p in pieces;
      NonEmptyKeepsAll(pieces[1..]);
    }
  }
}
