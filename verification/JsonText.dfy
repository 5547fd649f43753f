/** The JSON text of strings and numbers, in UTF-16 code units. */
module JsonText {

  type Unit = u: int | 0 <= u < 0x1_0000

  type Text = seq<Unit>

  const QUOTE: Unit := 0x22
  const PLUS: Unit := 0x2b
  const COMMA: Unit := 0x2c
  const MINUS: Unit := 0x2d
  const DOT: Unit := 0x2e
  const NOUGHT: Unit := 0x30
  const COLON: Unit := 0x3a
  const OPEN_BRACKET: Unit := 0x5b
  const BACKSLASH: Unit := 0x5c
  const CLOSE_BRACKET: Unit := 0x5d
  const LOWER_E: Unit := 0x65
  const LOWER_U: Unit := 0x75
  const OPEN_BRACE: Unit := 0x7b
  const CLOSE_BRACE: Unit := 0x7d

  /* ---------------------------- strings ---------------------------- */

  predicate IsHigh(u: Unit) { 0xd800 <= u < 0xdc00 }

  predicate IsLow(u: Unit) { 0xdc00 <= u < 0xe000 }

  /** Half of a surrogate pair whose other half is there. */
  predicate Paired(s: Text, i: nat)
    requires i < |s|
  {
    || (IsHigh(s[i]) && i + 1 < |s| && IsLow(s[i + 1]))
    || (IsLow(s[i]) && i > 0 && IsHigh(s[i - 1]))
  }

  function Hex(d: int): Unit
    requires 0 <= d < 16
  {
    if d < 10 then 0x30 + d else 0x57 + d
  }

  function UnicodeEscape(u: Unit): Text {
    [BACKSLASH, LOWER_U, Hex(u / 16 / 16 / 16), Hex(u / 16 / 16 % 16), Hex(u / 16 % 16), Hex(u % 16)]
  }

  /** The short escapes: backspace, tab, newline, form feed, return, quote and backslash. */
  function ShortEscape(u: Unit): Unit {
    if u == 0x08 then 0x62 else if u == 0x09 then 0x74 else if u == 0x0a then 0x6e
    else if u == 0x0c then 0x66 else if u == 0x0d then 0x72 else u
  }

  predicate HasShortEscape(u: Unit) { u in {0x08, 0x09, 0x0a, 0x0c, 0x0d, QUOTE, BACKSLASH} }

  /** How one code unit of a string is written. */
  function Piece(s: Text, i: nat): Text
    requires i < |s|
  {
    var u := s[i];
    if HasShortEscape(u) then [BACKSLASH, ShortEscape(u)]
    else if u < 0x20 || ((IsHigh(u) || IsLow(u)) && !Paired(s, i)) then UnicodeEscape(u)
    else [u]
  }

  function Escaped(s: Text, i: nat): Text
    requires i <= |s|
    decreases |s| - i
  {
    if i == |s| then [] else Piece(s, i) + Escaped(s, i + 1)
  }

  /** `JSON.stringify` of a string. */
  function Quote(s: Text): Text { [QUOTE] + Escaped(s, 0) + [QUOTE] }

  lemma HexIsInjective(a: int, b: int)
    requires 0 <= a < 16 && 0 <= b < 16 && Hex(a) == Hex(b)
    ensures a == b
  {
  }

  lemma UnicodeEscapeIsInjective(u: Unit, v: Unit)
    requires UnicodeEscape(u) == UnicodeEscape(v)
    ensures u == v
  {
    var a, b := UnicodeEscape(u), UnicodeEscape(v);
    assert a[2] == b[2] && a[3] == b[3] && a[4] == b[4] && a[5] == b[5];
    HexIsInjective(u / 16 / 16 / 16, v / 16 / 16 / 16);
    HexIsInjective(u / 16 / 16 % 16, v / 16 / 16 % 16);
    HexIsInjective(u / 16 % 16, v / 16 % 16);
    HexIsInjective(u % 16, v % 16);
    hide UnicodeEscape, Hex;
    SameDigits(u / 16 / 16, v / 16 / 16);
    SameDigits(u / 16, v / 16);
    SameDigits(u, v);
  }

  lemma SameDigits(u: int, v: int)
    requires u / 16 == v / 16 && u % 16 == v % 16
    ensures u == v
  {
  }

  /** A unit as itself, in its short escape, or in its hexadecimal one. */
  predicate Writes(p: Text, u: Unit) {
    || (p == [u] && u != BACKSLASH && u != QUOTE)
    || (p == [BACKSLASH, ShortEscape(u)] && HasShortEscape(u))
    || (p == UnicodeEscape(u) && !HasShortEscape(u))
  }

  lemma PieceWrites(s: Text, i: nat)
    requires i < |s|
    ensures Writes(Piece(s, i), s[i])
  {
  }

  /** What is written for a unit is enough to tell the unit, whatever follows. */
  lemma PiecesAgree(a: Text, i: nat, b: Text, j: nat, x: Text, y: Text)
    requires i < |a| && j < |b| && Piece(a, i) + x == Piece(b, j) + y
    ensures a[i] == b[j] && x == y
  {
    PieceWrites(a, i);
    PieceWrites(b, j);
    var p, q := Piece(a, i), Piece(b, j);
    var whole := p + x;
    assert whole == q + y && whole[0] == p[0] == q[0];
    if |p| > 1 { assert whole[1] == p[1]; }
    if |q| > 1 { assert whole[1] == q[1]; }
    assert |p| == |q| by { PieceLengths(p, a[i], q, b[j]); }
    assert p == whole[..|p|] == q && x == whole[|p|..] == y;
    if |p| == 6 { UnicodeEscapeIsInjective(a[i], b[j]); }
  }

  lemma PieceLengths(p: Text, u: Unit, q: Text, v: Unit)
    requires Writes(p, u) && Writes(q, v)
    requires p[0] == q[0] && (|p| > 1 && |q| > 1 ==> p[1] == q[1])
    ensures |p| == |q|
  {
  }

  /** The rest of a quoted string from a unit on, and what follows it. */
  function Tail(s: Text, i: nat, x: Text): Text
    requires i <= |s|
  {
    Escaped(s, i) + [QUOTE] + x
  }

  lemma TailUnfolds(s: Text, i: nat, x: Text)
    requires i <= |s|
    ensures i < |s| ==> Tail(s, i, x) == Piece(s, i) + Tail(s, i + 1, x) && Tail(s, i, x)[0] != QUOTE
    ensures i == |s| ==> Tail(s, i, x) == [QUOTE] + x && Tail(s, i, x)[0] == QUOTE && Tail(s, i, x)[1..] == x
  {
    if i < |s| {
      PieceWrites(s, i);
      hide Piece, UnicodeEscape, ShortEscape;
      Regroup(Piece(s, i), Escaped(s, i + 1), [QUOTE], x);
    } else {
      hide Piece;
      assert Escaped(s, i) == [];
    }
  }

  lemma Regroup(a: Text, b: Text, c: Text, d: Text)
    ensures a + b + c + d == a + (b + c + d)
  {
  }

  lemma {:induction false} EscapedIsUnique(a: Text, i: nat, b: Text, j: nat, x: Text, y: Text)
    requires i <= |a| && j <= |b| && Tail(a, i, x) == Tail(b, j, y)
    ensures a[i..] == b[j..] && x == y
    decreases |a| - i
  {
    hide Tail, Piece, Escaped;
    TailUnfolds(a, i, x);
    TailUnfolds(b, j, y);
    if i < |a| && j < |b| {
      PiecesAgree(a, i, b, j, Tail(a, i + 1, x), Tail(b, j + 1, y));
      EscapedIsUnique(a, i + 1, b, j + 1, x, y);
      assert a[i..] == [a[i]] + a[i + 1..] && b[j..] == [b[j]] + b[j + 1..];
    }
  }

  /** A quoted string says which string it is, whatever follows it. */
  lemma QuoteIsUnique(a: Text, b: Text, x: Text, y: Text)
    requires Quote(a) + x == Quote(b) + y
    ensures a == b && x == y
  {
    assert Quote(a) + x == [QUOTE] + Tail(a, 0, x) && Quote(b) + y == [QUOTE] + Tail(b, 0, y);
    hide Escaped, Tail;
    assert Tail(a, 0, x) == (Quote(a) + x)[1..] == (Quote(b) + y)[1..] == Tail(b, 0, y);
    EscapedIsUnique(a, 0, b, 0, x, y);
    assert a[0..] == a && b[0..] == b;
  }
}
