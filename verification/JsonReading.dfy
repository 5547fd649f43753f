/** Reading JSON strings and numbers back, as section 7 and section 6 of RFC 8259 define them. */
module JsonReading {
  import opened Options
  import opened JsonText
  import opened JsonNumbers

  /* ---------------------------- strings ---------------------------- */

  function HexDigit(u: Unit): Option<int> {
    if 0x30 <= u <= 0x39 then Some(u - 0x30)
    else if 0x41 <= u <= 0x46 then Some(u - 0x41 + 10)
    else if 0x61 <= u <= 0x66 then Some(u - 0x61 + 10)
    else None
  }

  /** What an escape of one character stands for. */
  function Escape(u: Unit): Option<Unit> {
    if u == 0x22 || u == 0x5c || u == 0x2f then Some(u)
    else if u == 0x62 then Some(0x08)
    else if u == 0x66 then Some(0x0c)
    else if u == 0x6e then Some(0x0a)
    else if u == 0x72 then Some(0x0d)
    else if u == 0x74 then Some(0x09)
    else None
  }

  function FourHex(t: Text): Option<Unit>
    requires |t| == 4
  {
    var a, b, c, d := HexDigit(t[0]), HexDigit(t[1]), HexDigit(t[2]), HexDigit(t[3]);
    if a.Some? && b.Some? && c.Some? && d.Some? && 0 <= a.value < 16 && 0 <= b.value < 16 && 0 <= c.value < 16 && 0 <= d.value < 16
    then Some(((a.value * 16 + b.value) * 16 + c.value) * 16 + d.value) else None
  }

  /** One unit of a string, and what follows it; a control character must be escaped. */
  function ReadUnit(t: Text): Option<(Unit, Text)> {
    if t == [] || t[0] == 0x22 || t[0] < 0x20 then None
    else if t[0] != 0x5c then Some((t[0], t[1..]))
    else if |t| >= 6 && t[1] == 0x75 then
      var u := FourHex(t[2..6]);
      if u.Some? then Some((u.value, t[6..])) else None
    else if |t| >= 2 then
      var u := Escape(t[1]);
      if u.Some? then Some((u.value, t[2..])) else None
    else None
  }

  /** A string from behind its opening quote to its closing one, and what follows. */
  function ReadString(t: Text): Option<(Text, Text)>
    decreases |t|
  {
    if t == [] then None
    else if t[0] == 0x22 then Some(([], t[1..]))
    else
      var first := ReadUnit(t);
      if first.None? || |first.value.1| >= |t| then None else
      var rest := ReadString(first.value.1);
      if rest.None? then None else Some(([first.value.0] + rest.value.0, rest.value.1))
  }

  lemma HexReadsBack(d: int)
    requires 0 <= d < 16
    ensures HexDigit(Hex(d)) == Some(d)
  {
  }

  lemma Regrouped(u: int)
    requires 0 <= u < 0x1_0000
    ensures ((u / 16 / 16 / 16 * 16 + u / 16 / 16 % 16) * 16 + u / 16 % 16) * 16 + u % 16 == u
    ensures 0 <= u / 16 / 16 / 16 < 16
  {
  }

  lemma UnicodeReadsBack(u: Unit, y: Text)
    ensures ReadUnit(UnicodeEscape(u) + y) == Some((u, y))
  {
    var t := UnicodeEscape(u) + y;
    var digits := UnicodeEscape(u)[2..6];
    assert t[2..6] == digits && t[6..] == y && t[0] == 0x5c && t[1] == 0x75;
    Regrouped(u);
    HexReadsBack(u / 16 / 16 / 16);
    HexReadsBack(u / 16 / 16 % 16);
    HexReadsBack(u / 16 % 16);
    HexReadsBack(u % 16);
    assert digits == [Hex(u / 16 / 16 / 16), Hex(u / 16 / 16 % 16), Hex(u / 16 % 16), Hex(u % 16)];
    hide Hex, HexDigit, UnicodeEscape;
  }

  lemma ShortReadsBack(u: Unit, y: Text)
    requires HasShortEscape(u)
    ensures ReadUnit([BACKSLASH, ShortEscape(u)] + y) == Some((u, y))
  {
    var t := [BACKSLASH, ShortEscape(u)] + y;
    assert t[0] == 0x5c && t[1] == ShortEscape(u) && t[2..] == y;
    hide FourHex;
  }

  lemma PieceReadsBack(s: Text, i: nat, y: Text)
    requires i < |s|
    ensures ReadUnit(Piece(s, i) + y) == Some((s[i], y)) && Piece(s, i) != [] && Piece(s, i)[0] != 0x22
  {
    var u := s[i];
    UnicodeReadsBack(u, y);
    if HasShortEscape(u) { ShortReadsBack(u, y); }
    assert ([u] + y)[1..] == y;
    hide UnicodeEscape, ShortEscape, FourHex, Escape;
  }

  lemma {:induction false} TailReadsBack(s: Text, i: nat, x: Text)
    requires i <= |s|
    ensures ReadString(Tail(s, i, x)) == Some((s[i..], x))
    decreases |s| - i
  {
    hide Piece, Tail, Escaped, ReadUnit;
    TailUnfolds(s, i, x);
    if i < |s| {
      PieceReadsBack(s, i, Tail(s, i + 1, x));
      TailReadsBack(s, i + 1, x);
      assert Tail(s, i, x)[0] == Piece(s, i)[0];
      assert s[i..] == [s[i]] + s[i + 1..];
    } else {
      assert s[i..] == [];
    }
  }

  /** A quoted string reads back as the string it was, and leaves what follows it. */
  lemma QuoteReadsBack(s: Text, x: Text)
    ensures (Quote(s) + x)[0] == 0x22 && ReadString((Quote(s) + x)[1..]) == Some((s, x))
  {
    TailReadsBack(s, 0, x);
    assert Quote(s) + x == [QUOTE] + Tail(s, 0, x);
    assert s[0..] == s;
    hide Tail, Escaped, ReadString;
  }

  /** Only what has to be escaped is: controls, quotes, backslashes, and halves of surrogate pairs without the other half. */
  lemma PlainExactlyWhen(s: Text, i: nat)
    requires i < |s|
    ensures Piece(s, i) == [s[i]] <==>
            && s[i] >= 0x20 && s[i] != 0x22 && s[i] != 0x5c
            && (0xd800 <= s[i] <= 0xdbff ==> i + 1 < |s| && 0xdc00 <= s[i + 1] <= 0xdfff)
            && (0xdc00 <= s[i] <= 0xdfff ==> i > 0 && 0xd800 <= s[i - 1] <= 0xdbff)
  {
    hide Hex, ShortEscape;
  }

  /** An escape by number has four digits, in lower case. */
  lemma EscapesInLowerCase(u: Unit)
    ensures |UnicodeEscape(u)| == 6
    ensures forall k :: 2 <= k < 6 ==> 0x30 <= UnicodeEscape(u)[k] <= 0x39 || 0x61 <= UnicodeEscape(u)[k] <= 0x66
  {
    Regrouped(u);
  }

  /* ---------------------------- numbers ---------------------------- */

  /** The value of a text of digits. */
  function Value(t: Text): int { if t == [] then 0 else Value(t[..|t| - 1]) * 10 + (t[|t| - 1] as int - 0x30) }

  function Pow10(j: nat): int { if j == 0 then 1 else Pow10(j - 1) * 10 }

  /** Where a mark first stands, or the end. */
  function IndexOf(t: Text, mark: Unit): (i: nat)
    ensures i <= |t|
  {
    if t == [] || t[0] == mark then 0 else 1 + IndexOf(t[1..], mark)
  }

  /** A number as it is read: a whole number times ten to a power. */
  datatype Decimal = Decimal(mantissa: int, exponent: int)

  function ReadExponent(t: Text): int {
    if t != [] && t[0] == 0x2d then -Value(t[1..])
    else if t != [] && t[0] == 0x2b then Value(t[1..])
    else Value(t)
  }

  function ReadMantissa(t: Text): Decimal {
    var point := IndexOf(t, 0x2e);
    var fraction := if point < |t| then t[point + 1..] else [];
    Decimal(Value(t[..point] + fraction), -|fraction|)
  }

  function ReadUnsigned(t: Text): Decimal {
    var e := IndexOf(t, 0x65);
    var read := ReadMantissa(t[..e]);
    if e < |t| then read.(exponent := read.exponent + ReadExponent(t[e + 1..])) else read
  }

  /** Whether a number is negative, and what it is apart from that. */
  function ReadNumber(t: Text): (bool, Decimal) {
    if t != [] && t[0] == 0x2d then (true, ReadUnsigned(t[1..])) else (false, ReadUnsigned(t))
  }

  /** The digits as a whole number. */
  function WholeOf(ds: seq<Digit>): int { if ds == [] then 0 else WholeOf(ds[..|ds| - 1]) * 10 + ds[|ds| - 1] }

  /** The same number: `0.d1 d2 ... dk` times ten to the point. */
  ghost predicate Denotes(read: Decimal, ds: seq<Digit>, point: int) {
    exists j: nat :: read.mantissa == WholeOf(ds) * Pow10(j) && read.exponent + j == point - |ds|
  }

  lemma {:induction false} ValueOfMore(a: Text, b: Text)
    ensures Value(a + b) == Value(a) * Pow10(|b|) + Value(b)
  {
    if b == [] {
      assert a + b == a;
    } else {
      var n := |b| - 1;
      assert (a + b)[..|a + b| - 1] == a + b[..n];
      ValueOfMore(a, b[..n]);
      assert Value(a) * Pow10(n) * 10 == Value(a) * Pow10(n + 1);
    }
  }

  lemma {:induction false} ValueOfNoughts(k: nat)
    ensures Value(Noughts(k)) == 0
  {
    if k > 0 {
      assert Noughts(k)[..k - 1] == Noughts(k - 1);
      ValueOfNoughts(k - 1);
    }
  }

  lemma {:induction false} ValueOfChars(ds: seq<Digit>)
    ensures Value(Chars(ds)) == WholeOf(ds)
  {
    if ds != [] {
      assert Chars(ds)[..|ds| - 1] == Chars(ds[..|ds| - 1]);
      ValueOfChars(ds[..|ds| - 1]);
    }
  }

  lemma {:induction false} ValueOfDecimal(m: nat)
    ensures Value(JsonNumbers.Decimal(m)) == m
  {
    var t := JsonNumbers.Decimal(m);
    if m >= 10 {
      assert t[..|t| - 1] == JsonNumbers.Decimal(m / 10);
      ValueOfDecimal(m / 10);
    } else {
      assert t[..0] == [];
    }
  }

  lemma {:induction false} NowhereIn(t: Text, mark: Unit)
    requires forall i :: 0 <= i < |t| ==> t[i] != mark
    ensures IndexOf(t, mark) == |t|
  {
    if t != [] { NowhereIn(t[1..], mark); }
  }

  lemma {:induction false} FirstBehind(a: Text, mark: Unit, b: Text)
    requires forall i :: 0 <= i < |a| ==> a[i] != mark
    ensures IndexOf(a + [mark] + b, mark) == |a|
  {
    if a != [] {
      assert (a + [mark] + b)[1..] == a[1..] + [mark] + b;
      FirstBehind(a[1..], mark, b);
    }
  }

  predicate AllDigits(t: Text) { forall i :: 0 <= i < |t| ==> 0x30 <= t[i] <= 0x39 }

  lemma WholeReads(t: Text)
    requires AllDigits(t)
    ensures ReadMantissa(t) == Decimal(Value(t), 0)
  {
    NowhereIn(t, 0x2e);
    assert t[..|t|] + [] == t;
  }

  lemma NoExponentIn(a: Text, b: Text)
    requires AllDigits(a) && AllDigits(b)
    ensures LOWER_E !in a && LOWER_E !in a + [DOT] + b
  {
  }

  lemma PointReads(a: Text, b: Text)
    requires AllDigits(a) && AllDigits(b)
    ensures ReadMantissa(a + [DOT] + b) == Decimal(Value(a + b), -|b|)
  {
    var t := a + [DOT] + b;
    FirstBehind(a, 0x2e, b);
    assert t[..|a|] == a && t[|a| + 1..] == b;
  }

  lemma PlainReads(t: Text)
    requires LOWER_E !in t
    ensures ReadUnsigned(t) == ReadMantissa(t)
  {
    NowhereIn(t, 0x65);
    assert t[..|t|] == t;
  }

  lemma ExponentReads(e: int)
    ensures |Exponent(e)| >= 1 && Exponent(e)[0] == LOWER_E && ReadExponent(Exponent(e)[1..]) == e
  {
    var digits := JsonNumbers.Decimal(if e < 0 then -e else e);
    ValueOfDecimal(if e < 0 then -e else e);
    hide JsonNumbers.Decimal;
    assert Exponent(e)[1..][1..] == digits;
  }

  lemma PowerReads(t: Text, e: int)
    requires LOWER_E !in t
    ensures ReadUnsigned(t + Exponent(e)) == Decimal(ReadMantissa(t).mantissa, ReadMantissa(t).exponent + e)
  {
    ExponentReads(e);
    var whole, tail := t + Exponent(e), Exponent(e)[1..];
    hide Exponent, ReadExponent, ReadMantissa;
    assert whole == t + [LOWER_E] + tail;
    FirstBehind(t, 0x65, tail);
    assert whole[..|t|] == t && whole[|t| + 1..] == tail;
  }

  lemma CharsAreDigits(ds: seq<Digit>)
    ensures AllDigits(Chars(ds))
  {
  }

  lemma WholeFormReads(ds: seq<Digit>, n: int)
    requires ds != [] && |ds| <= n
    ensures ReadUnsigned(Chars(ds) + Noughts(n - |ds|)) == Decimal(WholeOf(ds) * Pow10(n - |ds|), 0)
  {
    var t := Chars(ds) + Noughts(n - |ds|);
    CharsAreDigits(ds);
    ValueOfMore(Chars(ds), Noughts(n - |ds|));
    ValueOfNoughts(n - |ds|);
    ValueOfChars(ds);
    assert AllDigits(t);
    NoExponentIn(t, t);
    hide Chars, Noughts, Value, WholeOf, ReadUnsigned, ReadMantissa;
    PlainReads(t);
    WholeReads(t);
  }

  /** Digits on both sides of a point. */
  lemma AroundAPoint(a: Text, b: Text, whole: int)
    requires AllDigits(a) && AllDigits(b) && Value(a + b) == whole
    ensures ReadUnsigned(a + [DOT] + b) == ReadMantissa(a + [DOT] + b) == Decimal(whole, -|b|)
    ensures LOWER_E !in a + [DOT] + b
  {
    hide ReadUnsigned, ReadMantissa, Value, AllDigits;
    NoExponentIn(a, b);
    PlainReads(a + [DOT] + b);
    PointReads(a, b);
  }

  lemma MixedFormReads(ds: seq<Digit>, n: int)
    requires 0 < n < |ds|
    ensures ReadUnsigned(Chars(ds[..n]) + [DOT] + Chars(ds[n..])) == Decimal(WholeOf(ds), n - |ds|)
  {
    hide ReadUnsigned, ReadMantissa, Value, AllDigits, WholeOf;
    CharsAreDigits(ds[..n]);
    CharsAreDigits(ds[n..]);
    assert Chars(ds[..n]) + Chars(ds[n..]) == Chars(ds);
    ValueOfChars(ds);
    AroundAPoint(Chars(ds[..n]), Chars(ds[n..]), WholeOf(ds));
  }

  lemma SmallDigits(k: nat, ds: seq<Digit>)
    ensures AllDigits(Noughts(k) + Chars(ds)) && AllDigits([NOUGHT])
    ensures Value([NOUGHT] + (Noughts(k) + Chars(ds))) == WholeOf(ds)
  {
    CharsAreDigits(ds);
    assert AllDigits(Noughts(k) + Chars(ds));
    assert Value([NOUGHT]) == 0 by { assert [NOUGHT][..0] == []; }
    hide Chars, Value, WholeOf, AllDigits;
    ValueOfMore([NOUGHT], Noughts(k) + Chars(ds));
    ValueOfMore(Noughts(k), Chars(ds));
    ValueOfNoughts(k);
    ValueOfChars(ds);
  }

  lemma SmallFormReads(ds: seq<Digit>, n: int)
    requires n <= 0
    ensures ReadUnsigned([NOUGHT, DOT] + Noughts(-n) + Chars(ds)) == Decimal(WholeOf(ds), n - |ds|)
  {
    hide ReadUnsigned, ReadMantissa, Value, AllDigits, WholeOf;
    var b := Noughts(-n) + Chars(ds);
    SmallDigits(-n, ds);
    assert [NOUGHT, DOT] + Noughts(-n) + Chars(ds) == [NOUGHT] + [DOT] + b;
    AroundAPoint([NOUGHT], b, WholeOf(ds));
  }

  lemma PowerOfOneFormReads(ds: seq<Digit>, n: int)
    requires |ds| == 1
    ensures ReadUnsigned(Chars(ds) + Exponent(n - 1)) == Decimal(WholeOf(ds), n - 1)
  {
    hide Value, WholeOf, Exponent, ReadMantissa, ReadUnsigned, AllDigits;
    CharsAreDigits(ds);
    NoExponentIn(Chars(ds), Chars(ds));
    ValueOfChars(ds);
    WholeReads(Chars(ds));
    PowerReads(Chars(ds), n - 1);
  }

  lemma FirstDigitApart(ds: seq<Digit>)
    requires |ds| > 1
    ensures Chars(ds[..1]) == [Char(ds[0])] && Chars(ds[..1]) + Chars(ds[1..]) == Chars(ds)
    ensures [Char(ds[0]), DOT] + Chars(ds[1..]) == Chars(ds[..1]) + [DOT] + Chars(ds[1..])
  {
  }

  lemma PowerFormReads(ds: seq<Digit>, n: int)
    requires |ds| > 1
    ensures ReadUnsigned([Char(ds[0]), DOT] + Chars(ds[1..]) + Exponent(n - 1)) == Decimal(WholeOf(ds), n - |ds|)
  {
    hide Value, WholeOf, Exponent, ReadMantissa, ReadUnsigned, AllDigits, Chars, Char;
    FirstDigitApart(ds);
    CharsAreDigits(ds[..1]);
    CharsAreDigits(ds[1..]);
    ValueOfChars(ds);
    AroundAPoint(Chars(ds[..1]), Chars(ds[1..]), WholeOf(ds));
    PowerReads([Char(ds[0]), DOT] + Chars(ds[1..]), n - 1);
  }

  lemma FiniteReadsBack(ds: seq<Digit>, n: int)
    requires ds != []
    ensures Denotes(ReadUnsigned(FiniteText(ds, n)), ds, n)
  {
    hide ReadUnsigned, Chars, Noughts, Exponent, WholeOf;
    var read := ReadUnsigned(FiniteText(ds, n));
    match FormOf(|ds|, n)
    case Whole =>
      WholeFormReads(ds, n);
      assert read.mantissa == WholeOf(ds) * Pow10(n - |ds|);
    case Mixed =>
      MixedFormReads(ds, n);
      assert read.mantissa == WholeOf(ds) * Pow10(0);
    case Small =>
      SmallFormReads(ds, n);
      assert read.mantissa == WholeOf(ds) * Pow10(0);
    case PowerOfOne =>
      PowerOfOneFormReads(ds, n);
      assert read.mantissa == WholeOf(ds) * Pow10(0);
    case Power =>
      PowerFormReads(ds, n);
      assert read.mantissa == WholeOf(ds) * Pow10(0);
  }

  /** A finite number reads back as itself, sign and value. */
  lemma NumberReadsBack(x: Number)
    requires Valid(x)
    ensures x.Finite? ==>
              && ReadNumber(NumberText(x)).0 == x.negative
              && Denotes(ReadNumber(NumberText(x)).1, x.digits, x.point)
    ensures x.Zero? ==> ReadNumber(NumberText(x)) == (false, Decimal(0, 0))
  {
    if x.Finite? {
      var t := FiniteText(x.digits, x.point);
      FiniteReadsBack(x.digits, x.point);
      FiniteTextLooks(x.digits, x.point);
      assert ([MINUS] + t)[1..] == t && [] + t == t;
      hide FiniteText, ReadUnsigned, Denotes;
    } else if x.Zero? {
      assert AllDigits([NOUGHT]);
      PlainReads([NOUGHT]);
      WholeReads([NOUGHT]);
      assert [NOUGHT][..0] == [];
    }
  }

  /** It is written out in full from a millionth up to ten to the 21st, and with an exponent beyond. */
  lemma ExponentExactlyWhen(x: Number)
    requires Valid(x) && x.Finite?
    ensures LOWER_E in NumberText(x) <==> x.point > 21 || x.point <= -6
  {
    var t := FiniteText(x.digits, x.point);
    FiniteTextLooks(x.digits, x.point);
    hide FiniteText;
    assert LOWER_E in t <==> HasExponent(t);
  }
}
