/** The JSON text of numbers: `Number::toString` of section 6.1.6.1.20 of ECMA-262. */
module JsonNumbers {
  import opened JsonText

  type Digit = d: int | 0 <= d <= 9

  /** A double by its shortest decimal digits `d1 d2 ... dk` and point: the value is `0.d1d2...dk` times ten to the point.
      Both zeros are one value, as they are to `===`. */
  datatype Number = Zero | Finite(negative: bool, digits: seq<Digit>, point: int) | Infinite(negative: bool)

  predicate Valid(x: Number) {
    x.Finite? ==> x.digits != [] && x.digits[0] != 0 && x.digits[|x.digits| - 1] != 0
  }

  function Char(d: Digit): Unit { NOUGHT + d }

  function Chars(ds: seq<Digit>): (t: Text)
    ensures |t| == |ds| && forall i :: 0 <= i < |ds| ==> t[i] == Char(ds[i])
  {
    seq(|ds|, i requires 0 <= i < |ds| => Char(ds[i]))
  }

  function Noughts(k: nat): (t: Text)
    ensures |t| == k && forall i :: 0 <= i < k ==> t[i] == NOUGHT
  {
    seq(k, _ => NOUGHT)
  }

  function Decimal(m: nat): (t: Text)
    ensures t != [] && forall i :: 0 <= i < |t| ==> IsDigit(t[i])
  {
    if m < 10 then [Char(m)] else Decimal(m / 10) + [Char(m % 10)]
  }

  predicate IsDigit(u: Unit) { NOUGHT <= u <= NOUGHT + 9 }

  function Exponent(e: int): Text {
    [LOWER_E, if e < 0 then MINUS else PLUS] + Decimal(if e < 0 then -e else e)
  }

  datatype Form = Whole | Mixed | Small | PowerOfOne | Power

  function FormOf(k: nat, n: int): Form {
    if k <= n <= 21 then Whole
    else if 0 < n <= 21 then Mixed
    else if -6 < n <= 0 then Small
    else if k == 1 then PowerOfOne
    else Power
  }

  function FiniteText(ds: seq<Digit>, n: int): Text
    requires ds != []
  {
    match FormOf(|ds|, n)
    case Whole => Chars(ds) + Noughts(n - |ds|)
    case Mixed => Chars(ds[..n]) + [DOT] + Chars(ds[n..])
    case Small => [NOUGHT, DOT] + Noughts(-n) + Chars(ds)
    case PowerOfOne => Chars(ds) + Exponent(n - 1)
    case Power => [Char(ds[0]), DOT] + Chars(ds[1..]) + Exponent(n - 1)
  }

  /** `JSON.stringify` of a number: one that is not finite reads as null. */
  function NumberText(x: Number): Text
    requires Valid(x)
  {
    match x
    case Zero => [NOUGHT]
    case Finite(negative, ds, n) => (if negative then [MINUS] else []) + FiniteText(ds, n)
    case Infinite(_) => NULL_TEXT
  }

  const NULL_TEXT: Text := [0x6e, 0x75, 0x6c, 0x6c]

  /** The characters of a finite number. */
  predicate InNumber(u: Unit) { IsDigit(u) || u == DOT || u == LOWER_E || u == PLUS || u == MINUS }

  /* ---------------------------- parts ---------------------------- */

  lemma CharsAreUnique(a: seq<Digit>, b: seq<Digit>)
    requires Chars(a) == Chars(b)
    ensures a == b
  {
    forall i | 0 <= i < |a| ensures a[i] == b[i] {
      assert Char(a[i]) == Chars(a)[i] == Chars(b)[i] == Char(b[i]);
    }
  }

  lemma {:induction false} DecimalIsUnique(a: nat, b: nat)
    requires Decimal(a) == Decimal(b)
    ensures a == b
    decreases a
  {
    var s, t := Decimal(a), Decimal(b);
    assert s[|s| - 1] == t[|t| - 1];
    assert (a < 10 <==> |s| == 1) && (b < 10 <==> |t| == 1);
    if a >= 10 {
      assert Decimal(a / 10) == s[..|s| - 1] == t[..|t| - 1] == Decimal(b / 10);
      DecimalIsUnique(a / 10, b / 10);
    }
  }

  lemma ExponentIsUnique(a: int, b: int)
    requires Exponent(a) == Exponent(b)
    ensures a == b
  {
    var s, t := Exponent(a), Exponent(b);
    assert s[1] == t[1];
    assert s[2..] == t[2..];
    DecimalIsUnique(if a < 0 then -a else a, if b < 0 then -b else b);
    hide Decimal;
  }

  /* ---------------------------- forms ---------------------------- */

  predicate HasDot(t: Text) { exists i :: 0 <= i < |t| && t[i] == DOT }

  predicate HasExponent(t: Text) { exists i :: 0 <= i < |t| && t[i] == LOWER_E }

  predicate Looks(t: Text, f: Form) {
    && t != []
    && (HasDot(t) <==> f.Mixed? || f.Small? || f.Power?)
    && (HasExponent(t) <==> f.PowerOfOne? || f.Power?)
    && (f.Small? <==> HasDot(t) && t[0] == NOUGHT)
    && (f.Whole? ==> t[0] != NOUGHT)
    && (forall i :: 0 <= i < |t| ==> InNumber(t[i]))
    && IsDigit(t[0])
  }

  lemma ExponentLooks(e: int)
    ensures Exponent(e) != [] && Exponent(e)[0] == LOWER_E
    ensures forall i :: 0 <= i < |Exponent(e)| ==> InNumber(Exponent(e)[i]) && Exponent(e)[i] != DOT
  {
    hide Decimal;
  }

  lemma DotAt(t: Text, i: nat)
    requires i < |t| && t[i] == DOT
    ensures HasDot(t)
  {
  }

  lemma ExponentAt(t: Text, i: nat)
    requires i < |t| && t[i] == LOWER_E
    ensures HasExponent(t)
  {
  }

  lemma WholeLooks(ds: seq<Digit>, zeros: nat)
    requires ds != [] && ds[0] != 0
    ensures Looks(Chars(ds) + Noughts(zeros), Whole)
  {
    var t := Chars(ds) + Noughts(zeros);
    assert t[0] == Char(ds[0]);
    assert forall i :: 0 <= i < |t| ==> IsDigit(t[i]);
  }

  lemma MixedLooks(ds: seq<Digit>, n: nat)
    requires 0 < n < |ds| && ds[0] != 0
    ensures Looks(Chars(ds[..n]) + [DOT] + Chars(ds[n..]), Mixed)
  {
    var t := Chars(ds[..n]) + [DOT] + Chars(ds[n..]);
    assert t[0] == Char(ds[0]);
    assert forall i :: 0 <= i < |t| ==> IsDigit(t[i]) || t[i] == DOT;
    DotAt(t, n);
  }

  lemma SmallLooks(ds: seq<Digit>, zeros: nat)
    ensures Looks([NOUGHT, DOT] + Noughts(zeros) + Chars(ds), Small)
  {
    var t := [NOUGHT, DOT] + Noughts(zeros) + Chars(ds);
    assert forall i :: 0 <= i < |t| ==> IsDigit(t[i]) || t[i] == DOT;
    DotAt(t, 1);
  }

  lemma PowerOfOneLooks(ds: seq<Digit>, e: int)
    requires ds != [] && ds[0] != 0
    ensures Looks(Chars(ds) + Exponent(e), PowerOfOne)
  {
    ExponentLooks(e);
    hide Exponent;
    var t := Chars(ds) + Exponent(e);
    assert t[0] == Char(ds[0]);
    assert forall i :: 0 <= i < |t| ==> InNumber(t[i]) && t[i] != DOT;
    ExponentAt(t, |ds|);
  }

  lemma PowerLooks(ds: seq<Digit>, e: int)
    requires ds != [] && ds[0] != 0
    ensures Looks([Char(ds[0]), DOT] + Chars(ds[1..]) + Exponent(e), Power)
  {
    ExponentLooks(e);
    hide Exponent;
    var t := [Char(ds[0]), DOT] + Chars(ds[1..]) + Exponent(e);
    assert t[0] == Char(ds[0]);
    assert forall i :: 0 <= i < |t| ==> InNumber(t[i]);
    DotAt(t, 1);
    ExponentAt(t, |ds| + 1);
  }

  /** Whether there is a point, an exponent and a leading nought tells the five forms apart. */
  lemma FiniteTextLooks(ds: seq<Digit>, n: int)
    requires ds != [] && ds[0] != 0
    ensures Looks(FiniteText(ds, n), FormOf(|ds|, n))
  {
    hide Exponent, Looks;
    match FormOf(|ds|, n)
    case Whole => WholeLooks(ds, n - |ds|);
    case Mixed => MixedLooks(ds, n);
    case Small => SmallLooks(ds, -n);
    case PowerOfOne => PowerOfOneLooks(ds, n - 1);
    case Power => PowerLooks(ds, n - 1);
  }

  lemma WholeIsUnique(a: seq<Digit>, n: int, b: seq<Digit>, m: int)
    requires |a| <= n && |b| <= m && a != [] && b != [] && a[|a| - 1] != 0 && b[|b| - 1] != 0
    requires Chars(a) + Noughts(n - |a|) == Chars(b) + Noughts(m - |b|)
    ensures a == b && n == m
  {
    var t, s := Chars(a) + Noughts(n - |a|), Chars(b) + Noughts(m - |b|);
    assert |t| == n && |s| == m;
    assert t[|a| - 1] != NOUGHT && forall i :: |a| <= i < n ==> t[i] == NOUGHT;
    assert s[|b| - 1] != NOUGHT && forall i :: |b| <= i < m ==> s[i] == NOUGHT;
    assert |a| == |b|;
    assert Chars(a) == t[..|a|] == s[..|b|] == Chars(b);
    CharsAreUnique(a, b);
  }

  lemma MixedIsUnique(a: seq<Digit>, n: int, b: seq<Digit>, m: int)
    requires 0 < n < |a| && 0 < m < |b|
    requires Chars(a[..n]) + [DOT] + Chars(a[n..]) == Chars(b[..m]) + [DOT] + Chars(b[m..])
    ensures a == b && n == m
  {
    var t, s := Chars(a[..n]) + [DOT] + Chars(a[n..]), Chars(b[..m]) + [DOT] + Chars(b[m..]);
    assert t[n] == DOT && forall i :: 0 <= i < n ==> t[i] != DOT;
    assert s[m] == DOT && forall i :: 0 <= i < m ==> s[i] != DOT;
    assert n == m;
    assert Chars(a[..n]) == t[..n] == s[..m] == Chars(b[..m]);
    assert Chars(a[n..]) == t[n + 1..] == s[m + 1..] == Chars(b[m..]);
    CharsAreUnique(a[..n], b[..m]);
    CharsAreUnique(a[n..], b[m..]);
    assert a == a[..n] + a[n..] && b == b[..m] + b[m..];
  }

  lemma SmallIsUnique(a: seq<Digit>, j: nat, b: seq<Digit>, k: nat)
    requires a != [] && b != [] && a[0] != 0 && b[0] != 0
    requires [NOUGHT, DOT] + Noughts(j) + Chars(a) == [NOUGHT, DOT] + Noughts(k) + Chars(b)
    ensures a == b && j == k
  {
    var t, s := [NOUGHT, DOT] + Noughts(j) + Chars(a), [NOUGHT, DOT] + Noughts(k) + Chars(b);
    assert t[2 + j] != NOUGHT && forall i :: 2 <= i < 2 + j ==> t[i] == NOUGHT;
    assert s[2 + k] != NOUGHT && forall i :: 2 <= i < 2 + k ==> s[i] == NOUGHT;
    assert j == k;
    assert Chars(a) == t[2 + j..] == s[2 + k..] == Chars(b);
    CharsAreUnique(a, b);
  }

  lemma PowerIsUnique(head: Text, a: seq<Digit>, e: int, b: seq<Digit>, f: int)
    requires head + Chars(a) + Exponent(e) == head + Chars(b) + Exponent(f)
    ensures a == b && e == f
  {
    var t, s := head + Chars(a) + Exponent(e), head + Chars(b) + Exponent(f);
    assert t[|head| + |a|] == LOWER_E && forall i :: |head| <= i < |head| + |a| ==> t[i] != LOWER_E;
    assert s[|head| + |b|] == LOWER_E && forall i :: |head| <= i < |head| + |b| ==> s[i] != LOWER_E;
    assert |a| == |b|;
    hide Exponent;
    var cut := |head| + |a|;
    assert Chars(a) == t[|head|..cut] == s[|head|..cut] == Chars(b);
    assert Exponent(e) == t[cut..] == s[cut..] == Exponent(f);
    CharsAreUnique(a, b);
    ExponentIsUnique(e, f);
  }

  lemma SameForm(a: seq<Digit>, n: int, b: seq<Digit>, m: int)
    requires a != [] && a[0] != 0 && b != [] && b[0] != 0 && FiniteText(a, n) == FiniteText(b, m)
    ensures FormOf(|a|, n) == FormOf(|b|, m)
  {
    hide FiniteText, FormOf, HasDot, HasExponent;
    FiniteTextLooks(a, n);
    FiniteTextLooks(b, m);
  }

  lemma PowersAreUnique(a: seq<Digit>, n: int, b: seq<Digit>, m: int)
    requires a != [] && b != [] && FormOf(|a|, n) == FormOf(|b|, m) == Power && FiniteText(a, n) == FiniteText(b, m)
    ensures a == b && n == m
  {
    hide Exponent, FormOf;
    var t, s := FiniteText(a, n), FiniteText(b, m);
    assert Char(a[0]) == t[0] == s[0] == Char(b[0]);
    PowerIsUnique([Char(a[0]), DOT], a[1..], n - 1, b[1..], m - 1);
    assert a == [a[0]] + a[1..] && b == [b[0]] + b[1..];
  }

  lemma PowersOfOneAreUnique(a: seq<Digit>, n: int, b: seq<Digit>, m: int)
    requires a != [] && b != [] && FormOf(|a|, n) == FormOf(|b|, m) == PowerOfOne && FiniteText(a, n) == FiniteText(b, m)
    ensures a == b && n == m
  {
    hide Exponent, FormOf;
    assert [] + Chars(a) == Chars(a) && [] + Chars(b) == Chars(b);
    PowerIsUnique([], a, n - 1, b, m - 1);
  }

  /** The text of a finite number says which number it is. */
  lemma FiniteTextIsUnique(a: seq<Digit>, n: int, b: seq<Digit>, m: int)
    requires a != [] && a[0] != 0 && a[|a| - 1] != 0 && b != [] && b[0] != 0 && b[|b| - 1] != 0
    requires FiniteText(a, n) == FiniteText(b, m)
    ensures a == b && n == m
  {
    hide Exponent;
    SameForm(a, n, b, m);
    match FormOf(|a|, n)
    case Whole => WholeIsUnique(a, n, b, m);
    case Mixed => MixedIsUnique(a, n, b, m);
    case Small => SmallIsUnique(a, -n, b, -m);
    case PowerOfOne => PowersOfOneAreUnique(a, n, b, m);
    case Power => PowersAreUnique(a, n, b, m);
  }

  predicate IsFinite(x: Number) { !x.Infinite? }

  /** A finite number's text is made of number characters, and starts with a digit or a minus. */
  lemma NumberTextLooks(x: Number)
    requires Valid(x) && IsFinite(x)
    ensures NumberText(x) != [] && (IsDigit(NumberText(x)[0]) || NumberText(x)[0] == MINUS)
    ensures forall i :: 0 <= i < |NumberText(x)| ==> InNumber(NumberText(x)[i])
  {
    if x.Finite? { FiniteTextLooks(x.digits, x.point); }
    hide FiniteText;
  }

  /** Two finite numbers have the same text only if they are the same number. */
  lemma NumberTextIsUnique(x: Number, y: Number)
    requires Valid(x) && Valid(y) && IsFinite(x) && IsFinite(y) && NumberText(x) == NumberText(y)
    ensures x == y
  {
    hide NumberText, FiniteText, FormOf;
    if x.Finite? && y.Finite? {
      SignAndRest(x);
      SignAndRest(y);
      FiniteTextIsUnique(x.digits, x.point, y.digits, y.point);
    } else if x.Finite? {
      OnlyZeroIsNought(x);
      ZeroIsNought();
    } else if y.Finite? {
      OnlyZeroIsNought(y);
      ZeroIsNought();
    }
  }

  lemma ZeroIsNought()
    ensures NumberText(Zero) == [NOUGHT]
  {
  }

  /** A leading minus is the sign, and the rest is the text without it. */
  lemma SignAndRest(x: Number)
    requires Valid(x) && x.Finite?
    ensures var t := NumberText(x);
            && t != [] && (x.negative <==> t[0] == MINUS)
            && FiniteText(x.digits, x.point) == if t[0] == MINUS then t[1..] else t
  {
    FiniteTextLooks(x.digits, x.point);
    hide FiniteText, HasDot, HasExponent;
  }

  lemma NoughtLooksWhole()
    ensures !HasDot([NOUGHT]) && !HasExponent([NOUGHT])
  {
  }

  lemma OnlyZeroIsNought(x: Number)
    requires Valid(x) && x.Finite?
    ensures NumberText(x) != [NOUGHT]
  {
    FiniteTextLooks(x.digits, x.point);
    NoughtLooksWhole();
    hide FiniteText, HasDot, HasExponent;
    assert if x.negative then NumberText(x)[0] == MINUS else NumberText(x) == FiniteText(x.digits, x.point);
  }
}
