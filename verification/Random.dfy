/** The seeded generator: xoshiro128** on four 32-bit words. */
module Random {
  import opened Options

  type Word = bv32

  datatype State = State(s0: Word, s1: Word, s2: Word, s3: Word)

  const ZERO := State(0, 0, 0, 0)

  /* ---------------------------- words ---------------------------- */

  function Xor(x: Word, y: Word): Word { x ^ y }

  function Shl9(x: Word): Word { x << 9 }

  function Rotl7(x: Word): Word { (x << 7) | (x >> 25) }

  function Rotl11(x: Word): Word { (x << 11) | (x >> 21) }

  function Rotr11(x: Word): Word { (x >> 11) | (x << 21) }

  lemma XorAssociates(x: Word, y: Word, z: Word)
    ensures Xor(Xor(x, y), z) == Xor(x, Xor(y, z))
  {
  }

  lemma XorCommutes(x: Word, y: Word)
    ensures Xor(x, y) == Xor(y, x)
  {
  }

  lemma XorCancels(x: Word, y: Word)
    ensures Xor(Xor(x, y), y) == x && Xor(x, 0) == x && Xor(x, x) == 0
  {
  }

  lemma ShiftDistributes(x: Word, y: Word)
    ensures Shl9(Xor(x, y)) == Xor(Shl9(x), Shl9(y))
  {
  }

  lemma FourShiftsClear(x: Word)
    ensures Shl9(Shl9(Shl9(Shl9(x)))) == 0
  {
  }

  lemma RotationUndone(x: Word)
    ensures Rotr11(Rotl11(x)) == x && Rotl11(Rotr11(x)) == x
  {
  }

  lemma Telescopes(x: Word, y: Word, z: Word)
    ensures Xor(Xor(x, y), Xor(y, z)) == Xor(x, z)
  {
    XorAssociates(Xor(x, y), y, z);
    XorCancels(x, y);
    hide Xor;
  }

  /* ---------------------------- the step and its inverse ---------------------------- */

  /** One step of the generator. */
  function Forward(s: State): State {
    var a, b := Xor(s.s2, s.s0), Xor(s.s3, s.s1);
    State(Xor(s.s0, b), Xor(s.s1, a), Xor(a, Shl9(s.s1)), Rotl11(b))
  }

  /** Undoes `x ^ (x << 9)`. */
  function Unshift(y: Word): Word { Xor(Xor(Xor(y, Shl9(y)), Shl9(Shl9(y))), Shl9(Shl9(Shl9(y)))) }

  /** One step back. */
  function Back(n: State): State {
    var b := Rotr11(n.s3);
    var s0, s1 := Xor(n.s0, b), Unshift(Xor(n.s1, n.s2));
    State(s0, s1, Xor(Xor(n.s1, s1), s0), Xor(b, s1))
  }

  lemma UnshiftUndoes(x: Word)
    ensures Unshift(Xor(x, Shl9(x))) == x
  {
    hide Xor, Shl9;
    var s, ss, sss := Shl9(x), Shl9(Shl9(x)), Shl9(Shl9(Shl9(x)));
    ShiftDistributes(x, s);
    ShiftDistributes(s, ss);
    ShiftDistributes(ss, sss);
    FourShiftsClear(x);
    Telescopes(x, s, ss);
    Telescopes(x, ss, sss);
    XorCancels(sss, sss);
    XorCancels(x, sss);
  }

  lemma UnshiftIsUndone(x: Word)
    ensures Xor(Unshift(x), Shl9(Unshift(x))) == x
  {
    hide Xor, Shl9;
    var s, ss, sss := Shl9(x), Shl9(Shl9(x)), Shl9(Shl9(Shl9(x)));
    var rest := Xor(Xor(s, ss), sss);
    XorAssociates(x, s, ss);
    XorAssociates(x, Xor(s, ss), sss);
    ShiftDistributes(x, s);
    ShiftDistributes(Xor(x, s), ss);
    ShiftDistributes(Xor(Xor(x, s), ss), sss);
    FourShiftsClear(x);
    XorCancels(rest, 0);
    XorCancels(x, rest);
  }

  lemma BackUndoesForward(s: State)
    ensures Back(Forward(s)) == s
  {
    hide Xor, Shl9, Rotl11, Rotr11, Unshift;
    var a, b := Xor(s.s2, s.s0), Xor(s.s3, s.s1);
    RotationUndone(b);
    XorCancels(s.s0, b);
    Telescopes(s.s1, a, Shl9(s.s1));
    UnshiftUndoes(s.s1);
    XorCommutes(s.s1, a);
    XorCancels(a, s.s1);
    XorCancels(s.s2, s.s0);
    XorCancels(s.s3, s.s1);
  }

  lemma ForwardUndoesBack(n: State)
    ensures Forward(Back(n)) == n
  {
    hide Xor, Shl9, Rotl11, Rotr11, Unshift;
    var s := Back(n);
    var b, a := Rotr11(n.s3), Xor(n.s1, s.s1);
    XorCancels(a, s.s0);
    XorCancels(b, s.s1);
    RotationUndone(n.s3);
    XorCancels(n.s0, b);
    XorCommutes(s.s1, a);
    XorCancels(n.s1, s.s1);
    XorAssociates(n.s1, s.s1, Shl9(s.s1));
    UnshiftIsUndone(Xor(n.s1, n.s2));
    XorCommutes(n.s1, n.s2);
    XorCancels(n.s2, n.s1);
    XorCommutes(n.s1, Xor(n.s1, n.s2));
  }

  /** The step is a bijection on the 128-bit states: every state has exactly one before it. */
  lemma StepIsABijection(s: State)
    ensures Back(Forward(s)) == s && Forward(Back(s)) == s
  {
    BackUndoesForward(s);
    ForwardUndoesBack(s);
    hide Forward, Back;
  }

  /** The only way to the dead state is from it. */
  lemma OnlyZeroGoesToZero(s: State)
    ensures Forward(s) == ZERO <==> s == ZERO
  {
    assert Forward(ZERO) == ZERO;
    StepIsABijection(s);
    StepIsABijection(ZERO);
    hide Forward, Back;
  }

  function After(s: State, k: nat): State { if k == 0 then s else Forward(After(s, k - 1)) }

  lemma TwoSteps(s: State)
    ensures After(s, 2) == Forward(Forward(s))
  {
    hide Forward;
    assert After(s, 0) == s;
    assert After(s, 1) == Forward(s);
  }

  /** Two streams that differ once differ for ever, and a live one never dies. */
  lemma {:induction false} StreamsNeverMerge(s: State, t: State, k: nat)
    ensures After(s, k) == After(t, k) ==> s == t
    ensures s != ZERO ==> After(s, k) != ZERO
  {
    hide Forward, Back;
    if k > 0 {
      StreamsNeverMerge(s, t, k - 1);
      StepIsABijection(After(s, k - 1));
      StepIsABijection(After(t, k - 1));
      OnlyZeroGoesToZero(After(s, k - 1));
    }
  }

  lemma {:induction false} AfterTwice(s: State, j: nat, k: nat)
    ensures After(After(s, j), k) == After(s, j + k)
  {
    hide Forward;
    if k > 0 { AfterTwice(s, j, k - 1); }
  }

  /* ---------------------------- seeding ---------------------------- */

  function Absorb(hash: Word, unit: bv16): Word { (hash ^ (unit as Word)) * 0x01000193 }

  /** FNV-1a over the UTF-16 code units of the seed. */
  function Fnv1a(input: seq<bv16>): Word {
    if input == [] then 0x811c9dc5 else Absorb(Fnv1a(input[..|input| - 1]), input[|input| - 1])
  }

  function Fold16(x: Word): Word { x ^ (x >> 16) }

  function Fold15(x: Word): Word { x ^ (x >> 15) }

  function First(x: Word): Word { x * 0x21f0aaad }

  function Second(x: Word): Word { x * 0x735a2d97 }

  /** The word SplitMix32 makes of its running sum. */
  function Mix(sum: Word): Word { Fold15(Second(Fold15(First(Fold16(sum))))) }

  const GOLDEN: Word := 0x9e3779b9

  /** Four mixed words, nudged off the dead state. */
  function Expand(hash: Word): State {
    var mixed := State(Mix(hash + GOLDEN), Mix(hash + GOLDEN + GOLDEN), Mix(hash + GOLDEN + GOLDEN + GOLDEN),
                       Mix(hash + GOLDEN + GOLDEN + GOLDEN + GOLDEN));
    if mixed == ZERO then mixed.(s0 := 1) else mixed
  }

  function Seeded(seed: seq<bv16>): State { After(Expand(Fnv1a(seed)), 16) }

  lemma NoSeedIsDead(seed: seq<bv16>, k: nat)
    ensures After(Seeded(seed), k) != ZERO
  {
    hide Fnv1a, Mix, Forward, Absorb;
    var s := Expand(Fnv1a(seed));
    StreamsNeverMerge(s, s, 16 + k);
    AfterTwice(s, 16, k);
  }

  lemma OneUnitMore(seed: seq<bv16>, unit: bv16)
    ensures Fnv1a(seed + [unit]) == Absorb(Fnv1a(seed), unit)
  {
    assert (seed + [unit])[..|seed|] == seed;
  }

  lemma PublishedHashSteps()
    ensures Absorb(0x811c9dc5, 0x61) == 0xe40c292c && Absorb(0x811c9dc5, 0x66) == 0xe30c2799
    ensures Absorb(0xe30c2799, 0x6f) == 0x6222e842 && Absorb(0x6222e842, 0x6f) == 0xa9f37ed7
    ensures Absorb(0xa9f37ed7, 0x62) == 0x3f5076ef && Absorb(0x3f5076ef, 0x61) == 0x39aaa18a
    ensures Absorb(0x39aaa18a, 0x72) == 0xbf9cf968
  {
  }

  /** The published values of FNV-1a for the empty string, "a" and "foobar". */
  lemma HashesAsPublished()
    ensures Fnv1a([]) == 0x811c9dc5 && Fnv1a([0x61]) == 0xe40c292c
    ensures Fnv1a([0x66, 0x6f, 0x6f, 0x62, 0x61, 0x72]) == 0xbf9cf968
  {
    assert Fnv1a([]) == 0x811c9dc5;
    hide Fnv1a, Absorb;
    PublishedHashSteps();
    var s: seq<bv16> := [];
    var f := s + [0x66];
    var fo := f + [0x6f];
    var foo := fo + [0x6f];
    var foob := foo + [0x62];
    var fooba := foob + [0x61];
    OneUnitMore(s, 0x61);
    OneUnitMore(s, 0x66);
    OneUnitMore(f, 0x6f);
    OneUnitMore(fo, 0x6f);
    OneUnitMore(foo, 0x62);
    OneUnitMore(foob, 0x61);
    OneUnitMore(fooba, 0x72);
    var a: seq<bv16>, foobar: seq<bv16> := [0x61], [0x66, 0x6f, 0x6f, 0x62, 0x61, 0x72];
    assert s + [0x61] == a && fooba + [0x72] == foobar;
  }

  /** The words that a hash of zero expands to. */
  lemma ZeroHashExpands()
    ensures Expand(0) == State(0x64625032, 0xd9c0799c, 0xaf362e10, 0x7fa88912)
  {
  }

  /* ---------------------------- draws ---------------------------- */

  function Five(x: Word): Word { x * 5 }

  function Nine(x: Word): Word { x * 9 }

  /** The word a state yields. */
  function Scramble(s: State): Word { Nine(Rotl7(Five(s.s1))) }

  function Rotr7(x: Word): Word { (x >> 7) | (x << 25) }

  lemma RotationOf7Undone(x: Word)
    ensures Rotr7(Rotl7(x)) == x
  {
  }

  function Unfive(x: Word): Word { x * 0xcccccccd }

  function Unnine(x: Word): Word { x * 0x38e38e39 }

  lemma FiveUndone(x: Word)
    ensures Unfive(Five(x)) == x
  {
  }

  lemma NineUndone(x: Word)
    ensures Unnine(Nine(x)) == x
  {
  }

  /** Every word is as likely as another: whatever the other three words of the state, each of its second word gives a
      different one. */
  lemma EveryWordIsDrawn(s: State, t: State)
    ensures Scramble(s) == Scramble(t) <==> s.s1 == t.s1
  {
    hide Rotl7, Rotr7, Five, Nine, Unfive, Unnine;
    NineUndone(Rotl7(Five(s.s1)));
    NineUndone(Rotl7(Five(t.s1)));
    RotationOf7Undone(Five(s.s1));
    RotationOf7Undone(Five(t.s1));
    FiveUndone(s.s1);
    FiveUndone(t.s1);
  }

  /** The first four words of the reference implementation from the state 1, 2, 3, 4. */
  lemma DrawsAsPublished()
    ensures var s := State(1, 2, 3, 4);
            && Scramble(s) == 11_520 && Scramble(Forward(s)) == 0
            && Scramble(Forward(Forward(s))) == 5_927_040 && Scramble(Forward(Forward(Forward(s)))) == 70_819_200
  {
    assert Forward(State(1, 2, 3, 4)) == State(7, 0, 0x402, 0x3000);
    assert Forward(State(7, 0, 0x402, 0x3000)) == State(0x3007, 0x405, 0x405, 0x180_0000);
    assert Forward(State(0x3007, 0x405, 0x405, 0x180_0000)) == State(0x180_3402, 0x3007, 0x8_3e02, 0x20_280c);
  }

  /** The top 27 bits of one draw and the top 26 of the next, as a fraction. */
  function Fraction(hi: bv27, lo: bv26): (r: real)
    ensures 0.0 <= r < 1.0
  {
    (hi as int * 67_108_864 + lo as int) as real / 9_007_199_254_740_992.0
  }

  /** A fraction is its two parts side by side over two to the 53rd: different parts, different fractions. */
  lemma FractionIsExact(hi: bv27, lo: bv26)
    ensures Fraction(hi, lo) * 9_007_199_254_740_992.0 == (hi as int * 67_108_864 + lo as int) as real
    ensures (hi as int * 67_108_864 + lo as int) / 67_108_864 == hi as int
    ensures (hi as int * 67_108_864 + lo as int) % 67_108_864 == lo as int
  {
  }

  function High(w: Word): bv27 { (w >> 5) as bv27 }

  function Low(w: Word): bv26 { (w >> 6) as bv26 }

  lemma PartsOfTwoWords()
    ensures High(5_927_040) == 185_220 && Low(70_819_200) == 1_106_550
    ensures High(0xffff_ffff) == 0x7ff_ffff && Low(0xffff_ffff) == 0x3ff_ffff
  {
  }

  /** What `next` returns from a state. */
  function NextFrom(s: State): (r: real)
    ensures 0.0 <= r < 1.0
  {
    Fraction(High(Scramble(s)), Low(Scramble(Forward(s))))
  }

  lemma ScaledStaysInRange(r: real, size: int)
    requires 0.0 <= r < 1.0 && size >= 1
    ensures 0 <= (r * size as real).Floor < size
  {
    assert 0.0 <= r * size as real < size as real;
  }

  class Xoshiro128 {
    var s: State

    /** Hash the seed, expand it, nudge a dead state, and throw the first sixteen words away. */
    constructor (seed: seq<bv16>)
      ensures s == Seeded(seed) && s != ZERO
    {
      NoSeedIsDead(seed, 0);
      hide Absorb, Mix, Expand, Forward, Scramble;
      var hash: Word := 0x811c9dc5;
      for i := 0 to |seed|
        invariant hash == Fnv1a(seed[..i])
      {
        assert seed[..i + 1][..i] == seed[..i];
        hash := Absorb(hash, seed[i]);
      }
      assert seed[..|seed|] == seed;
      s := Expand(hash);
      new;
      for i := 0 to 16
        invariant s == After(Expand(hash), i)
      {
        var discarded := Raw();
      }
    }

    method Raw() returns (result: Word)
      modifies this
      ensures result == Scramble(old(s)) && s == Forward(old(s))
      ensures old(s) != ZERO ==> s != ZERO
    {
      OnlyZeroGoesToZero(s);
      hide Scramble, Rotl11, Shl9;
      result := Scramble(s);
      var t := Shl9(s.s1);
      var a, b := Xor(s.s2, s.s0), Xor(s.s3, s.s1);
      s := s.(s1 := Xor(s.s1, a));
      s := s.(s0 := Xor(s.s0, b));
      s := s.(s2 := Xor(a, t));
      s := s.(s3 := Rotl11(b));
    }

    method Next() returns (r: real)
      modifies this
      ensures r == NextFrom(old(s)) && 0.0 <= r < 1.0 && s == After(old(s), 2)
      ensures old(s) != ZERO ==> s != ZERO
    {
      TwoSteps(s);
      hide Scramble, Forward, After, Fraction, High, Low;
      var hi := Raw();
      var lo := Raw();
      r := Fraction(High(hi), Low(lo));
    }

    /** A whole number between two bounds, both included; nothing when they are the wrong way round. */
    method Int(min: int, max: int) returns (n: Option<int>)
      modifies this
      ensures n.None? <==> max < min
      ensures n.Some? ==> min <= n.value <= max
                          && n.value == min + (NextFrom(old(s)) * (max - min + 1) as real).Floor
                          && s == After(old(s), 2)
      ensures old(s) != ZERO ==> s != ZERO
    {
      hide NextFrom, Forward, After;
      if max < min { return None; }
      var r := Next();
      ScaledStaysInRange(r, max - min + 1);
      n := Some(min + (r * (max - min + 1) as real).Floor);
    }
  }
}
