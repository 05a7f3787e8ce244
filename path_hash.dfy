/** `hash_path` (RADS/parsers.py:334-343): the shift/xor rolling hash that the
    archive decoder checks every entry's path against.

    Python integers are unbounded, so `h << 4` is never truncated: the hash is
    modelled over `nat`, with `&`, `^`, `<<` and `>>` written out on naturals. */
module PathHash {
  import opened Bytes

  const TWO_28: nat := 0x1000_0000
  const MASK: nat := 0xF000_0000

  /** Python's `a & b` on non-negative integers, bit by bit from the lowest. */
  function And(a: nat, b: nat): nat
    decreases a, 1
  {
    if a == 0 || b == 0 then 0 else AndBits(a, b)
  }

  function AndBits(a: nat, b: nat): nat
    requires a > 0
    decreases a, 0
  {
    (if a % 2 == 1 && b % 2 == 1 then 1 else 0) + 2 * And(a / 2, b / 2)
  }

  /** Python's `a ^ b` on non-negative integers, bit by bit from the lowest. */
  function Xor(a: nat, b: nat): nat
    decreases a + b, 1
  {
    if a == 0 && b == 0 then 0 else XorBits(a, b)
  }

  function XorBits(a: nat, b: nat): nat
    requires a + b > 0
    decreases a + b, 0
  {
    (if a % 2 == b % 2 then 0 else 1) + 2 * Xor(a / 2, b / 2)
  }

  /** Python's `h << k`, one doubling at a time. */
  function Shl(h: nat, k: nat): nat
  {
    if k == 0 then h else 2 * Shl(h, k - 1)
  }

  /** `c.lower()` on the ASCII letters. */
  function Lower(c: char): char
  {
    if 'A' <= c <= 'Z' then (c as int + 32) as char else c
  }

  /** `c.upper()` on the ASCII letters. */
  function Upper(c: char): char
  {
    if 'a' <= c <= 'z' then (c as int - 32) as char else c
  }

  function Lowercase(s: string): (r: string)
    ensures |r| == |s|
  {
    seq(|s|, i requires 0 <= i < |s| => Lower(s[i]))
  }

  function Uppercase(s: string): (r: string)
    ensures |r| == |s|
  {
    seq(|s|, i requires 0 <= i < |s| => Upper(s[i]))
  }

  /** Lines 339-342: `temp = h & 0xf0000000`; if it is not 0,
      `h = h ^ (temp >> 24)` then `h = h ^ temp`. */
  function Fold(h: nat): nat
  {
    var temp := And(h, MASK);
    if temp != 0 then Xor(Xor(h, temp / 0x100_0000), temp) else h
  }

  /** One turn of the loop: line 338, `h = (h << 4) + ord(c.lower())`, then `Fold`. */
  function Step(h: nat, c: char): (r: nat)
    ensures r / TWO_32 == (h * 16 + Lower(c) as int) / TWO_32
    ensures r % TWO_32 < TWO_28
  {
    FoldParts(h * 16 + Lower(c) as int);
    Fold(h * 16 + Lower(c) as int)
  }

  /** `hash_path(path)`: the accumulator after the loop has consumed every
      character. Starting from 0 it is either below 2^28 or, once a carry
      has passed bit 31, at least 2^32: never in between. */
  function HashPath(path: string): (h: nat)
    ensures h < TWO_28 || h >= TWO_32
  {
    if path == [] then 0 else Step(HashPath(path[..|path| - 1]), path[|path| - 1])
  }

  /** The same hash computed in 32-bit unsigned arithmetic, where `h << 4`
      drops every bit above bit 31: the classic ELF hash. */
  function Step32(h: nat, c: char): nat
  {
    Fold((h * 16 + Lower(c) as int) % TWO_32)
  }

  function Hash32(path: string): nat
  {
    if path == [] then 0 else Step32(Hash32(path[..|path| - 1]), path[|path| - 1])
  }

  // ---------------------------------------------------------------------------
  // Bit-level facts about And and Xor on naturals

  /** A bitwise operator: `f` of two numbers is `g` of their lowest bits
      plus twice `f` of the rest. */
  ghost predicate LawAt(f: (nat, nat) -> nat, g: (nat, nat) -> nat, a: nat, b: nat)
  {
    f(a, b) == 2 * f(a / 2, b / 2) + g(a % 2, b % 2)
  }

  ghost predicate Bitwise(f: (nat, nat) -> nat, g: (nat, nat) -> nat)
  {
    f(0, 0) == 0 && forall a: nat, b: nat :: LawAt(f, g, a, b)
  }

  /** `&` and `^` as values, to instantiate `Bitwise` with. */
  function AndFn(): (nat, nat) -> nat
  {
    (a: nat, b: nat) => And(a, b)
  }

  function XorFn(): (nat, nat) -> nat
  {
    (a: nat, b: nat) => Xor(a, b)
  }

  function BitAndFn(): (nat, nat) -> nat
  {
    (x: nat, y: nat) => if x == 1 && y == 1 then 1 else 0
  }

  function BitXorFn(): (nat, nat) -> nat
  {
    (x: nat, y: nat) => if x == y then 0 else 1
  }

  lemma AndBitwise()
    ensures Bitwise(AndFn(), BitAndFn())
  {
    forall a: nat, b: nat
      ensures LawAt(AndFn(), BitAndFn(), a, b)
    {
      if a != 0 && b != 0 {
        assert And(a, b) == AndBits(a, b);
      }
    }
  }

  lemma XorBitwise()
    ensures Bitwise(XorFn(), BitXorFn())
  {
    forall a: nat, b: nat
      ensures LawAt(XorFn(), BitXorFn(), a, b)
    {
      if a != 0 || b != 0 {
        assert Xor(a, b) == XorBits(a, b);
      }
    }
  }

  lemma {:induction false} ShlIsMul(h: nat, k: nat)
    ensures Shl(h, k) == h * Pow2(k)
  {
    if k > 0 {
      ShlIsMul(h, k - 1);
      assert h * Pow2(k) == 2 * (h * Pow2(k - 1));
    }
  }

  /** `(hi << k) + lo` with its lowest bit split off. */
  lemma Unshift(hi: nat, lo: nat, k: nat)
    requires k > 0 && lo < Pow2(k)
    ensures (Shl(hi, k) + lo) / 2 == Shl(hi, k - 1) + lo / 2
    ensures (Shl(hi, k) + lo) % 2 == lo % 2
    ensures lo / 2 < Pow2(k - 1)
  {
  }

  /** A bitwise operator works independently above and below bit `k`. */
  lemma {:induction false} BitwiseSplit(f: (nat, nat) -> nat, g: (nat, nat) -> nat,
                                        hi1: nat, lo1: nat, hi2: nat, lo2: nat, k: nat)
    requires Bitwise(f, g)
    requires lo1 < Pow2(k) && lo2 < Pow2(k)
    ensures f(Shl(hi1, k) + lo1, Shl(hi2, k) + lo2) == Shl(f(hi1, hi2), k) + f(lo1, lo2)
  {
    if k == 0 {
      assert lo1 == 0 && lo2 == 0;
    } else {
      var a, b := Shl(hi1, k) + lo1, Shl(hi2, k) + lo2;
      Unshift(hi1, lo1, k);
      Unshift(hi2, lo2, k);
      assert LawAt(f, g, a, b);
      assert LawAt(f, g, lo1, lo2);
      BitwiseSplit(f, g, hi1, lo1 / 2, hi2, lo2 / 2, k - 1);
    }
  }

  /** `f(a, 0)` is `a` when the bit operator keeps a 1 against a 0. */
  lemma {:induction false} ZeroRightIdentity(f: (nat, nat) -> nat, g: (nat, nat) -> nat, a: nat)
    requires Bitwise(f, g) && g(1, 0) == 1
    ensures f(a, 0) == a
  {
    assert LawAt(f, g, 0, 0);
    if a != 0 {
      assert LawAt(f, g, a, 0);
      ZeroRightIdentity(f, g, a / 2);
    }
  }

  /** `f(a, 0)` is 0 when the bit operator turns a 1 against a 0 into 0. */
  lemma {:induction false} ZeroRightAbsorbs(f: (nat, nat) -> nat, g: (nat, nat) -> nat, a: nat)
    requires Bitwise(f, g) && g(1, 0) == 0
    ensures f(a, 0) == 0
  {
    assert LawAt(f, g, 0, 0);
    if a != 0 {
      assert LawAt(f, g, a, 0);
      ZeroRightAbsorbs(f, g, a / 2);
    }
  }

  /** `f(a, a)` is 0 when the bit operator turns two equal bits into 0. */
  lemma {:induction false} SelfCancels(f: (nat, nat) -> nat, g: (nat, nat) -> nat, a: nat)
    requires Bitwise(f, g) && g(1, 1) == 0
    ensures f(a, a) == 0
  {
    assert LawAt(f, g, 0, 0);
    if a != 0 {
      assert LawAt(f, g, a, a);
      SelfCancels(f, g, a / 2);
    }
  }

  /** `f(n, 2^k - 1)` is `n` for `n` below `2^k` when the bit operator keeps a
      bit against a 1. */
  lemma {:induction false} OnesIdentity(f: (nat, nat) -> nat, g: (nat, nat) -> nat, n: nat, k: nat)
    requires Bitwise(f, g) && g(0, 1) == 0 && g(1, 1) == 1
    requires n < Pow2(k)
    ensures f(n, Pow2(k) - 1) == n
  {
    if k > 0 {
      assert (Pow2(k) - 1) / 2 == Pow2(k - 1) - 1 && (Pow2(k) - 1) % 2 == 1;
      assert LawAt(f, g, n, Pow2(k) - 1);
      OnesIdentity(f, g, n / 2, k - 1);
    }
  }

  /** A bit operator that yields bits keeps numbers below `2^k` below `2^k`. */
  lemma {:induction false} BitwiseBound(f: (nat, nat) -> nat, g: (nat, nat) -> nat, a: nat, b: nat, k: nat)
    requires Bitwise(f, g) && g(0, 1) <= 1 && g(1, 0) <= 1 && g(1, 1) <= 1
    requires a < Pow2(k) && b < Pow2(k)
    ensures f(a, b) < Pow2(k)
  {
    assert LawAt(f, g, 0, 0);
    if k > 0 {
      assert LawAt(f, g, a, b);
      assert g(a % 2, b % 2) <= 1 by {
        assert a % 2 == 0 || a % 2 == 1;
        assert b % 2 == 0 || b % 2 == 1;
      }
      BitwiseBound(f, g, a / 2, b / 2, k - 1);
    }
  }

  lemma XorZero(a: nat)
    ensures Xor(a, 0) == a
  {
    XorBitwise();
    ZeroRightIdentity(XorFn(), BitXorFn(), a);
  }

  lemma Pow2Values()
    ensures Pow2(4) == 16 && Pow2(8) == 0x100 && Pow2(28) == TWO_28
  {
    assert Pow2(4) == 16;
    Pow2Add(4, 4);
    Pow2Add(8, 8);
    Pow2Add(16, 8);
    Pow2Add(24, 4);
  }

  /** The shifts these lemmas use, as products. */
  lemma ShlValues(q: nat, hi: nat, nib: nat, m: nat)
    ensures Shl(q, 4) == q * 16 && Shl(hi, 28) == hi * TWO_28 && Shl(nib, 28) == nib * TWO_28
    ensures Shl(m, 8) == m * 0x100 && Shl(0, 4) == 0 && Shl(0, 8) == 0
  {
    Pow2Values();
    ShlIsMul(q, 4);
    ShlIsMul(hi, 28);
    ShlIsMul(nib, 28);
    ShlIsMul(m, 8);
    ShlIsMul(0, 4);
    ShlIsMul(0, 8);
  }

  // ---------------------------------------------------------------------------
  // What `&` and `^` do to the nibbles and bytes one turn of the loop touches.
  // Each is proved for any operator with the bit law of `&` (or `^`), so that
  // the proofs see the operator only through that law.

  /** `x & 0xf` keeps the lowest four bits. */
  lemma LowNibble(and: (nat, nat) -> nat, q: nat, nib: nat)
    requires Bitwise(and, BitAndFn())
    requires nib < 16
    ensures and(q * 16 + nib, 15) == nib
  {
    hide Xor, And;
    Pow2Values();
    ShlValues(q, 0, 0, 0);
    BitwiseSplit(and, BitAndFn(), q, nib, 0, 15, 4);
    ZeroRightAbsorbs(and, BitAndFn(), q);
    OnesIdentity(and, BitAndFn(), nib, 4);
    assert and(q * 16 + nib, 15) == and(Shl(q, 4) + nib, Shl(0, 4) + 15);
  }

  /** `x & 0xf0000000` keeps bits 28-31 of `x` in place. */
  lemma TempIsNibble(and: (nat, nat) -> nat, q: nat, nib: nat, lo: nat)
    requires Bitwise(and, BitAndFn())
    requires nib < 16 && lo < TWO_28
    ensures and(q * TWO_32 + nib * TWO_28 + lo, MASK) == nib * TWO_28
  {
    hide Xor, And;
    Pow2Values();
    var hi := q * 16 + nib;
    ShlIsMul(hi, 28);
    ShlIsMul(15, 28);
    ShlIsMul(nib, 28);
    var x := q * TWO_32 + nib * TWO_28 + lo;
    assert x == Shl(hi, 28) + lo;
    assert MASK == Shl(15, 28) + 0;
    BitwiseSplit(and, BitAndFn(), hi, lo, 15, 0, 28);
    ZeroRightAbsorbs(and, BitAndFn(), lo);
    LowNibble(and, q, nib);
    assert and(hi, 15) == nib;
    assert Shl(and(hi, 15), 28) == nib * TWO_28;
    assert and(x, MASK) == and(Shl(hi, 28) + lo, Shl(15, 28) + 0);
  }

  /** Xoring a value below `2^k` leaves every bit from `k` up alone. */
  lemma XorKeepsHigh(xor: (nat, nat) -> nat, m: nat, low: nat, v: nat, k: nat)
    requires Bitwise(xor, BitXorFn())
    requires low < Pow2(k) && v < Pow2(k)
    ensures xor(m * Pow2(k) + low, v) == m * Pow2(k) + xor(low, v)
    ensures xor(low, v) < Pow2(k)
  {
    hide Xor, And;
    ShlIsMul(m, k);
    ShlIsMul(0, k);
    BitwiseSplit(xor, BitXorFn(), m, low, 0, v, k);
    ZeroRightIdentity(xor, BitXorFn(), m);
    BitwiseBound(xor, BitXorFn(), low, v, k);
    assert xor(m * Pow2(k) + low, v) == xor(Shl(m, k) + low, Shl(0, k) + v);
  }

  /** `x ^ nib` clears the lowest four bits when they are `nib`. */
  lemma ClearNibble(xor: (nat, nat) -> nat, q: nat, nib: nat)
    requires Bitwise(xor, BitXorFn())
    requires nib < 16
    ensures xor(q * 16 + nib, nib) == q * 16
  {
    hide Xor, And;
    Pow2Values();
    ShlValues(q, 0, 0, 0);
    BitwiseSplit(xor, BitXorFn(), q, nib, 0, nib, 4);
    ZeroRightIdentity(xor, BitXorFn(), q);
    SelfCancels(xor, BitXorFn(), nib);
    assert xor(q * 16 + nib, nib) == xor(Shl(q, 4) + nib, Shl(0, 4) + nib);
  }

  /** Xoring bits 28-31 with themselves clears them and leaves the rest. */
  lemma XorClearsNibble(xor: (nat, nat) -> nat, q: nat, nib: nat, lo: nat)
    requires Bitwise(xor, BitXorFn())
    requires nib < 16 && lo < TWO_28
    ensures xor(q * TWO_32 + nib * TWO_28 + lo, nib * TWO_28) == q * TWO_32 + lo
  {
    hide Xor, And;
    Pow2Values();
    var hi := q * 16 + nib;
    ShlIsMul(hi, 28);
    ShlIsMul(nib, 28);
    ShlIsMul(q * 16, 28);
    var x := q * TWO_32 + nib * TWO_28 + lo;
    assert x == Shl(hi, 28) + lo;
    assert nib * TWO_28 == Shl(nib, 28) + 0;
    BitwiseSplit(xor, BitXorFn(), hi, lo, nib, 0, 28);
    ZeroRightIdentity(xor, BitXorFn(), lo);
    ClearNibble(xor, q, nib);
    assert xor(hi, nib) == q * 16;
    assert Shl(xor(hi, nib), 28) == q * TWO_32;
    assert xor(x, nib * TWO_28) == xor(Shl(hi, 28) + lo, Shl(nib, 28) + 0);
  }

  // ---------------------------------------------------------------------------
  // What one turn of the loop does to the accumulator

  /** Lines 339-342 on a number split at bits 28 and 32: bits 28-31 are
      xored into bits 4-7 and then cleared; nothing from bit 32 up changes. */
  lemma FoldOfParts(q: nat, nib: nat, lo: nat)
    requires nib < 16 && lo < TWO_28
    ensures Fold(q * TWO_32 + nib * TWO_28 + lo) == q * TWO_32 + Xor(lo, nib * 16)
    ensures Xor(lo, nib * 16) < TWO_28
  {
    hide Xor, And;
    var x := q * TWO_32 + nib * TWO_28 + lo;
    AndBitwise();
    XorBitwise();
    Pow2Values();
    TempIsNibble(AndFn(), q, nib, lo);
    XorKeepsHigh(XorFn(), q * 16 + nib, lo, nib * 16, 28);
    if nib == 0 {
      XorZero(lo);
    } else {
      assert nib * TWO_28 / 0x100_0000 == nib * 16;
      assert (q * 16 + nib) * TWO_28 == q * TWO_32 + nib * TWO_28;
      XorClearsNibble(XorFn(), q, nib, Xor(lo, nib * 16));
    }
  }

  /** Splitting a number at bits 28 and 32. */
  lemma NibbleDigits(x: nat)
    ensures x == x / TWO_32 * TWO_32 + x % TWO_32 / TWO_28 * TWO_28 + x % TWO_32 % TWO_28
    ensures x % TWO_32 / TWO_28 < 16
  {
  }

  /** The xor step keeps every bit from 32 up and clears bits 28-31: it leaves
      the part above bit 31 alone and the part below it under 2^28. */
  lemma FoldParts(x: nat)
    ensures Fold(x) / TWO_32 == x / TWO_32
    ensures Fold(x) % TWO_32 < TWO_28
  {
    var q, r := x / TWO_32, x % TWO_32;
    var nib, lo := r / TWO_28, r % TWO_28;
    NibbleDigits(x);
    FoldOfParts(q, nib, lo);
    var y := q * TWO_32 + Xor(lo, nib * 16);
    assert y / TWO_32 == q && y % TWO_32 < TWO_28;
  }

  // ---------------------------------------------------------------------------
  // Properties of hash_path

  /** Lines 338-342: when `(h << 4) + ord(c)` has no bit above 31, xoring with
      `temp` clears bits 28-31 and the new accumulator is below 2^28. */
  lemma StepClearsTopNibble(h: nat, c: char)
    requires h * 16 + Lower(c) as int < TWO_32
    ensures Step(h, c) < TWO_28
  {
    FoldParts(h * 16 + Lower(c) as int);
  }

  /** Once the accumulator has reached 2^32 no later character brings it back:
      nothing in the loop clears bits above 31. */
  lemma {:induction false} HashStaysWide(path: string, more: string)
    requires HashPath(path) >= TWO_32
    ensures HashPath(path + more) >= TWO_32
  {
    if more != [] {
      var p := path + more;
      var init := more[..|more| - 1];
      assert p[..|p| - 1] == path + init;
      HashStaysWide(path, init);
      var x := HashPath(path + init) * 16 + Lower(p[|p| - 1]) as int;
      assert HashPath(p) == Fold(x);
      FoldParts(x);
      assert x / TWO_32 >= 1;
    } else {
      assert path + more == path;
    }
  }

  /** Whenever Python's result fits in 32 bits it is the 32-bit hash, and then
      it is below 2^28. */
  lemma {:induction false} HashAgreesWith32(path: string)
    requires HashPath(path) < TWO_32
    ensures HashPath(path) == Hash32(path) && HashPath(path) < TWO_28
  {
    if path != [] {
      var init, c := path[..|path| - 1], path[|path| - 1];
      var x := HashPath(init) * 16 + Lower(c) as int;
      FoldParts(x);
      assert x < TWO_32;
      HashAgreesWith32(init);
    }
  }

  /** The 32-bit hash is always below 2^28. */
  lemma Hash32Bound(path: string)
    ensures Hash32(path) < TWO_28
  {
    if path != [] {
      var x := (Hash32(path[..|path| - 1]) * 16 + Lower(path[|path| - 1]) as int) % TWO_32;
      FoldParts(x);
    }
  }

  /** `Fold` is the identity when bits 28-31 are clear. */
  lemma FoldKeeps(q: nat, lo: nat)
    requires lo < TWO_28
    ensures Fold(q * TWO_32 + lo) == q * TWO_32 + lo
  {
    FoldOfParts(q, 0, lo);
    XorZero(lo);
  }

  /** One more character is one more turn of the loop. */
  lemma HashSnoc(p: string, c: char)
    ensures HashPath(p + [c]) == Step(HashPath(p), c)
    ensures Hash32(p + [c]) == Step32(Hash32(p), c)
  {
    assert (p + [c])[..|p|] == p;
  }

  /** A turn of the loop that leaves bits 28-31 clear adds the character and
      does nothing else. */
  lemma StepShifts(h: nat, c: char)
    requires h * 16 + Lower(c) as int < TWO_28
    ensures Step(h, c) == h * 16 + Lower(c) as int
    ensures Step32(h, c) == h * 16 + Lower(c) as int
  {
    FoldKeeps(0, h * 16 + Lower(c) as int);
  }

  /** The path read as a number in base 16, one digit per lowercased
      character: what the loop computes while nothing reaches bit 28. */
  function Radix16(path: string): nat
  {
    if path == [] then 0 else Radix16(path[..|path| - 1]) * 16 + Lower(path[|path| - 1]) as int
  }

  lemma RadixSnoc(p: string, c: char)
    ensures Radix16(p + [c]) == Radix16(p) * 16 + Lower(c) as int
  {
    assert (p + [c])[..|p|] == p;
  }

  /** While the base-16 value stays below 2^28 no folding happens: both
      hashes are that value. */
  lemma {:induction false} HashIsRadix16(path: string)
    requires Radix16(path) < TWO_28
    ensures HashPath(path) == Radix16(path) && Hash32(path) == Radix16(path)
  {
    if path != [] {
      var init := path[..|path| - 1];
      HashIsRadix16(init);
      StepShifts(Radix16(init), path[|path| - 1]);
    }
  }

  /** The seventh turn for "9iiiifiz": 0x3fffff6 * 16 + ord('i') is
      0x3fffffc9, whose bits 28-29 are folded back into bits 4-5. */
  lemma StepFoldsCarry(h: nat)
    requires h == 0x3fffff6
    ensures Step(h, 'i') == 0xffffff9
  {
    hide Xor, And;
    assert h * 16 + Lower('i') as int == 0 * TWO_32 + 3 * TWO_28 + 0xfffffc9;
    FoldOfParts(0, 3, 0xfffffc9);
    CarryLow();
  }

  /** Bits 28-29 of that turn folded back: only the low byte changes. */
  lemma CarryLow()
    ensures Xor(0xfffffc9, 3 * 16) == 0xffffff9
  {
    hide Xor, And;
    XorBitwise();
    Pow2Values();
    XorKeepsHigh(XorFn(), 0xfffff, 0xc9, 0x30, 8);
    assert 0xfffffc9 == 0xfffff * Pow2(8) + 0xc9;
    CarryByte();
  }

  /** The low byte of that turn: 0xc9 ^ 0x30. */
  lemma CarryByte()
    ensures Xor(0xc9, 0x30) == 0xf9
  {
    assert Xor(0, 0) == 0;
    assert Xor(1, 0) == 1;
    assert Xor(3, 0) == 3;
    assert Xor(6, 1) == 7;
    assert Xor(0xc, 3) == 0xf;
    assert Xor(0x19, 6) == 0x1f;
    assert Xor(0x32, 0xc) == 0x3e;
    assert Xor(0x64, 0x18) == 0x7c;
  }

  /** The eighth turn for "9iiiifiz": the shift carries into bit 32, which
      Python keeps and 32-bit arithmetic drops. */
  lemma StepCarriesOut(h: nat)
    requires h == 0xffffff9
    ensures Step(h, 'z') == 0x1_0000_000a
    ensures Step32(h, 'z') == 0xa
  {
    var x := h * 16 + Lower('z') as int;
    assert x == 1 * TWO_32 + 0xa;
    FoldKeeps(x / TWO_32, x % TWO_32);
    FoldKeeps(0, x % TWO_32);
  }

  /** A path whose Python hash has outgrown 32 bits: `hash_path` gives
      0x1_0000_000a where 32-bit arithmetic gives 0xa, so no u32 stored in an
      archive can ever match it. */
  lemma HashOutgrows32Bits(s: string)
    requires s == "9iiiifiz"
    ensures HashPath(s) == 0x1_0000_000a
    ensures Hash32(s) == 0xa
  {
    SpelledOut(s);
    var p1 := [] + ['9'];
    var p2 := p1 + ['i'];
    var p3 := p2 + ['i'];
    var p4 := p3 + ['i'];
    var p5 := p4 + ['i'];
    var p6 := p5 + ['f'];
    RadixSnoc([], '9');
    RadixSnoc(p1, 'i');
    RadixSnoc(p2, 'i');
    RadixSnoc(p3, 'i');
    RadixSnoc(p4, 'i');
    RadixSnoc(p5, 'f');
    assert Radix16(p6) == 0x3fffff6;
    HashIsRadix16(p6);
    HashSnoc(p6, 'i');
    StepFoldsCarry(HashPath(p6));
    var p7 := p6 + ['i'];
    HashAgreesWith32(p7);
    HashSnoc(p7, 'z');
    StepCarriesOut(HashPath(p7));
  }

  /** "9iiiifiz" character by character. */
  lemma SpelledOut(s: string)
    requires s == "9iiiifiz"
    ensures s == [] + ['9'] + ['i'] + ['i'] + ['i'] + ['i'] + ['f'] + ['i'] + ['z']
  {
  }

  /** Case does not matter: paths that agree once lowercased hash alike. */
  lemma {:induction false} HashIgnoresCase(p: string, q: string)
    requires Lowercase(p) == Lowercase(q)
    ensures HashPath(p) == HashPath(q)
  {
    if p != [] {
      var n := |p| - 1;
      assert Lower(p[n]) == Lowercase(p)[n] == Lowercase(q)[n] == Lower(q[n]);
      assert Lowercase(p[..n]) == Lowercase(p)[..n];
      assert Lowercase(q[..n]) == Lowercase(q)[..n];
      HashIgnoresCase(p[..n], q[..n]);
    }
  }

  /** `hash_path(p) == hash_path(p.lower())`. */
  lemma HashOfLowercase(p: string)
    ensures HashPath(Lowercase(p)) == HashPath(p)
  {
    assert Lowercase(Lowercase(p)) == Lowercase(p);
    HashIgnoresCase(Lowercase(p), p);
  }

  /** `hash_path(p) == hash_path(p.upper())`. */
  lemma HashOfUppercase(p: string)
    ensures HashPath(Uppercase(p)) == HashPath(p)
  {
    assert Lowercase(Uppercase(p)) == Lowercase(p);
    HashIgnoresCase(Uppercase(p), p);
  }
}
