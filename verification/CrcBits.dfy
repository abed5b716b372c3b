/** The arithmetic underneath internal/util/crc16: division of a bit stream by
  * a polynomial over GF(2), one bit per step, on a 16-bit register.
  *
  * A register is written as its 16 bits starting at the end where data enters,
  * so both bit orders of the package (CrcWords) share these laws.
  */
module CrcBits {

  const WIDTH: nat := 16

  type Reg = w: seq<bool> | |w| == WIDTH witness seq(WIDTH, i => false)

  function Zeros(n: nat): (z: seq<bool>)
    ensures |z| == n && forall i :: 0 <= i < n ==> !z[i]
  {
    seq(n, i => false)
  }

  const ZERO: Reg := Zeros(WIDTH)

  function Xor(a: seq<bool>, b: seq<bool>): (d: seq<bool>)
    requires |a| == |b|
    ensures |d| == |a| && forall i {:trigger d[i]} :: 0 <= i < |a| ==> d[i] == (a[i] != b[i])
  {
    seq(|a|, i requires 0 <= i < |a| => a[i] != b[i])
  }

  /** One division step: shift towards the entry and, when the bit shifted out
    * was set, subtract the polynomial. */
  function Step(poly: Reg, c: Reg): Reg {
    var shifted := c[1..] + [false];
    if c[0] then Xor(shifted, poly) else shifted
  }

  function Iter(poly: Reg, c: Reg, n: nat): Reg
    decreases n
  {
    if n == 0 then c else Iter(poly, Step(poly, c), n - 1)
  }

  function Feed(c: Reg, b: bool): Reg {
    c[0 := c[0] != b]
  }

  /** The reference: the register after dividing a bit stream, one bit at a time. */
  function Divide(poly: Reg, c: Reg, bits: seq<bool>): Reg
    decreases |bits|
  {
    if bits == [] then c
    else Divide(poly, Step(poly, Feed(c, bits[0])), bits[1..])
  }

  /** The X^0 coefficient is the bit furthest from the entry. */
  predicate HasConstantTerm(poly: Reg) {
    poly[WIDTH - 1]
  }

  // ------------------------------------------------------------- linearity

  lemma StepLinear(poly: Reg, a: Reg, b: Reg)
    ensures Step(poly, Xor(a, b)) == Xor(Step(poly, a), Step(poly, b))
  {
  }

  lemma {:induction false} IterLinear(poly: Reg, a: Reg, b: Reg, n: nat)
    ensures Iter(poly, Xor(a, b), n) == Xor(Iter(poly, a, n), Iter(poly, b, n))
    decreases n
  {
    if n > 0 {
      StepLinear(poly, a, b);
      IterLinear(poly, Step(poly, a), Step(poly, b), n - 1);
    }
  }

  lemma {:induction false} IterAdd(poly: Reg, c: Reg, m: nat, n: nat)
    ensures Iter(poly, c, m + n) == Iter(poly, Iter(poly, c, m), n)
    decreases m
  {
    if m > 0 {
      IterAdd(poly, Step(poly, c), m - 1, n);
    }
  }

  /** Division is XOR-linear in the register and the data jointly. */
  lemma {:induction false} DivideLinear(poly: Reg, c: Reg, d: Reg, a: seq<bool>, b: seq<bool>)
    requires |a| == |b|
    ensures Divide(poly, Xor(c, d), Xor(a, b)) == Xor(Divide(poly, c, a), Divide(poly, d, b))
    decreases |a|
  {
    if a != [] {
      var x, y := Feed(c, a[0]), Feed(d, b[0]);
      assert Feed(Xor(c, d), Xor(a, b)[0]) == Xor(x, y);
      StepLinear(poly, x, y);
      assert Xor(a, b)[1..] == Xor(a[1..], b[1..]);
      DivideLinear(poly, Step(poly, x), Step(poly, y), a[1..], b[1..]);
    }
  }

  // ------------------------------------------------------------ composition

  lemma {:induction false} DivideAppend(poly: Reg, c: Reg, a: seq<bool>, b: seq<bool>)
    ensures Divide(poly, c, a + b) == Divide(poly, Divide(poly, c, a), b)
    decreases |a|
  {
    if a == [] {
      assert a + b == b;
    } else {
      assert (a + b)[1..] == a[1..] + b;
      DivideAppend(poly, Step(poly, Feed(c, a[0])), a[1..], b);
    }
  }

  function Pad(bits: seq<bool>): Reg
    requires |bits| <= WIDTH
  {
    bits + Zeros(WIDTH - |bits|)
  }

  /** Up to 16 bits fed one at a time are one XOR into the register followed by
    * that many steps. */
  lemma {:induction false} DivideWord(poly: Reg, c: Reg, bits: seq<bool>)
    requires |bits| <= WIDTH
    ensures Divide(poly, c, bits) == Iter(poly, Xor(c, Pad(bits)), |bits|)
    decreases |bits|
  {
    if bits == [] {
      assert Xor(c, Pad(bits)) == c;
    } else {
      var x := Feed(c, bits[0]);
      var rest: Reg := [false] + bits[1..] + Zeros(WIDTH - |bits|);
      assert Xor(c, Pad(bits)) == Xor(x, rest);
      StepLinear(poly, x, rest);
      assert Step(poly, rest) == Pad(bits[1..]);
      DivideWord(poly, Step(poly, x), bits[1..]);
    }
  }

  /** Steps over clear bits only shift. */
  lemma {:induction false} IterShifts(poly: Reg, c: Reg, n: nat)
    requires n <= WIDTH && forall i :: 0 <= i < n ==> !c[i]
    ensures Iter(poly, c, n) == c[n..] + Zeros(n)
    decreases n
  {
    if n > 0 {
      var d := Step(poly, c);
      assert d == c[1..] + [false];
      IterShifts(poly, d, n - 1);
      assert d[n - 1..] + Zeros(n - 1) == c[n..] + Zeros(n);
    } else {
      assert c[0..] + Zeros(0) == c;
    }
  }

  // --------------------------------------------------------- invertible step

  lemma StepKernel(poly: Reg, c: Reg)
    requires HasConstantTerm(poly)
    ensures Step(poly, c) == ZERO <==> c == ZERO
  {
    var shifted := c[1..] + [false];
    if c[0] {
      assert Step(poly, c)[WIDTH - 1];
    } else if Step(poly, c) == ZERO {
      forall i | 1 <= i < WIDTH ensures !c[i] { assert c[i] == shifted[i - 1]; }
      assert c == ZERO;
    }
  }

  lemma {:induction false} IterKernel(poly: Reg, c: Reg, n: nat)
    requires HasConstantTerm(poly)
    ensures Iter(poly, c, n) == ZERO <==> c == ZERO
    decreases n
  {
    if n > 0 {
      StepKernel(poly, c);
      IterKernel(poly, Step(poly, c), n - 1);
    }
  }

  lemma XorZero(a: seq<bool>, b: seq<bool>)
    requires |a| == |b|
    ensures Xor(a, b) == Zeros(|a|) <==> a == b
  {
    if Xor(a, b) == Zeros(|a|) {
      forall i | 0 <= i < |a| ensures a[i] == b[i] { assert !Xor(a, b)[i]; }
    }
  }

  /** With a constant term the steps lose no information: distinct registers stay distinct. */
  lemma IterInjective(poly: Reg, a: Reg, b: Reg, n: nat)
    requires HasConstantTerm(poly)
    ensures Iter(poly, a, n) == Iter(poly, b, n) <==> a == b
  {
    IterLinear(poly, a, b, n);
    IterKernel(poly, Xor(a, b), n);
    XorZero(a, b);
    XorZero(Iter(poly, a, n), Iter(poly, b, n));
  }

  lemma {:induction false} DivideZeros(poly: Reg, c: Reg, n: nat)
    ensures Divide(poly, c, Zeros(n)) == Iter(poly, c, n)
    decreases n
  {
    if n > 0 {
      assert Zeros(n)[1..] == Zeros(n - 1);
      assert Feed(c, false) == c;
      DivideZeros(poly, Step(poly, c), n - 1);
    }
  }

  lemma {:induction false} IterZero(poly: Reg, n: nat)
    ensures Iter(poly, ZERO, n) == ZERO
    decreases n
  {
    if n > 0 {
      assert Step(poly, ZERO) == ZERO;
      IterZero(poly, n - 1);
    }
  }

  // -------------------------------------------------------------- bursts

  /** The two streams agree outside a window of 16 consecutive bits starting at `k`. */
  predicate AgreeOutside(a: seq<bool>, b: seq<bool>, k: nat) {
    |a| == |b| && forall i :: 0 <= i < |a| && !(k <= i < k + WIDTH) ==> a[i] == b[i]
  }

  /** Leading zeros leave an empty register empty; a nonzero window fills it;
    * trailing zeros cannot empty it again. */
  lemma PaddedWindow(poly: Reg, before: nat, mid: seq<bool>, after: nat, i: nat)
    requires HasConstantTerm(poly)
    requires |mid| <= WIDTH && i < |mid| && mid[i]
    ensures Divide(poly, ZERO, Zeros(before) + mid + Zeros(after)) != ZERO
  {
    DivideAppend(poly, ZERO, Zeros(before) + mid, Zeros(after));
    DivideAppend(poly, ZERO, Zeros(before), mid);
    DivideZeros(poly, ZERO, before);
    IterZero(poly, before);
    var r := Divide(poly, ZERO, mid);
    assert r != ZERO by {
      DivideWord(poly, ZERO, mid);
      assert Xor(ZERO, Pad(mid))[i];
      IterKernel(poly, Xor(ZERO, Pad(mid)), |mid|);
    }
    DivideZeros(poly, r, after);
    IterKernel(poly, r, after);
  }

  lemma SplitWindow(d: seq<bool>, k: nat, e: nat)
    requires k <= e <= |d|
    requires forall i :: 0 <= i < k ==> !d[i]
    requires forall i :: e <= i < |d| ==> !d[i]
    ensures d == Zeros(k) + d[k..e] + Zeros(|d| - e)
  {
  }

  /** A nonzero stream confined to 16 consecutive bits never divides to zero. */
  lemma WindowNonzero(poly: Reg, d: seq<bool>, k: nat, i: nat)
    requires HasConstantTerm(poly)
    requires k <= i < |d| && d[i]
    requires forall j :: 0 <= j < |d| && !(k <= j < k + WIDTH) ==> !d[j]
    ensures Divide(poly, ZERO, d) != ZERO
  {
    var e := if k + WIDTH <= |d| then k + WIDTH else |d|;
    var mid := d[k..e];
    SplitWindow(d, k, e);
    assert mid[i - k] == d[i];
    PaddedWindow(poly, k, mid, |d| - e, i - k);
  }

  /** Two streams collide exactly when their difference is divisible. */
  lemma SameRegister(poly: Reg, c: Reg, a: seq<bool>, b: seq<bool>)
    requires |a| == |b|
    ensures Divide(poly, c, a) == Divide(poly, c, b) <==> Divide(poly, ZERO, Xor(a, b)) == ZERO
  {
    DivideLinear(poly, c, c, a, b);
    XorZero(c, c);
    XorZero(Divide(poly, c, a), Divide(poly, c, b));
  }

  /** Burst detection on bit streams, whatever surrounds the burst. */
  lemma BurstChangesRegister(poly: Reg, c: Reg, a: seq<bool>, b: seq<bool>, k: nat)
    requires HasConstantTerm(poly) && a != b && AgreeOutside(a, b, k)
    ensures Divide(poly, c, a) != Divide(poly, c, b)
  {
    var i :| 0 <= i < |a| && a[i] != b[i];
    WindowNonzero(poly, Xor(a, b), k, i);
    SameRegister(poly, c, a, b);
  }
}
