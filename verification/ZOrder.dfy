/** The z-order code of a grid cell: two 15-bit coordinates with their bits interleaved. */
module ZOrder {
  import opened Plane

  // --- Machine words ---
  // Comparisons and shifts get names so that proofs about recursive digit
  // functions never look inside a word.

  predicate Below(a: bv32, b: bv32) { a < b }

  predicate AtMost(a: bv32, b: bv32) { a <= b }

  /** All bits of v lie in the mask m. */
  predicate Within(v: bv32, m: bv32) { v & m == v }

  function Half(v: bv32): bv32 { v >> 1 }

  function Low(v: bv32): bool { v & 1 == 1 }

  function Push(v: bv32, bit: bool): bv32 { (v << 1) | (if bit then 1 else 0) }

  /** The low `bits` binary digits of n as a 32-bit word (the conversion to int32_t). */
  function ToWord(n: nat, bits: nat): bv32
    decreases bits, n
  {
    if bits == 0 then 0 else Push(ToWord(n / 2, bits - 1), n % 2 == 1)
  }

  /** The value of the low `bits` binary digits of a word. */
  function FromWord(v: bv32, bits: nat): nat
    decreases bits, v
  {
    if bits == 0 then 0 else 2 * FromWord(Half(v), bits - 1) + (if Low(v) then 1 else 0)
  }

  /** The word with its low k bits set. */
  function Mask(k: nat): bv32 {
    if k == 0 then 0 else Push(Mask(k - 1), true)
  }

  ghost predicate Fits(v: bv32, bits: nat)
    decreases bits
  {
    if bits == 0 then v == 0 else Fits(Half(v), bits - 1)
  }

  ghost function Pow2(k: nat): nat {
    if k == 0 then 1 else 2 * Pow2(k - 1)
  }

  lemma MaskBound(k: nat)
    requires k <= 15
    ensures Within(Mask(k), 0x7FFF)
  {
    assert Mask(3) == 0x7;
    assert Mask(6) == 0x3F;
    assert Mask(9) == 0x1FF;
    assert Mask(12) == 0xFFF;
    assert Mask(15) == 0x7FFF;
  }

  lemma PushBelow(u: bv32, v: bv32, b: bool, c: bool)
    requires Below(u, v) && Within(u, 0x7FFF) && Within(v, 0x7FFF)
    ensures Below(Push(u, b), Push(v, c))
  {
  }

  lemma PushLast(u: bv32)
    requires Within(u, 0x7FFF)
    ensures Below(Push(u, false), Push(u, true))
  {
  }

  lemma PushWithin(u: bv32, v: bv32, b: bool)
    requires Within(u, v)
    ensures Within(Push(u, b), Push(v, true))
  {
  }

  lemma WithinTransitive(a: bv32, b: bv32, c: bv32)
    requires Within(a, b) && Within(b, c)
    ensures Within(a, c)
  {
  }

  lemma {:induction false} ToWordWithin(n: nat, bits: nat)
    requires bits <= 15
    ensures Within(ToWord(n, bits), Mask(bits)) && Within(ToWord(n, bits), 0x7FFF)
    decreases bits
  {
    if bits > 0 {
      ToWordWithin(n / 2, bits - 1);
      PushWithin(ToWord(n / 2, bits - 1), Mask(bits - 1), n % 2 == 1);
    }
    MaskBound(bits);
    WithinTransitive(ToWord(n, bits), Mask(bits), 0x7FFF);
  }

  lemma {:induction false} ToWordStrict(m: nat, n: nat, bits: nat)
    requires bits <= 15 && m < n < Pow2(bits)
    ensures Below(ToWord(m, bits), ToWord(n, bits))
    decreases bits
  {
    var u, v := ToWord(m / 2, bits - 1), ToWord(n / 2, bits - 1);
    var b, c := m % 2 == 1, n % 2 == 1;
    ToWordWithin(m / 2, bits - 1);
    ToWordWithin(n / 2, bits - 1);
    assert ToWord(m, bits) == Push(u, b) && ToWord(n, bits) == Push(v, c);
    if m / 2 < n / 2 {
      ToWordStrict(m / 2, n / 2, bits - 1);
      PushBelow(u, v, b, c);
    } else {
      assert u == v && !b && c;
      PushLast(u);
    }
  }

  lemma HalfAtMost(a: bv32, b: bv32)
    requires AtMost(a, b)
    ensures AtMost(Half(a), Half(b))
  {
  }

  lemma HalfBelow(a: bv32, b: bv32)
    requires Below(Half(a), Half(b))
    ensures Below(a, b)
  {
  }

  lemma LowBelow(a: bv32, b: bv32)
    requires Half(a) == Half(b) && !Low(a) && Low(b)
    ensures Below(a, b)
  {
  }

  lemma HalfLowEqual(a: bv32, b: bv32)
    requires Half(a) == Half(b) && Low(a) == Low(b)
    ensures a == b
  {
  }

  lemma Apart(a: bv32, b: bv32)
    requires AtMost(a, b)
    ensures !Below(b, a)
  {
  }

  lemma BelowAtMost(a: bv32, b: bv32)
    requires Below(a, b)
    ensures AtMost(a, b)
  {
  }

  lemma {:induction false} FitsBelow(a: bv32, b: bv32, bits: nat)
    requires AtMost(a, b) && Fits(b, bits)
    ensures Fits(a, bits)
    decreases bits
  {
    if bits > 0 {
      HalfAtMost(a, b);
      FitsBelow(Half(a), Half(b), bits - 1);
    }
  }

  lemma {:induction false} FromWordInjective(a: bv32, b: bv32, bits: nat)
    requires Fits(a, bits) && Fits(b, bits) && FromWord(a, bits) == FromWord(b, bits)
    ensures a == b
    decreases bits
  {
    if bits > 0 {
      FromWordInjective(Half(a), Half(b), bits - 1);
      HalfLowEqual(a, b);
    }
  }

  lemma {:induction false} FromWordReflects(a: bv32, b: bv32, bits: nat)
    requires Fits(a, bits) && Fits(b, bits) && FromWord(a, bits) < FromWord(b, bits)
    ensures Below(a, b)
    decreases bits
  {
    if FromWord(Half(a), bits - 1) < FromWord(Half(b), bits - 1) {
      FromWordReflects(Half(a), Half(b), bits - 1);
      HalfBelow(a, b);
    } else {
      FromWordInjective(Half(a), Half(b), bits - 1);
      LowBelow(a, b);
    }
  }

  // --- Interleaving ---

  /** Moves bit k of a 15-bit word to bit 2k. */
  function Spread(v: bv32): bv32 {
    var a := (v | (v << 8)) & 0x00FF00FF;
    var b := (a | (a << 4)) & 0x0F0F0F0F;
    var c := (b | (b << 2)) & 0x33333333;
    (c | (c << 1)) & 0x55555555
  }

  lemma SpreadMonotone(a: bv32, b: bv32)
    requires AtMost(a, b) && Within(a, 0x7FFF) && Within(b, 0x7FFF)
    ensures AtMost(Spread(a), Spread(b))
  {
  }

  lemma SpreadBits(a: bv32)
    requires Within(a, 0x7FFF)
    ensures Within(Spread(a), 0x15555555)
  {
  }

  function Interlock(even: bv32, odd: bv32): bv32 { even | (odd << 1) }

  lemma InterlockEven(a: bv32, b: bv32, c: bv32)
    requires AtMost(a, b)
    requires Within(a, 0x15555555) && Within(b, 0x15555555) && Within(c, 0x15555555)
    ensures AtMost(Interlock(a, c), Interlock(b, c))
  {
  }

  lemma InterlockOdd(a: bv32, c: bv32, d: bv32)
    requires AtMost(c, d)
    requires Within(a, 0x15555555) && Within(c, 0x15555555) && Within(d, 0x15555555)
    ensures AtMost(Interlock(a, c), Interlock(a, d))
  {
  }

  lemma InterlockBound(a: bv32, c: bv32)
    requires Within(a, 0x15555555) && Within(c, 0x15555555)
    ensures AtMost(Interlock(a, c), 0x3FFFFFFF)
  {
  }

  lemma FitsThirty(v: bv32)
    requires AtMost(v, 0x3FFFFFFF)
    ensures Fits(v, 30)
  {
    assert Fits(0x1F, 5);
    assert Fits(0x3FF, 10);
    assert Fits(0x7FFF, 15);
    assert Fits(0xFFFFF, 20);
    assert Fits(0x1FFFFFF, 25);
    assert Fits(0x3FFFFFFF, 30);
    FitsBelow(v, 0x3FFFFFFF, 30);
  }

  lemma FromWordMonotone(a: bv32, b: bv32)
    requires AtMost(a, b) && AtMost(a, 0x3FFFFFFF) && AtMost(b, 0x3FFFFFFF)
    ensures FromWord(a, 30) <= FromWord(b, 30)
  {
    FitsThirty(a);
    FitsThirty(b);
    if FromWord(b, 30) < FromWord(a, 30) {
      FromWordReflects(b, a, 30);
      Apart(a, b);
    }
  }

  /** The interleaved code of two words, as a number. */
  function Code(x: bv32, y: bv32): nat {
    FromWord(Interlock(Spread(x), Spread(y)), 30)
  }

  lemma CodeMonotone(a: bv32, b: bv32, c: bv32, d: bv32)
    requires AtMost(a, b) && Within(a, 0x7FFF) && Within(b, 0x7FFF)
    requires AtMost(c, d) && Within(c, 0x7FFF) && Within(d, 0x7FFF)
    ensures Code(a, c) <= Code(b, d)
  {
    SpreadMonotone(a, b);
    SpreadMonotone(c, d);
    SpreadBits(a);
    SpreadBits(b);
    SpreadBits(c);
    SpreadBits(d);
    var sa, sb, sc, sd := Spread(a), Spread(b), Spread(c), Spread(d);
    InterlockEven(sa, sb, sc);
    InterlockOdd(sb, sc, sd);
    InterlockBound(sa, sc);
    InterlockBound(sb, sc);
    InterlockBound(sb, sd);
    FromWordMonotone(Interlock(sa, sc), Interlock(sb, sc));
    FromWordMonotone(Interlock(sb, sc), Interlock(sb, sd));
  }

  // --- The grid ---

  /** The frame in which points are quantised: its lower corner and cells per unit. */
  datatype Grid = Grid(minX: real, minY: real, invSize: real)

  function Scaled(a: real, low: real, k: real): real {
    (a - low) * k
  }

  predicate InGrid(g: Grid, p: Point) {
    && 0.0 <= Scaled(p.x, g.minX, g.invSize) <= 32767.0
    && 0.0 <= Scaled(p.y, g.minY, g.invSize) <= 32767.0
  }

  /** Truncation of a non-negative scaled coordinate to a 15-bit word. */
  function Cell(r: real): bv32
    requires 0.0 <= r <= 32767.0
  {
    ToWord(r.Floor, 15)
  }

  function CellCode(x: real, y: real): nat
    requires 0.0 <= x <= 32767.0 && 0.0 <= y <= 32767.0
  {
    Code(Cell(x), Cell(y))
  }

  function ZCode(g: Grid, p: Point): nat
    requires InGrid(g, p)
  {
    CellCode(Scaled(p.x, g.minX, g.invSize), Scaled(p.y, g.minY, g.invSize))
  }

  lemma WordOrder(m: nat, n: nat, bits: nat)
    requires bits <= 15 && m <= n < Pow2(bits)
    ensures AtMost(ToWord(m, bits), ToWord(n, bits))
    ensures Within(ToWord(m, bits), 0x7FFF) && Within(ToWord(n, bits), 0x7FFF)
  {
    ToWordWithin(m, bits);
    ToWordWithin(n, bits);
    if m < n {
      ToWordStrict(m, n, bits);
      BelowAtMost(ToWord(m, bits), ToWord(n, bits));
    }
  }

  lemma FloorMonotone(a: real, b: real)
    requires 0.0 <= a <= b <= 32767.0
    ensures 0 <= a.Floor <= b.Floor < Pow2(15)
  {
    assert Pow2(15) == 32768;
  }

  lemma CellMonotone(a: real, b: real)
    requires 0.0 <= a <= b <= 32767.0
    ensures AtMost(Cell(a), Cell(b)) && Within(Cell(a), 0x7FFF) && Within(Cell(b), 0x7FFF)
  {
    FloorMonotone(a, b);
    WordOrder(a.Floor, b.Floor, 15);
  }

  lemma CellCodeMonotone(px: real, qx: real, py: real, qy: real)
    requires 0.0 <= px <= qx <= 32767.0 && 0.0 <= py <= qy <= 32767.0
    ensures CellCode(px, py) <= CellCode(qx, qy)
  {
    CellMonotone(px, qx);
    CellMonotone(py, qy);
    CodeMonotone(Cell(px), Cell(qx), Cell(py), Cell(qy));
  }

  lemma ScaledMonotone(a: real, b: real, low: real, k: real)
    requires a <= b && k >= 0.0
    ensures Scaled(a, low, k) <= Scaled(b, low, k)
  {
  }

  /** The code is monotone in both coordinates at once. */
  lemma ZCodeMonotone(g: Grid, p: Point, q: Point)
    requires InGrid(g, p) && InGrid(g, q) && g.invSize >= 0.0
    requires p.x <= q.x && p.y <= q.y
    ensures ZCode(g, p) <= ZCode(g, q)
  {
    ScaledMonotone(p.x, q.x, g.minX, g.invSize);
    ScaledMonotone(p.y, q.y, g.minY, g.invSize);
    CellCodeMonotone(Scaled(p.x, g.minX, g.invSize), Scaled(q.x, g.minX, g.invSize),
                     Scaled(p.y, g.minY, g.invSize), Scaled(q.y, g.minY, g.invSize));
  }
}
