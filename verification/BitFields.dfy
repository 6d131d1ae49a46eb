/** Bit fields of a word, and words built field by field from the low end. */
module BitFields {

  function Pow2(n: nat): (r: nat)
    ensures r > 0
  {
    if n == 0 then 1 else 2 * Pow2(n - 1)
  }

  /** (w >> bit) & ((1 << len) - 1). */
  function Field(w: nat, bit: nat, len: nat): (r: nat)
    ensures r < Pow2(len)
  {
    (w / Pow2(bit)) % Pow2(len)
  }

  /** A field's value and its width. */
  datatype Cell = Cell(value: nat, len: nat)

  predicate Fits(cs: seq<Cell>) {
    forall i :: 0 <= i < |cs| ==> cs[i].value < Pow2(cs[i].len)
  }

  /** The fields side by side, the first one lowest. */
  function Pack(cs: seq<Cell>): nat {
    if cs == [] then 0 else cs[0].value + Pow2(cs[0].len) * Pack(cs[1..])
  }

  /** The lowest bit of field k. */
  function Offset(cs: seq<Cell>, k: nat): nat
    requires k <= |cs|
  {
    if k == 0 then 0 else Offset(cs, k - 1) + cs[k - 1].len
  }

  // ---------------------------------------------------------------------

  lemma TwiceProduct(a: nat, b: nat)
    ensures (2 * a) * b == 2 * (a * b)
  {
  }

  lemma {:induction false} PowAdd(m: nat, n: nat)
    ensures Pow2(m + n) == Pow2(m) * Pow2(n)
  {
    if m > 0 {
      PowAdd(m - 1, n);
      TwiceProduct(Pow2(m - 1), Pow2(n));
    }
  }

  lemma MulAtLeast(a: nat, k: nat)
    requires k >= 1
    ensures a * k >= a
  {
  }

  lemma MulStep(a: nat, p: nat, q: nat)
    requires p < q
    ensures a * p + a <= a * q
  {
    MulAtLeast(a, q - p);
    assert a * (q - p) == a * q - a * p;
  }

  /** Quotient and remainder are determined by the equation they solve. */
  lemma DivisionIs(x: nat, a: nat, q: nat, r: nat)
    requires a > 0 && x == a * q + r && r < a
    ensures x / a == q && x % a == r
  {
    var q', r' := x / a, x % a;
    assert x == a * q' + r';
    if q < q' {
      MulStep(a, q, q');
      assert false;
    } else if q' < q {
      MulStep(a, q', q);
      assert false;
    }
  }

  lemma Distribute(a: nat, b: nat, q: nat, r: nat)
    ensures a * (b * q + r) == (a * b) * q + a * r
  {
  }

  lemma BelowProduct(v: nat, a: nat, r: nat, b: nat)
    requires v < a && r < b
    ensures v + a * r < a * b
  {
    MulAtLeast(a, b - r);
    assert a * (b - r) == a * b - a * r;
  }

  /** Dividing by a * b is dividing by a and then by b. */
  lemma DivTwice(v: nat, a: nat, rest: nat, b: nat)
    requires v < a && b > 0
    ensures a * b > 0 && (v + a * rest) / (a * b) == rest / b
  {
    var q, r := rest / b, rest % b;
    assert rest == b * q + r;
    Distribute(a, b, q, r);
    BelowProduct(v, a, r, b);
    DivisionIs(v + a * rest, a * b, q, v + a * r);
  }

  /** The lowest field of a word. */
  lemma LowField(v: nat, len: nat, rest: nat)
    requires v < Pow2(len)
    ensures Field(v + Pow2(len) * rest, 0, len) == v
  {
    DivisionIs(v + Pow2(len) * rest, Pow2(len), rest, v);
    assert (v + Pow2(len) * rest) / Pow2(0) == v + Pow2(len) * rest;
  }

  /** The other fields of a word are the fields of what lies above the lowest one. */
  lemma HighField(v: nat, low: nat, rest: nat, bit: nat, len: nat)
    requires v < Pow2(low)
    ensures Field(v + Pow2(low) * rest, low + bit, len) == Field(rest, bit, len)
  {
    PowAdd(low, bit);
    DivTwice(v, Pow2(low), rest, Pow2(bit));
  }

  lemma {:induction false} OffsetTail(cs: seq<Cell>, k: nat)
    requires 0 < k <= |cs|
    ensures Offset(cs, k) == cs[0].len + Offset(cs[1..], k - 1)
  {
    if k > 1 {
      OffsetTail(cs, k - 1);
    }
  }

  /** Reading field k of a packed word gives back its value. */
  lemma {:induction false} Unpack(cs: seq<Cell>, k: nat)
    requires Fits(cs) && k < |cs|
    ensures Field(Pack(cs), Offset(cs, k), cs[k].len) == cs[k].value
    decreases |cs|
  {
    if k == 0 {
      LowField(cs[0].value, cs[0].len, Pack(cs[1..]));
    } else {
      Unpack(cs[1..], k - 1);
      OffsetTail(cs, k);
      HighField(cs[0].value, cs[0].len, Pack(cs[1..]), Offset(cs[1..], k - 1), cs[k].len);
    }
  }

  /** A packed word is no wider than its fields. */
  lemma {:induction false} PackBound(cs: seq<Cell>)
    requires Fits(cs)
    ensures Pack(cs) < Pow2(Offset(cs, |cs|))
    decreases |cs|
  {
    if cs != [] {
      PackBound(cs[1..]);
      OffsetTail(cs, |cs|);
      PowAdd(cs[0].len, Offset(cs[1..], |cs| - 1));
      BelowProduct(cs[0].value, Pow2(cs[0].len), Pack(cs[1..]), Pow2(Offset(cs[1..], |cs| - 1)));
    }
  }

  lemma SmallPowers()
    ensures Pow2(1) == 2 && Pow2(2) == 4 && Pow2(3) == 8 && Pow2(4) == 16 && Pow2(8) == 256
  {
    assert Pow2(5) == 32;
    assert Pow2(6) == 64;
    assert Pow2(7) == 128;
  }
}
