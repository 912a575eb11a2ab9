/** Softmax along the innermost dimension (operators/normalization/softmax/softmax.py, lines 31-83):
    the one-tile form and the online multi-pass form, over exact reals extended with the two
    infinities and NaN. `exp` is any positive function that turns sums into products. */
module Softmax {
  import opened Arithmetic

  datatype Value = Fin(r: real) | NegInf | PosInf | NaN

  type Lanes<T> = int -> T

  ghost predicate IsExp(e: real -> real) {
    && (forall x: real :: e(x) > 0.0)
    && (forall x: real, y: real :: SumToProduct(e, x, y))
  }

  predicate SumToProduct(e: real -> real, x: real, y: real) {
    e(x + y) == e(x) * e(y)
  }

  // ---- the arithmetic the kernel uses

  function Le(a: Value, b: Value): bool {
    a.NegInf? || b.PosInf? || (a.Fin? && b.Fin? && a.r <= b.r)
  }

  // tl.maximum: a NaN operand is ignored.
  function Max(a: Value, b: Value): Value {
    if a.NaN? then b else if b.NaN? then a else if Le(a, b) then b else a
  }

  function Sub(a: Value, b: Value): Value {
    if a.NaN? || b.NaN? || (a == b && !a.Fin?) then NaN
    else if a.Fin? && b.Fin? then Fin(a.r - b.r)
    else if a.PosInf? || b.NegInf? then PosInf
    else NegInf
  }

  function Add(a: Value, b: Value): Value {
    if a.NaN? || b.NaN? || (a.PosInf? && b.NegInf?) || (a.NegInf? && b.PosInf?) then NaN
    else if a.Fin? && b.Fin? then Fin(a.r + b.r)
    else if a.PosInf? || b.PosInf? then PosInf
    else NegInf
  }

  function Sign(a: Value): int {
    if a.PosInf? || (a.Fin? && a.r > 0.0) then 1 else if a.NegInf? || (a.Fin? && a.r < 0.0) then -1 else 0
  }

  function Infinite(sign: int): Value {
    if sign > 0 then PosInf else if sign < 0 then NegInf else NaN
  }

  function Mul(a: Value, b: Value): Value {
    if a.NaN? || b.NaN? then NaN
    else if a.Fin? && b.Fin? then Fin(a.r * b.r)
    else Infinite(Sign(a) * Sign(b))
  }

  function Div(a: Value, b: Value): Value {
    if a.NaN? || b.NaN? || (!a.Fin? && !b.Fin?) then NaN
    else if !b.Fin? then Fin(0.0)
    else if a.Fin? && b.r != 0.0 then Fin(a.r / b.r)
    else if b.r == 0.0 then Infinite(Sign(a))
    else Infinite(Sign(a) * Sign(b))
  }

  function Exp(e: real -> real, a: Value): Value {
    match a
    case Fin(r) => Fin(e(r))
    case NegInf => Fin(0.0)
    case PosInf => PosInf
    case NaN => NaN
  }

  // tl.max and tl.sum over the first n lanes.
  function MaxOf(f: Lanes<Value>, n: nat): Value {
    if n == 0 then NegInf else Max(MaxOf(f, n - 1), f(n - 1))
  }

  function SumOf(f: Lanes<Value>, n: nat): Value {
    if n == 0 then Fin(0.0) else Add(SumOf(f, n - 1), f(n - 1))
  }

  // ---- the definition

  // e^x as a real number; a masked element weighs nothing.
  function Weight(e: real -> real, x: Value): real {
    if x.Fin? then e(x.r) else 0.0
  }

  function Total(f: Lanes<real>, n: nat): real {
    if n == 0 then 0.0 else Total(f, n - 1) + f(n - 1)
  }

  function Weights(e: real -> real, x: Lanes<Value>): Lanes<real> {
    i => Weight(e, x(i))
  }

  // ---- facts about exp, sums and maxima

  predicate IsProduct(p: real, u: real, pu: real) {
    pu == p * u
  }

  lemma ExpAt(e: real -> real, a: real, b: real)
    requires IsExp(e)
    ensures e(a - b) * e(b) == e(a)
  {
    assert SumToProduct(e, a - b, b);
    assert (a - b) + b == a;
  }

  lemma {:induction false} TotalPlus(f: Lanes<real>, g: Lanes<real>, h: Lanes<real>, n: nat)
    requires forall i :: 0 <= i < n ==> h(i) == f(i) + g(i)
    ensures Total(h, n) == Total(f, n) + Total(g, n)
  {
    if n > 0 {
      TotalPlus(f, g, h, n - 1);
    }
  }

  lemma {:induction false} TotalShift(f: Lanes<real>, h: Lanes<real>, from: nat, n: nat)
    requires forall i :: 0 <= i < n ==> h(i) == f(from + i)
    ensures Total(f, from + n) == Total(f, from) + Total(h, n)
  {
    if n > 0 {
      TotalShift(f, h, from, n - 1);
      assert h(n - 1) == f(from + (n - 1));
    }
  }

  lemma {:induction false} TotalTail(f: Lanes<real>, n: nat, more: nat)
    requires n <= more && forall i :: n <= i < more ==> f(i) == 0.0
    ensures Total(f, more) == Total(f, n)
    decreases more
  {
    if n < more {
      TotalTail(f, n, more - 1);
    }
  }

  lemma {:induction false} TotalAgree(f: Lanes<real>, g: Lanes<real>, n: nat)
    requires forall i :: 0 <= i < n ==> f(i) == g(i)
    ensures Total(f, n) == Total(g, n)
  {
    if n > 0 {
      TotalAgree(f, g, n - 1);
    }
  }

  ghost predicate Inputs(x: Lanes<Value>) {
    forall i :: !x(i).NaN?
  }

  lemma MaxLaws(a: Value, b: Value, c: Value)
    requires !a.NaN? && !b.NaN? && !c.NaN?
    ensures Max(a, Max(b, c)) == Max(Max(a, b), c) && Max(a, b) == Max(b, a) && !Max(a, b).NaN?
    ensures Max(a, NegInf) == a && Le(a, Max(a, b)) && Le(b, Max(a, b))
  {
  }

  lemma {:induction false} MaxNumber(f: Lanes<Value>, n: nat)
    requires Inputs(f)
    ensures !MaxOf(f, n).NaN?
  {
    if n > 0 {
      MaxNumber(f, n - 1);
    }
  }

  lemma {:induction false} MaxMerge(f: Lanes<Value>, g: Lanes<Value>, h: Lanes<Value>, n: nat)
    requires Inputs(f) && Inputs(g) && forall i :: 0 <= i < n ==> h(i) == Max(f(i), g(i))
    ensures MaxOf(h, n) == Max(MaxOf(f, n), MaxOf(g, n))
  {
    if n > 0 {
      MaxMerge(f, g, h, n - 1);
      MaxNumber(f, n - 1);
      MaxNumber(g, n - 1);
    }
  }

  lemma {:induction false} MaxShift(f: Lanes<Value>, h: Lanes<Value>, from: nat, n: nat)
    requires Inputs(f) && Inputs(h) && forall i :: 0 <= i < n ==> h(i) == f(from + i)
    ensures MaxOf(f, from + n) == Max(MaxOf(f, from), MaxOf(h, n))
  {
    MaxNumber(f, from);
    if n > 0 {
      MaxShift(f, h, from, n - 1);
      MaxNumber(h, n - 1);
      assert h(n - 1) == f(from + (n - 1));
      MaxLaws(MaxOf(f, from), MaxOf(h, n - 1), h(n - 1));
    }
  }

  lemma {:induction false} MaxTail(f: Lanes<Value>, n: nat, more: nat)
    requires n <= more && forall i :: n <= i < more ==> f(i) == NegInf
    requires Inputs(f)
    ensures MaxOf(f, more) == MaxOf(f, n)
    decreases more
  {
    if n < more {
      MaxTail(f, n, more - 1);
      MaxNumber(f, n);
    }
  }

  lemma {:induction false} MaxBounds(f: Lanes<Value>, n: nat, i: nat)
    requires Inputs(f) && i < n
    ensures Le(f(i), MaxOf(f, n))
  {
    MaxNumber(f, n - 1);
    if i < n - 1 {
      MaxBounds(f, n - 1, i);
    }
  }

  lemma {:induction false} MaxAttained(f: Lanes<Value>, n: nat) returns (i: nat)
    requires n > 0 && Inputs(f)
    ensures i < n && f(i) == MaxOf(f, n)
  {
    MaxNumber(f, n - 1);
    if n == 1 || f(n - 1) == MaxOf(f, n) {
      i := n - 1;
    } else {
      i := MaxAttained(f, n - 1);
    }
  }

  // What a maximum is: attained, and no input above it, numbers compared as numbers.
  ghost predicate Greatest(f: Lanes<Value>, n: nat, top: Value) {
    && (exists i :: 0 <= i < n && f(i) == top)
    && forall i :: 0 <= i < n ==> match f(i)
                                 case NegInf => true
                                 case PosInf => top == PosInf
                                 case Fin(r) => top == PosInf || (top.Fin? && r <= top.r)
                                 case NaN => false
  }

  /** The maximum of at least one number or infinity is their greatest, and nothing else is. */
  lemma MaxIsGreatest(f: Lanes<Value>, n: nat, top: Value)
    requires n > 0 && Inputs(f)
    ensures top == MaxOf(f, n) <==> Greatest(f, n, top)
  {
    var i := MaxAttained(f, n);
    assert f(i) == MaxOf(f, n);
    forall k | 0 <= k < n
      ensures Le(f(k), MaxOf(f, n))
    {
      MaxBounds(f, n, k);
    }
    if Greatest(f, n, top) {
      var j :| 0 <= j < n && f(j) == top;
      assert Le(f(j), MaxOf(f, n));
    }
  }

  lemma {:induction false} TotalNonNegative(f: Lanes<real>, n: nat, i: nat)
    requires i < n && forall k :: f(k) >= 0.0
    ensures Total(f, n) >= f(i)
    ensures Total(f, n) >= 0.0
  {
    if i < n - 1 {
      TotalNonNegative(f, n - 1, i);
    } else if n > 1 {
      TotalNonNegative(f, n - 1, 0);
    }
  }

  lemma TotalPositive(e: real -> real, x: Lanes<Value>, n: nat)
    requires IsExp(e) && Inputs(x) && MaxOf(x, n).Fin?
    ensures Total(Weights(e, x), n) > 0.0
  {
    var i := MaxAttained(x, n);
    TotalNonNegative(Weights(e, x), n, i);
  }

  // ---- the definition

  // e^x_j over the sum of all e^x_i.
  ghost function Share(e: real -> real, x: Lanes<Value>, n: nat, j: int): real
    requires IsExp(e) && Inputs(x) && MaxOf(x, n).Fin?
  {
    TotalPositive(e, x, n);
    Weight(e, x(j)) / Total(Weights(e, x), n)
  }

  // Undefined when the greatest input is not a number: every input is -inf, or some input is +inf.
  ghost function SoftmaxOf(e: real -> real, x: Lanes<Value>, n: nat, j: int): Value
    requires IsExp(e) && Inputs(x)
  {
    if MaxOf(x, n).Fin? then Fin(Share(e, x, n, j)) else NaN
  }

  /** When that is: the outputs are numbers exactly for rows with a finite input and no +inf. */
  lemma DefinedIff(e: real -> real, x: Lanes<Value>, n: nat, j: int)
    requires IsExp(e) && Inputs(x)
    ensures SoftmaxOf(e, x, n, j).Fin? <==>
            (exists i :: 0 <= i < n && x(i).Fin?) && (forall i :: 0 <= i < n ==> !x(i).PosInf?)
  {
    if n > 0 {
      var top := MaxAttained(x, n);
      forall i | 0 <= i < n
        ensures Le(x(i), MaxOf(x, n))
      {
        MaxBounds(x, n, i);
      }
    }
  }

  /** The shares add up to one. */
  lemma SharesAddUp(e: real -> real, x: Lanes<Value>, n: nat, share: Lanes<real>)
    requires IsExp(e) && Inputs(x) && MaxOf(x, n).Fin?
    requires forall i :: share(i) == Share(e, x, n, i)
    ensures Total(share, n) == 1.0
  {
    TotalPositive(e, x, n);
    var total := Total(Weights(e, x), n);
    forall i
      ensures IsProduct(Weights(e, x)(i), 1.0 / total, share(i))
    {
      Reciprocal(Weights(e, x)(i), total, share(i));
    }
    TotalScaled(Weights(e, x), share, 1.0 / total, n);
    Reciprocal(total, total, 1.0);
  }

  lemma Reciprocal(p: real, q: real, r: real)
    requires q > 0.0 && r == p / q
    ensures IsProduct(p, 1.0 / q, r)
  {
  }

  // e^(a - top); nothing for a masked element.
  function Ratio(e: real -> real, a: Value, top: real): real {
    if a.Fin? then e(a.r - top) else 0.0
  }

  lemma RatioToTop(e: real -> real, a: Value, top: real)
    requires IsExp(e)
    ensures IsProduct(Ratio(e, a, top), e(top), Weight(e, a))
  {
    if a.Fin? {
      ExpAt(e, a.r, top);
    }
  }

  /** The usual shifted form is the same function: e^(x_j - max) over the sum of all e^(x_i - max). */
  lemma ShareShifted(e: real -> real, x: Lanes<Value>, n: nat, top: real, shifted: Lanes<real>, j: int)
    requires IsExp(e) && Inputs(x) && MaxOf(x, n) == Fin(top)
    requires forall i :: shifted(i) == Ratio(e, x(i), top)
    ensures Total(shifted, n) > 0.0
    ensures Share(e, x, n, j) == shifted(j) / Total(shifted, n)
  {
    ShiftedPositive(e, x, n, top, shifted);
    RatioToTop(e, x(j), top);
    CommonFactor(shifted(j), Total(shifted, n), e(top), Weight(e, x(j)), Total(Weights(e, x), n));
  }

  lemma CommonFactor(p: real, q: real, u: real, pu: real, qu: real)
    requires q > 0.0 && u > 0.0 && qu > 0.0 && IsProduct(p, u, pu) && IsProduct(q, u, qu)
    ensures pu / qu == p / q
  {
    var r := p / q;
    assert p == r * q;
    assert p * u == r * (q * u);
  }

  lemma ShiftedPositive(e: real -> real, x: Lanes<Value>, n: nat, top: real, shifted: Lanes<real>)
    requires IsExp(e) && Inputs(x) && MaxOf(x, n) == Fin(top)
    requires forall i :: shifted(i) == Ratio(e, x(i), top)
    ensures IsProduct(Total(shifted, n), e(top), Total(Weights(e, x), n))
    ensures Total(Weights(e, x), n) > 0.0 && Total(shifted, n) > 0.0
  {
    TotalPositive(e, x, n);
    ShiftedTotal(e, x, n, top, shifted);
    SignOfProduct(Total(shifted, n), e(top), Total(Weights(e, x), n));
  }

  lemma ShiftedTotal(e: real -> real, x: Lanes<Value>, n: nat, top: real, shifted: Lanes<real>)
    requires IsExp(e) && forall i :: shifted(i) == Ratio(e, x(i), top)
    ensures IsProduct(Total(shifted, n), e(top), Total(Weights(e, x), n))
  {
    forall i | 0 <= i < n
      ensures IsProduct(shifted(i), e(top), Weights(e, x)(i))
    {
      RatioToTop(e, x(i), top);
    }
    TotalScaled(shifted, Weights(e, x), e(top), n);
  }

  lemma SignOfProduct(u: real, v: real, uv: real)
    requires IsProduct(u, v, uv) && uv > 0.0 && v > 0.0
    ensures u > 0.0
  {
  }

  lemma {:induction false} TotalScaled(f: Lanes<real>, h: Lanes<real>, u: real, n: nat)
    requires forall i :: 0 <= i < n ==> IsProduct(f(i), u, h(i))
    ensures IsProduct(Total(f, n), u, Total(h, n))
  {
    if n > 0 {
      TotalScaled(f, h, u, n - 1);
      assert IsProduct(f(n - 1), u, h(n - 1));
      Distribute(Total(f, n - 1), f(n - 1), u);
    }
  }

  lemma Distribute(p: real, q: real, u: real)
    ensures (p + q) * u == p * u + q * u
  {
  }

  // ---- the online pass

  // One lane after some of its elements: m is their maximum and z the sum of their e^(x - m); a lane
  // that has met +inf is NaN for good.
  predicate LaneOk(m: Value, z: Value) {
    match m
    case NegInf => z == Fin(0.0)
    case Fin(_) => z.Fin?
    case PosInf => z.NaN?
    case NaN => false
  }

  // What the lane's elements weigh, whatever its current maximum.
  function Mass(e: real -> real, m: Value, z: Value): real {
    if m.Fin? && z.Fin? then z.r * e(m.r) else 0.0
  }

  function Masses(e: real -> real, m: Lanes<Value>, z: Lanes<Value>): Lanes<real> {
    c => Mass(e, m(c), z(c))
  }

  // Line 70 for one lane.
  function NextZ(e: real -> real, m: Value, z: Value, x: Value): Value {
    var mNew := Max(m, x);
    if mNew.NegInf? then z
    else Add(Mul(z, Exp(e, Sub(m, mNew))), Exp(e, Sub(x, mNew)))
  }

  // Below +inf, a step is an ordinary sum of products.
  lemma NextZIs(e: real -> real, m: Value, z: real, x: Value, top: real)
    requires LaneOk(m, Fin(z)) && !x.NaN? && Max(m, x) == Fin(top)
    ensures NextZ(e, m, Fin(z), x) == Fin(z * Ratio(e, m, top) + Ratio(e, x, top))
  {
  }

  lemma Rescaled(z: real, p: real, q: real, scale: real, wp: real, wq: real)
    requires IsProduct(p, scale, wp) && IsProduct(q, scale, wq)
    ensures (z * p + q) * scale == z * wp + wq
  {
    assert (z * p + q) * scale == z * (p * scale) + q * scale;
  }

  lemma LaneStepMass(e: real -> real, m: Value, z: real, x: Value, top: real, next: real)
    requires IsExp(e) && LaneOk(m, Fin(z)) && !x.NaN? && Max(m, x) == Fin(top)
    requires NextZ(e, m, Fin(z), x) == Fin(next)
    ensures next * e(top) == z * Weight(e, m) + Weight(e, x)
  {
    NextZIs(e, m, z, x, top);
    RatioToTop(e, m, top);
    RatioToTop(e, x, top);
    Rescaled(z, Ratio(e, m, top), Ratio(e, x, top), e(top), Weight(e, m), Weight(e, x));
  }

  /** One online step keeps the lane's meaning: its mass grows by exactly the new element's weight. */
  lemma LaneStep(e: real -> real, m: Value, z: Value, x: Value)
    requires IsExp(e) && LaneOk(m, z) && !x.NaN?
    ensures LaneOk(Max(m, x), NextZ(e, m, z, x))
    ensures !Max(m, x).PosInf? ==> Mass(e, Max(m, x), NextZ(e, m, z, x)) == Mass(e, m, z) + Weight(e, x)
  {
    if Max(m, x).Fin? {
      NextZIs(e, m, z.r, x, Max(m, x).r);
      LaneStepMass(e, m, z.r, x, Max(m, x).r, NextZ(e, m, z, x).r);
    }
  }

  // The lanes after the elements before `start`.
  ghost predicate Online(e: real -> real, x: Lanes<Value>, start: nat, m: Lanes<Value>, z: Lanes<Value>, tile: nat) {
    && Inputs(m)
    && (forall c :: 0 <= c < tile ==> LaneOk(m(c), z(c)))
    && MaxOf(m, tile) == MaxOf(x, start)
    && (!MaxOf(m, tile).PosInf? ==> Total(Masses(e, m, z), tile) == Total(Weights(e, x), start))
  }

  lemma OnlineStart(e: real -> real, x: Lanes<Value>, m: Lanes<Value>, z: Lanes<Value>, tile: nat)
    requires forall c :: m(c) == NegInf && z(c) == Fin(0.0)
    ensures Online(e, x, 0, m, z, tile)
  {
    MaxTail(m, 0, tile);
    TotalTail(Masses(e, m, z), 0, tile);
  }

  lemma MaxPosInf(f: Lanes<Value>, n: nat, i: nat)
    requires Inputs(f) && i < n && f(i).PosInf?
    ensures MaxOf(f, n).PosInf?
  {
    MaxBounds(f, n, i);
  }

  /** One tile of the online pass. */
  lemma OnlineStep(e: real -> real, x: Lanes<Value>, start: nat, inp: Lanes<Value>, tile: nat,
                   m: Lanes<Value>, z: Lanes<Value>, mNew: Lanes<Value>, zNew: Lanes<Value>)
    requires IsExp(e) && Inputs(x) && Inputs(inp) && Online(e, x, start, m, z, tile)
    requires forall c :: 0 <= c < tile ==> inp(c) == x(start + c)
    requires forall c :: mNew(c) == Max(m(c), inp(c)) && zNew(c) == NextZ(e, m(c), z(c), inp(c))
    ensures Online(e, x, start + tile, mNew, zNew, tile)
  {
    forall c
      ensures !mNew(c).NaN?
    {
      MaxLaws(m(c), inp(c), NegInf);
    }
    MaxMerge(m, inp, mNew, tile);
    MaxShift(x, inp, start, tile);
    forall c | 0 <= c < tile
      ensures LaneOk(mNew(c), zNew(c))
      ensures !MaxOf(mNew, tile).PosInf? ==>
                Mass(e, mNew(c), zNew(c)) == Mass(e, m(c), z(c)) + Weight(e, inp(c))
    {
      LaneStep(e, m(c), z(c), inp(c));
      if mNew(c).PosInf? {
        MaxPosInf(mNew, tile, c);
      }
    }
    if !MaxOf(mNew, tile).PosInf? {
      TotalPlus(Masses(e, m, z), Weights(e, inp), Masses(e, mNew, zNew), tile);
      TotalShift(Weights(e, x), Weights(e, inp), start, tile);
    }
  }

  // ---- the lane merge (lines 73-75)

  // One lane's part of the merged sum.
  function Part(e: real -> real, m: Value, z: Value, top: Value): Value {
    Mul(z, Exp(e, Sub(m, top)))
  }

  lemma {:induction false} SumNaN(f: Lanes<Value>, n: nat, i: nat)
    requires i < n && f(i).NaN?
    ensures SumOf(f, n).NaN?
  {
    if i < n - 1 {
      SumNaN(f, n - 1, i);
    }
  }

  // A value that is `weight` relative to the maximum, or NaN when that maximum is no number.
  predicate Relative(e: real -> real, top: Value, v: Value, weight: real) {
    if top.Fin? then v.Fin? && v.r * e(top.r) == weight else v.NaN?
  }

  lemma PartMass(e: real -> real, m: Value, z: Value, top: real)
    requires IsExp(e) && LaneOk(m, z) && Le(m, Fin(top))
    ensures Relative(e, Fin(top), Part(e, m, z, Fin(top)), Mass(e, m, z))
  {
    if m.Fin? {
      ExpAt(e, m.r, top);
      Scaled(z.r, e(m.r - top), e(top), e(m.r));
    }
  }

  lemma Scaled(z: real, p: real, scale: real, w: real)
    requires p * scale == w
    ensures z * p * scale == z * w
  {
  }

  lemma {:induction false} SumRelative(e: real -> real, top: real, parts: Lanes<Value>, masses: Lanes<real>, n: nat)
    requires forall c :: 0 <= c < n ==> Relative(e, Fin(top), parts(c), masses(c))
    ensures Relative(e, Fin(top), SumOf(parts, n), Total(masses, n))
  {
    if n > 0 {
      SumRelative(e, top, parts, masses, n - 1);
      assert Relative(e, Fin(top), parts(n - 1), masses(n - 1));
      Distribute(SumOf(parts, n - 1).r, parts(n - 1).r, e(top));
    }
  }

  /** The merge of the lanes: the whole weight, relative to the maximum of the lanes' maxima. */
  lemma MergeLanes(e: real -> real, m: Lanes<Value>, z: Lanes<Value>, tile: nat, parts: Lanes<Value>)
    requires IsExp(e) && Inputs(m) && tile > 0
    requires forall c :: 0 <= c < tile ==> LaneOk(m(c), z(c))
    requires forall c :: parts(c) == Part(e, m(c), z(c), MaxOf(m, tile))
    ensures Relative(e, MaxOf(m, tile), SumOf(parts, tile), Total(Masses(e, m, z), tile))
  {
    var top := MaxOf(m, tile);
    if top.Fin? {
      forall c | 0 <= c < tile
        ensures Relative(e, Fin(top.r), parts(c), Masses(e, m, z)(c))
      {
        MaxBounds(m, tile, c);
        PartMass(e, m(c), z(c), top.r);
      }
      SumRelative(e, top.r, parts, Masses(e, m, z), tile);
    } else {
      MaxNumber(m, tile);
      var c := MaxAttained(m, tile);
      SumNaN(parts, tile, c);
    }
  }

  // ---- outputs

  /** Dividing by the merged sum gives the definition, defined or not. */
  lemma OutputIsSoftmax(e: real -> real, x: Lanes<Value>, n: nat, z: Value, j: nat)
    requires IsExp(e) && Inputs(x) && j < n
    requires Relative(e, MaxOf(x, n), z, Total(Weights(e, x), n))
    ensures Div(Exp(e, Sub(x(j), MaxOf(x, n))), z) == SoftmaxOf(e, x, n, j)
  {
    var top := MaxOf(x, n);
    if top.Fin? {
      TotalPositive(e, x, n);
      MaxBounds(x, n, j);
      var total := Total(Weights(e, x), n);
      SignOfProduct(z.r, e(top.r), total);
      RatioToTop(e, x(j), top.r);
      CommonFactor(Ratio(e, x(j), top.r), z.r, e(top.r), Weight(e, x(j)), total);
    }
  }

  lemma WeightToTop(e: real -> real, a: Value, top: real)
    requires IsExp(e) && !a.NaN? && Le(a, Fin(top))
    ensures Relative(e, Fin(top), Exp(e, Sub(a, Fin(top))), Weight(e, a))
  {
    RatioToTop(e, a, top);
  }

  // The one-tile sum: every lane's exponential is taken against the maximum straight away.
  lemma OneTileSum(e: real -> real, x: Lanes<Value>, n: nat, inp: Lanes<Value>, tile: nat, es: Lanes<Value>)
    requires IsExp(e) && Inputs(x) && 0 < tile && n <= tile
    requires forall c :: inp(c) == if 0 <= c < n then x(c) else NegInf
    requires forall c :: es(c) == Exp(e, Sub(inp(c), MaxOf(inp, tile)))
    ensures MaxOf(inp, tile) == MaxOf(x, n)
    ensures Relative(e, MaxOf(x, n), SumOf(es, tile), Total(Weights(e, x), n))
  {
    MaxTail(inp, n, tile);
    MaxAgree(inp, x, n);
    TotalTail(Weights(e, inp), n, tile);
    TotalAgree(Weights(e, inp), Weights(e, x), n);
    var top := MaxOf(inp, tile);
    if top.Fin? {
      forall c | 0 <= c < tile
        ensures Relative(e, Fin(top.r), es(c), Weights(e, inp)(c))
      {
        MaxBounds(inp, tile, c);
        WeightToTop(e, inp(c), top.r);
      }
      SumRelative(e, top.r, es, Weights(e, inp), tile);
    } else {
      MaxNumber(inp, tile);
      var c := MaxAttained(inp, tile);
      SumNaN(es, tile, c);
    }
  }

  lemma {:induction false} MaxAgree(f: Lanes<Value>, g: Lanes<Value>, n: nat)
    requires forall i :: 0 <= i < n ==> f(i) == g(i)
    ensures MaxOf(f, n) == MaxOf(g, n)
  {
    if n > 0 {
      MaxAgree(f, g, n - 1);
    }
  }

  // ---- the kernel

  // The n values a program works on; -inf where there are none.
  function Row(mem: seq<Value>, base: nat, n: nat): (x: Lanes<Value>)
    requires base + n <= |mem|
    ensures forall i :: x(i) == if 0 <= i < n then mem[base + i] else NegInf
  {
    i => if 0 <= i < n then mem[base + i] else NegInf
  }

  // tl.load of one tile with mask and other=-inf.
  function Load(mem: seq<Value>, base: nat, n: nat, start: nat): (v: Lanes<Value>)
    requires base + n <= |mem|
    ensures forall c :: v(c) == if 0 <= c && start + c < n then mem[base + (start + c)] else NegInf
  {
    c => if 0 <= c && start + c < n then mem[base + (start + c)] else NegInf
  }

  ghost predicate RowOfNumbers(mem: seq<Value>, base: nat, n: nat) {
    base + n <= |mem| && forall i :: base <= i < base + n ==> !mem[i].NaN?
  }

  // tl.store of one tile, masked.
  method StoreTile(out: array<Value>, base: nat, n: nat, start: nat, tile: nat, v: Lanes<Value>)
    requires base + n <= out.Length
    modifies out
    ensures forall k :: base + start <= k < base + start + tile && k < base + n ==> out[k] == v(k - base - start)
    ensures forall k :: 0 <= k < out.Length && !(base + start <= k < base + start + tile && k < base + n)
                        ==> out[k] == old(out[k])
  {
    forall c | 0 <= c < tile && start + c < n {
      out[base + start + c] := v(c);
    }
    forall k | base + start <= k < base + start + tile && k < base + n
      ensures out[k] == v(k - base - start)
    {
      var c := k - base - start;
      assert out[base + start + c] == v(c);
    }
  }

  /** Lines 48-56. */
  method OneTile(e: real -> real, mem: seq<Value>, inBase: nat, out: array<Value>, outBase: nat, n: nat, tile: nat)
    requires IsExp(e) && RowOfNumbers(mem, inBase, n) && outBase + n <= out.Length
    requires 0 < tile && n <= tile
    modifies out
    ensures forall k :: outBase <= k < outBase + n ==> out[k] == SoftmaxOf(e, Row(mem, inBase, n), n, k - outBase)
    ensures forall k :: 0 <= k < out.Length && !(outBase <= k < outBase + n) ==> out[k] == old(out[k])
  {
    ghost var x := Row(mem, inBase, n);
    var inp := Load(mem, inBase, n, 0);
    var m := MaxOf(inp, tile);
    var es: Lanes<Value> := c => Exp(e, Sub(inp(c), m));
    var z := SumOf(es, tile);
    var o: Lanes<Value> := c => Div(es(c), z);
    StoreTile(out, outBase, n, 0, tile, o);
    OneTileSum(e, x, n, inp, tile, es);
    forall k | outBase <= k < outBase + n
      ensures out[k] == SoftmaxOf(e, x, n, k - outBase)
    {
      OutputIsSoftmax(e, x, n, z, k - outBase);
    }
  }

  /** Lines 59-75: after the first pass, m is the row's maximum and z its weight relative to it. */
  method OnlinePass(e: real -> real, mem: seq<Value>, base: nat, n: nat, tile: nat) returns (m: Value, z: Value)
    requires IsExp(e) && RowOfNumbers(mem, base, n) && tile > 0
    ensures m == MaxOf(Row(mem, base, n), n)
    ensures Relative(e, m, z, Total(Weights(e, Row(mem, base, n)), n))
  {
    ghost var x := Row(mem, base, n);
    var ms: Lanes<Value> := c => NegInf;
    var zs: Lanes<Value> := c => Fin(0.0);
    OnlineStart(e, x, ms, zs, tile);
    var start := 0;
    while start < n
      invariant 0 <= start && Online(e, x, start, ms, zs, tile)
    {
      var inp := Load(mem, base, n, start);
      var mOld, zOld := ms, zs;
      ms := c => Max(mOld(c), inp(c));
      zs := c => NextZ(e, mOld(c), zOld(c), inp(c));
      OnlineStep(e, x, start, inp, tile, mOld, zOld, ms, zs);
      start := start + tile;
    }
    m := MaxOf(ms, tile);
    var parts: Lanes<Value> := c => Part(e, ms(c), zs(c), m);
    z := SumOf(parts, tile);
    PassDone(e, x, n, start, ms, zs, tile, parts);
  }

  lemma PassDone(e: real -> real, x: Lanes<Value>, n: nat, upto: nat, m: Lanes<Value>, z: Lanes<Value>, tile: nat,
                 parts: Lanes<Value>)
    requires IsExp(e) && Inputs(x) && tile > 0 && Online(e, x, upto, m, z, tile)
    requires n <= upto && forall i :: n <= i < upto ==> x(i) == NegInf
    requires forall c :: parts(c) == Part(e, m(c), z(c), MaxOf(m, tile))
    ensures MaxOf(m, tile) == MaxOf(x, n)
    ensures Relative(e, MaxOf(x, n), SumOf(parts, tile), Total(Weights(e, x), n))
  {
    MergeLanes(e, m, z, tile, parts);
    MaxTail(x, n, upto);
    TotalTail(Weights(e, x), n, upto);
  }

  /** Lines 57-83. */
  method MultiPass(e: real -> real, mem: seq<Value>, inBase: nat, out: array<Value>, outBase: nat, n: nat, tile: nat)
    requires IsExp(e) && RowOfNumbers(mem, inBase, n) && outBase + n <= out.Length && tile > 0
    modifies out
    ensures forall k :: outBase <= k < outBase + n ==> out[k] == SoftmaxOf(e, Row(mem, inBase, n), n, k - outBase)
    ensures forall k :: 0 <= k < out.Length && !(outBase <= k < outBase + n) ==> out[k] == old(out[k])
  {
    ghost var x := Row(mem, inBase, n);
    var m, z := OnlinePass(e, mem, inBase, n, tile);
    var start := 0;
    while start < n
      invariant 0 <= start
      invariant forall k :: outBase <= k < outBase + n && k < outBase + start ==>
                  out[k] == SoftmaxOf(e, x, n, k - outBase)
      invariant forall k :: 0 <= k < out.Length && !(outBase <= k < outBase + n) ==> out[k] == old(out[k])
    {
      var inp := Load(mem, inBase, n, start);
      var o: Lanes<Value> := c => Div(Exp(e, Sub(inp(c), m)), z);
      StoreTile(out, outBase, n, start, tile, o);
      forall k | outBase + start <= k < outBase + start + tile && k < outBase + n
        ensures out[k] == SoftmaxOf(e, x, n, k - outBase)
      {
        OutputIsSoftmax(e, x, n, z, k - outBase);
      }
      start := start + tile;
    }
  }

  /** The kernel for row `pid`: both forms compute the definition, and no output outside the row's
      n elements changes. The launcher asks for one tile only when the row fits (softmax_op.cpp, 77). */
  method Kernel(e: real -> real, mem: seq<Value>, out: array<Value>, pid: nat, n: nat,
                inputRowStride: nat, outputRowStride: nat, tile: nat, oneTilePerCta: bool)
    requires IsExp(e) && RowOfNumbers(mem, pid * inputRowStride, n) && pid * outputRowStride + n <= out.Length
    requires 0 < tile && (oneTilePerCta ==> n <= tile)
    modifies out
    ensures forall k :: pid * outputRowStride <= k < pid * outputRowStride + n ==>
              out[k] == SoftmaxOf(e, Row(mem, pid * inputRowStride, n), n, k - pid * outputRowStride)
    ensures forall k :: 0 <= k < out.Length && !(pid * outputRowStride <= k < pid * outputRowStride + n)
                        ==> out[k] == old(out[k])
  {
    var inBase, outBase := pid * inputRowStride, pid * outputRowStride;
    if oneTilePerCta {
      OneTile(e, mem, inBase, out, outBase, n, tile);
    } else {
      MultiPass(e, mem, inBase, out, outBase, n, tile);
    }
  }

  // ---- the launch

  // The n outputs from outBase on are the softmax of the n inputs from inBase on.
  ghost predicate RowDone(e: real -> real, mem: seq<Value>, inBase: nat, out: seq<Value>, outBase: nat, n: nat)
    requires IsExp(e)
  {
    && RowOfNumbers(mem, inBase, n) && outBase + n <= |out|
    && forall k :: outBase <= k < outBase + n ==> out[k] == SoftmaxOf(e, Row(mem, inBase, n), n, k - outBase)
  }

  // The rows of one launch.
  datatype Rows = Rows(count: nat, n: nat, inputStride: nat, outputStride: nat) {
    function In(pid: nat): (base: nat)
      ensures base == pid * inputStride
    {
      MulMono(0, pid, inputStride);
      pid * inputStride
    }

    function Out(pid: nat): (base: nat)
      ensures base == pid * outputStride
    {
      MulMono(0, pid, outputStride);
      pid * outputStride
    }

    predicate InRow(k: int, pid: nat) {
      Out(pid) <= k < Out(pid) + n
    }

    predicate OutsideRows(k: int) {
      forall pid: nat :: pid < count ==> !InRow(k, pid)
    }

    ghost predicate Valid(mem: seq<Value>, length: nat) {
      n <= outputStride
      && forall pid: nat :: pid < count ==> RowOfNumbers(mem, In(pid), n) && Out(pid) + n <= length
    }
  }

  lemma RowsApart(g: Rows, k: int, p: nat, q: nat)
    requires g.n <= g.outputStride && p != q && g.InRow(k, p)
    ensures !g.InRow(k, q)
  {
    if p < q {
      MulMono(p + 1, q, g.outputStride);
    } else {
      MulMono(q + 1, p, g.outputStride);
    }
  }

  lemma RowStays(e: real -> real, mem: seq<Value>, g: Rows, before: seq<Value>, after: seq<Value>, p: nat, pid: nat)
    requires IsExp(e) && RowDone(e, mem, g.In(p), before, g.Out(p), g.n)
    requires p != pid && g.n <= g.outputStride && |after| == |before|
    requires forall k :: 0 <= k < |after| && !g.InRow(k, pid) ==> after[k] == before[k]
    ensures RowDone(e, mem, g.In(p), after, g.Out(p), g.n)
  {
    forall k | g.Out(p) <= k < g.Out(p) + g.n
      ensures after[k] == before[k]
    {
      assert g.InRow(k, p);
      RowsApart(g, k, p, pid);
    }
  }

  // One row of the launch.
  method LaunchRow(e: real -> real, mem: seq<Value>, out: array<Value>, g: Rows, tile: nat, oneTilePerCta: bool,
                   pid: nat)
    requires IsExp(e) && 0 < tile && (oneTilePerCta ==> g.n <= tile) && g.Valid(mem, out.Length) && pid < g.count
    modifies out
    ensures RowDone(e, mem, g.In(pid), out[..], g.Out(pid), g.n)
    ensures forall k :: 0 <= k < out.Length && !g.InRow(k, pid) ==> out[k] == old(out[k])
  {
    assert RowOfNumbers(mem, g.In(pid), g.n);
    Kernel(e, mem, out, pid, g.n, g.inputStride, g.outputStride, tile, oneTilePerCta);
  }

  // The rows in `done` are computed, and memory outside all rows is as it was.
  ghost predicate Computed(e: real -> real, mem: seq<Value>, g: Rows, before: seq<Value>, after: seq<Value>,
                           done: set<nat>)
    requires IsExp(e)
  {
    && g.Valid(mem, |before|) && |after| == |before|
    && (forall p :: p in done ==> p < g.count && RowDone(e, mem, g.In(p), after, g.Out(p), g.n))
    && (forall k :: 0 <= k < |after| && g.OutsideRows(k) ==> after[k] == before[k])
  }

  lemma ComputedNext(e: real -> real, mem: seq<Value>, g: Rows, start: seq<Value>, before: seq<Value>,
                     after: seq<Value>,
                     done: set<nat>, pid: nat)
    requires IsExp(e) && Computed(e, mem, g, start, before, done) && |after| == |before| && pid < g.count
    requires RowDone(e, mem, g.In(pid), after, g.Out(pid), g.n)
    requires forall k :: 0 <= k < |after| && !g.InRow(k, pid) ==> after[k] == before[k]
    ensures Computed(e, mem, g, start, after, done + {pid})
  {
    forall p | p in done && p != pid
      ensures RowDone(e, mem, g.In(p), after, g.Out(p), g.n)
    {
      assert RowOfNumbers(mem, g.In(p), g.n);
      RowStays(e, mem, g, before, after, p, pid);
    }
  }

  /** The launch, rows in any order: every row's outputs are its softmax, and memory outside the rows does
      not change. */
  method Launch(e: real -> real, mem: seq<Value>, out: array<Value>, g: Rows, tile: nat, oneTilePerCta: bool,
                order: seq<nat>)
    requires IsExp(e) && 0 < tile && (oneTilePerCta ==> g.n <= tile) && g.Valid(mem, out.Length)
    requires forall pid: nat :: pid in order <==> pid < g.count
    modifies out
    ensures forall pid: nat :: pid < g.count ==> RowDone(e, mem, g.In(pid), out[..], g.Out(pid), g.n)
    ensures forall k :: 0 <= k < out.Length && g.OutsideRows(k) ==> out[k] == old(out[k])
  {
    ghost var done: set<nat> := {};
    for t := 0 to |order|
      invariant forall i :: 0 <= i < t ==> order[i] in done
      invariant Computed(e, mem, g, old(out[..]), out[..], done)
    {
      ghost var before := out[..];
      assert order[t] in order;
      LaunchRow(e, mem, out, g, tile, oneTilePerCta, order[t]);
      ComputedNext(e, mem, g, old(out[..]), before, out[..], done, order[t]);
      done := done + {order[t]};
    }
    forall pid: nat | pid < g.count
      ensures RowDone(e, mem, g.In(pid), out[..], g.Out(pid), g.n)
    {
      assert pid in order;
    }
  }
}
