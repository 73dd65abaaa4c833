/** Value-level model of the numpy arrays that the two simulation scripts move around.
    A population field is indexed [direction][x][y]; a plane is one [x][y] slice of it;
    a mask is a boolean [x][y] array. The operations here are the array expressions the
    scripts evaluate (masked selection, roll, elementwise arithmetic) over exact reals. */
module Grid {

  type Plane = seq<seq<real>>
  type Field = seq<Plane>
  type Mask = seq<seq<bool>>

  // ---------------------------------------------------------------- shapes

  predicate IsPlane(p: Plane, nx: nat, ny: nat) {
    |p| == nx && forall x :: 0 <= x < nx ==> |p[x]| == ny
  }

  predicate IsMask(m: Mask, nx: nat, ny: nat) {
    |m| == nx && forall x :: 0 <= x < nx ==> |m[x]| == ny
  }

  /** A q x nx x ny array. */
  predicate IsField(f: Field, q: nat, nx: nat, ny: nat) {
    |f| == q && forall i :: 0 <= i < q ==> IsPlane(f[i], nx, ny)
  }

  /** The plane has the same row lengths as the mask, so the mask can select from it. */
  predicate Fits(p: Plane, m: Mask) {
    |p| == |m| && forall x :: 0 <= x < |m| ==> |p[x]| == |m[x]|
  }

  predicate FieldFits(f: Field, m: Mask) {
    forall i :: 0 <= i < |f| ==> Fits(f[i], m)
  }

  /** Two fields of the same shape, as numpy elementwise arithmetic demands. */
  predicate Congruent(a: Field, b: Field) {
    && |a| == |b|
    && (forall i :: 0 <= i < |a| ==> |a[i]| == |b[i]|)
    && (forall i, x :: 0 <= i < |a| && 0 <= x < |a[i]| ==> |a[i][x]| == |b[i][x]|)
  }

  lemma FieldsFit(f: Field, m: Mask, q: nat, nx: nat, ny: nat)
    requires IsField(f, q, nx, ny) && IsMask(m, nx, ny)
    ensures FieldFits(f, m)
  {
  }

  lemma FieldsCongruent(a: Field, b: Field, q: nat, nx: nat, ny: nat)
    requires IsField(a, q, nx, ny) && IsField(b, q, nx, ny)
    ensures Congruent(a, b)
  {
  }

  /** Sequences of planes (and planes) that agree index by index are equal. */
  lemma FieldExt(a: Field, b: Field)
    requires Congruent(a, b)
    requires forall i, x, y :: 0 <= i < |a| && 0 <= x < |a[i]| && 0 <= y < |a[i][x]| ==> a[i][x][y] == b[i][x][y]
    ensures a == b
  {
    forall i | 0 <= i < |a| ensures a[i] == b[i] {
      forall x | 0 <= x < |a[i]| ensures a[i][x] == b[i][x] {
        assert forall y :: 0 <= y < |a[i][x]| ==> a[i][x][y] == b[i][x][y];
      }
    }
  }

  lemma PlaneExt(a: Plane, b: Plane)
    requires |a| == |b| && forall x :: 0 <= x < |a| ==> |a[x]| == |b[x]|
    requires forall x, y :: 0 <= x < |a| && 0 <= y < |a[x]| ==> a[x][y] == b[x][y]
    ensures a == b
  {
    forall x | 0 <= x < |a| ensures a[x] == b[x] {
      assert forall y :: 0 <= y < |a[x]| ==> a[x][y] == b[x][y];
    }
  }

  // ---------------------------------------------------------------- constant arrays

  /** numpy.full((nx, ny), c); zeros is Full(nx, ny, 0.0). */
  function Full(nx: nat, ny: nat, c: real): (p: Plane)
    ensures IsPlane(p, nx, ny)
  {
    seq(nx, x => seq(ny, y => c))
  }

  function Zeros(q: nat, nx: nat, ny: nat): (f: Field)
    ensures IsField(f, q, nx, ny)
  {
    seq(q, i => Full(nx, ny, 0.0))
  }

  // ---------------------------------------------------------------- sums

  function Sum(s: seq<real>): real {
    if |s| == 0 then 0.0 else s[0] + Sum(s[1..])
  }

  lemma {:induction false} SumConcat(a: seq<real>, b: seq<real>)
    ensures Sum(a + b) == Sum(a) + Sum(b)
  {
    if |a| == 0 {
      assert a + b == b;
    } else {
      assert (a + b)[1..] == a[1..] + b;
      SumConcat(a[1..], b);
    }
  }

  function Reverse<T>(s: seq<T>): (r: seq<T>)
    ensures |r| == |s|
  {
    seq(|s|, i requires 0 <= i < |s| => s[|s| - 1 - i])
  }

  /** Reading a sequence back to front does not change its sum. */
  lemma {:induction false} SumReverse(s: seq<real>)
    ensures Sum(Reverse(s)) == Sum(s)
  {
    if |s| > 0 {
      assert Reverse(s) == Reverse(s[1..]) + [s[0]];
      SumConcat(Reverse(s[1..]), [s[0]]);
      SumReverse(s[1..]);
    }
  }

  /** Sum of all entries of a plane, row by row. */
  function PlaneSum(p: Plane): real {
    Sum(RowSums(p))
  }

  function RowSums(p: Plane): (r: seq<real>)
    ensures |r| == |p|
  {
    seq(|p|, x requires 0 <= x < |p| => Sum(p[x]))
  }

  /** Sum of all populations of a field, plane by plane. */
  function Total(f: Field): real {
    Sum(PlaneSums(f))
  }

  function PlaneSums(f: Field): (r: seq<real>)
    ensures |r| == |f|
  {
    seq(|f|, i requires 0 <= i < |f| => PlaneSum(f[i]))
  }

  /** The populations of all directions at one node. */
  function NodeColumn(f: Field, x: nat, y: nat): (c: seq<real>)
    requires forall i :: 0 <= i < |f| ==> x < |f[i]| && y < |f[i][x]|
    ensures |c| == |f|
  {
    seq(|f|, i requires 0 <= i < |f| && x < |f[i]| && y < |f[i][x]| => f[i][x][y])
  }

  // ---------------------------------------------------------------- periodic shifts

  /** Index arithmetic modulo n: numpy.roll's wrap-around (a non-negative remainder, as in Python). */
  function Wrap(z: int, n: nat): (r: nat)
    requires n > 0
    ensures r < n
  {
    z % n
  }

  lemma MulAtLeast(d: int, n: nat)
    requires d >= 1
    ensures d * n >= n
  {
  }

  lemma WrapUnique(z: int, n: nat, q: int, r: int)
    requires n > 0 && 0 <= r < n && z == q * n + r
    ensures Wrap(z, n) == r
  {
    var q', r' := z / n, z % n;
    assert z == q' * n + r';
    var d := q' - q;
    assert d * n == r - r';
    if d > 0 {
      MulAtLeast(d, n);
    } else if d < 0 {
      MulAtLeast(-d, n);
    }
  }

  lemma WrapPlusMultiple(z: int, c: int, n: nat)
    requires n > 0
    ensures Wrap(z + c * n, n) == Wrap(z, n)
  {
    var q, r := z / n, z % n;
    assert z == q * n + r;
    assert z + c * n == (q + c) * n + r;
    WrapUnique(z + c * n, n, q + c, r);
  }

  lemma WrapOfWrap(z: int, a: int, n: nat)
    requires n > 0
    ensures Wrap(Wrap(z, n) - a, n) == Wrap(z - a, n)
  {
    var q := z / n;
    assert z == q * n + z % n;
    assert Wrap(z, n) - a == (z - a) + (-q) * n;
    WrapPlusMultiple(z - a, -q, n);
  }

  lemma WrapSmall(z: int, n: nat)
    requires 0 <= z < n
    ensures Wrap(z, n) == z
  {
    WrapUnique(z, n, 0, z);
  }

  /** numpy.roll of a one-dimensional sequence by k: element j of the result is element j - k, cyclically. */
  function Rot<T>(s: seq<T>, k: int): (r: seq<T>)
    ensures |r| == |s|
  {
    seq(|s|, j requires 0 <= j < |s| => s[Wrap(j - k, |s|)])
  }

  /** Rolling by a, then by b, is rolling by a + b. */
  lemma RotRot<T>(s: seq<T>, a: int, b: int)
    ensures Rot(Rot(s, a), b) == Rot(s, a + b)
  {
    forall j | 0 <= j < |s| ensures Rot(Rot(s, a), b)[j] == Rot(s, a + b)[j] {
      WrapOfWrap(j - b, a, |s|);
    }
  }

  /** Rolling by a whole number of turns changes nothing. */
  lemma RotFullTurns<T>(s: seq<T>, c: int)
    ensures Rot(s, c * |s|) == s
  {
    var n := |s|;
    forall j | 0 <= j < n ensures Rot(s, c * n)[j] == s[j] {
      WrapFullTurns(j, c, n);
    }
  }

  lemma WrapFullTurns(j: int, c: int, n: nat)
    requires 0 <= j < n
    ensures Wrap(j - c * n, n) == j
  {
    assert j - c * n == j + (-c) * n;
    WrapPlusMultiple(j, -c, n);
    WrapSmall(j, n);
  }

  /** A roll is the concatenation of two slices (so it keeps every element once). */
  lemma {:induction false} RotSplit<T>(s: seq<T>, k: int)
    requires |s| > 0
    ensures Rot(s, k) == s[Wrap(-k, |s|)..] + s[..Wrap(-k, |s|)]
  {
    var n := |s|;
    var m := Wrap(-k, n);
    var q := (-k) / n;
    assert -k == q * n + m;
    forall j | 0 <= j < n ensures Rot(s, k)[j] == (s[m..] + s[..m])[j] {
      if j < n - m {
        assert j - k == (j + m) + q * n;
        WrapPlusMultiple(j + m, q, n);
        WrapSmall(j + m, n);
      } else {
        assert j - k == (j + m - n) + (q + 1) * n;
        WrapPlusMultiple(j + m - n, q + 1, n);
        WrapSmall(j + m - n, n);
      }
    }
  }

  /** Rolling a sequence of reals keeps its sum. */
  lemma {:induction false} SumRot(s: seq<real>, k: int)
    ensures Sum(Rot(s, k)) == Sum(s)
  {
    if |s| > 0 {
      var m := Wrap(-k, |s|);
      RotSplit(s, k);
      SumConcat(s[m..], s[..m]);
      assert s == s[..m] + s[m..];
      SumConcat(s[..m], s[m..]);
    }
  }

  /** Periodic translation of a plane by (dx, dy): entry [x][y] of the result is entry
      [(x - dx) mod nx][(y - dy) mod ny] of p. */
  function Shift(p: Plane, dx: int, dy: int): (r: Plane)
    ensures |r| == |p|
  {
    seq(|p|, x requires 0 <= x < |p| => Rot(p[Wrap(x - dx, |p|)], dy))
  }

  lemma ShiftShape(p: Plane, dx: int, dy: int, nx: nat, ny: nat)
    requires IsPlane(p, nx, ny)
    ensures IsPlane(Shift(p, dx, dy), nx, ny)
  {
    forall x | 0 <= x < nx ensures |Shift(p, dx, dy)[x]| == ny {
      assert Shift(p, dx, dy)[x] == Rot(p[Wrap(x - dx, nx)], dy);
    }
  }

  lemma ShiftAt(p: Plane, dx: int, dy: int, x: nat, y: nat, nx: nat, ny: nat)
    requires IsPlane(p, nx, ny) && x < nx && y < ny
    ensures IsPlane(Shift(p, dx, dy), nx, ny)
    ensures Shift(p, dx, dy)[x][y] == p[Wrap(x - dx, nx)][Wrap(y - dy, ny)]
  {
    ShiftShape(p, dx, dy, nx, ny);
    assert Shift(p, dx, dy)[x] == Rot(p[Wrap(x - dx, nx)], dy);
  }

  /** Two translations compose into one. */
  lemma ShiftShift(p: Plane, a: int, b: int, c: int, d: int)
    ensures Shift(Shift(p, a, b), c, d) == Shift(p, a + c, b + d)
  {
    var n := |p|;
    forall x | 0 <= x < n ensures Shift(Shift(p, a, b), c, d)[x] == Shift(p, a + c, b + d)[x] {
      WrapOfWrap(x - c, a, n);
      assert x - c - a == x - (a + c);
      RotRot(p[Wrap(x - (a + c), n)], b, d);
    }
  }

  lemma ShiftZero(p: Plane)
    ensures Shift(p, 0, 0) == p
  {
    forall x | 0 <= x < |p| ensures Shift(p, 0, 0)[x] == p[x] {
      WrapSmall(x, |p|);
      RotFullTurns(p[x], 0);
    }
  }

  /** Translation is a bijection of the grid: translating back undoes it. */
  lemma {:induction false} ShiftInverse(p: Plane, dx: int, dy: int)
    ensures Shift(Shift(p, dx, dy), -dx, -dy) == p
  {
    ShiftShift(p, dx, dy, -dx, -dy);
    ShiftZero(p);
  }

  /** Translation keeps the sum of the plane. */
  lemma {:induction false} ShiftSum(p: Plane, dx: int, dy: int)
    ensures PlaneSum(Shift(p, dx, dy)) == PlaneSum(p)
  {
    var n := |p|;
    if n > 0 {
      var r := Shift(p, dx, dy);
      forall x | 0 <= x < n ensures RowSums(r)[x] == Rot(RowSums(p), dx)[x] {
        SumRot(p[Wrap(x - dx, n)], dy);
      }
      assert RowSums(r) == Rot(RowSums(p), dx);
      SumRot(RowSums(p), dx);
    }
  }

  /** The translation applied k times. */
  function ShiftN(p: Plane, dx: int, dy: int, k: nat): Plane {
    if k == 0 then p else Shift(ShiftN(p, dx, dy, k - 1), dx, dy)
  }

  lemma {:induction false} ShiftNIsShift(p: Plane, dx: int, dy: int, k: nat)
    ensures ShiftN(p, dx, dy, k) == Shift(p, k * dx, k * dy)
  {
    if k == 0 {
      ShiftZero(p);
    } else {
      ShiftNIsShift(p, dx, dy, k - 1);
      ShiftShift(p, (k - 1) * dx, (k - 1) * dy, dx, dy);
    }
  }

  /** A purely axial translation (dy = 0) applied nx times returns every population to
      where it started; likewise dx = 0 applied ny times on a rectangular plane. */
  lemma {:induction false} ShiftPeriodX(p: Plane, dx: int)
    ensures ShiftN(p, dx, 0, |p|) == p
  {
    var n := |p|;
    ShiftNIsShift(p, dx, 0, n);
    forall x | 0 <= x < n ensures Shift(p, n * dx, 0)[x] == p[x] {
      assert x - n * dx == x + (-dx) * n;
      WrapPlusMultiple(x, -dx, n);
      WrapSmall(x, n);
      RotFullTurns(p[x], 0);
    }
  }

  lemma {:induction false} ShiftPeriodY(p: Plane, dy: int, nx: nat, ny: nat)
    requires IsPlane(p, nx, ny)
    ensures ShiftN(p, 0, dy, ny) == p
  {
    ShiftNIsShift(p, 0, dy, ny);
    forall x | 0 <= x < nx ensures Shift(p, 0, ny * dy)[x] == p[x] {
      WrapSmall(x, nx);
      assert ny * dy == dy * |p[x]|;
      RotFullTurns(p[x], dy);
    }
  }

  /** A translation by whole turns in both axes is the identity on an nx x ny plane. */
  lemma {:induction false} ShiftFullTurns(p: Plane, a: int, b: int, nx: nat, ny: nat)
    requires IsPlane(p, nx, ny)
    ensures Shift(p, a * nx, b * ny) == p
  {
    forall x | 0 <= x < nx ensures Shift(p, a * nx, b * ny)[x] == p[x] {
      assert x - a * nx == x + (-a) * nx;
      WrapPlusMultiple(x, -a, nx);
      WrapSmall(x, nx);
      assert b * ny == b * |p[x]|;
      RotFullTurns(p[x], b);
    }
  }

  /** numpy.roll(p, shift, axis) on a plane. */
  datatype Axis = Axis0 | Axis1

  function Roll(p: Plane, shift: int, axis: Axis): Plane {
    match axis
    case Axis0 => Rot(p, shift)
    case Axis1 => seq(|p|, x requires 0 <= x < |p| => Rot(p[x], shift))
  }

  /** The script's nested rolls are one translation, with the axis-0 shift as dx. */
  lemma RollsAreShift(p: Plane, sx: int, sy: int)
    ensures Roll(Roll(p, sx, Axis0), sy, Axis1) == Shift(p, sx, sy)
    ensures Roll(p, sx, Axis0) == Shift(p, sx, 0)
    ensures Roll(p, sy, Axis1) == Shift(p, 0, sy)
  {
    forall x | 0 <= x < |p| ensures Roll(p, sx, Axis0)[x] == Shift(p, sx, 0)[x] {
      RotFullTurns(p[Wrap(x - sx, |p|)], 0);
    }
    forall x | 0 <= x < |p| ensures Roll(p, sy, Axis1)[x] == Shift(p, 0, sy)[x] {
      WrapSmall(x, |p|);
    }
  }

  // ---------------------------------------------------------------- masks

  /** numpy.invert of a boolean mask. */
  function Invert(m: Mask): (r: Mask)
    ensures |r| == |m| && forall x :: 0 <= x < |m| ==> |r[x]| == |m[x]|
  {
    seq(|m|, x requires 0 <= x < |m| => seq(|m[x]|, y requires 0 <= y < |m[x]| => !m[x][y]))
  }

  /** where(k == False, open, False): open nodes that are not in k. */
  function OpenNotIn(open: Mask, k: Mask): (r: Mask)
    requires |k| == |open| && forall x :: 0 <= x < |open| ==> |k[x]| == |open[x]|
    ensures |r| == |open| && forall x :: 0 <= x < |open| ==> |r[x]| == |open[x]|
  {
    seq(|open|, x requires 0 <= x < |open| => seq(|open[x]|, y requires 0 <= y < |open[x]| => if !k[x][y] then open[x][y] else false))
  }

  function Or(a: Mask, b: Mask): (r: Mask)
    requires |b| == |a| && forall x :: 0 <= x < |a| ==> |b[x]| == |a[x]|
    ensures |r| == |a| && forall x :: 0 <= x < |a| ==> |r[x]| == |a[x]|
  {
    seq(|a|, x requires 0 <= x < |a| => seq(|a[x]|, y requires 0 <= y < |a[x]| => a[x][y] || b[x][y]))
  }

  // ---------------------------------------------------------------- elementwise updates

  /** The plane q after `q[mask] = p[mask]`. */
  function MaskedPlane(q: Plane, mask: Mask, p: Plane): (r: Plane)
    requires Fits(q, mask) && Fits(p, mask)
    ensures Fits(r, mask)
  {
    seq(|mask|, x requires 0 <= x < |mask| =>
      seq(|mask[x]|, y requires 0 <= y < |mask[x]| => if mask[x][y] then p[x][y] else q[x][y]))
  }

  /** The field f after `f[:, mask] = v[:, mask]`. */
  function Masked(f: Field, mask: Mask, v: Field): (r: Field)
    requires |v| == |f| && FieldFits(f, mask) && FieldFits(v, mask)
    ensures |r| == |f| && FieldFits(r, mask)
  {
    seq(|f|, i requires 0 <= i < |f| => MaskedPlane(f[i], mask, v[i]))
  }

  /** The field out after `for i in range(Q): out[i, mask] = src[Q-1-i, mask]`. */
  function Reflected(out: Field, src: Field, mask: Mask): (r: Field)
    requires |src| == |out| && FieldFits(out, mask) && FieldFits(src, mask)
    ensures |r| == |out| && FieldFits(r, mask)
  {
    seq(|out|, i requires 0 <= i < |out| => MaskedPlane(out[i], mask, src[|src| - 1 - i]))
  }

  /** Reflection is the masked store of the source read back to front. */
  lemma ReflectedIsMaskedReverse(out: Field, src: Field, mask: Mask, q: nat, nx: nat, ny: nat)
    requires IsField(out, q, nx, ny) && IsField(src, q, nx, ny) && IsMask(mask, nx, ny)
    ensures IsField(Reverse(src), q, nx, ny) && FieldFits(out, mask) && FieldFits(src, mask)
    ensures FieldFits(Reverse(src), mask)
    ensures Reflected(out, src, mask) == Masked(out, mask, Reverse(src))
  {
    FieldsFit(out, mask, q, nx, ny);
    FieldsFit(src, mask, q, nx, ny);
    FieldsFit(Reverse(src), mask, q, nx, ny);
  }

  /** The plane after `p[1:tubeSize+1, ny//2] = value`: the middle column ny//2 takes value on
      rows 1 through tubeSize, as far as the plane has rows (numpy clips a slice stop that lies
      past the end). */
  function Injected(p: Plane, tubeSize: nat, value: real): (r: Plane)
    ensures |r| == |p| && forall x :: 0 <= x < |p| ==> |r[x]| == |p[x]|
  {
    seq(|p|, x requires 0 <= x < |p| =>
      seq(|p[x]|, y requires 0 <= y < |p[x]| => if 1 <= x <= tubeSize && y == |p[x]| / 2 then value else p[x][y]))
  }

  /** The BGK relaxation of one population towards its equilibrium value. */
  function Relax(f: real, e: real, omega: real): real {
    f - omega * (f - e)
  }

  /** The BGK expression `fin - omega * (fin - eq)`, evaluated everywhere. */
  function Blend(fin: Field, eq: Field, omega: real): (r: Field)
    requires Congruent(fin, eq)
    ensures Congruent(r, fin)
  {
    seq(|fin|, i requires 0 <= i < |fin| =>
      seq(|fin[i]|, x requires 0 <= x < |fin[i]| =>
        seq(|fin[i][x]|, y requires 0 <= y < |fin[i][x]| =>
          Relax(fin[i][x][y], eq[i][x][y], omega))))
  }

  /** Elementwise `a + b`. */
  function Add(a: Field, b: Field): (r: Field)
    requires Congruent(a, b)
    ensures Congruent(r, a)
  {
    seq(|a|, i requires 0 <= i < |a| =>
      seq(|a[i]|, x requires 0 <= x < |a[i]| =>
        seq(|a[i][x]|, y requires 0 <= y < |a[i][x]| => a[i][x][y] + b[i][x][y])))
  }

  /** Post-collision populations of one step, node by node: a node in `reflect` gets the
      opposite direction's incoming population (bounce-back), every other node relaxes
      towards equilibrium. Nothing of the previous post-collision array enters. */
  function Collided(fin: Field, eq: Field, reflect: Mask, omega: real): (r: Field)
    requires |eq| == |fin| && FieldFits(fin, reflect) && FieldFits(eq, reflect)
    ensures |r| == |fin| && FieldFits(r, reflect)
  {
    seq(|fin|, i requires 0 <= i < |fin| =>
      seq(|reflect|, x requires 0 <= x < |reflect| =>
        seq(|reflect[x]|, y requires 0 <= y < |reflect[x]| =>
          if reflect[x][y] then fin[|fin| - 1 - i][x][y]
          else Relax(fin[i][x][y], eq[i][x][y], omega))))
  }

  /** Node (x, y) of direction i after collision: the opposite direction's incoming value
      on a reflecting node, the BGK relaxation `fin - omega * (fin - eq)` elsewhere. */
  lemma CollidedAt(fin: Field, eq: Field, reflect: Mask, omega: real, i: nat, x: nat, y: nat)
    requires |eq| == |fin| && FieldFits(fin, reflect) && FieldFits(eq, reflect)
    requires i < |fin| && x < |reflect| && y < |reflect[x]|
    ensures reflect[x][y] ==> Collided(fin, eq, reflect, omega)[i][x][y] == fin[|fin| - 1 - i][x][y]
    ensures !reflect[x][y] ==> Collided(fin, eq, reflect, omega)[i][x][y] == Relax(fin[i][x][y], eq[i][x][y], omega)
  {
  }

  lemma CollidedShape(fin: Field, eq: Field, reflect: Mask, omega: real, q: nat, nx: nat, ny: nat)
    requires IsField(fin, q, nx, ny) && IsField(eq, q, nx, ny) && IsMask(reflect, nx, ny)
    ensures FieldFits(fin, reflect) && FieldFits(eq, reflect)
    ensures IsField(Collided(fin, eq, reflect, omega), q, nx, ny)
  {
  }

  /** At a reflecting node the collided populations are the incoming ones in reverse
      direction order, so the node keeps its total (its density). */
  lemma {:induction false} CollidedKeepsNodeMass(fin: Field, eq: Field, reflect: Mask, omega: real, x: nat, y: nat)
    requires |eq| == |fin| && FieldFits(fin, reflect) && FieldFits(eq, reflect)
    requires x < |reflect| && y < |reflect[x]| && reflect[x][y]
    ensures NodeColumn(Collided(fin, eq, reflect, omega), x, y) == Reverse(NodeColumn(fin, x, y))
    ensures Sum(NodeColumn(Collided(fin, eq, reflect, omega), x, y)) == Sum(NodeColumn(fin, x, y))
  {
    var r := Collided(fin, eq, reflect, omega);
    assert NodeColumn(r, x, y) == Reverse(NodeColumn(fin, x, y));
    SumReverse(NodeColumn(fin, x, y));
  }

  /** Coverage of the fluid step: collision on `invert(bounceback)` followed by bounce-back
      on `bounceback` writes every node, so the result does not depend on `out`. */
  lemma {:induction false} FluidCoverage(out: Field, fin: Field, eq: Field, bb: Mask, omega: real)
    requires |fin| == |out| && |eq| == |out|
    requires FieldFits(out, bb) && FieldFits(fin, bb) && FieldFits(eq, bb) && Congruent(fin, eq)
    ensures Reflected(Masked(out, Invert(bb), Blend(fin, eq, omega)), fin, bb) == Collided(fin, eq, bb, omega)
  {
    var open := Invert(bb);
    assert FieldFits(out, open) && FieldFits(fin, open);
    var lhs := Reflected(Masked(out, open, Blend(fin, eq, omega)), fin, bb);
    var rhs := Collided(fin, eq, bb, omega);
    FieldExt(lhs, rhs);
  }

  /** Coverage of the tPA step: collision on open nodes outside kmask, then bounce-back on
      `bounceback`, then on `kmask`, writes every node; the result is the collision with
      reflection on `bounceback or kmask` and does not depend on `out`. */
  lemma {:induction false} TpaCoverage(out: Field, tin: Field, eq: Field, bb: Mask, kmask: Mask, omega: real)
    requires |tin| == |out| && |eq| == |out|
    requires FieldFits(out, bb) && FieldFits(tin, bb) && FieldFits(eq, bb) && Congruent(tin, eq)
    requires |kmask| == |bb| && forall x :: 0 <= x < |bb| ==> |kmask[x]| == |bb[x]|
    ensures FieldFits(out, OpenNotIn(Invert(bb), kmask)) && FieldFits(Blend(tin, eq, omega), OpenNotIn(Invert(bb), kmask))
    ensures FieldFits(out, kmask) && FieldFits(tin, kmask) && FieldFits(out, Or(bb, kmask))
    ensures Reflected(Reflected(Masked(out, OpenNotIn(Invert(bb), kmask), Blend(tin, eq, omega)), tin, bb), tin, kmask)
         == Collided(tin, eq, Or(bb, kmask), omega)
  {
    var open := OpenNotIn(Invert(bb), kmask);
    var reflect := Or(bb, kmask);
    var lhs := Reflected(Reflected(Masked(out, open, Blend(tin, eq, omega)), tin, bb), tin, kmask);
    var rhs := Collided(tin, eq, reflect, omega);
    FieldExt(lhs, rhs);
  }
}
