/** The in-place numpy statements of the scripts, on real arrays: masked slice assignment,
    whole-plane assignment, `+=`, and the slice write of the tPA injection. Each method is
    specified by the value-level function of module Grid that gives the array's new
    contents from its old ones. */
module InPlace {
  import opened Grid

  /** The contents of a q x nx x ny array as a field. */
  function FieldOf(a: array3<real>): (f: Field)
    reads a
    ensures IsField(f, a.Length0, a.Length1, a.Length2)
    ensures forall i, x, y :: 0 <= i < a.Length0 && 0 <= x < a.Length1 && 0 <= y < a.Length2 ==> f[i][x][y] == a[i, x, y]
  {
    seq(a.Length0, i requires 0 <= i < a.Length0 reads a =>
      seq(a.Length1, x requires 0 <= x < a.Length1 reads a =>
        seq(a.Length2, y requires 0 <= y < a.Length2 reads a => a[i, x, y])))
  }

  /** The contents of an nx x ny array as a plane. */
  function PlaneOf(a: array2<real>): (p: Plane)
    reads a
    ensures IsPlane(p, a.Length0, a.Length1)
    ensures forall x, y :: 0 <= x < a.Length0 && 0 <= y < a.Length1 ==> p[x][y] == a[x, y]
  {
    seq(a.Length0, x requires 0 <= x < a.Length0 reads a =>
      seq(a.Length1, y requires 0 <= y < a.Length1 reads a => a[x, y]))
  }

  /** A fresh array holding the field v (numpy creates one for every array-valued result). */
  method NewField(v: Field, q: nat, nx: nat, ny: nat) returns (a: array3<real>)
    requires IsField(v, q, nx, ny)
    ensures fresh(a) && a.Length0 == q && a.Length1 == nx && a.Length2 == ny
    ensures FieldOf(a) == v
  {
    a := new real[q, nx, ny]((i, x, y) => if 0 <= i < q && 0 <= x < nx && 0 <= y < ny then v[i][x][y] else 0.0);
    FieldExt(FieldOf(a), v);
  }

  method NewPlane(p: Plane, nx: nat, ny: nat) returns (a: array2<real>)
    requires IsPlane(p, nx, ny)
    ensures fresh(a) && a.Length0 == nx && a.Length1 == ny
    ensures PlaneOf(a) == p
  {
    a := new real[nx, ny]((x, y) => if 0 <= x < nx && 0 <= y < ny then p[x][y] else 0.0);
    PlaneExt(PlaneOf(a), p);
  }

  /** `a[i, mask] = p[mask]`: plane i takes p on the masked nodes, nothing else changes. */
  method StorePlaneMasked(a: array3<real>, i: nat, mask: Mask, p: Plane)
    requires i < a.Length0 && IsMask(mask, a.Length1, a.Length2) && IsPlane(p, a.Length1, a.Length2)
    modifies a
    ensures Fits(old(FieldOf(a))[i], mask)
    ensures FieldOf(a) == old(FieldOf(a))[i := MaskedPlane(old(FieldOf(a))[i], mask, p)]
  {
    ghost var f0 := FieldOf(a);
    for x := 0 to a.Length1
      invariant forall j, u, w :: 0 <= j < a.Length0 && 0 <= u < a.Length1 && 0 <= w < a.Length2 && (j != i || x <= u) ==>
        a[j, u, w] == f0[j][u][w]
      invariant forall u, w :: 0 <= u < x && 0 <= w < a.Length2 ==> a[i, u, w] == if mask[u][w] then p[u][w] else f0[i][u][w]
    {
      for y := 0 to a.Length2
        invariant forall j, u, w :: 0 <= j < a.Length0 && 0 <= u < a.Length1 && 0 <= w < a.Length2 && (j != i || x < u || (x == u && y <= w)) ==>
          a[j, u, w] == f0[j][u][w]
        invariant forall u, w :: 0 <= u < x && 0 <= w < a.Length2 ==> a[i, u, w] == if mask[u][w] then p[u][w] else f0[i][u][w]
        invariant forall w :: 0 <= w < y ==> a[i, x, w] == if mask[x][w] then p[x][w] else f0[i][x][w]
      {
        if mask[x][y] {
          a[i, x, y] := p[x][y];
        }
      }
    }
    FieldExt(FieldOf(a), f0[i := MaskedPlane(f0[i], mask, p)]);
  }

  /** `a[i, :, :] = p`: plane i is replaced, nothing else changes. */
  method StorePlane(a: array3<real>, i: nat, p: Plane)
    requires i < a.Length0 && IsPlane(p, a.Length1, a.Length2)
    modifies a
    ensures FieldOf(a) == old(FieldOf(a))[i := p]
  {
    ghost var f0 := FieldOf(a);
    for x := 0 to a.Length1
      invariant forall j, u, w :: 0 <= j < a.Length0 && 0 <= u < a.Length1 && 0 <= w < a.Length2 && (j != i || x <= u) ==>
        a[j, u, w] == f0[j][u][w]
      invariant forall u, w :: 0 <= u < x && 0 <= w < a.Length2 ==> a[i, u, w] == p[u][w]
    {
      for y := 0 to a.Length2
        invariant forall j, u, w :: 0 <= j < a.Length0 && 0 <= u < a.Length1 && 0 <= w < a.Length2 && (j != i || x < u || (x == u && y <= w)) ==>
          a[j, u, w] == f0[j][u][w]
        invariant forall u, w :: 0 <= u < x && 0 <= w < a.Length2 ==> a[i, u, w] == p[u][w]
        invariant forall w :: 0 <= w < y ==> a[i, x, w] == p[x][w]
      {
        a[i, x, y] := p[x][y];
      }
    }
    FieldExt(FieldOf(a), f0[i := p]);
  }

  /** `a[:, mask] = v[:, mask]`. */
  method StoreMasked(a: array3<real>, mask: Mask, v: Field)
    requires IsMask(mask, a.Length1, a.Length2) && IsField(v, a.Length0, a.Length1, a.Length2)
    modifies a
    ensures FieldFits(old(FieldOf(a)), mask) && FieldFits(v, mask)
    ensures FieldOf(a) == Masked(old(FieldOf(a)), mask, v)
  {
    ghost var f0 := FieldOf(a);
    FieldsFit(f0, mask, a.Length0, a.Length1, a.Length2);
    FieldsFit(v, mask, a.Length0, a.Length1, a.Length2);
    for i := 0 to a.Length0
      invariant forall j :: 0 <= j < i ==> FieldOf(a)[j] == MaskedPlane(f0[j], mask, v[j])
      invariant forall j :: i <= j < a.Length0 ==> FieldOf(a)[j] == f0[j]
    {
      StorePlaneMasked(a, i, mask, v[i]);
    }
    assert FieldOf(a) == Masked(f0, mask, v);
  }

  /** `for i in range(Q): out[i, mask] = src[Q-1-i, mask]`, with src a different array: the
      loop of StoreMasked with plane i taken from the source's plane Q-1-i. */
  method BounceBack(out: array3<real>, src: array3<real>, mask: Mask)
    requires out != src
    requires src.Length0 == out.Length0 && src.Length1 == out.Length1 && src.Length2 == out.Length2
    requires IsMask(mask, out.Length1, out.Length2)
    modifies out
    ensures FieldFits(old(FieldOf(out)), mask) && FieldFits(FieldOf(src), mask)
    ensures FieldOf(out) == Reflected(old(FieldOf(out)), FieldOf(src), mask)
  {
    ghost var f0 := FieldOf(out);
    var s := FieldOf(src);
    ReflectedIsMaskedReverse(f0, s, mask, out.Length0, out.Length1, out.Length2);
    StoreMasked(out, mask, Reverse(s));
  }

  /** `a += v`, elementwise. */
  method AddAssign(a: array3<real>, v: Field)
    requires IsField(v, a.Length0, a.Length1, a.Length2)
    modifies a
    ensures Congruent(old(FieldOf(a)), v)
    ensures FieldOf(a) == Add(old(FieldOf(a)), v)
  {
    ghost var f0 := FieldOf(a);
    FieldsCongruent(f0, v, a.Length0, a.Length1, a.Length2);
    for i := 0 to a.Length0
      invariant forall j, x, y :: 0 <= j < a.Length0 && 0 <= x < a.Length1 && 0 <= y < a.Length2 ==>
        a[j, x, y] == if j < i then f0[j][x][y] + v[j][x][y] else f0[j][x][y]
    {
      for x := 0 to a.Length1
        invariant forall j, u, y :: 0 <= j < a.Length0 && 0 <= u < a.Length1 && 0 <= y < a.Length2 ==>
          a[j, u, y] == if j < i || (j == i && u < x) then f0[j][u][y] + v[j][u][y] else f0[j][u][y]
      {
        for y := 0 to a.Length2
          invariant forall j, u, w :: 0 <= j < a.Length0 && 0 <= u < a.Length1 && 0 <= w < a.Length2 ==>
            a[j, u, w] == if j < i || (j == i && (u < x || (u == x && w < y))) then f0[j][u][w] + v[j][u][w] else f0[j][u][w]
        {
          a[i, x, y] := a[i, x, y] + v[i][x][y];
        }
      }
    }
    FieldExt(FieldOf(a), Add(f0, v));
  }

  /** Overwrites every plane of a with v (a rebinding to a same-shaped new array). */
  method CopyInto(a: array3<real>, v: Field)
    requires IsField(v, a.Length0, a.Length1, a.Length2)
    modifies a
    ensures FieldOf(a) == v
  {
    for i := 0 to a.Length0
      invariant forall j :: 0 <= j < i ==> FieldOf(a)[j] == v[j]
    {
      StorePlane(a, i, v[i]);
    }
    assert FieldOf(a) == v;
  }

  /** Overwrites a two-dimensional array with p. */
  method CopyPlaneInto(a: array2<real>, p: Plane)
    requires IsPlane(p, a.Length0, a.Length1)
    modifies a
    ensures PlaneOf(a) == p
  {
    for x := 0 to a.Length0
      invariant forall u, w :: 0 <= u < x && 0 <= w < a.Length1 ==> a[u, w] == p[u][w]
    {
      for y := 0 to a.Length1
        invariant forall u, w :: 0 <= u < x && 0 <= w < a.Length1 ==> a[u, w] == p[u][w]
        invariant forall w :: 0 <= w < y ==> a[x, w] == p[x][w]
      {
        a[x, y] := p[x][y];
      }
    }
    PlaneExt(PlaneOf(a), p);
  }

  /** `a[1:tubeSize+1, ny//2] = value` for a non-negative tubeSize on an array with columns:
      the rows written are 1 <= x <= tubeSize with x < nx, since numpy clips a slice stop that
      lies past the end. */
  method InjectColumn(a: array2<real>, tubeSize: nat, value: real)
    requires a.Length1 > 0
    modifies a
    ensures PlaneOf(a) == Injected(old(PlaneOf(a)), tubeSize, value)
  {
    ghost var p0 := PlaneOf(a);
    var ny := a.Length1;
    var x := 1;
    while x <= tubeSize && x < a.Length0
      invariant 1 <= x && (x == 1 || x <= tubeSize + 1)
      invariant forall u, w :: 0 <= u < a.Length0 && 0 <= w < ny ==>
        a[u, w] == if 1 <= u < x && w == ny / 2 then value else p0[u][w]
      decreases a.Length0 - x
    {
      a[x, ny / 2] := value;
      x := x + 1;
    }
    assert forall u, w :: 0 <= u < a.Length0 && 0 <= w < ny ==> a[u, w] == Injected(p0, tubeSize, value)[u][w];
    PlaneExt(PlaneOf(a), Injected(p0, tubeSize, value));
  }
}
