/** The pieces both scripts share: periodic streaming along the lattice directions (as the
    table says, and as the hard-coded roll lines do it), the accelerating force field, and
    the fluid routines of functionsLB, which are not part of this model and enter as
    parameters. */
module Kernels {
  import opened Grid
  import opened Lattice
  import opened InPlace

  // ---------------------------------------------------------------- streaming

  /** Streaming by the table: population i moves one step along v[i], periodically. */
  function Stream(f: Field, s: Scheme): (r: Field)
    requires |f| == s.Q()
    ensures |r| == |f|
  {
    seq(|f|, i requires 0 <= i < |f| => Shift(f[i], s.v[i].x, s.v[i].y))
  }

  /** What arrives at node (x, y) in direction i left node (x - v_i.x, y - v_i.y), with
      periodic wrap on both axes. */
  lemma StreamByTable(f: Field, s: Scheme, nx: nat, ny: nat, i: nat, x: nat, y: nat)
    requires IsField(f, s.Q(), nx, ny) && i < s.Q() && x < nx && y < ny
    ensures IsField(Stream(f, s), s.Q(), nx, ny)
    ensures Stream(f, s)[i][x][y] == f[i][Wrap(x - s.v[i].x, nx)][Wrap(y - s.v[i].y, ny)]
  {
    StreamShape(f, s, nx, ny);
    ShiftAt(f[i], s.v[i].x, s.v[i].y, x, y, nx, ny);
  }

  lemma StreamShape(f: Field, s: Scheme, nx: nat, ny: nat)
    requires IsField(f, s.Q(), nx, ny)
    ensures IsField(Stream(f, s), s.Q(), nx, ny)
  {
    forall i | 0 <= i < s.Q() ensures IsPlane(Stream(f, s)[i], nx, ny) {
      ShiftShape(f[i], s.v[i].x, s.v[i].y, nx, ny);
    }
  }

  /** Each direction plane is only permuted, so its sum is kept, and so is the total. */
  lemma {:induction false} StreamConserves(f: Field, s: Scheme)
    requires |f| == s.Q()
    ensures PlaneSums(Stream(f, s)) == PlaneSums(f)
    ensures Total(Stream(f, s)) == Total(f)
  {
    forall i | 0 <= i < |f| ensures PlaneSums(Stream(f, s))[i] == PlaneSums(f)[i] {
      ShiftSum(f[i], s.v[i].x, s.v[i].y);
    }
  }

  /** The D2Q9 rest population does not move. */
  lemma StreamKeepsRest(f: Field)
    requires |f| == 9
    ensures Stream(f, D2Q9)[4] == f[4]
  {
    ShiftZero(f[4]);
  }

  /** Streaming applied k times. */
  function StreamN(f: Field, s: Scheme, k: nat): (r: Field)
    requires |f| == s.Q()
    ensures |r| == |f|
  {
    if k == 0 then f else Stream(StreamN(f, s, k - 1), s)
  }

  /** k streaming steps move direction i by k * v_i. */
  lemma {:induction false} StreamNIsShift(f: Field, s: Scheme, k: nat, i: nat)
    requires |f| == s.Q() && i < s.Q()
    ensures StreamN(f, s, k)[i] == ShiftN(f[i], s.v[i].x, s.v[i].y, k)
  {
    if k > 0 {
      StreamNIsShift(f, s, k - 1, i);
    }
  }

  /** The D2Q9 directions 1 and 7 move along x only: nx steps bring them back. */
  lemma {:induction false} StreamPeriodAxial(f: Field, nx: nat, ny: nat)
    requires IsField(f, 9, nx, ny)
    ensures StreamN(f, D2Q9, nx)[1] == f[1] && StreamN(f, D2Q9, nx)[7] == f[7]
  {
    StreamNIsShift(f, D2Q9, nx, 1);
    StreamNIsShift(f, D2Q9, nx, 7);
    ShiftPeriodX(f[1], 1);
    ShiftPeriodX(f[7], -1);
  }

  /** After nx * ny steps every direction of every scheme is back where it started. */
  lemma {:induction false} StreamPeriod(f: Field, s: Scheme, nx: nat, ny: nat)
    requires IsField(f, s.Q(), nx, ny)
    ensures StreamN(f, s, nx * ny) == f
  {
    forall i | 0 <= i < s.Q() ensures StreamN(f, s, nx * ny)[i] == f[i] {
      var vx, vy := s.v[i].x, s.v[i].y;
      StreamNIsShift(f, s, nx * ny, i);
      ShiftNIsShift(f[i], vx, vy, nx * ny);
      assert nx * ny * vx == (ny * vx) * nx && nx * ny * vy == (nx * vy) * ny;
      ShiftFullTurns(f[i], ny * vx, nx * vy, nx, ny);
    }
  }

  /** The offsets of the nine fluid roll lines are the D2Q9 table's, in table order. */
  lemma {:induction false} D2Q9Rolls(f: Field)
    requires |f| == 9
    ensures Roll(Roll(f[0], 1, Axis0), 1, Axis1) == Stream(f, D2Q9)[0]
    ensures Roll(f[1], 1, Axis0) == Stream(f, D2Q9)[1]
    ensures Roll(Roll(f[2], 1, Axis0), -1, Axis1) == Stream(f, D2Q9)[2]
    ensures Roll(f[3], 1, Axis1) == Stream(f, D2Q9)[3]
    ensures f[4] == Stream(f, D2Q9)[4]
    ensures Roll(f[5], -1, Axis1) == Stream(f, D2Q9)[5]
    ensures Roll(Roll(f[6], -1, Axis0), 1, Axis1) == Stream(f, D2Q9)[6]
    ensures Roll(f[7], -1, Axis0) == Stream(f, D2Q9)[7]
    ensures Roll(Roll(f[8], -1, Axis0), -1, Axis1) == Stream(f, D2Q9)[8]
  {
    assert D2Q9.v == V9;
    RollsAreShift(f[0], 1, 1);
    RollsAreShift(f[1], 1, 0);
    RollsAreShift(f[2], 1, -1);
    RollsAreShift(f[3], 0, 1);
    RollsAreShift(f[5], 0, -1);
    RollsAreShift(f[6], -1, 1);
    RollsAreShift(f[7], -1, 0);
    RollsAreShift(f[8], -1, -1);
    StreamKeepsRest(f);
  }

  /** The fluid streaming lines: plane i of `fin` becomes plane i of `fout` rolled by the
      hard-coded offsets. The result is streaming by the D2Q9 table. */
  method StreamD2Q9(fout: array3<real>, fin: array3<real>)
    requires fout != fin && fout.Length0 == 9 && fin.Length0 == 9
    requires fin.Length1 == fout.Length1 && fin.Length2 == fout.Length2
    modifies fin
    ensures FieldOf(fin) == Stream(FieldOf(fout), D2Q9)
  {
    var f := FieldOf(fout);
    ghost var st := Stream(f, D2Q9);
    StreamShape(f, D2Q9, fin.Length1, fin.Length2);
    D2Q9Rolls(f);
    var rolled := [Roll(Roll(f[0], 1, Axis0), 1, Axis1), Roll(f[1], 1, Axis0), Roll(Roll(f[2], 1, Axis0), -1, Axis1),
                   Roll(f[3], 1, Axis1), f[4], Roll(f[5], -1, Axis1),
                   Roll(Roll(f[6], -1, Axis0), 1, Axis1), Roll(f[7], -1, Axis0), Roll(Roll(f[8], -1, Axis0), -1, Axis1)];
    assert rolled == st;
    CopyInto(fin, rolled);
  }

  /** The tPA streaming lines: four single-axis rolls, streaming by the D2Q4 table. */
  method StreamD2Q4(tout: array3<real>, tin: array3<real>)
    requires tout != tin && tout.Length0 == 4 && tin.Length0 == 4
    requires tin.Length1 == tout.Length1 && tin.Length2 == tout.Length2
    modifies tin
    ensures FieldOf(tin) == Stream(FieldOf(tout), D2Q4)
  {
    var nx, ny := tin.Length1, tin.Length2;
    var f := FieldOf(tout);
    var p0 := Roll(f[0], 1, Axis0);
    var p1 := Roll(f[1], 1, Axis1);
    var p2 := Roll(f[2], -1, Axis1);
    var p3 := Roll(f[3], -1, Axis0);
    RollsAreShift(f[0], 1, 0);
    RollsAreShift(f[1], 0, 1);
    RollsAreShift(f[2], 0, -1);
    RollsAreShift(f[3], -1, 0);
    StreamShape(f, D2Q4, nx, ny);
    assert D2Q4.v == V4 && D2Q4.Q() == 4;
    ghost var st := Stream(f, D2Q4);
    assert p0 == st[0] && p1 == st[1] && p2 == st[2] && p3 == st[3];
    assert [p0, p1, p2, p3] == st;
    CopyInto(tin, [p0, p1, p2, p3]);
  }

  // ---------------------------------------------------------------- forcing

  /** The force field: component c is F_initial[c] on the acceleration region, 0 elsewhere. */
  function Forcing(acc: Mask, f0: real, f1: real): (r: Field)
    requires forall x :: 0 <= x < |acc| ==> |acc[x]| == |acc[0]|
  {
    var nx := |acc|;
    var ny := if nx == 0 then 0 else |acc[0]|;
    [MaskedPlane(Full(nx, ny, 0.0), acc, Full(nx, ny, f0)), MaskedPlane(Full(nx, ny, 0.0), acc, Full(nx, ny, f1))]
  }

  /** The force field has shape 2 x nx x ny, equals F_initial componentwise on the
      acceleration region and is zero everywhere else. */
  lemma ForcingValues(acc: Mask, nx: nat, ny: nat, f0: real, f1: real)
    requires IsMask(acc, nx, ny)
    ensures IsField(Forcing(acc, f0, f1), 2, nx, ny)
    ensures forall c, x, y :: 0 <= c < 2 && 0 <= x < nx && 0 <= y < ny ==>
      Forcing(acc, f0, f1)[c][x][y] == if acc[x][y] then (if c == 0 then f0 else f1) else 0.0
  {
  }

  /** `F = zeros((2, nx, ny)); F[0, accField] = F_initial[0]; F[1, accField] = F_initial[1]`. */
  method ForceField(acc: Mask, nx: nat, ny: nat, f0: real, f1: real) returns (F: array3<real>)
    requires IsMask(acc, nx, ny)
    ensures fresh(F) && F.Length0 == 2 && F.Length1 == nx && F.Length2 == ny
    ensures forall c, x, y :: 0 <= c < 2 && 0 <= x < nx && 0 <= y < ny ==>
      F[c, x, y] == if acc[x][y] then (if c == 0 then f0 else f1) else 0.0
    ensures FieldOf(F) == Forcing(acc, f0, f1)
  {
    F := NewField(Zeros(2, nx, ny), 2, nx, ny);
    StorePlaneMasked(F, 0, acc, Full(nx, ny, f0));
    StorePlaneMasked(F, 1, acc, Full(nx, ny, f1));
  }

  // ---------------------------------------------------------------- fluid routines

  /** functionsLB's fluid routines, whose bodies are not part of this model:
      `macroscopic(fin)` gives the density plane and the 2-component velocity,
      `equilibrium(rho, u)` the nine equilibrium populations, and
      `addForces(rho, u, F, K)` the nine force terms added after collision. */
  datatype FluidOps = FluidOps(
    macroscopic: Field -> (Plane, Field),
    equilibrium: (Plane, Field) -> Field,
    addForces: (Plane, Field, Field, Field) -> Field)
  {
    /** On nx x ny arrays the routines return nx x ny arrays of the expected depth. */
    ghost predicate Shaped(nx: nat, ny: nat) {
      && (forall f {:trigger macroscopic(f)} :: IsField(f, 9, nx, ny) ==>
            IsPlane(macroscopic(f).0, nx, ny) && IsField(macroscopic(f).1, 2, nx, ny))
      && (forall rho, u {:trigger equilibrium(rho, u)} :: IsPlane(rho, nx, ny) && IsField(u, 2, nx, ny) ==> IsField(equilibrium(rho, u), 9, nx, ny))
      && (forall rho, u, F, K {:trigger addForces(rho, u, F, K)} :: IsPlane(rho, nx, ny) && IsField(u, 2, nx, ny) ==> IsField(addForces(rho, u, F, K), 9, nx, ny))
    }
  }
}
