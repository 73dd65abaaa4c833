/** The fluid-only script: a D2Q9 BGK fluid with bounce-back walls, a constant accelerating
    force and a porous clot whose resistance K enters only through addForces. */
module FluidWithClot {
  import opened Grid
  import opened Lattice
  import opened InPlace
  import opened Kernels

  // The script's constants (class Lattice and class Fluid).
  const MaxIter: nat := 1000
  const NX: nat := 260
  const NY: nat := 200
  const Viscosity: real := 0.01
  const RhoInitial: real := 2.5
  const FInitial0: real := 0.0
  const FInitial1: real := -0.0001

  /** Everything the time loop reads but never writes: the routines, the relaxation
      frequency, the wall mask and its complement, the force field and the clot resistance. */
  datatype Setup = Setup(ops: FluidOps, omega: real, bounceback: Mask, openPath: Mask, F: Field, K: Field)
  {
    ghost predicate Valid() {
      && ops.Shaped(NX, NY)
      && IsMask(bounceback, NX, NY)
      && openPath == Invert(bounceback)
      && IsField(F, 2, NX, NY) && IsField(K, 2, NX, NY)
    }
  }

  /** `feq = equilibrium(*macroscopic(fin))`. */
  function Equilibrium(s: Setup, fin: Field): Field
    requires s.Valid() && IsField(fin, 9, NX, NY)
  {
    var m := s.ops.macroscopic(fin);
    s.ops.equilibrium(m.0, m.1)
  }

  /** `addForces(*macroscopic(fin), F, K)`. */
  function Forces(s: Setup, fin: Field): Field
    requires s.Valid() && IsField(fin, 9, NX, NY)
  {
    var m := s.ops.macroscopic(fin);
    s.ops.addForces(m.0, m.1, s.F, s.K)
  }

  /** `fout` after collision, bounce-back and forcing: every node is recomputed from this
      step's `fin` (reflected on walls, relaxed elsewhere) plus the force term. */
  function PostCollision(s: Setup, fin: Field): (r: Field)
    requires s.Valid() && IsField(fin, 9, NX, NY)
    ensures IsField(r, 9, NX, NY)
  {
    var feq := Equilibrium(s, fin);
    var c := Collided(fin, feq, s.bounceback, s.omega);
    CollidedShape(fin, feq, s.bounceback, s.omega, 9, NX, NY);
    FieldsCongruent(c, Forces(s, fin), 9, NX, NY);
    Add(c, Forces(s, fin))
  }

  /** One iteration of the time loop on values: the new (fin, fout). */
  function StepSpec(s: Setup, fin: Field): (r: (Field, Field))
    requires s.Valid() && IsField(fin, 9, NX, NY)
    ensures IsField(r.0, 9, NX, NY) && IsField(r.1, 9, NX, NY)
  {
    var post := PostCollision(s, fin);
    StreamShape(post, D2Q9, NX, NY);
    (Stream(post, D2Q9), post)
  }

  /** n iterations from (fin, fout). */
  function Iterate(s: Setup, fin: Field, fout: Field, n: nat): (r: (Field, Field))
    requires s.Valid() && IsField(fin, 9, NX, NY) && IsField(fout, 9, NX, NY)
    ensures IsField(r.0, 9, NX, NY) && IsField(r.1, 9, NX, NY)
  {
    if n == 0 then (fin, fout) else StepSpec(s, Iterate(s, fin, fout, n - 1).0)
  }

  /** The collision of one step, node by node: an open node relaxes towards equilibrium,
      a wall node takes the opposite direction's population, and both then get the force
      term. Nothing of the previous `fout` enters. */
  lemma {:induction false} PostCollisionAt(s: Setup, fin: Field, i: nat, x: nat, y: nat)
    requires s.Valid() && IsField(fin, 9, NX, NY) && i < 9 && x < NX && y < NY
    ensures IsField(Equilibrium(s, fin), 9, NX, NY) && IsField(Forces(s, fin), 9, NX, NY)
    ensures !s.bounceback[x][y] ==>
      PostCollision(s, fin)[i][x][y] == Relax(fin[i][x][y], Equilibrium(s, fin)[i][x][y], s.omega) + Forces(s, fin)[i][x][y]
    ensures s.bounceback[x][y] ==> PostCollision(s, fin)[i][x][y] == fin[8 - i][x][y] + Forces(s, fin)[i][x][y]
  {
    var feq := Equilibrium(s, fin);
    var force := Forces(s, fin);
    var c := Collided(fin, feq, s.bounceback, s.omega);
    CollidedShape(fin, feq, s.bounceback, s.omega, 9, NX, NY);
    assert PostCollision(s, fin) == Add(c, force);
    assert Add(c, force)[i][x][y] == c[i][x][y] + force[i][x][y];
    CollidedAt(fin, feq, s.bounceback, s.omega, i, x, y);
    assert PostCollision(s, fin)[i][x][y] == c[i][x][y] + force[i][x][y];
    if s.bounceback[x][y] {
      assert |fin| - 1 - i == 8 - i;
      assert c[i][x][y] == fin[8 - i][x][y];
    } else {
      assert c[i][x][y] == Relax(fin[i][x][y], feq[i][x][y], s.omega);
    }
  }

  /** The streaming half of a step: what arrives at (x, y) in direction i left
      (x - v_i.x, y - v_i.y), with periodic wrap. */
  lemma {:induction false} StepStreams(s: Setup, fin: Field, i: nat, x: nat, y: nat)
    requires s.Valid() && IsField(fin, 9, NX, NY) && i < 9 && x < NX && y < NY
    ensures StepSpec(s, fin).0[i][x][y] ==
      StepSpec(s, fin).1[i][Wrap(x - D2Q9.v[i].x, NX)][Wrap(y - D2Q9.v[i].y, NY)]
  {
    StreamByTable(PostCollision(s, fin), D2Q9, NX, NY, i, x, y);
  }

  /** Streaming neither creates nor destroys population: the new `fin` has the total of
      the post-collision `fout`, direction by direction. */
  lemma {:induction false} StepStreamConserves(s: Setup, fin: Field)
    requires s.Valid() && IsField(fin, 9, NX, NY)
    ensures PlaneSums(StepSpec(s, fin).0) == PlaneSums(StepSpec(s, fin).1)
    ensures Total(StepSpec(s, fin).0) == Total(StepSpec(s, fin).1)
  {
    StreamConserves(PostCollision(s, fin), D2Q9);
  }

  /** The simulation's two population arrays and the fixed setup. */
  class Simulation {
    const setup: Setup
    const fin: array3<real>
    const fout: array3<real>

    ghost predicate Valid() {
      && setup.Valid()
      && fin != fout
      && fin.Length0 == 9 && fin.Length1 == NX && fin.Length2 == NY
      && fout.Length0 == 9 && fout.Length1 == NX && fout.Length2 == NY
    }

    /** Script set-up: omega from the viscosity, `openPath = invert(bounceback)`, the force
        field, and both population arrays at equilibrium with density rho_initial and zero
        velocity. The wall mask, the acceleration region and K come from functionsLB. */
    constructor (ops: FluidOps, bounceback: Mask, accField: Mask, K: Field)
      requires ops.Shaped(NX, NY) && IsMask(bounceback, NX, NY) && IsMask(accField, NX, NY)
      requires IsField(K, 2, NX, NY)
      ensures Valid() && fresh(fin) && fresh(fout)
      ensures setup == Setup(ops, Omega(Viscosity), bounceback, Invert(bounceback), Forcing(accField, FInitial0, FInitial1), K)
      ensures FieldOf(fin) == ops.equilibrium(Full(NX, NY, RhoInitial), Zeros(2, NX, NY))
      ensures FieldOf(fout) == ops.equilibrium(Full(NX, NY, RhoInitial), Zeros(2, NX, NY))
    {
      var openPath := Invert(bounceback);
      var F := ForceField(accField, NX, NY, FInitial0, FInitial1);
      var vel := Zeros(2, NX, NY);
      var rho := Full(NX, NY, RhoInitial);
      var eq := ops.equilibrium(rho, vel);
      var a := NewField(eq, 9, NX, NY);
      var b := NewField(eq, 9, NX, NY);
      setup := Setup(ops, Omega(Viscosity), bounceback, openPath, FieldOf(F), K);
      fin := a;
      fout := b;
    }

    /** One pass of the time loop body, statement by statement as the script has it. */
    method Step()
      requires Valid()
      modifies fin, fout
      ensures (FieldOf(fin), FieldOf(fout)) == StepSpec(setup, old(FieldOf(fin)))
    {
      var f := FieldOf(fin);
      ghost var out0 := FieldOf(fout);
      var (rho, u) := setup.ops.macroscopic(f);
      var feq := setup.ops.equilibrium(rho, u);
      assert feq == Equilibrium(setup, f);
      FieldsCongruent(f, feq, 9, NX, NY);
      FieldsFit(out0, setup.bounceback, 9, NX, NY);
      FieldsFit(f, setup.bounceback, 9, NX, NY);
      FieldsFit(feq, setup.bounceback, 9, NX, NY);
      StoreMasked(fout, setup.openPath, Blend(f, feq, setup.omega));
      BounceBack(fout, fin, setup.bounceback);
      FluidCoverage(out0, f, feq, setup.bounceback, setup.omega);
      assert FieldOf(fout) == Collided(f, feq, setup.bounceback, setup.omega);
      AddAssign(fout, setup.ops.addForces(rho, u, setup.F, setup.K));
      assert FieldOf(fout) == PostCollision(setup, f);
      StreamD2Q9(fout, fin);
    }

    /** The time loop: MaxIter steps. */
    method Run()
      requires Valid()
      modifies fin, fout
      ensures (FieldOf(fin), FieldOf(fout)) == Iterate(setup, old(FieldOf(fin)), old(FieldOf(fout)), MaxIter)
    {
      ghost var f0, o0 := FieldOf(fin), FieldOf(fout);
      for t := 0 to MaxIter
        invariant (FieldOf(fin), FieldOf(fout)) == Iterate(setup, f0, o0, t)
      {
        Step();
      }
    }
  }
}
