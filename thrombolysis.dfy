/** The thrombolysis script: the D2Q9 fluid of the fluid-only script plus a D2Q4 tPA
    concentration that is injected at the inlet, collides only off the remaining clot,
    bounces back on walls and on clot nodes, binds to the clot and dissolves it. The clot
    front is sampled every 50 iterations. */
module Thrombolysis {
  import opened Grid
  import opened Lattice
  import opened InPlace
  import opened Kernels
  import opened Monitoring
  import FluidWithClot

  // The script's constants (classes Lattice, Fluid, Clot and TPA).
  const MaxIter: nat := 100000
  const NX: nat := 260
  const NY: nat := 200
  const TubeSize: nat := 21
  const Viscosity: real := 0.01
  const FluidRhoInitial: real := 2.5
  const FInitial0: real := 0.0
  const FInitial1: real := -0.0001
  const KInitial0: real := 0.001
  const TpaRhoInitial: real := 1.0
  /** The iteration count of the converged fluid state the script loads. */
  const LoadIteration: int := 100000
  /** The clot front is recorded on iterations that are multiples of this. */
  const SamplePeriod: nat := 50

  /** functionsLB's tPA and clot routines, whose bodies are not part of this model:
      `macroscopicTPA(tPAin)` the tPA density, `equilibriumTPA(rhoTPA, u)` the four
      equilibrium populations, `bindTPA(tPAin, tPABind, KMask)` the new (tPABind, tPAin),
      `dissolveClot(tPABind, K)` the new (K, tPABind), `getKMask(K)` the remaining-clot
      mask and `liberateTPA(tPABind, KMask)` the new tPABind. */
  datatype TpaOps = TpaOps(
    macroscopicTPA: Field -> Plane,
    equilibriumTPA: (Plane, Field) -> Field,
    bindTPA: (Field, Field, Mask) -> (Field, Field),
    dissolveClot: (Field, Field) -> (Field, Field),
    getKMask: Field -> Mask,
    liberateTPA: (Field, Mask) -> Field)
  {
    /** On nx x ny arrays the routines return nx x ny arrays of the expected depth. */
    ghost predicate Shaped(nx: nat, ny: nat) {
      && (forall t {:trigger macroscopicTPA(t)} :: IsField(t, 4, nx, ny) ==> IsPlane(macroscopicTPA(t), nx, ny))
      && (forall rho, u {:trigger equilibriumTPA(rho, u)} :: IsPlane(rho, nx, ny) && IsField(u, 2, nx, ny) ==> IsField(equilibriumTPA(rho, u), 4, nx, ny))
      && (forall t, b, km {:trigger bindTPA(t, b, km)} :: IsField(t, 4, nx, ny) && IsField(b, 4, nx, ny) && IsMask(km, nx, ny) ==>
            IsField(bindTPA(t, b, km).0, 4, nx, ny) && IsField(bindTPA(t, b, km).1, 4, nx, ny))
      && (forall b, k {:trigger dissolveClot(b, k)} :: IsField(b, 4, nx, ny) && IsField(k, 2, nx, ny) ==>
            IsField(dissolveClot(b, k).0, 2, nx, ny) && IsField(dissolveClot(b, k).1, 4, nx, ny))
      && (forall k {:trigger getKMask(k)} :: IsField(k, 2, nx, ny) ==> IsMask(getKMask(k), nx, ny))
      && (forall b, km {:trigger liberateTPA(b, km)} :: IsField(b, 4, nx, ny) && IsMask(km, nx, ny) ==> IsField(liberateTPA(b, km), 4, nx, ny))
    }
  }

  /** What the time loop reads but never writes. */
  datatype Setup = Setup(fluid: FluidOps, tpa: TpaOps, omega: real, bounceback: Mask, openPath: Mask,
                         clotMask: Mask, F: Field)
  {
    ghost predicate Valid() {
      && fluid.Shaped(NX, NY) && tpa.Shaped(NX, NY)
      && IsMask(bounceback, NX, NY) && openPath == Invert(bounceback)
      && IsMask(clotMask, NX, NY) && NonEmpty(clotMask)
      && IsField(F, 2, NX, NY)
    }
  }

  /** Everything the time loop updates. */
  datatype State = State(fin: Field, fout: Field, tin: Field, tout: Field, rhoTPA: Plane,
                         K: Field, KMask: Mask, bind: Field, clotFront: seq<nat>, iterations: seq<nat>)
  {
    ghost predicate Valid() {
      && IsField(fin, 9, NX, NY) && IsField(fout, 9, NX, NY)
      && IsField(tin, 4, NX, NY) && IsField(tout, 4, NX, NY)
      && IsPlane(rhoTPA, NX, NY)
      && IsField(K, 2, NX, NY) && IsMask(KMask, NX, NY) && IsField(bind, 4, NX, NY)
    }
  }

  // ---------------------------------------------------------------- one step, on values

  /** The tPA density of the step: macroscopicTPA's, overwritten at the inlet slice with the
      fluid's initial density. */
  function InjectedDensity(s: Setup, tin: Field): (r: Plane)
    requires s.Valid() && IsField(tin, 4, NX, NY)
    ensures IsPlane(r, NX, NY)
  {
    Injected(s.tpa.macroscopicTPA(tin), TubeSize, FluidRhoInitial)
  }

  /** The fluid velocity of the step. */
  function Velocity(s: Setup, fin: Field): (u: Field)
    requires s.Valid() && IsField(fin, 9, NX, NY)
    ensures IsField(u, 2, NX, NY)
  {
    s.fluid.macroscopic(fin).1
  }

  function FluidEquilibrium(s: Setup, fin: Field): (r: Field)
    requires s.Valid() && IsField(fin, 9, NX, NY)
    ensures IsField(r, 9, NX, NY)
  {
    var m := s.fluid.macroscopic(fin);
    s.fluid.equilibrium(m.0, m.1)
  }

  function FluidForces(s: Setup, fin: Field, K: Field): (r: Field)
    requires s.Valid() && IsField(fin, 9, NX, NY)
    ensures IsField(r, 9, NX, NY)
  {
    var m := s.fluid.macroscopic(fin);
    s.fluid.addForces(m.0, m.1, s.F, K)
  }

  function TpaEquilibrium(s: Setup, fin: Field, tin: Field): (r: Field)
    requires s.Valid() && IsField(fin, 9, NX, NY) && IsField(tin, 4, NX, NY)
    ensures IsField(r, 4, NX, NY)
  {
    s.tpa.equilibriumTPA(InjectedDensity(s, tin), Velocity(s, fin))
  }

  /** `fout` before streaming: collision off the walls, bounce-back on them, plus forcing. */
  function FluidPost(s: Setup, fin: Field, K: Field): (r: Field)
    requires s.Valid() && IsField(fin, 9, NX, NY)
    ensures IsField(r, 9, NX, NY)
  {
    var c := Collided(fin, FluidEquilibrium(s, fin), s.bounceback, s.omega);
    CollidedShape(fin, FluidEquilibrium(s, fin), s.bounceback, s.omega, 9, NX, NY);
    FieldsCongruent(c, FluidForces(s, fin, K), 9, NX, NY);
    Add(c, FluidForces(s, fin, K))
  }

  /** `tPAout` before streaming: collision on open nodes off the clot, bounce-back on walls
      and on clot nodes. */
  function TpaPost(s: Setup, fin: Field, tin: Field, KMask: Mask): (r: Field)
    requires s.Valid() && IsField(fin, 9, NX, NY) && IsField(tin, 4, NX, NY) && IsMask(KMask, NX, NY)
    ensures IsField(r, 4, NX, NY)
  {
    var reflect := Or(s.bounceback, KMask);
    CollidedShape(tin, TpaEquilibrium(s, fin, tin), reflect, s.omega, 4, NX, NY);
    Collided(tin, TpaEquilibrium(s, fin, tin), reflect, s.omega)
  }

  /** The front position recorded for resistance K. */
  function Front(s: Setup, K: Field): (k: nat)
    requires s.Valid() && IsField(K, 2, NX, NY)
    ensures k < BoxHeight(s.clotMask)
  {
    FrontIndexSpec(K, KInitial0, s.clotMask, NX, NY);
    GetFrontIndex(K, KInitial0, s.clotMask, NX, NY).value
  }

  /** Iteration `t` of the time loop on values. */
  function StepSpec(s: Setup, st: State, t: nat): (r: State)
    requires s.Valid() && st.Valid()
    ensures r.Valid()
  {
    var fout := FluidPost(s, st.fin, st.K);
    var tout := TpaPost(s, st.fin, st.tin, st.KMask);
    StreamShape(fout, D2Q9, NX, NY);
    StreamShape(tout, D2Q4, NX, NY);
    var bound := s.tpa.bindTPA(Stream(tout, D2Q4), st.bind, st.KMask);
    var dissolved := s.tpa.dissolveClot(bound.0, st.K);
    var kmask := s.tpa.getKMask(dissolved.0);
    var sample := t % SamplePeriod == 0;
    State(Stream(fout, D2Q9), fout, bound.1, tout, InjectedDensity(s, st.tin),
          dissolved.0, kmask, s.tpa.liberateTPA(dissolved.1, kmask),
          if sample then st.clotFront + [Front(s, dissolved.0)] else st.clotFront,
          if sample then st.iterations + [t] else st.iterations)
  }

  /** The first n iterations. */
  function RunSpec(s: Setup, st: State, n: nat): (r: State)
    requires s.Valid() && st.Valid()
    ensures r.Valid()
  {
    if n == 0 then st else StepSpec(s, RunSpec(s, st, n - 1), n - 1)
  }

  /** The state before the loop: the loaded fluid populations, the tPA density zero except
      TPA.rho_initial on the inlet slice, tPA populations at equilibrium with it and the
      loaded velocity, nothing bound, and empty front records. */
  function Initial(s: Setup, K0: Field, fin0: Field, fout0: Field, u0: Field): (r: State)
    requires s.Valid() && IsField(K0, 2, NX, NY) && IsField(fin0, 9, NX, NY) && IsField(fout0, 9, NX, NY)
    requires IsField(u0, 2, NX, NY)
    ensures r.Valid()
  {
    var rho := Injected(Full(NX, NY, 0.0), TubeSize, TpaRhoInitial);
    var teq := s.tpa.equilibriumTPA(rho, u0);
    State(fin0, fout0, teq, teq, rho, K0, s.tpa.getKMask(K0), Zeros(4, NX, NY), [], [])
  }

  // ---------------------------------------------------------------- properties of a step

  /** Injection rewrites the tPA density on column ny//2, rows 1 to tubeSize, with the
      fluid's initial density 2.5 (not tPA's initial 1), and leaves every other node at
      macroscopicTPA's value. */
  lemma {:induction false} StepInjects(s: Setup, st: State, t: nat, x: nat, y: nat)
    requires s.Valid() && st.Valid() && x < NX && y < NY
    ensures StepSpec(s, st, t).rhoTPA[x][y] ==
      if 1 <= x <= 21 && y == 100 then 2.5 else s.tpa.macroscopicTPA(st.tin)[x][y]
  {
    var p := s.tpa.macroscopicTPA(st.tin);
    assert StepSpec(s, st, t).rhoTPA == Injected(p, TubeSize, FluidRhoInitial);
    assert |p[x]| == NY;
  }

  /** tPA collision, node by node: a wall or clot node takes the opposite D2Q4 direction's
      incoming value, every other node relaxes towards the tPA equilibrium. */
  lemma {:induction false} StepTpaCollision(s: Setup, st: State, t: nat, i: nat, x: nat, y: nat)
    requires s.Valid() && st.Valid() && i < 4 && x < NX && y < NY
    ensures IsField(TpaEquilibrium(s, st.fin, st.tin), 4, NX, NY)
    ensures s.bounceback[x][y] || st.KMask[x][y] ==> StepSpec(s, st, t).tout[i][x][y] == st.tin[3 - i][x][y]
    ensures !s.bounceback[x][y] && !st.KMask[x][y] ==>
      StepSpec(s, st, t).tout[i][x][y] == Relax(st.tin[i][x][y], TpaEquilibrium(s, st.fin, st.tin)[i][x][y], s.omega)
  {
    var reflect := Or(s.bounceback, st.KMask);
    var teq := TpaEquilibrium(s, st.fin, st.tin);
    CollidedShape(st.tin, teq, reflect, s.omega, 4, NX, NY);
    assert StepSpec(s, st, t).tout == Collided(st.tin, teq, reflect, s.omega);
    CollidedAt(st.tin, teq, reflect, s.omega, i, x, y);
    assert reflect[x][y] == (s.bounceback[x][y] || st.KMask[x][y]);
  }

  /** At a wall or clot node the tPA populations are only permuted by the collision, so the
      node keeps its tPA total. */
  lemma {:induction false} StepTpaKeepsNodeMass(s: Setup, st: State, t: nat, x: nat, y: nat)
    requires s.Valid() && st.Valid() && x < NX && y < NY
    requires s.bounceback[x][y] || st.KMask[x][y]
    ensures Sum(NodeColumn(StepSpec(s, st, t).tout, x, y)) == Sum(NodeColumn(st.tin, x, y))
  {
    var reflect := Or(s.bounceback, st.KMask);
    var teq := TpaEquilibrium(s, st.fin, st.tin);
    CollidedShape(st.tin, teq, reflect, s.omega, 4, NX, NY);
    assert StepSpec(s, st, t).tout == Collided(st.tin, teq, reflect, s.omega);
    CollidedKeepsNodeMass(st.tin, teq, reflect, s.omega, x, y);
  }

  /** The post-collision arrays of a step do not depend on the previous ones: every node of
      `fout` and `tPAout` is rewritten before it is read. */
  lemma StepForgetsOut(s: Setup, st: State, fout: Field, tout: Field, t: nat)
    requires s.Valid() && st.Valid() && IsField(fout, 9, NX, NY) && IsField(tout, 4, NX, NY)
    ensures st.(fout := fout, tout := tout).Valid()
    ensures StepSpec(s, st.(fout := fout, tout := tout), t) == StepSpec(s, st, t)
  {
  }

  // ---------------------------------------------------------------- front sampling

  /** The iterations below n at which the front is recorded: 0, 50, 100, ... */
  function Sampled(n: nat): (r: seq<nat>)
    ensures |r| == (n + SamplePeriod - 1) / SamplePeriod
  {
    seq((n + SamplePeriod - 1) / SamplePeriod, k requires 0 <= k => SamplePeriod * k)
  }

  lemma SampledNext(n: nat)
    ensures Sampled(n + 1) == if n % SamplePeriod == 0 then Sampled(n) + [n] else Sampled(n)
  {
    var q, r := n / 50, n % 50;
    assert n == 50 * q + r;
    if r == 0 {
      assert (n + 49) / 50 == q && (n + 50) / 50 == q + 1;
    } else {
      assert (n + 49) / 50 == q + 1 && (n + 50) / 50 == q + 1;
    }
  }

  /** After n iterations the loop has appended one front per iteration that is a multiple
      of 50, and those iterations themselves, so the two lists stay the same length and
      the recorded iterations are 0, 50, 100, ... */
  lemma {:induction false} RunSamples(s: Setup, st: State, n: nat)
    requires s.Valid() && st.Valid()
    ensures RunSpec(s, st, n).iterations == st.iterations + Sampled(n)
    ensures |RunSpec(s, st, n).clotFront| == |st.clotFront| + |Sampled(n)|
  {
    if n == 0 {
      assert Sampled(0) == [];
    } else {
      RunSamples(s, st, n - 1);
      SampledNext(n - 1);
      if (n - 1) % SamplePeriod == 0 {
        assert st.iterations + Sampled(n - 1) + [n - 1] == st.iterations + (Sampled(n - 1) + [n - 1]);
      }
    }
  }

  /** The number of rows of the clot's bounding box. */
  function BoxHeight(clotMask: Mask): (h: nat)
    requires IsMask(clotMask, NX, NY) && NonEmpty(clotMask)
    ensures h > 0
  {
    BoundingBox(clotMask, NY).rowEnd - BoundingBox(clotMask, NY).rowStart
  }

  /** The converged state this script loads (iteration 100000) has a different file name
      from the one the fluid-only script, as configured with maxIter = 1000, saves. */
  lemma LoadedCheckpointDiffers(geometry: string, fluid: FluidInfo, clot: ClotInfo)
    ensures var saved := LatticeInfo(FluidWithClot.MaxIter, FluidWithClot.NX, FluidWithClot.NY);
      CheckpointKey(geometry, saved, fluid, clot, LoadIteration) != CheckpointKey(geometry, saved, fluid, clot, saved.maxIter)
  {
    KeysAgree(geometry, LatticeInfo(FluidWithClot.MaxIter, FluidWithClot.NX, FluidWithClot.NY), fluid, clot, LoadIteration);
  }

  // ---------------------------------------------------------------- the simulation

  class Simulation {
    const setup: Setup
    const fin: array3<real>
    const fout: array3<real>
    const tin: array3<real>
    const tout: array3<real>
    const rhoTPA: array2<real>
    var K: Field
    var KMask: Mask
    var bind: Field
    var clotFront: seq<nat>
    var iterations: seq<nat>

    ghost predicate Valid()
      reads this
    {
      && setup.Valid()
      && fin != fout && tin != tout
      && fin.Length0 == 9 && fin.Length1 == NX && fin.Length2 == NY
      && fout.Length0 == 9 && fout.Length1 == NX && fout.Length2 == NY
      && tin.Length0 == 4 && tin.Length1 == NX && tin.Length2 == NY
      && tout.Length0 == 4 && tout.Length1 == NX && tout.Length2 == NY
      && rhoTPA.Length0 == NX && rhoTPA.Length1 == NY
      && IsField(K, 2, NX, NY) && IsMask(KMask, NX, NY) && IsField(bind, 4, NX, NY)
    }

    /** The loop variables as a value. */
    function Snapshot(): (st: State)
      reads this, fin, fout, tin, tout, rhoTPA
      requires Valid()
      ensures st.Valid()
    {
      State(FieldOf(fin), FieldOf(fout), FieldOf(tin), FieldOf(tout), PlaneOf(rhoTPA), K, KMask, bind,
            clotFront, iterations)
    }

    /** Script set-up: masks and force field, the loaded fluid state (`loadData` is set),
        the injected tPA density, tPA populations at equilibrium, nothing bound. */
    constructor (fluidOps: FluidOps, tpaOps: TpaOps, bounceback: Mask, clotMask: Mask, accField: Mask,
                 K0: Field, fin0: Field, fout0: Field, u0: Field)
      requires fluidOps.Shaped(NX, NY) && tpaOps.Shaped(NX, NY)
      requires IsMask(bounceback, NX, NY) && IsMask(clotMask, NX, NY) && NonEmpty(clotMask)
      requires IsMask(accField, NX, NY) && IsField(K0, 2, NX, NY)
      requires IsField(fin0, 9, NX, NY) && IsField(fout0, 9, NX, NY) && IsField(u0, 2, NX, NY)
      ensures Valid()
      ensures setup == Setup(fluidOps, tpaOps, Omega(Viscosity), bounceback, Invert(bounceback), clotMask,
                             Forcing(accField, FInitial0, FInitial1))
      ensures Snapshot() == Initial(setup, K0, fin0, fout0, u0)
    {
      var F := ForceField(accField, NX, NY, FInitial0, FInitial1);
      var a := NewField(fin0, 9, NX, NY);
      var b := NewField(fout0, 9, NX, NY);
      var rho := NewPlane(Full(NX, NY, 0.0), NX, NY);
      InjectColumn(rho, TubeSize, TpaRhoInitial);
      var teq := tpaOps.equilibriumTPA(PlaneOf(rho), u0);
      var c := NewField(teq, 4, NX, NY);
      var d := NewField(teq, 4, NX, NY);
      setup := Setup(fluidOps, tpaOps, Omega(Viscosity), bounceback, Invert(bounceback), clotMask, FieldOf(F));
      fin, fout, tin, tout, rhoTPA := a, b, c, d, rho;
      K := K0;
      KMask := tpaOps.getKMask(K0);
      bind := Zeros(4, NX, NY);
      clotFront, iterations := [], [];
    }

    /** Lines 143-169: macroscopic values, tPA injection, equilibria, both collisions, the
        three bounce-back loops and the forcing. */
    method Collide()
      requires Valid()
      modifies fout, tout, rhoTPA
      ensures PlaneOf(rhoTPA) == InjectedDensity(setup, old(FieldOf(tin)))
      ensures FieldOf(fout) == FluidPost(setup, FieldOf(fin), K)
      ensures FieldOf(tout) == TpaPost(setup, FieldOf(fin), FieldOf(tin), KMask)
    {
      var f := FieldOf(fin);
      var tf := FieldOf(tin);
      ghost var out0, tout0 := FieldOf(fout), FieldOf(tout);
      var (rho, u) := setup.fluid.macroscopic(f);
      CopyPlaneInto(rhoTPA, setup.tpa.macroscopicTPA(tf));
      InjectColumn(rhoTPA, TubeSize, FluidRhoInitial);
      var feq := setup.fluid.equilibrium(rho, u);
      var tPAeq := setup.tpa.equilibriumTPA(PlaneOf(rhoTPA), u);
      assert tPAeq == TpaEquilibrium(setup, f, tf);
      FieldsCongruent(f, feq, 9, NX, NY);
      FieldsCongruent(tf, tPAeq, 4, NX, NY);
      StoreMasked(fout, setup.openPath, Blend(f, feq, setup.omega));
      var openPathNoK := OpenNotIn(setup.openPath, KMask);
      StoreMasked(tout, openPathNoK, Blend(tf, tPAeq, setup.omega));
      BounceBack(fout, fin, setup.bounceback);
      BounceBack(tout, tin, setup.bounceback);
      BounceBack(tout, tin, KMask);
      FieldsFit(out0, setup.bounceback, 9, NX, NY);
      FieldsFit(f, setup.bounceback, 9, NX, NY);
      FieldsFit(feq, setup.bounceback, 9, NX, NY);
      FluidCoverage(out0, f, feq, setup.bounceback, setup.omega);
      FieldsFit(tout0, setup.bounceback, 4, NX, NY);
      FieldsFit(tf, setup.bounceback, 4, NX, NY);
      FieldsFit(tPAeq, setup.bounceback, 4, NX, NY);
      TpaCoverage(tout0, tf, tPAeq, setup.bounceback, KMask, setup.omega);
      AddAssign(fout, setup.fluid.addForces(rho, u, setup.F, K));
    }

    /** Lines 189-204: binding, dissolution, the new clot mask, liberation, and the front
        record on every 50th iteration. */
    method UpdateClot(t: nat)
      requires Valid()
      modifies this, tin
      ensures Valid()
      ensures var bound := setup.tpa.bindTPA(old(FieldOf(tin)), old(bind), old(KMask));
        var dissolved := setup.tpa.dissolveClot(bound.0, old(K));
        var kmask := setup.tpa.getKMask(dissolved.0);
        && FieldOf(tin) == bound.1 && K == dissolved.0 && KMask == kmask
        && bind == setup.tpa.liberateTPA(dissolved.1, kmask)
        && clotFront == (if t % SamplePeriod == 0 then old(clotFront) + [Front(setup, K)] else old(clotFront))
        && iterations == (if t % SamplePeriod == 0 then old(iterations) + [t] else old(iterations))
    {
      var bound := setup.tpa.bindTPA(FieldOf(tin), bind, KMask);
      CopyInto(tin, bound.1);
      var dissolved := setup.tpa.dissolveClot(bound.0, K);
      var kmask := setup.tpa.getKMask(dissolved.0);
      var liberated := setup.tpa.liberateTPA(dissolved.1, kmask);
      var fronts, iters := clotFront, iterations;
      if t % SamplePeriod == 0 {
        var frontIndex := GetFrontIndex(dissolved.0, KInitial0, setup.clotMask, NX, NY);
        FrontIndexSpec(dissolved.0, KInitial0, setup.clotMask, NX, NY);
        fronts, iters := fronts + [frontIndex.value], iters + [t];
      }
      K, KMask, bind, clotFront, iterations := dissolved.0, kmask, liberated, fronts, iters;
    }

    /** Iteration t of the time loop. */
    method Step(t: nat)
      requires Valid()
      modifies this, fin, fout, tin, tout, rhoTPA
      ensures Valid()
      ensures Snapshot() == StepSpec(setup, old(Snapshot()), t)
    {
      ghost var st := Snapshot();
      Collide();
      StreamD2Q9(fout, fin);
      StreamD2Q4(tout, tin);
      UpdateClot(t);
      assert Snapshot() == StepSpec(setup, st, t);
    }

    /** The time loop. */
    method Run()
      requires Valid()
      modifies this, fin, fout, tin, tout, rhoTPA
      ensures Valid()
      ensures Snapshot() == RunSpec(setup, old(Snapshot()), MaxIter)
    {
      ghost var st0 := Snapshot();
      for t := 0 to MaxIter
        invariant Valid()
        invariant Snapshot() == RunSpec(setup, st0, t)
      {
        Step(t);
      }
    }
  }
}
