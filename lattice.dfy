/** The discrete-velocity schemes of the simulation (D2Q9 for the fluid, D2Q4 for tPA) and
    the BGK relaxation frequency derived from the fluid viscosity. */
module Lattice {
  import opened Grid

  datatype Vec = Vec(x: int, y: int) {
    function Neg(): Vec { Vec(-x, -y) }
  }

  /** Direction vectors, matching weights and lattice sound speed squared. The scripts never
      store the bounce-back pairing: it is implied by the order of `v`, direction i being
      paired with Q-1-i. */
  datatype Scheme = Scheme(v: seq<Vec>, w: seq<real>, cs2: real) {
    function Q(): nat { |v| }

    function Opposite(i: nat): (j: nat)
      requires i < Q()
      ensures j < Q()
    {
      Q() - 1 - i
    }

    /** Every direction's pair is its reverse, so pairing is a reflection. */
    ghost predicate Reflective() {
      forall i :: 0 <= i < Q() ==> v[Opposite(i)] == v[i].Neg()
    }

    /** Weights: one per direction, all positive, summing exactly to one. */
    ghost predicate Normalised() {
      |w| == |v| && (forall i :: 0 <= i < |w| ==> w[i] > 0.0) && Sum(w) == 1.0
    }
  }

  /** D2Q9 directions and weights, in the order of the script's table. */
  const V9: seq<Vec> := [Vec(1, 1), Vec(1, 0), Vec(1, -1), Vec(0, 1), Vec(0, 0),
                         Vec(0, -1), Vec(-1, 1), Vec(-1, 0), Vec(-1, -1)]
  const W9: seq<real> := [1.0 / 36.0, 1.0 / 9.0, 1.0 / 36.0, 1.0 / 9.0, 4.0 / 9.0,
                          1.0 / 9.0, 1.0 / 36.0, 1.0 / 9.0, 1.0 / 36.0]
  const D2Q9: Scheme := Scheme(V9, W9, 1.0 / 3.0)

  /** D2Q4 directions and weights of the tPA lattice. */
  const V4: seq<Vec> := [Vec(1, 0), Vec(0, 1), Vec(0, -1), Vec(-1, 0)]
  const W4: seq<real> := [1.0 / 4.0, 1.0 / 4.0, 1.0 / 4.0, 1.0 / 4.0]
  const D2Q4: Scheme := Scheme(V4, W4, 1.0 / 2.0)

  /** Pairing i with Q-1-i is an involution on the directions. */
  lemma OppositeInvolution(s: Scheme, i: nat)
    requires i < s.Q()
    ensures s.Opposite(s.Opposite(i)) == i
    ensures s.Opposite(i) == i <==> 2 * i + 1 == s.Q()
  {
  }

  /** Reversing the order of the D2Q9 table negates every direction. */
  lemma V9Reversed()
    ensures forall i :: 0 <= i < 9 ==> V9[8 - i] == V9[i].Neg()
  {
    forall i | 0 <= i < 9 ensures V9[8 - i] == V9[i].Neg() {
      assert i == 0 || i == 1 || i == 2 || i == 3 || i == 4 || i == 5 || i == 6 || i == 7 || i == 8;
    }
  }

  /** `8-i` reverses every D2Q9 direction. */
  lemma {:induction false} D2Q9Reflective()
    ensures D2Q9.Q() == 9 && D2Q9.Reflective()
  {
    V9Reversed();
    assert D2Q9.v == V9;
    forall i | 0 <= i < D2Q9.Q() ensures D2Q9.v[D2Q9.Opposite(i)] == D2Q9.v[i].Neg() {
      assert D2Q9.Opposite(i) == 8 - i;
    }
  }

  /** The rest direction 4 is the only D2Q9 direction paired with itself, and pairing keeps
      the weight. */
  lemma {:induction false} D2Q9RestAndWeights()
    ensures D2Q9.v[4] == Vec(0, 0) && D2Q9.Opposite(4) == 4
    ensures forall i :: 0 <= i < 9 && i != 4 ==> D2Q9.v[i] != Vec(0, 0) && D2Q9.Opposite(i) != i
    ensures forall i :: 0 <= i < 9 ==> D2Q9.w[D2Q9.Opposite(i)] == D2Q9.w[i]
  {
    assert D2Q9.v == V9 && D2Q9.w == W9;
    forall i | 0 <= i < 9 ensures W9[8 - i] == W9[i] && (i != 4 ==> V9[i] != Vec(0, 0)) {
      assert i == 0 || i == 1 || i == 2 || i == 3 || i == 4 || i == 5 || i == 6 || i == 7 || i == 8;
    }
  }

  /** `3-i` reverses every D2Q4 direction, none of which is at rest. */
  lemma {:induction false} D2Q4Reflective()
    ensures D2Q4.Q() == 4 && D2Q4.Reflective()
    ensures forall i :: 0 <= i < 4 ==> D2Q4.v[i] != Vec(0, 0) && D2Q4.Opposite(i) != i
  {
    assert D2Q4.v == V4;
    forall i | 0 <= i < 4 ensures V4[3 - i] == V4[i].Neg() {
      assert i == 0 || i == 1 || i == 2 || i == 3;
    }
    forall i | 0 <= i < D2Q4.Q() ensures D2Q4.v[D2Q4.Opposite(i)] == D2Q4.v[i].Neg() {
      assert D2Q4.Opposite(i) == 3 - i;
    }
  }

  /** The D2Q9 weights are positive and sum exactly to one: 4/36 + 4/9 + 4/9. */
  lemma {:induction false} D2Q9Normalised()
    ensures D2Q9.Normalised()
  {
    assert D2Q9.v == V9 && D2Q9.w == W9;
    var w := W9;
    assert w[8..] == [1.0 / 36.0];
    assert Sum(w[8..]) == 1.0 / 36.0;
    assert Sum(w[7..]) == 1.0 / 9.0 + 1.0 / 36.0;
    assert Sum(w[6..]) == 1.0 / 36.0 + 1.0 / 9.0 + 1.0 / 36.0;
    assert Sum(w[5..]) == 1.0 / 9.0 + 1.0 / 36.0 + 1.0 / 9.0 + 1.0 / 36.0;
    assert Sum(w[4..]) == 4.0 / 9.0 + 2.0 / 9.0 + 2.0 / 36.0;
    assert Sum(w[3..]) == 4.0 / 9.0 + 3.0 / 9.0 + 2.0 / 36.0;
    assert Sum(w[2..]) == 4.0 / 9.0 + 3.0 / 9.0 + 3.0 / 36.0;
    assert Sum(w[1..]) == 4.0 / 9.0 + 4.0 / 9.0 + 3.0 / 36.0;
    assert Sum(w) == 4.0 / 9.0 + 4.0 / 9.0 + 4.0 / 36.0;
  }

  /** The D2Q4 weights are positive and sum exactly to one: 4/4. */
  lemma {:induction false} D2Q4Normalised()
    ensures D2Q4.Normalised()
  {
    assert D2Q4.v == V4 && D2Q4.w == W4;
    var w := W4;
    assert w[3..] == [1.0 / 4.0];
    assert Sum(w[3..]) == 1.0 / 4.0;
    assert Sum(w[2..]) == 2.0 / 4.0;
    assert Sum(w[1..]) == 3.0 / 4.0;
  }

  /** `Fluid.omega = 1 / (3*viscosity + 0.5)`; Python fails only when the divisor is zero. */
  function Omega(viscosity: real): real
    requires 3.0 * viscosity + 0.5 != 0.0
  {
    1.0 / (3.0 * viscosity + 0.5)
  }

  /** The relaxation frequency lies strictly inside the stable range (0, 2) exactly when the
      viscosity is positive. */
  lemma OmegaStable(viscosity: real)
    requires 3.0 * viscosity + 0.5 != 0.0
    ensures 0.0 < Omega(viscosity) < 2.0 <==> viscosity > 0.0
  {
    var d := 3.0 * viscosity + 0.5;
    assert Omega(viscosity) * d == 1.0;
    if viscosity > 0.0 {
      assert d > 0.5;
    } else if d > 0.0 {
      assert d <= 0.5;
      assert Omega(viscosity) >= 2.0;
    } else {
      assert Omega(viscosity) < 0.0;
    }
  }
}
