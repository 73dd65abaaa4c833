/** The monitoring helpers the time loops call: the clot-front position that the
    thrombolysis run samples, and the checkpoint file name under which the fluid state is
    saved and looked up again. */
module Monitoring {
  import opened Grid

  datatype Result<T> = Ok(value: T) | Error(msg: string)

  // ---------------------------------------------------------------- boolean searches

  /** Position of the first true entry, or |s| when there is none. */
  function FirstTrue(s: seq<bool>): (k: nat)
    ensures k <= |s|
    ensures k < |s| ==> s[k]
    ensures forall j :: 0 <= j < k ==> !s[j]
  {
    if |s| == 0 then 0 else if s[0] then 0 else 1 + FirstTrue(s[1..])
  }

  /** Position of the last true entry of a sequence that has one. */
  function LastTrue(s: seq<bool>): (k: nat)
    requires true in s
    ensures k < |s| && s[k]
    ensures forall j :: k < j < |s| ==> !s[j]
  {
    if s[|s| - 1] then |s| - 1 else LastTrue(s[..|s| - 1])
  }

  /** numpy.argmax of a non-empty boolean array: the first true position, 0 if none. */
  function ArgMax(s: seq<bool>): (k: nat)
    requires |s| > 0
    ensures k < |s|
    ensures true in s ==> s[k] && forall j :: 0 <= j < k ==> !s[j]
    ensures true !in s ==> k == 0
  {
    var k := FirstTrue(s);
    if k < |s| then k else 0
  }

  // ---------------------------------------------------------------- bounding box

  /** Column y of a mask. */
  function Column(m: Mask, y: nat): (c: seq<bool>)
    requires forall x :: 0 <= x < |m| ==> y < |m[x]|
    ensures |c| == |m| && forall x :: 0 <= x < |m| ==> c[x] == m[x][y]
  {
    seq(|m|, x requires 0 <= x < |m| && y < |m[x]| => m[x][y])
  }

  /** Whether each row (each column) holds a true cell: the distinct values of the row
      (column) index array returned by `where(mask)`. */
  function RowFlags(m: Mask): (r: seq<bool>)
    ensures |r| == |m| && forall x :: 0 <= x < |m| ==> r[x] == (true in m[x])
  {
    seq(|m|, x requires 0 <= x < |m| => true in m[x])
  }

  function ColFlags(m: Mask, ny: nat): (r: seq<bool>)
    requires IsMask(m, |m|, ny)
    ensures |r| == ny && forall y :: 0 <= y < ny ==> r[y] == (true in Column(m, y))
  {
    seq(ny, y requires 0 <= y < ny => true in Column(m, y))
  }

  predicate NonEmpty(m: Mask) {
    true in RowFlags(m)
  }

  lemma NonEmptyCols(m: Mask, ny: nat)
    requires IsMask(m, |m|, ny) && NonEmpty(m)
    ensures true in ColFlags(m, ny)
  {
    var x :| 0 <= x < |m| && RowFlags(m)[x];
    var y :| 0 <= y < |m[x]| && m[x][y];
    assert Column(m, y)[x];
    assert ColFlags(m, ny)[y];
  }

  /** `row_start, row_end, col_start, col_end` of getFrontIndex, ends exclusive. */
  datatype Box = Box(rowStart: nat, rowEnd: nat, colStart: nat, colEnd: nat)

  /** `rows.min(), rows.max() + 1, cols.min(), cols.max() + 1` for `rows, cols = where(m)`. */
  function BoundingBox(m: Mask, ny: nat): (b: Box)
    requires IsMask(m, |m|, ny) && NonEmpty(m)
    ensures b.rowStart < b.rowEnd <= |m| && b.colStart < b.colEnd <= ny
  {
    NonEmptyCols(m, ny);
    var rows, cols := RowFlags(m), ColFlags(m, ny);
    Box(FirstTrue(rows), LastTrue(rows) + 1, FirstTrue(cols), LastTrue(cols) + 1)
  }

  /** The box is tight: it holds every true cell, and its first and last rows and columns
      each hold one. */
  lemma BoundingBoxTight(m: Mask, ny: nat)
    requires IsMask(m, |m|, ny) && NonEmpty(m)
    ensures var b := BoundingBox(m, ny);
      && (forall x, y :: 0 <= x < |m| && 0 <= y < ny && m[x][y] ==>
            b.rowStart <= x < b.rowEnd && b.colStart <= y < b.colEnd)
      && true in m[b.rowStart] && true in m[b.rowEnd - 1]
      && true in Column(m, b.colStart) && true in Column(m, b.colEnd - 1)
  {
    var b := BoundingBox(m, ny);
    forall x, y | 0 <= x < |m| && 0 <= y < ny && m[x][y]
      ensures b.rowStart <= x < b.rowEnd && b.colStart <= y < b.colEnd
    {
      assert RowFlags(m)[x];
      assert Column(m, y)[x];
      assert ColFlags(m, ny)[y];
    }
  }

  // ---------------------------------------------------------------- front index

  function Mean(s: seq<real>): real
    requires |s| > 0
  {
    Sum(s) / (|s| as real)
  }

  /** `mean(K0[row_start:row_end, col_start:col_end].transpose(), axis=0)`: one entry per
      row of the box, the mean of that row over the box's columns. */
  function RowMeans(k0: Plane, b: Box): (r: seq<real>)
    requires b.rowStart < b.rowEnd <= |k0| && b.colStart < b.colEnd
    requires forall x :: b.rowStart <= x < b.rowEnd ==> b.colEnd <= |k0[x]|
    ensures |r| == b.rowEnd - b.rowStart
  {
    seq(b.rowEnd - b.rowStart, k requires 0 <= k < b.rowEnd - b.rowStart =>
      Mean(k0[b.rowStart + k][b.colStart..b.colEnd]))
  }

  /** `threshold = 0.1 * Clot.K_initial[0]`. */
  function Threshold(kInitial0: real): real {
    0.1 * kInitial0
  }

  function Exceeds(s: seq<real>, t: real): (r: seq<bool>)
    ensures |r| == |s| && forall k :: 0 <= k < |s| ==> r[k] == (s[k] > t)
  {
    seq(|s|, k requires 0 <= k < |s| => s[k] > t)
  }

  /** getFrontIndex(K, Clot, clotMask). An empty clot mask makes `min` fail in the source;
      here it is an error result. */
  function GetFrontIndex(K: Field, kInitial0: real, clotMask: Mask, nx: nat, ny: nat): (r: Result<nat>)
    requires |K| > 0 && IsPlane(K[0], nx, ny) && IsMask(clotMask, nx, ny)
  {
    if !NonEmpty(clotMask) then Error("zero-size array to reduction operation minimum which has no identity")
    else
      var b := BoundingBox(clotMask, ny);
      Ok(ArgMax(Exceeds(RowMeans(K[0], b), Threshold(kInitial0))))
  }

  /** The front index is defined exactly when the clot mask has a cell. It is then a row
      offset inside the box: the first row whose mean resistance exceeds a tenth of the
      initial one, every earlier row staying at or below it, or 0 when no row exceeds it. */
  lemma {:induction false} FrontIndexSpec(K: Field, kInitial0: real, clotMask: Mask, nx: nat, ny: nat)
    requires |K| > 0 && IsPlane(K[0], nx, ny) && IsMask(clotMask, nx, ny)
    ensures GetFrontIndex(K, kInitial0, clotMask, nx, ny).Ok? <==> NonEmpty(clotMask)
    ensures NonEmpty(clotMask) ==>
      var b := BoundingBox(clotMask, ny);
      var means := RowMeans(K[0], b);
      var k := GetFrontIndex(K, kInitial0, clotMask, nx, ny).value;
      && k < b.rowEnd - b.rowStart
      && ((exists j :: 0 <= j < |means| && means[j] > 0.1 * kInitial0) ==>
            means[k] > 0.1 * kInitial0 && forall j :: 0 <= j < k ==> means[j] <= 0.1 * kInitial0)
      && ((forall j :: 0 <= j < |means| ==> means[j] <= 0.1 * kInitial0) ==> k == 0)
  {
    if NonEmpty(clotMask) {
      var b := BoundingBox(clotMask, ny);
      var means := RowMeans(K[0], b);
      var e := Exceeds(means, Threshold(kInitial0));
      if exists j :: 0 <= j < |means| && means[j] > 0.1 * kInitial0 {
        var j :| 0 <= j < |means| && means[j] > 0.1 * kInitial0;
        assert e[j];
      } else {
        assert true !in e;
      }
    }
  }

  /** Entry k of the averaged profile is the mean of K[0] over row row_start + k of the box. */
  lemma RowMeansAt(k0: Plane, b: Box, k: nat)
    requires b.rowStart < b.rowEnd <= |k0| && b.colStart < b.colEnd
    requires forall x :: b.rowStart <= x < b.rowEnd ==> b.colEnd <= |k0[x]|
    requires k < b.rowEnd - b.rowStart
    ensures |k0[b.rowStart + k][b.colStart..b.colEnd]| == b.colEnd - b.colStart
    ensures RowMeans(k0, b)[k] == Sum(k0[b.rowStart + k][b.colStart..b.colEnd]) / ((b.colEnd - b.colStart) as real)
  {
    var row := k0[b.rowStart + k][b.colStart..b.colEnd];
    assert |row| == b.colEnd - b.colStart;
    assert RowMeans(k0, b)[k] == Mean(row);
  }

  /** Only component 0 of K is read. */
  lemma FrontIndexReadsK0(K: Field, K': Field, kInitial0: real, clotMask: Mask, nx: nat, ny: nat)
    requires |K| > 0 && IsPlane(K[0], nx, ny) && IsMask(clotMask, nx, ny)
    requires |K'| > 0 && K'[0] == K[0]
    ensures GetFrontIndex(K, kInitial0, clotMask, nx, ny) == GetFrontIndex(K', kInitial0, clotMask, nx, ny)
  {
  }

  // ---------------------------------------------------------------- strings

  function DigitChar(d: nat): char
    requires d < 10
  {
    "0123456789"[d]
  }

  /** Python's str() of a non-negative int: decimal digits, no leading zeros. */
  function NatString(n: nat): (s: string)
    ensures |s| >= 1 && (n < 10 <==> |s| == 1)
    ensures forall k :: 0 <= k < |s| ==> '0' <= s[k] <= '9'
  {
    if n < 10 then [DigitChar(n)] else NatString(n / 10) + [DigitChar(n % 10)]
  }

  /** Python's str() of an int. */
  function IntString(n: int): (s: string)
    ensures |s| >= 1
  {
    if n < 0 then "-" + NatString(-n) else NatString(n)
  }

  lemma {:induction false} NatStringInjective(a: nat, b: nat)
    ensures NatString(a) == NatString(b) <==> a == b
  {
    if NatString(a) == NatString(b) {
      if a < 10 || b < 10 {
        assert a < 10 && b < 10;
        assert NatString(a)[0] == DigitChar(a) && NatString(b)[0] == DigitChar(b);
      } else {
        var sa, sb := NatString(a), NatString(b);
        assert sa[|sa| - 1] == DigitChar(a % 10) && sb[|sb| - 1] == DigitChar(b % 10);
        assert NatString(a / 10) == sa[..|sa| - 1] == sb[..|sb| - 1] == NatString(b / 10);
        NatStringInjective(a / 10, b / 10);
      }
    }
  }

  /** A printed int starts with a minus sign exactly when it is negative. */
  lemma IntStringSign(n: int)
    ensures IntString(n)[0] == '-' <==> n < 0
  {
    if n >= 0 {
      assert '0' <= NatString(n)[0];
    }
  }

  /** Two negative ints that print alike have the same digits after the sign. */
  lemma IntStringNegatives(a: int, b: int)
    requires a < 0 && b < 0 && IntString(a) == IntString(b)
    ensures a == b
  {
    DropSign(NatString(-a));
    DropSign(NatString(-b));
    NatStringInjective(-a, -b);
  }

  lemma DropSign(digits: string)
    ensures ("-" + digits)[1..] == digits
  {
  }

  /** Different ints print differently. */
  lemma {:induction false} IntStringInjective(a: int, b: int)
    ensures IntString(a) == IntString(b) <==> a == b
  {
    if IntString(a) == IntString(b) {
      IntStringSign(a);
      IntStringSign(b);
      if a < 0 {
        IntStringNegatives(a, b);
      } else {
        NatStringInjective(a, b);
      }
    }
  }

  /** The geometry tag of the scripts: `"branch=" + str(branchSize)` or `"loop"`. */
  function GeometryType(branch: bool, branchSize: int): string {
    if branch then "branch=" + IntString(branchSize) else "loop"
  }

  /** Different geometries get different tags, so their checkpoints never share a name. */
  lemma GeometryTypeInjective(b1: bool, s1: int, b2: bool, s2: int)
    ensures GeometryType(b1, s1) == GeometryType(b2, s2) <==> b1 == b2 && (b1 ==> s1 == s2)
  {
    if b1 && b2 && GeometryType(b1, s1) == GeometryType(b2, s2) {
      var p := "branch=";
      assert IntString(s1) == GeometryType(b1, s1)[|p|..] == GeometryType(b2, s2)[|p|..] == IntString(s2);
      IntStringInjective(s1, s2);
    } else if b1 != b2 {
      assert GeometryType(b1, s1)[0] != GeometryType(b2, s2)[0];
    }
  }

  // ---------------------------------------------------------------- checkpoint key

  /** The fields of the scripts' Lattice, Fluid and Clot classes that enter the file name.
      Floats and lists appear as the text Python's str() gives them. */
  datatype LatticeInfo = LatticeInfo(maxIter: int, nx: int, ny: int)
  datatype FluidInfo = FluidInfo(viscosity: string, rhoInitial: string, fInitial: string)
  datatype ClotInfo = ClotInfo(kInitial: string)

  const VarFolder: string := "./Variables"

  /** Everything of the file name before the iteration count. */
  function KeyStem(geometry: string, lattice: LatticeInfo, fluid: FluidInfo, clot: ClotInfo): string {
    VarFolder + "/" + geometry + "_" + IntString(lattice.nx) + "x" + IntString(lattice.ny) + "_viscosity="
      + fluid.viscosity + "_Rho=" + fluid.rhoInitial + "_F=" + fluid.fInitial + "_K=" + clot.kInitial
  }

  /** The checkpoint name for iteration count `it`. */
  function CheckpointKey(geometry: string, lattice: LatticeInfo, fluid: FluidInfo, clot: ClotInfo, it: int): string {
    KeyStem(geometry, lattice, fluid, clot) + "_it=" + IntString(it)
  }

  /** The file name saveVariables builds, step by step. */
  method SaveVariablesKey(geometry: string, lattice: LatticeInfo, fluid: FluidInfo, clot: ClotInfo) returns (filename: string)
    ensures filename == CheckpointKey(geometry, lattice, fluid, clot, lattice.maxIter)
  {
    var varFolder := "./Variables";
    filename := varFolder + "/" + geometry + "_" + IntString(lattice.nx) + "x" + IntString(lattice.ny) + "_viscosity=";
    filename := filename + fluid.viscosity + "_Rho=" + fluid.rhoInitial;
    filename := filename + "_F=" + fluid.fInitial + "_K=" + clot.kInitial;
    filename := filename + "_it=" + IntString(lattice.maxIter);
  }

  /** The file name getVariables builds, step by step, for iteration count `it`. */
  method GetVariablesKey(geometry: string, lattice: LatticeInfo, fluid: FluidInfo, clot: ClotInfo, it: int) returns (filename: string)
    ensures filename == CheckpointKey(geometry, lattice, fluid, clot, it)
  {
    var varFolder := "./Variables";
    filename := varFolder + "/" + geometry + "_" + IntString(lattice.nx) + "x" + IntString(lattice.ny) + "_viscosity=";
    filename := filename + fluid.viscosity + "_Rho=" + fluid.rhoInitial;
    filename := filename + "_F=" + fluid.fInitial + "_K=" + clot.kInitial;
    filename := filename + "_it=" + IntString(it);
  }

  /** With the same geometry and parameters, a lookup finds what was saved exactly when it
      asks for the saving run's maxIter. */
  lemma {:induction false} KeysAgree(geometry: string, lattice: LatticeInfo, fluid: FluidInfo, clot: ClotInfo, it: int)
    ensures CheckpointKey(geometry, lattice, fluid, clot, it) == CheckpointKey(geometry, lattice, fluid, clot, lattice.maxIter)
        <==> it == lattice.maxIter
  {
    var stem := KeyStem(geometry, lattice, fluid, clot) + "_it=";
    var k1, k2 := CheckpointKey(geometry, lattice, fluid, clot, it), CheckpointKey(geometry, lattice, fluid, clot, lattice.maxIter);
    if k1 == k2 {
      assert IntString(it) == k1[|stem|..] == k2[|stem|..] == IntString(lattice.maxIter);
      IntStringInjective(it, lattice.maxIter);
    }
  }
}
