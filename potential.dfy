/** The Lennard-Jones pair potential: the energy and force of one pair from its squared
    distance, and their accumulation over all pairs of a periodic state. */
module Potential {
  import opened Arith
  import opened Vectors
  import opened Periodic
  import opened MolState

  /** Energy and force divided by distance of one pair. A pair at zero distance has
      infinite energy and force. */
  datatype PairValue = Infinite | Finite(u: real, fOverR: real)

  /** Per-particle energies and forces of a pair calculation, or `Overlapped` when two
      particles sit at zero separation and the sums are infinite. */
  datatype PairSums = Overlapped | Sums(energies: seq<real>, forces: seq<Vec>)

  /** Both arrays of a finished pair calculation have one entry per particle. */
  predicate Fits(acc: PairSums, n: nat)
  {
    acc.Sums? ==> |acc.energies| == n && |acc.forces| == n
  }

  /** Truncated Lennard-Jones potential with interaction energy `epsilon`, length `sigma`
      and cutoff `rcut`, optionally shifted to zero at the cutoff. */
  datatype LennardJones = LennardJones(epsilon: real, sigma: real, rcut: real, shift: bool)
  {
    /** (σ/r)⁶ computed from the squared distance alone: (σ²/r²)³. */
    function InvR6(rsq: real): real
      requires rsq != 0.0
    {
      Cube(Sq(sigma) / rsq)
    }

    /** 4ε((σ/r)¹² - (σ/r)⁶), the untruncated energy at squared distance `rsq`. */
    function RawEnergy(rsq: real): real
      requires rsq != 0.0
    {
      var p6 := InvR6(rsq);
      4.0 * epsilon * (Sq(p6) - p6)
    }

    /** 24ε(2(σ/r)¹² - (σ/r)⁶)/r², the untruncated force divided by distance. */
    function RawForceOverR(rsq: real): real
      requires rsq != 0.0
    {
      var p6 := InvR6(rsq);
      24.0 * epsilon * (2.0 * Sq(p6) - p6) / rsq
    }

    /** The energy subtracted inside the cutoff: u(rcut) when shifting, nothing otherwise. */
    function CutoffShift(): real
    {
      if shift && rcut != 0.0 then
        SqPositive(rcut);
        RawEnergy(Sq(rcut))
      else
        0.0
    }

    /** `energy_force(rsq)`: infinite at zero distance, zero beyond the cutoff, and the
        (shifted) potential with its force inside it. */
    function EnergyForce(rsq: real): (r: PairValue)
      requires rsq >= 0.0
      ensures r.Infinite? <==> rsq == 0.0
      ensures rsq > Sq(rcut) ==> r == Finite(0.0, 0.0)
    {
      if rsq == 0.0 then
        Infinite
      else if rsq > Sq(rcut) then
        Finite(0.0, 0.0)
      else
        Finite(RawEnergy(rsq) - CutoffShift(), RawForceOverR(rsq))
    }

    /** `energy_force` on an array of squared distances, element by element. */
    function EnergyForceAll(rsq: seq<real>): seq<PairValue>
      requires forall i :: 0 <= i < |rsq| ==> rsq[i] >= 0.0
    {
      seq(|rsq|, i requires 0 <= i < |rsq| => EnergyForce(rsq[i]))
    }

    /** `compute(state)`: every unordered pair i < j is visited once, row by row, with
        its minimum-image separation; half of the pair energy goes to each particle, the
        force goes to j and its opposite to i. */
    method Compute(state: State) returns (r: PairSums)
      requires state.Valid()
      ensures r == PairSumsOf(this, state.box.L, state.positions)
    {
      var t := PairTableOf(this, state.box.L, state.positions);
      r := AccumulatePairs(t, state.N);
    }
  }

  /** The minimum-image vector pointing from particle i to particle j: the periodic copy
      of `pos[j] - pos[i]` that lies in the half box. */
  function Separation(L: Vec, pos: seq<Vec>, i: nat, j: nat): (d: Vec)
    requires Positive(L) && i < |pos| && j < |pos|
    ensures InHalfBox(L, d)
  {
    MinImage(L, Sub(pos[j], pos[i]))
  }

  /** The separation is `pos[j] - pos[i]` less whole box lengths, and on every axis no
      periodic copy of `pos[j] - pos[i]` is shorter. */
  lemma SeparationNearest(L: Vec, pos: seq<Vec>, i: nat, j: nat, k: Image)
    requires Positive(L) && i < |pos| && j < |pos|
    ensures var v, d := Sub(pos[j], pos[i]), Separation(L, pos, i, j);
      && v == Unwrap(L, d, Image(Round(v.x / L.x), Round(v.y / L.y), Round(v.z / L.z)))
      && var c := Unwrap(L, v, k);
         Abs(d.x) <= Abs(c.x) && Abs(d.y) <= Abs(c.y) && Abs(d.z) <= Abs(c.z)
  {
    MinImageVecOffset(L, Sub(pos[j], pos[i]));
    MinImageVecNearest(L, Sub(pos[j], pos[i]), k);
  }

  function PairAt(lj: LennardJones, L: Vec, pos: seq<Vec>, i: nat, j: nat): PairValue
    requires Positive(L) && i < |pos| && j < |pos|
  {
    lj.EnergyForce(Norm2(Separation(L, pos, i, j)))
  }

  /** For every pair (i, j): its value and the separation vector its force acts along. */
  type PairTable = (nat, nat) -> (PairValue, Vec)

  function PairTableOf(lj: LennardJones, L: Vec, pos: seq<Vec>): PairTable
    requires Positive(L)
  {
    (i: nat, j: nat) =>
      if i < |pos| && j < |pos| then (PairAt(lj, L, pos, i, j), Separation(L, pos, i, j)) else (Infinite, Zero)
  }

  /** Adds the value `pair` of the pair (i, j) with separation `dr`: half its energy to
      each particle, the force F = (f/r)·dr to j and -F to i; an infinite pair makes the
      whole calculation overlapped. */
  function Accumulate(acc: PairSums, i: nat, j: nat, pair: PairValue, dr: Vec): (r: PairSums)
    requires acc.Sums? ==> i < j < |acc.energies| && |acc.energies| == |acc.forces|
    ensures r.Sums? <==> acc.Sums? && pair.Finite?
    ensures r.Sums? ==> |r.energies| == |acc.energies| && |r.forces| == |acc.forces|
  {
    match acc
    case Overlapped => Overlapped
    case Sums(e, f) =>
      match pair
      case Infinite => Overlapped
      case Finite(u, fr) =>
        var F := Scale(fr, dr);
        Sums(e[i := e[i] + u / 2.0][j := e[j] + u / 2.0], f[i := Sub(f[i], F)][j := Add(f[j], F)])
  }

  function AddPair(t: PairTable, n: nat, acc: PairSums, i: nat, j: nat): (r: PairSums)
    requires i < j < n && Fits(acc, n)
    ensures Fits(r, n)
  {
    Accumulate(acc, i, j, t(i, j).0, t(i, j).1)
  }

  /** Adds the pairs (i, j), (i, j+1), ..., (i, n-1). */
  function AddRow(t: PairTable, n: nat, acc: PairSums, i: nat, j: nat): (r: PairSums)
    requires i < j <= n && Fits(acc, n)
    ensures Fits(r, n)
    decreases n - j
  {
    if j == n then acc else AddRow(t, n, AddPair(t, n, acc, i, j), i, j + 1)
  }

  /** Adds the rows i, i+1, ..., n-2, each with the particles after it. */
  function AddRows(t: PairTable, n: nat, acc: PairSums, i: nat): (r: PairSums)
    requires Fits(acc, n)
    ensures Fits(r, n)
    decreases n - i
  {
    if i + 1 >= n then acc else AddRows(t, n, AddRow(t, n, acc, i, i + 1), i + 1)
  }

  /** The energies and forces `compute` returns for positions `pos` in a box with edges `L`. */
  function PairSumsOf(lj: LennardJones, L: Vec, pos: seq<Vec>): (r: PairSums)
    requires Positive(L)
    ensures Fits(r, |pos|)
  {
    AddRows(PairTableOf(lj, L, pos), |pos|, Sums(seq(|pos|, _ => 0.0), Zeros(|pos|)), 0)
  }

  /** The pair loop of `compute` over n particles: for i in 0..n-2 and j in i+1..n-1 the
      value of pair (i, j) is added to zeroed energy and force arrays. */
  method AccumulatePairs(t: PairTable, n: nat) returns (r: PairSums)
    ensures r == AddRows(t, n, Sums(seq(n, _ => 0.0), Zeros(n)), 0)
  {
    var u := new real[n](_ => 0.0);
    var f := new Vec[n](_ => Zero);
    assert u[..] == seq(n, _ => 0.0) && f[..] == Zeros(n);
    r := AccumulateInto(t, u, f);
  }

  /** The double loop itself, adding every pair i < j to the arrays `u` and `f` in place. */
  method AccumulateInto(t: PairTable, u: array<real>, f: array<Vec>) returns (r: PairSums)
    requires u.Length == f.Length
    modifies u, f
    ensures r == AddRows(t, u.Length, Sums(old(u[..]), old(f[..])), 0)
  {
    var n := u.Length;
    ghost var goal := AddRows(t, n, Sums(u[..], f[..]), 0);
    var i := 0;
    while i + 1 < n
      invariant 0 <= i && (i < n || n == 0)
      invariant AddRows(t, n, Sums(u[..], f[..]), i) == goal
    {
      var overlapped := AccumulateRow(t, u, f, i);
      if overlapped {
        RowsOverlapped(t, n, i + 1);
        return Overlapped;
      }
      i := i + 1;
    }
    return Sums(u[..], f[..]);
  }

  /** The inner loop for row i: adds the pairs (i, i+1), ..., (i, n-1) in place, stopping
      with `true` at the first infinite pair. */
  method AccumulateRow(t: PairTable, u: array<real>, f: array<Vec>, i: nat) returns (overlapped: bool)
    requires u.Length == f.Length && i + 1 < u.Length
    modifies u, f
    ensures overlapped ==> AddRow(t, u.Length, Sums(old(u[..]), old(f[..])), i, i + 1) == Overlapped
    ensures !overlapped ==> AddRow(t, u.Length, Sums(old(u[..]), old(f[..])), i, i + 1) == Sums(u[..], f[..])
  {
    var n := u.Length;
    ghost var goal := AddRow(t, n, Sums(u[..], f[..]), i, i + 1);
    var j := i + 1;
    while j < n
      invariant i < j <= n
      invariant AddRow(t, n, Sums(u[..], f[..]), i, j) == goal
    {
      var pair, dr := t(i, j).0, t(i, j).1;
      ghost var e0, f0 := u[..], f[..];
      ghost var acc := Sums(e0, f0);
      RowStep(t, n, acc, i, j);
      if pair.Infinite? {
        assert AddPair(t, n, acc, i, j) == Overlapped;
        RowOverlapped(t, n, i, j + 1);
        return true;
      }
      var F := Scale(pair.fOverR, dr);
      AddPairInPlace(u, f, i, j, pair.u, F);
      AccumulateFinite(e0, f0, i, j, pair.u, pair.fOverR, dr);
      assert AddPair(t, n, acc, i, j) == Sums(u[..], f[..]);
      j := j + 1;
    }
    return false;
  }

  /** One pair's contribution, in place: `u[i] += e/2`, `u[j] += e/2`, `f[i] -= F`,
      `f[j] += F`. */
  method AddPairInPlace(u: array<real>, f: array<Vec>, i: nat, j: nat, e: real, F: Vec)
    requires i < j < u.Length && u.Length == f.Length
    modifies u, f
    ensures u[..] == old(u[..])[i := old(u[..])[i] + e / 2.0][j := old(u[..])[j] + e / 2.0]
    ensures f[..] == old(f[..])[i := Sub(old(f[..])[i], F)][j := Add(old(f[..])[j], F)]
  {
    u[i] := u[i] + e / 2.0;
    u[j] := u[j] + e / 2.0;
    f[i] := Sub(f[i], F);
    f[j] := Add(f[j], F);
  }

  lemma AccumulateFinite(e: seq<real>, f: seq<Vec>, i: nat, j: nat, u: real, fr: real, dr: Vec)
    requires i < j < |e| && |e| == |f|
    ensures Accumulate(Sums(e, f), i, j, Finite(u, fr), dr)
         == Sums(e[i := e[i] + u / 2.0][j := e[j] + u / 2.0],
                 f[i := Sub(f[i], Scale(fr, dr))][j := Add(f[j], Scale(fr, dr))])
  {
  }

  /** Unfolds one step of a row. */
  lemma RowStep(t: PairTable, n: nat, acc: PairSums, i: nat, j: nat)
    requires i < j < n && Fits(acc, n)
    ensures AddRow(t, n, acc, i, j) == AddRow(t, n, AddPair(t, n, acc, i, j), i, j + 1)
  {
  }

  lemma {:induction false} RowOverlapped(t: PairTable, n: nat, i: nat, j: nat)
    requires i < j <= n
    ensures AddRow(t, n, Overlapped, i, j) == Overlapped
    decreases n - j
  {
    if j < n {
      RowOverlapped(t, n, i, j + 1);
    }
  }

  lemma {:induction false} RowsOverlapped(t: PairTable, n: nat, i: nat)
    ensures AddRows(t, n, Overlapped, i) == Overlapped
    decreases n - i
  {
    if i + 1 < n {
      RowOverlapped(t, n, i, i + 1);
      RowsOverlapped(t, n, i + 1);
    }
  }

  /** The energy a pair value contributes to a sum (an infinite pair contributes none, as
      such a sum is only read when no pair is infinite). */
  function EnergyOf(p: PairValue): real
  {
    if p.Finite? then p.u else 0.0
  }

  /** Every pair (i, k) with j <= k < n is finite. */
  predicate RowFinite(t: PairTable, n: nat, i: nat, j: nat)
  {
    forall k: nat :: j <= k < n ==> t(i, k).0.Finite?
  }

  /** Every pair (a, b) with i <= a < b < n is finite. */
  predicate RowsFinite(t: PairTable, n: nat, i: nat)
  {
    forall a: nat, b: nat :: i <= a < b < n ==> t(a, b).0.Finite?
  }

  /** The pair energies u(i, j) + u(i, j+1) + ... + u(i, n-1). */
  function RowEnergy(t: PairTable, n: nat, i: nat, j: nat): real
    decreases n - j
  {
    if j >= n then 0.0 else EnergyOf(t(i, j).0) + RowEnergy(t, n, i, j + 1)
  }

  /** The pair energies u(a, b) summed over i <= a < b < n. */
  function RowsEnergy(t: PairTable, n: nat, i: nat): real
    decreases n - i
  {
    if i + 1 >= n then 0.0 else RowEnergy(t, n, i, i + 1) + RowsEnergy(t, n, i + 1)
  }

  /** Adding one finite pair adds its whole energy to the total and nothing to the total
      force: the halves of u go to both particles, and F and -F cancel. */
  lemma AccumulateTotals(e: seq<real>, f: seq<Vec>, i: nat, j: nat, u: real, fr: real, dr: Vec)
    requires i < j < |e| && |e| == |f|
    ensures Accumulate(Sums(e, f), i, j, Finite(u, fr), dr).Sums?
    ensures var r := Accumulate(Sums(e, f), i, j, Finite(u, fr), dr);
      SumReals(r.energies) == SumReals(e) + u && Sum(r.forces) == Sum(f)
  {
    AccumulateFinite(e, f, i, j, u, fr, dr);
    HalvesSum(e, i, j, u);
    OppositeForcesSum(f, i, j, Scale(fr, dr));
  }

  lemma HalvesSum(e: seq<real>, i: nat, j: nat, u: real)
    requires i < j < |e|
    ensures SumReals(e[i := e[i] + u / 2.0][j := e[j] + u / 2.0]) == SumReals(e) + u
  {
    var e1 := e[i := e[i] + u / 2.0];
    SumRealsUpdate(e, i, e[i] + u / 2.0);
    SumRealsUpdate(e1, j, e[j] + u / 2.0);
    assert e1[j] == e[j];
  }

  lemma OppositeForcesSum(f: seq<Vec>, i: nat, j: nat, F: Vec)
    requires i < j < |f|
    ensures Sum(f[i := Sub(f[i], F)][j := Add(f[j], F)]) == Sum(f)
  {
    var f1 := f[i := Sub(f[i], F)];
    SumUpdate(f, i, Sub(f[i], F));
    SumUpdate(f1, j, Add(f[j], F));
    assert f1[j] == f[j];
  }

  /** A row of pairs stays finite exactly when each of its pairs is finite; it then adds
      the row's pair energies to the total energy and nothing to the total force. */
  lemma {:induction false} RowTotals(t: PairTable, n: nat, acc: PairSums, i: nat, j: nat)
    requires i < j <= n && Fits(acc, n) && acc.Sums?
    ensures AddRow(t, n, acc, i, j).Sums? <==> RowFinite(t, n, i, j)
    ensures AddRow(t, n, acc, i, j).Sums? ==>
      && SumReals(AddRow(t, n, acc, i, j).energies) == SumReals(acc.energies) + RowEnergy(t, n, i, j)
      && Sum(AddRow(t, n, acc, i, j).forces) == Sum(acc.forces)
    decreases n - j
  {
    if j < n {
      var pair := t(i, j).0;
      if pair.Infinite? {
        RowBlocked(t, n, acc, i, j);
      } else {
        var next := AddPair(t, n, acc, i, j);
        RowStep(t, n, acc, i, j);
        AccumulateTotals(acc.energies, acc.forces, i, j, pair.u, pair.fOverR, t(i, j).1);
        RowTotals(t, n, next, i, j + 1);
        assert RowFinite(t, n, i, j) <==> RowFinite(t, n, i, j + 1);
      }
    }
  }

  /** An infinite pair makes the rest of its row, and so the whole result, infinite. */
  lemma RowBlocked(t: PairTable, n: nat, acc: PairSums, i: nat, j: nat)
    requires i < j < n && Fits(acc, n) && t(i, j).0.Infinite?
    ensures AddRow(t, n, acc, i, j) == Overlapped && !RowFinite(t, n, i, j)
  {
    RowStep(t, n, acc, i, j);
    RowOverlapped(t, n, i, j + 1);
  }

  /** The rows i, ..., n-2 stay finite exactly when every pair among them is finite; they
      then add all their pair energies to the total energy and nothing to the total force. */
  lemma {:induction false} RowsTotals(t: PairTable, n: nat, acc: PairSums, i: nat)
    requires Fits(acc, n) && acc.Sums?
    ensures AddRows(t, n, acc, i).Sums? <==> RowsFinite(t, n, i)
    ensures AddRows(t, n, acc, i).Sums? ==>
      && SumReals(AddRows(t, n, acc, i).energies) == SumReals(acc.energies) + RowsEnergy(t, n, i)
      && Sum(AddRows(t, n, acc, i).forces) == Sum(acc.forces)
    decreases n - i
  {
    if i + 1 < n {
      var next := AddRow(t, n, acc, i, i + 1);
      RowTotals(t, n, acc, i, i + 1);
      assert RowsFinite(t, n, i) <==> RowFinite(t, n, i, i + 1) && RowsFinite(t, n, i + 1) by {
        if RowFinite(t, n, i, i + 1) && RowsFinite(t, n, i + 1) {
          forall a: nat, b: nat | i <= a < b < n
            ensures t(a, b).0.Finite?
          {
            if a == i {
              assert i + 1 <= b;
            }
          }
        }
      }
      if next.Sums? {
        RowsTotals(t, n, next, i + 1);
      } else {
        RowsOverlapped(t, n, i + 1);
      }
    } else {
      assert RowsFinite(t, n, i);
    }
  }

  /** No two particles sit at zero minimum-image separation. */
  predicate Apart(L: Vec, pos: seq<Vec>)
    requires Positive(L)
  {
    forall a: nat, b: nat :: a < b < |pos| ==> Separation(L, pos, a, b) != Zero
  }

  /** The potential energy of the configuration: the pair energy u(r_ab) summed once over
      every unordered pair a < b. A lone particle has none, and two particles have the
      energy of their one pair. */
  function TotalPairEnergy(lj: LennardJones, L: Vec, pos: seq<Vec>): (e: real)
    requires Positive(L)
    ensures |pos| < 2 ==> e == 0.0
    ensures |pos| == 2 ==> e == EnergyOf(PairAt(lj, L, pos, 0, 1))
  {
    var t := PairTableOf(lj, L, pos);
    OnePairEnergy(t);
    assert |pos| == 2 ==> t(0, 1).0 == PairAt(lj, L, pos, 0, 1);
    RowsEnergy(t, |pos|, 0)
  }

  lemma OnePairEnergy(t: PairTable)
    ensures RowsEnergy(t, 2, 0) == EnergyOf(t(0, 1).0)
  {
    assert RowsEnergy(t, 2, 1) == 0.0;
    assert RowEnergy(t, 2, 0, 2) == 0.0;
  }

  /** Every pair of particles is farther apart than the cutoff. */
  predicate BeyondCutoff(lj: LennardJones, L: Vec, pos: seq<Vec>)
    requires Positive(L)
  {
    forall a: nat, b: nat :: a < b < |pos| ==> Norm2(Separation(L, pos, a, b)) > Sq(lj.rcut)
  }

  /** Particles that are all farther apart than the cutoff have no potential energy. */
  lemma NoPairEnergy(lj: LennardJones, L: Vec, pos: seq<Vec>)
    requires Positive(L) && BeyondCutoff(lj, L, pos)
    ensures TotalPairEnergy(lj, L, pos) == 0.0
  {
    var t := PairTableOf(lj, L, pos);
    forall a: nat, b: nat | a < b < |pos|
      ensures EnergyOf(t(a, b).0) == 0.0
    {
      assert t(a, b).0 == lj.EnergyForce(Norm2(Separation(L, pos, a, b)));
    }
    RowsEnergyZero(t, |pos|, 0);
  }

  /** Rows of pairs that contribute no energy add up to no energy. */
  lemma {:induction false} RowsEnergyZero(t: PairTable, n: nat, i: nat)
    requires forall a: nat, b: nat :: i <= a < b < n ==> EnergyOf(t(a, b).0) == 0.0
    ensures RowsEnergy(t, n, i) == 0.0
    decreases n - i
  {
    if i + 1 < n {
      RowEnergyZero(t, n, i, i + 1);
      RowsEnergyZero(t, n, i + 1);
    }
  }

  lemma {:induction false} RowEnergyZero(t: PairTable, n: nat, i: nat, j: nat)
    requires forall k: nat :: j <= k < n ==> EnergyOf(t(i, k).0) == 0.0
    ensures RowEnergy(t, n, i, j) == 0.0
    decreases n - j
  {
    if j < n {
      RowEnergyZero(t, n, i, j + 1);
    }
  }

  /** What `compute` promises: the result is finite exactly when no two particles
      overlap; then the per-particle energies add up to the total pair energy (each pair
      counted once, split in halves) and the forces add up to zero (Newton's third law). */
  lemma ComputeTotals(lj: LennardJones, L: Vec, pos: seq<Vec>)
    requires Positive(L)
    ensures PairSumsOf(lj, L, pos).Sums? <==> Apart(L, pos)
    ensures PairSumsOf(lj, L, pos).Sums? ==>
      && SumReals(PairSumsOf(lj, L, pos).energies) == TotalPairEnergy(lj, L, pos)
      && Sum(PairSumsOf(lj, L, pos).forces) == Zero
  {
    var n := |pos|;
    var t := PairTableOf(lj, L, pos);
    var zero := Sums(seq(n, _ => 0.0), Zeros(n));
    RowsTotals(t, n, zero, 0);
    SumRealsZeros(n);
    SumZeros(n);
    FiniteTable(lj, L, pos);
    assert TotalPairEnergy(lj, L, pos) == RowsEnergy(t, n, 0);
  }

  /** Every pair of the table is finite exactly when no two particles overlap. */
  lemma FiniteTable(lj: LennardJones, L: Vec, pos: seq<Vec>)
    requires Positive(L)
    ensures RowsFinite(PairTableOf(lj, L, pos), |pos|, 0) <==> Apart(L, pos)
  {
    var t := PairTableOf(lj, L, pos);
    forall a: nat, b: nat | a < b < |pos|
      ensures t(a, b).0.Finite? <==> Separation(L, pos, a, b) != Zero
    {
      assert t(a, b).0 == PairAt(lj, L, pos, a, b);
    }
  }

  /** At r = σ the unshifted energy vanishes and f/r = 24ε/σ². */
  lemma EnergyForceAtSigma(lj: LennardJones)
    requires lj.sigma != 0.0 && Sq(lj.sigma) <= Sq(lj.rcut)
    ensures Sq(lj.sigma) > 0.0
    ensures lj.EnergyForce(Sq(lj.sigma)) == Finite(-lj.CutoffShift(), 24.0 * lj.epsilon / Sq(lj.sigma))
  {
    SqPositive(lj.sigma);
    assert Sq(lj.sigma) / Sq(lj.sigma) == 1.0;
    assert lj.InvR6(Sq(lj.sigma)) == 1.0;
  }

  /** At the minimum r = 2^(1/6)σ, where (σ/r)⁶ = 1/2, the unshifted energy is -ε and the
      force vanishes. */
  lemma EnergyForceAtMinimum(lj: LennardJones, rsq: real)
    requires 0.0 < rsq <= Sq(lj.rcut) && lj.InvR6(rsq) == 0.5
    ensures lj.EnergyForce(rsq) == Finite(-lj.epsilon - lj.CutoffShift(), 0.0)
  {
    assert lj.RawEnergy(rsq) == 4.0 * lj.epsilon * (0.25 - 0.5);
    assert lj.RawForceOverR(rsq) == 24.0 * lj.epsilon * 0.0 / rsq;
  }

  /** With shifting on, the energy is continuous at the cutoff: it reaches zero there,
      while the force keeps its unshifted value. */
  lemma ShiftedEnergyAtCutoff(lj: LennardJones)
    requires lj.shift && lj.rcut != 0.0
    ensures Sq(lj.rcut) != 0.0
    ensures lj.EnergyForce(Sq(lj.rcut)) == Finite(0.0, lj.RawForceOverR(Sq(lj.rcut)))
  {
    SqPositive(lj.rcut);
  }

  /** Shifting changes only the energy inside the cutoff, by the constant u(rcut); forces
      and everything beyond the cutoff are the same as without shifting. */
  lemma ShiftMovesEnergyOnly(lj: LennardJones, rsq: real)
    requires rsq > 0.0
    ensures var shifted, plain := lj.(shift := true), lj.(shift := false);
      && shifted.EnergyForce(rsq).Finite? && plain.EnergyForce(rsq).Finite?
      && shifted.EnergyForce(rsq).fOverR == plain.EnergyForce(rsq).fOverR
      && shifted.EnergyForce(rsq).u
         == if rsq <= Sq(lj.rcut) then plain.EnergyForce(rsq).u - shifted.CutoffShift() else 0.0
  {
    var shifted, plain := lj.(shift := true), lj.(shift := false);
    assert shifted.RawEnergy(rsq) == plain.RawEnergy(rsq);
    assert shifted.RawForceOverR(rsq) == plain.RawForceOverR(rsq);
  }

  /** Truncated and shifted at its minimum (the Weeks-Chandler-Andersen potential), the
      Lennard-Jones potential is purely repulsive: for ε >= 0 the energy and the force
      are nonnegative at every nonzero distance. */
  lemma WcaRepulsive(lj: LennardJones, rsq: real)
    requires lj.shift && lj.epsilon >= 0.0 && lj.rcut != 0.0
    requires Sq(lj.rcut) != 0.0 && lj.InvR6(Sq(lj.rcut)) == 0.5
    requires rsq > 0.0
    ensures lj.EnergyForce(rsq).u >= 0.0 && lj.EnergyForce(rsq).fOverR >= 0.0
  {
    if rsq <= Sq(lj.rcut) {
      var s2 := Sq(lj.sigma);
      SqNonNegative(lj.sigma);
      DivAntitone(s2, rsq, Sq(lj.rcut));
      SqNonNegative(lj.rcut);
      assert s2 / Sq(lj.rcut) >= 0.0;
      CubeMonotone(s2 / Sq(lj.rcut), s2 / rsq);
      var p := lj.InvR6(rsq);
      assert p >= 0.5;
      assert lj.CutoffShift() == -lj.epsilon;
      RepulsiveCore(lj.epsilon, p, rsq);
    }
  }

  /** For (σ/r)⁶ = p >= 1/2: 4ε(p² - p) + ε = ε(2p - 1)² >= 0 and 24ε(2p² - p)/r² >= 0. */
  lemma RepulsiveCore(eps: real, p: real, rsq: real)
    requires eps >= 0.0 && p >= 0.5 && rsq > 0.0
    ensures 4.0 * eps * (Sq(p) - p) - -eps >= 0.0
    ensures 24.0 * eps * (2.0 * Sq(p) - p) / rsq >= 0.0
  {
    var g := 2.0 * p - 1.0;
    assert 4.0 * (Sq(p) - p) + 1.0 == Sq(g);
    SqNonNegative(g);
    MulNonNegative(eps, Sq(g));
    assert 4.0 * eps * (Sq(p) - p) - -eps == Mul(eps, Sq(g));
    MulNonNegative(p, g);
    assert 2.0 * Sq(p) - p == Mul(p, g);
    MulNonNegative(24.0 * eps, Mul(p, g));
    assert 24.0 * eps * (2.0 * Sq(p) - p) == Mul(24.0 * eps, Mul(p, g));
  }

  /** (σ²/r²)³ is (σ/r)⁶, and its square is (σ/r)¹². */
  lemma InvR6OfDistance(lj: LennardJones, r: real)
    requires r != 0.0
    ensures Sq(r) != 0.0
    ensures lj.InvR6(Sq(r)) == Pow(lj.sigma / r, 6)
    ensures Sq(lj.InvR6(Sq(r))) == Pow(lj.sigma / r, 12)
  {
    var q := lj.sigma / r;
    SqOfQuotient(lj.sigma, r);
    CubeIsPow(Sq(q));
    PowOfSq(q, 3);
    PowAdd(q, 6, 6);
  }

  /** `energy_force(r**2)` agrees with the textbook form in r: u(r) = 4ε[(σ/r)¹² - (σ/r)⁶]
      less the shift and f(r)/r = 24ε[2(σ/r)¹² - (σ/r)⁶]/r² for 0 < r <= rcut, and both
      are zero for r > rcut. */
  lemma EnergyForceOfDistance(lj: LennardJones, r: real)
    requires r > 0.0 && lj.rcut >= 0.0
    ensures Sq(r) > 0.0
    ensures r <= lj.rcut ==> lj.EnergyForce(Sq(r)) == Finite(
      4.0 * lj.epsilon * (Pow(lj.sigma / r, 12) - Pow(lj.sigma / r, 6)) - lj.CutoffShift(),
      24.0 * lj.epsilon * (2.0 * Pow(lj.sigma / r, 12) - Pow(lj.sigma / r, 6)) / Sq(r))
    ensures r > lj.rcut ==> lj.EnergyForce(Sq(r)) == Finite(0.0, 0.0)
  {
    SqPositive(r);
    InvR6OfDistance(lj, r);
    if r <= lj.rcut {
      SqMonotone(r, lj.rcut);
    } else {
      SqStrict(lj.rcut, r);
    }
  }

  /** The shift is u(rcut) in the textbook form: 4ε[(σ/rcut)¹² - (σ/rcut)⁶]. */
  lemma CutoffShiftOfDistance(lj: LennardJones)
    requires lj.shift && lj.rcut != 0.0
    ensures lj.CutoffShift() == 4.0 * lj.epsilon * (Pow(lj.sigma / lj.rcut, 12) - Pow(lj.sigma / lj.rcut, 6))
  {
    InvR6OfDistance(lj, lj.rcut);
  }

  /** The potential of the unit tests: ε = 1.5, σ = 0.5, rcut = 2.5, unshifted. */
  function TestPotential(): LennardJones
  {
    LennardJones(1.5, 0.5, 2.5, false)
  }

  /** For σ = 0.5, the squared distance of the minimum lies below 1/2. */
  lemma TestMinimumBelowHalf(rsq: real)
    requires rsq > 0.0 && TestPotential().InvR6(rsq) == 0.5
    ensures rsq < 0.5
  {
    var c := Sq(0.5) / rsq;
    assert c * rsq == 0.25;
    if c <= 0.5 {
      assert c >= 0.0;
      CubeMonotone(c, 0.5);
      assert false;
    }
    if rsq >= 0.5 {
      MulStrict(0.5, c, rsq);
      MulLeft(0.5, rsq, 0.5);
      assert false;
    }
  }

  /** The scalar case of the `energy_force` test: u = 0 and f/r = 24ε/σ² = 144 at r = σ. */
  lemma TestEnergyAtSigma()
    ensures TestPotential().EnergyForce(0.25) == Finite(0.0, 144.0)
  {
    EnergyForceAtSigma(TestPotential());
    assert Sq(0.5) == 0.25;
  }

  /** The array case of the `energy_force` test: u = -ε and f = 0 at the minimum, zero
      beyond the cutoff at r = 3, infinite at r = 0. */
  lemma TestEnergyForce(rmin2: real)
    requires rmin2 > 0.0 && TestPotential().InvR6(rmin2) == 0.5
    ensures TestPotential().EnergyForceAll([rmin2, 9.0, 0.0])
         == [Finite(-1.5, 0.0), Finite(0.0, 0.0), Infinite]
  {
    var lj := TestPotential();
    TestMinimumBelowHalf(rmin2);
    EnergyForceAtMinimum(lj, rmin2);
  }

  /** The shifting test: with the cutoff moved to the minimum rmin, the energies at rmin
      and at r = 1.5 are -1.5 and 0 unshifted, and both 0 shifted. */
  lemma TestEnergyShift(rmin: real)
    requires rmin > 0.0 && Sq(rmin) > 0.0 && TestPotential().InvR6(Sq(rmin)) == 0.5
    ensures var plain := TestPotential().(rcut := rmin);
      && plain.EnergyForce(Sq(rmin)).u == -1.5
      && plain.EnergyForce(2.25).u == 0.0
    ensures var shifted := TestPotential().(rcut := rmin, shift := true);
      && shifted.EnergyForce(Sq(rmin)).u == 0.0
      && shifted.EnergyForce(2.25).u == 0.0
  {
    var plain := TestPotential().(rcut := rmin);
    var shifted := TestPotential().(rcut := rmin, shift := true);
    SqPositive(rmin);
    TestMinimumBelowHalf(Sq(rmin));
    assert plain.InvR6(Sq(rmin)) == 0.5;
    EnergyForceAtMinimum(plain, Sq(rmin));
    assert shifted.InvR6(Sq(rmin)) == 0.5;
    EnergyForceAtMinimum(shifted, Sq(rmin));
    assert shifted.CutoffShift() == shifted.RawEnergy(Sq(rmin)) == -1.5;
  }

  /** The `compute` test: three particles in a cubic box of edge 10 at (0,0,0), (0,0.5,0)
      and (0,0,9.5). Pairs (0,1) and (0,2) sit at r = σ (the latter across the boundary)
      and contribute nothing; pair (1,2) sits at r² = 1/2 and contributes
      4ε(2⁻⁶ - 2⁻³). The forces add up to zero. */
  lemma TestCompute(L: Vec, pos: seq<Vec>)
    requires L == Vec(10.0, 10.0, 10.0)
    requires pos == [Vec(0.0, 0.0, 0.0), Vec(0.0, 0.5, 0.0), Vec(0.0, 0.0, 9.5)]
    ensures PairSumsOf(TestPotential(), L, pos).Sums?
    ensures SumReals(PairSumsOf(TestPotential(), L, pos).energies) == 4.0 * 1.5 * (1.0 / 64.0 - 1.0 / 8.0)
    ensures Sum(PairSumsOf(TestPotential(), L, pos).forces) == Zero
  {
    TestApart(L, pos);
    TestTotalEnergy(L, pos);
    ComputeTotals(TestPotential(), L, pos);
  }

  lemma TestApart(L: Vec, pos: seq<Vec>)
    requires L == Vec(10.0, 10.0, 10.0)
    requires pos == [Vec(0.0, 0.0, 0.0), Vec(0.0, 0.5, 0.0), Vec(0.0, 0.0, 9.5)]
    ensures Apart(L, pos)
  {
    TestSeparations(L, pos);
    ApartOfThree(L, pos);
  }

  lemma TestTotalEnergy(L: Vec, pos: seq<Vec>)
    requires L == Vec(10.0, 10.0, 10.0)
    requires pos == [Vec(0.0, 0.0, 0.0), Vec(0.0, 0.5, 0.0), Vec(0.0, 0.0, 9.5)]
    ensures TotalPairEnergy(TestPotential(), L, pos) == 4.0 * 1.5 * (1.0 / 64.0 - 1.0 / 8.0)
  {
    TestRowsEnergy(L, pos);
  }

  lemma TestRowsEnergy(L: Vec, pos: seq<Vec>)
    requires L == Vec(10.0, 10.0, 10.0)
    requires pos == [Vec(0.0, 0.0, 0.0), Vec(0.0, 0.5, 0.0), Vec(0.0, 0.0, 9.5)]
    ensures RowsEnergy(PairTableOf(TestPotential(), L, pos), 3, 0) == 4.0 * 1.5 * (1.0 / 64.0 - 1.0 / 8.0)
  {
    var t := PairTableOf(TestPotential(), L, pos);
    assert EnergyOf(t(0, 1).0) == 0.0 by {
      TestSeparations(L, pos);
      TestNorms();
      TestPairAtSigma(L, pos, 0, 1, Vec(0.0, 0.5, 0.0));
    }
    assert EnergyOf(t(0, 2).0) == 0.0 by {
      TestSeparations(L, pos);
      TestNorms();
      TestPairAtSigma(L, pos, 0, 2, Vec(0.0, 0.0, -0.5));
    }
    assert EnergyOf(t(1, 2).0) == 4.0 * 1.5 * (1.0 / 64.0 - 1.0 / 8.0) by {
      TestSeparations(L, pos);
      TestNorms();
      TestPairAtHalf(L, pos, 1, 2, Vec(0.0, -0.5, -0.5));
    }
    ThreeParticleEnergy(t);
  }

  lemma TestNorms()
    ensures Norm2(Vec(0.0, 0.5, 0.0)) == 0.25 && Norm2(Vec(0.0, 0.0, -0.5)) == 0.25
    ensures Norm2(Vec(0.0, -0.5, -0.5)) == 0.5
  {
    DotSelf(Vec(0.0, 0.0, -0.5));
    DotSelf(Vec(0.0, -0.5, -0.5));
    assert Sq(-0.5) == 0.25;
  }

  lemma ThreeParticleEnergy(t: PairTable)
    ensures RowsEnergy(t, 3, 0) == EnergyOf(t(0, 1).0) + EnergyOf(t(0, 2).0) + EnergyOf(t(1, 2).0)
  {
    assert RowsEnergy(t, 3, 2) == 0.0;
    assert RowEnergy(t, 3, 1, 3) == 0.0;
    assert RowEnergy(t, 3, 0, 2) == EnergyOf(t(0, 2).0);
  }

  lemma ApartOfThree(L: Vec, pos: seq<Vec>)
    requires Positive(L) && |pos| == 3
    requires Separation(L, pos, 0, 1) != Zero && Separation(L, pos, 0, 2) != Zero
    requires Separation(L, pos, 1, 2) != Zero
    ensures Apart(L, pos)
  {
    forall a: nat, b: nat | a < b < |pos|
      ensures Separation(L, pos, a, b) != Zero
    {
      if a == 0 && b == 1 {
      } else if a == 0 {
        assert b == 2;
      } else {
        assert a == 1 && b == 2;
      }
    }
  }

  lemma TableEntry(lj: LennardJones, L: Vec, pos: seq<Vec>, i: nat, j: nat)
    requires Positive(L) && i < |pos| && j < |pos|
    ensures PairTableOf(lj, L, pos)(i, j) == (PairAt(lj, L, pos, i, j), Separation(L, pos, i, j))
  {
  }

  /** A pair of the `compute` test at r² = σ² contributes nothing. */
  lemma TestPairAtSigma(L: Vec, pos: seq<Vec>, i: nat, j: nat, d: Vec)
    requires Positive(L) && i < |pos| && j < |pos|
    requires Separation(L, pos, i, j) == d && Norm2(d) == 0.25
    ensures EnergyOf(PairTableOf(TestPotential(), L, pos)(i, j).0) == 0.0
  {
    TestEnergyAtSigma();
    PairEnergyIs(TestPotential(), L, pos, i, j, d, 0.25, 0.0);
  }

  /** A pair of the `compute` test at r² = 1/2 contributes 4ε(2⁻⁶ - 2⁻³). */
  lemma TestPairAtHalf(L: Vec, pos: seq<Vec>, i: nat, j: nat, d: Vec)
    requires Positive(L) && i < |pos| && j < |pos|
    requires Separation(L, pos, i, j) == d && Norm2(d) == 0.5
    ensures EnergyOf(PairTableOf(TestPotential(), L, pos)(i, j).0) == 4.0 * 1.5 * (1.0 / 64.0 - 1.0 / 8.0)
  {
    TestEnergyAtHalf();
    PairEnergyIs(TestPotential(), L, pos, i, j, d, 0.5, 4.0 * 1.5 * (1.0 / 64.0 - 1.0 / 8.0));
  }

  /** Pair (i, j) contributes energy u when its separation is d and u(|d|) = u. */
  lemma PairEnergyIs(lj: LennardJones, L: Vec, pos: seq<Vec>, i: nat, j: nat, d: Vec, rsq: real, u: real)
    requires Positive(L) && i < |pos| && j < |pos|
    requires Separation(L, pos, i, j) == d && Norm2(d) == rsq && rsq >= 0.0
    requires lj.EnergyForce(rsq).Finite? && lj.EnergyForce(rsq).u == u
    ensures EnergyOf(PairTableOf(lj, L, pos)(i, j).0) == u
  {
    TableEntry(lj, L, pos, i, j);
  }

  lemma TestEnergyAtHalf()
    ensures TestPotential().EnergyForce(0.5).u == 4.0 * 1.5 * (1.0 / 64.0 - 1.0 / 8.0)
  {
    var lj := TestPotential();
    assert lj.InvR6(0.5) == 0.125;
    assert Sq(0.125) == 1.0 / 64.0;
    assert Sq(lj.rcut) == 6.25;
  }

  /** The separation of i and j is `d` when `d` lies in the half box and the plain
      difference of the positions is a periodic copy of `d`. */
  lemma SeparationIs(L: Vec, pos: seq<Vec>, i: nat, j: nat, d: Vec, k: Image)
    requires Positive(L) && i < |pos| && j < |pos| && InHalfBox(L, d)
    requires Sub(pos[j], pos[i]) == Unwrap(L, d, k)
    ensures Separation(L, pos, i, j) == d
  {
    MinImageVecPeriodic(L, d, k);
    MinImageVecInside(L, d);
  }

  /** The minimum-image separations of the `compute` test: (0,1) lies inside the half box,
      (0,2) and (1,2) reach across the boundary at z = 10. */
  lemma TestSeparations(L: Vec, pos: seq<Vec>)
    requires L == Vec(10.0, 10.0, 10.0)
    requires pos == [Vec(0.0, 0.0, 0.0), Vec(0.0, 0.5, 0.0), Vec(0.0, 0.0, 9.5)]
    ensures Separation(L, pos, 0, 1) == Vec(0.0, 0.5, 0.0)
    ensures Separation(L, pos, 0, 2) == Vec(0.0, 0.0, -0.5)
    ensures Separation(L, pos, 1, 2) == Vec(0.0, -0.5, -0.5)
  {
    TestSeparation(L, pos, 0, 1, Vec(0.0, 0.5, 0.0), NoImage);
    TestSeparation(L, pos, 0, 2, Vec(0.0, 0.0, -0.5), Image(0, 0, 1));
    TestSeparation(L, pos, 1, 2, Vec(0.0, -0.5, -0.5), Image(0, 0, 1));
  }

  lemma TestSeparation(L: Vec, pos: seq<Vec>, i: nat, j: nat, d: Vec, k: Image)
    requires L == Vec(10.0, 10.0, 10.0) && i < |pos| && j < |pos|
    requires -5.0 <= d.x < 5.0 && -5.0 <= d.y < 5.0 && -5.0 <= d.z < 5.0
    requires Sub(pos[j], pos[i]) == Vec(d.x + 10.0 * (k.x as real), d.y + 10.0 * (k.y as real), d.z + 10.0 * (k.z as real))
    ensures Separation(L, pos, i, j) == d
  {
    assert Sub(pos[j], pos[i]) == Unwrap(L, d, k);
    SeparationIs(L, pos, i, j, d, k);
  }
}
