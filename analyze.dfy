/** Thermodynamic properties of a `State`: kinetic and potential energy, the thermal
    energy kT from equipartition, and the virial pressure. */
module Analyze {
  import opened Base
  import opened Arith
  import opened Vectors
  import opened Periodic
  import opened MolState
  import opened Potential
  import opened Dynamics

  /** A sum of non-negative terms is non-negative, and zero exactly when every term is. */
  lemma {:induction false} SumNonNegative(s: seq<real>)
    requires forall i :: 0 <= i < |s| ==> s[i] >= 0.0
    ensures SumReals(s) >= 0.0
    ensures SumReals(s) == 0.0 <==> forall i :: 0 <= i < |s| ==> s[i] == 0.0
  {
    if |s| > 0 {
      SumNonNegative(s[1..]);
      assert forall i :: 1 <= i < |s| ==> s[i] == s[1..][i - 1];
    }
  }

  /** The kinetic energy ½ m a·a of one particle of mass `m` and velocity `a`. */
  function KineticTerm(m: real, a: Vec): real
  {
    Mul(0.5 * m, Dot(a, a))
  }

  /** For a positive mass, a particle's kinetic energy is never negative, and zero exactly
      when the particle is at rest. */
  lemma KineticTermSign(m: real, a: Vec)
    requires m > 0.0
    ensures KineticTerm(m, a) >= 0.0 && (KineticTerm(m, a) == 0.0 <==> a == Zero)
  {
    DotSelfNonNegative(a);
    if a != Zero {
      DotSelfPositive(a);
      MulPositive(0.5 * m, Dot(a, a));
    }
  }

  /** The kinetic energy of each particle. */
  function KineticTerms(m: real, v: seq<Vec>): (k: seq<real>)
    requires m > 0.0
    ensures |k| == |v|
    ensures forall i :: 0 <= i < |v| ==> k[i] >= 0.0 && (k[i] == 0.0 <==> v[i] == Zero)
  {
    var k := seq(|v|, i requires 0 <= i < |v| => KineticTerm(m, v[i]));
    forall i | 0 <= i < |v|
      ensures k[i] >= 0.0 && (k[i] == 0.0 <==> v[i] == Zero)
    {
      KineticTermSign(m, v[i]);
    }
    k
  }

  /** E_k = Σ ½ m v_i·v_i of velocities `v` and mass `m`. */
  function Kinetic(m: real, v: seq<Vec>): (e: real)
    requires m > 0.0
    ensures e >= 0.0
    ensures e == 0.0 <==> forall i :: 0 <= i < |v| ==> v[i] == Zero
  {
    var k := KineticTerms(m, v);
    SumNonNegative(k);
    AtRestTerms(m, v);
    SumReals(k)
  }

  /** Every kinetic term is zero exactly when every particle is at rest. */
  lemma AtRestTerms(m: real, v: seq<Vec>)
    requires m > 0.0
    ensures (forall i :: 0 <= i < |v| ==> KineticTerms(m, v)[i] == 0.0)
        <==> (forall i :: 0 <= i < |v| ==> v[i] == Zero)
  {
    var k := KineticTerms(m, v);
    if forall i :: 0 <= i < |v| ==> k[i] == 0.0 {
      forall i | 0 <= i < |v|
        ensures v[i] == Zero
      {
        assert k[i] == 0.0;
      }
    }
    if forall i :: 0 <= i < |v| ==> v[i] == Zero {
      forall i | 0 <= i < |v|
        ensures k[i] == 0.0
      {
        assert v[i] == Zero;
      }
    }
  }

  /** A sum whose every term is zero is zero. */
  lemma SumOfZeros(s: seq<real>)
    ensures (forall i :: 0 <= i < |s| ==> s[i] == 0.0) ==> SumReals(s) == 0.0
  {
    if forall i :: 0 <= i < |s| ==> s[i] == 0.0 {
      SumNonNegative(s);
    }
  }

  /** Σ r_i·F_i of positions `r` and forces `f`: without forces it vanishes, whatever the
      positions. */
  function Virial(r: seq<Vec>, f: seq<Vec>): (w: real)
    requires |r| == |f|
    ensures (forall i :: 0 <= i < |f| ==> f[i] == Zero) ==> w == 0.0
  {
    var s := seq(|r|, i requires 0 <= i < |r| => Dot(r[i], f[i]));
    SumOfZeros(s);
    SumReals(s)
  }

  /** `kinetic_energy(state)`: never negative, and zero exactly when every particle is at
      rest. The velocities must be present. */
  function KineticEnergy(state: State): (e: real)
    reads state, state.box
    requires state.Valid() && state.velocities.Some?
    ensures e >= 0.0
    ensures e == 0.0 <==> forall i :: 0 <= i < state.N ==> state.velocities.value[i] == Zero
  {
    Kinetic(state.mass, state.velocities.value)
  }

  /** `potential_energy(state)`: the per-particle energies added up. When they are the
      values a Lennard-Jones potential stored, this is the pair energy summed once over
      every unordered pair. */
  function PotentialEnergy(state: State): (u: real)
    reads state, state.box
    requires state.Valid() && state.energies.Some?
    ensures forall lj: LennardJones :: Consistent(LennardJonesField(lj), state.box.L, state.Snap()) ==>
      u == TotalPairEnergy(lj, state.box.L, state.positions)
  {
    PairEnergies(state.box.L, state.Snap());
    SumReals(state.energies.value)
  }

  lemma PairEnergies(L: Vec, s: Snapshot)
    requires Positive(L) && s.energies.Some?
    ensures forall lj: LennardJones :: Consistent(LennardJonesField(lj), L, s) ==>
      SumReals(s.energies.value) == TotalPairEnergy(lj, L, s.positions)
  {
    forall lj: LennardJones | Consistent(LennardJonesField(lj), L, s)
      ensures SumReals(s.energies.value) == TotalPairEnergy(lj, L, s.positions)
    {
      ComputeTotals(lj, L, s.positions);
    }
  }

  /** `kT(state)` = 2 E_k / 3N from equipartition: never negative, and 3N/2 times it gives
      back the kinetic energy. */
  function KT(state: State): (t: real)
    reads state, state.box
    requires state.Valid() && state.velocities.Some? && state.N > 0
    ensures t >= 0.0
    ensures Mul(1.5 * (state.N as real), t) == KineticEnergy(state)
  {
    var e := KineticEnergy(state);
    var n := state.N as real;
    Equipartition(e, n, 2.0 * e / (3.0 * n));
    2.0 * e / (3.0 * n)
  }

  /** t = 2e / 3n is non-negative for e >= 0, and (3n/2) t == e. */
  lemma Equipartition(e: real, n: real, t: real)
    requires e >= 0.0 && n > 0.0 && t == 2.0 * e / (3.0 * n)
    ensures t >= 0.0 && Mul(1.5 * n, t) == e
  {
    DivMul(2.0 * e, 3.0 * n);
    assert t * (3.0 * n) == 2.0 * e;
    if t < 0.0 {
      MulPositive(-t, 3.0 * n);
      assert false;
    }
  }

  /** `pressure(state)` = N kT / V + Σ r_i·F_i / 3V from the virial theorem, with the stored
      positions and forces; equivalently 3PV = 2 E_k + Σ r_i·F_i. */
  function Pressure(state: State): (p: real)
    reads state, state.box
    requires state.Valid() && state.velocities.Some? && state.forces.Some? && state.N > 0
    ensures Mul(3.0 * state.box.Volume(), p)
            == 2.0 * KineticEnergy(state) + Virial(state.positions, state.forces.value)
  {
    var v := state.box.Volume();
    var n := state.N as real;
    var w := Virial(state.positions, state.forces.value);
    var t := KT(state);
    PressureForm(n, t, KineticEnergy(state), w, v);
    n * t / v + w / (3.0 * v)
  }

  /** 3V (n t / V + w / 3V) == 2 e + w when (3n/2) t == e. */
  lemma PressureForm(n: real, t: real, e: real, w: real, v: real)
    requires v > 0.0 && Mul(1.5 * n, t) == e
    ensures Mul(3.0 * v, n * t / v + w / (3.0 * v)) == 2.0 * e + w
  {
    DivMul(n * t, v);
    DivMul(w, 3.0 * v);
    assert 3.0 * v * (n * t / v) == 3.0 * (n * t);
    assert 3.0 * v * (w / (3.0 * v)) == w;
  }

  /** Without forces the pressure is that of an ideal gas: PV = N kT. */
  lemma IdealGas(state: State)
    requires state.Valid() && state.velocities.Some? && state.forces.Some? && state.N > 0
    requires state.forces.value == Zeros(state.N)
    ensures Mul(Pressure(state), state.box.Volume()) == Mul(state.N as real, KT(state))
  {
    var v := state.box.Volume();
    var n := state.N as real;
    var t := KT(state);
    var p := Pressure(state);
    assert Mul(3.0 * v, p) == 2.0 * KineticEnergy(state);
    assert Mul(3.0 * v, p) == 3.0 * Mul(p, v);
    assert 2.0 * KineticEnergy(state) == 3.0 * Mul(n, t);
  }

  /** Σ F·u_i over positions `u`: the work a constant force F does in carrying every
      particle there from the origin, so that -Σ F·u_i is the potential energy in that
      field. */
  function Work(F: Vec, u: seq<Vec>): real
  {
    SumReals(seq(|u|, i requires 0 <= i < |u| => Dot(F, u[i])))
  }

  /** Under a constant force the velocity Verlet step conserves the energy exactly: the
      kinetic energy gained equals the work done along the unwrapped path, so
      E_k - Σ F·u_i does not change. The stored per-particle energies use the wrapped
      positions instead and jump when a particle crosses the box. */
  lemma ConstantForceConservesEnergy(F: Vec, dt: real, L: Vec, s: Snapshot)
    requires Positive(L) && s.mass > 0.0 && Shaped(s)
    requires s.forces.Some? ==> s.forces.value == Uniform(|s.positions|, F)
    ensures var t := Step(ConstantForce(F), dt, L, s);
      && Shaped(t) && |t.positions| == |s.positions| && t.velocities.Some?
      && Kinetic(s.mass, t.velocities.value) - Work(F, UnwrapAll(L, t.positions, t.images))
         == Kinetic(s.mass, WithVelocities(s).velocities.value) - Work(F, UnwrapAll(L, s.positions, s.images))
  {
    var t := Step(ConstantForce(F), dt, L, s);
    var m := s.mass;
    ConstantForceUnwrapped(F, dt, L, s);
    Coefficients(m, dt, dt / m, dt * dt / (2.0 * m));
    ConservedBySteps(m, dt, dt / m, dt * dt / (2.0 * m), F, WithVelocities(s).velocities.value,
      t.velocities.value, UnwrapAll(L, s.positions, s.images), UnwrapAll(L, t.positions, t.images));
  }

  /** The step in a constant field stated on the unwrapped position arrays. */
  lemma ConstantForceUnwrapped(F: Vec, dt: real, L: Vec, s: Snapshot)
    requires Positive(L) && s.mass > 0.0 && Shaped(s)
    requires s.forces.Some? ==> s.forces.value == Uniform(|s.positions|, F)
    ensures var t := Step(ConstantForce(F), dt, L, s);
      var v := WithVelocities(s).velocities.value;
      var u := UnwrapAll(L, s.positions, s.images);
      var u' := UnwrapAll(L, t.positions, t.images);
      && Shaped(t) && |t.positions| == |s.positions| && t.velocities.Some?
      && |v| == |t.velocities.value| == |u| == |u'|
      && forall i :: 0 <= i < |v| ==>
           && t.velocities.value[i] == Add(v[i], Scale(dt / s.mass, F))
           && u'[i] == Add(Add(u[i], Scale(dt, v[i])), Scale(dt * dt / (2.0 * s.mass), F))
  {
    var t := Step(ConstantForce(F), dt, L, s);
    StepOutcome(ConstantForce(F), dt, L, s);
    ConstantForceStep(F, dt, L, s);
    var u := UnwrapAll(L, s.positions, s.images);
    var u' := UnwrapAll(L, t.positions, t.images);
    forall i | 0 <= i < |s.positions|
      ensures u[i] == Unwrap(L, s.positions[i], s.images[i])
      ensures u'[i] == Unwrap(L, t.positions[i], t.images[i])
    {
    }
  }

  /** Every particle kicked by aF and moved by dt v + cF conserves E_k - Σ F·u_i. */
  lemma ConservedBySteps(m: real, dt: real, a: real, c: real, F: Vec,
                         v: seq<Vec>, v': seq<Vec>, u: seq<Vec>, u': seq<Vec>)
    requires m > 0.0 && m * a == dt && 2.0 * c == dt * a
    requires |v| == |v'| == |u| == |u'|
    requires forall i :: 0 <= i < |v| ==>
      v'[i] == Add(v[i], Scale(a, F)) && u'[i] == Add(Add(u[i], Scale(dt, v[i])), Scale(c, F))
    ensures Kinetic(m, v') - Work(F, u') == Kinetic(m, v) - Work(F, u)
  {
    var n := |v|;
    var k' := KineticTerms(m, v');
    var k := KineticTerms(m, v);
    var w' := seq(n, i requires 0 <= i < n => Dot(F, u'[i]));
    var w := seq(n, i requires 0 <= i < n => Dot(F, u[i]));
    forall i | 0 <= i < n
      ensures k'[i] - w'[i] == k[i] - w[i]
    {
      ParticleEnergy(m, dt, a, c, F, v[i], u[i]);
    }
    SumDifference(k', w', k, w);
  }

  lemma Coefficients(m: real, dt: real, a: real, c: real)
    requires m > 0.0 && a == dt / m && c == dt * dt / (2.0 * m)
    ensures m * a == dt && 2.0 * c == dt * a
  {
  }

  /** Sums of equal termwise differences are equal. */
  lemma {:induction false} SumDifference(x: seq<real>, y: seq<real>, x': seq<real>, y': seq<real>)
    requires |x| == |y| == |x'| == |y'|
    requires forall i :: 0 <= i < |x| ==> x[i] - y[i] == x'[i] - y'[i]
    ensures SumReals(x) - SumReals(y) == SumReals(x') - SumReals(y')
  {
    if |x| > 0 {
      SumDifference(x[1..], y[1..], x'[1..], y'[1..]);
    }
  }

  /** One particle's share of the conservation: with a = dt/m and c = dt²/2m,
      ½m|v + aF|² - F·(u + dt v + cF) == ½m|v|² - F·u. */
  lemma ParticleEnergy(m: real, dt: real, a: real, c: real, F: Vec, v: Vec, u: Vec)
    requires m > 0.0 && m * a == dt && 2.0 * c == dt * a
    ensures KineticTerm(m, Add(v, Scale(a, F))) - Dot(F, Add(Add(u, Scale(dt, v)), Scale(c, F)))
            == KineticTerm(m, v) - Dot(F, u)
  {
    KickedSquare(v, a, F);
    DriftedDot(F, u, dt, v, c);
    ScalarEnergy(m, dt, a, c, Dot(v, v), Dot(F, v), Dot(F, F), Dot(F, u));
  }

  /** |v + aF|² == |v|² + 2a F·v + a(a F·F). */
  lemma KickedSquare(v: Vec, a: real, F: Vec)
    ensures Dot(Add(v, Scale(a, F)), Add(v, Scale(a, F)))
            == Dot(v, v) + 2.0 * Mul(a, Dot(F, v)) + Mul(a, Mul(a, Dot(F, F)))
  {
    var S := Scale(a, F);
    var w := Add(v, S);
    assert Dot(w, w) == Dot(v, w) + Dot(S, w) by {
      DotAdd(v, S, w);
    }
    assert Dot(v, w) == Dot(v, v) + Mul(a, Dot(F, v)) by {
      DotSymmetric(v, w);
      DotAdd(v, S, v);
      DotScale(a, F, v);
    }
    assert Dot(S, w) == Mul(a, Dot(F, v)) + Mul(a, Mul(a, Dot(F, F))) by {
      DotScale(a, F, w);
      DotSymmetric(F, w);
      DotAdd(v, S, F);
      DotSymmetric(v, F);
      DotScale(a, F, F);
      Distribute(a, Dot(F, w), Dot(F, v), Mul(a, Dot(F, F)));
    }
  }

  lemma Distribute(k: real, s: real, p: real, q: real)
    requires s == p + q
    ensures Mul(k, s) == Mul(k, p) + Mul(k, q)
  {
  }

  /** F·(u + dt v + cF) == F·u + dt F·v + c F·F. */
  lemma DriftedDot(F: Vec, u: Vec, dt: real, v: Vec, c: real)
    ensures Dot(F, Add(Add(u, Scale(dt, v)), Scale(c, F)))
            == Dot(F, u) + Mul(dt, Dot(F, v)) + Mul(c, Dot(F, F))
  {
    var A := Add(u, Scale(dt, v));
    var X := Add(A, Scale(c, F));
    assert Dot(X, F) == Dot(A, F) + Mul(c, Dot(F, F)) by {
      DotAdd(A, Scale(c, F), F);
      DotScale(c, F, F);
    }
    assert Dot(A, F) == Dot(u, F) + Mul(dt, Dot(v, F)) by {
      DotAdd(u, Scale(dt, v), F);
      DotScale(dt, v, F);
    }
    DotSymmetric(F, X);
    DotSymmetric(F, u);
    DotSymmetric(F, v);
  }

  /** The scalar identity behind `ParticleEnergy`, with V = |v|², P = F·v, Q = F·F, U = F·u. */
  lemma ScalarEnergy(m: real, dt: real, a: real, c: real, V: real, P: real, Q: real, U: real)
    requires m > 0.0 && m * a == dt && 2.0 * c == dt * a
    ensures Mul(0.5 * m, V + 2.0 * Mul(a, P) + Mul(a, Mul(a, Q))) - (U + Mul(dt, P) + Mul(c, Q))
            == Mul(0.5 * m, V) - U
  {
    assert 0.5 * m * (2.0 * (a * P)) == (m * a) * P;
    assert 0.5 * m * (a * (a * Q)) == 0.5 * ((m * a) * a) * Q;
  }

  /** Two particles of mass 10 in a box of edge 10 at (1,1,1) and (2,2,2), with velocities
      (1,-1,1) and (-2,2,-2), energies 3 and -4 and forces ±(1,2,3): E_k = 75, U = -1,
      kT = 25 and P = 2·25/10³ + (6 - 12)/(3·10³). */
  lemma TestThermodynamics(state: State)
    requires state.Valid() && state.N == 2 && state.box.L == Vec(10.0, 10.0, 10.0) && state.mass == 10.0
    requires state.positions == [Vec(1.0, 1.0, 1.0), Vec(2.0, 2.0, 2.0)]
    requires state.velocities == Some([Vec(1.0, -1.0, 1.0), Vec(-2.0, 2.0, -2.0)])
    requires state.energies == Some([3.0, -4.0])
    requires state.forces == Some([Vec(1.0, 2.0, 3.0), Vec(-1.0, -2.0, -3.0)])
    ensures KineticEnergy(state) == 75.0
    ensures PotentialEnergy(state) == -1.0
    ensures KT(state) == 25.0
    ensures Pressure(state) == 2.0 * 25.0 / 1000.0 + (6.0 - 12.0) / (3.0 * 1000.0)
  {
    var k := KineticTerms(10.0, state.velocities.value);
    assert k[0] == 15.0 && k[1] == 60.0;
    assert SumReals(k) == 75.0 by {
      assert k[1..][1..] == [];
      assert SumReals(k[1..]) == 60.0;
    }
    assert PotentialEnergy(state) == -1.0 by {
      assert state.energies.value[1..][1..] == [];
    }
    assert Virial(state.positions, state.forces.value) == -6.0 by {
      var r := state.positions;
      var f := state.forces.value;
      var s := seq(2, i requires 0 <= i < 2 => Dot(r[i], f[i]));
      assert s[0] == 6.0 && s[1] == -12.0 && s[1..][1..] == [];
      assert SumReals(s[1..]) == -12.0;
      assert Virial(r, f) == SumReals(s);
    }
    assert state.box.Volume() == 1000.0;
  }
}
