/** Velocity Verlet integration of a `State`: a half kick with the old forces, a drift
    with the half-step velocities, a wrap back into the box, new forces at the new
    positions and a second half kick. */
module Dynamics {
  import opened Base
  import opened Vectors
  import opened Periodic
  import opened MolState
  import opened Potential

  /** The potential an integrator evaluates: the Lennard-Jones pair potential, or a
      constant force `f` on every particle with energy `-f·r`, which is the stand-in the
      integrator is checked against. */
  datatype ForceField = LennardJonesField(lj: LennardJones) | ConstantForce(f: Vec)
  {
    /** The per-particle energies and forces of the field at positions `pos`. */
    function Evaluate(L: Vec, pos: seq<Vec>): (r: PairSums)
      requires Positive(L)
      ensures Fits(r, |pos|)
      ensures ConstantForce? ==> r.Sums?
    {
      match this
      case LennardJonesField(lj) => PairSumsOf(lj, L, pos)
      case ConstantForce(F) => Sums(LinearEnergies(F, pos), Uniform(|pos|, F))
    }

    /** `compute(state)` of the field. */
    method Compute(state: State) returns (r: PairSums)
      requires state.Valid()
      ensures r == Evaluate(state.box.L, state.positions)
    {
      match this
      case LennardJonesField(lj) =>
        r := lj.Compute(state);
      case ConstantForce(F) =>
        r := Sums(LinearEnergies(F, state.positions), Uniform(|state.positions|, F));
    }
  }

  /** The energy `-F·r_i` of each particle in the constant field F. */
  function LinearEnergies(F: Vec, pos: seq<Vec>): (u: seq<real>)
    ensures |u| == |pos|
  {
    seq(|pos|, i requires 0 <= i < |pos| => -Dot(F, pos[i]))
  }

  /** The same vector for each of n particles. */
  function Uniform(n: nat, F: Vec): seq<Vec>
  {
    seq(n, _ => F)
  }

  /** `v + h·f` for every particle. */
  function Kick(v: seq<Vec>, f: seq<Vec>, h: real): (w: seq<Vec>)
    requires |v| == |f|
    ensures |w| == |v|
  {
    seq(|v|, i requires 0 <= i < |v| => Add(v[i], Scale(h, f[i])))
  }

  /** `r + dt·v` for every particle. */
  function Drift(r: seq<Vec>, v: seq<Vec>, dt: real): (d: seq<Vec>)
    requires |r| == |v|
    ensures |d| == |r|
  {
    Kick(r, v, dt)
  }

  /** Every array of a snapshot has one row per particle. */
  predicate Shaped(s: Snapshot)
  {
    && |s.images| == |s.positions|
    && (s.velocities.Some? ==> |s.velocities.value| == |s.positions|)
    && (s.energies.Some? ==> |s.energies.value| == |s.positions|)
    && (s.forces.Some? ==> |s.forces.value| == |s.positions|)
  }

  /** Absent velocities default to zero. */
  function WithVelocities(s: Snapshot): Snapshot
  {
    if s.velocities.Some? then s else s.(velocities := Some(Zeros(|s.positions|)))
  }

  /** Energies and forces replaced by the field's values at the current positions; both
      are left absent when two particles overlap and the values are infinite. */
  function Evaluated(ff: ForceField, L: Vec, s: Snapshot): Snapshot
    requires Positive(L)
  {
    match ff.Evaluate(L, s.positions)
    case Overlapped => s.(energies := None, forces := None)
    case Sums(e, f) => s.(energies := Some(e), forces := Some(f))
  }

  /** The snapshot before the first kick: velocities present, and forces computed once
      if they are absent. */
  function Started(ff: ForceField, L: Vec, s: Snapshot): Snapshot
    requires Positive(L)
  {
    var s1 := WithVelocities(s);
    if s1.forces.Some? then s1 else Evaluated(ff, L, s1)
  }

  /** `v ← v + (dt / 2m)·f` with the stored forces. */
  function HalfKick(dt: real, s: Snapshot): Snapshot
    requires s.mass > 0.0 && s.velocities.Some? && s.forces.Some?
    requires |s.velocities.value| == |s.forces.value|
  {
    s.(velocities := Some(Kick(s.velocities.value, s.forces.value, dt / (2.0 * s.mass))))
  }

  /** `r ← r + dt·v`, then wrapped into the box with the crossed images counted. */
  function DriftAndWrap(L: Vec, dt: real, s: Snapshot): Snapshot
    requires Positive(L) && s.velocities.Some?
    requires |s.velocities.value| == |s.positions| == |s.images|
  {
    var r := Drift(s.positions, s.velocities.value, dt);
    s.(positions := WrapAll(L, r), images := AddImages(s.images, ShiftAll(L, r)))
  }

  /** The part of a step before the forces are recomputed: the half kick with the
      starting forces, then the drift with the half-step velocities and the wrap. */
  function Midway(ff: ForceField, dt: real, L: Vec, s: Snapshot): Snapshot
    requires Positive(L) && s.mass > 0.0 && Shaped(s) && Started(ff, L, s).forces.Some?
  {
    DriftAndWrap(L, dt, HalfKick(dt, Started(ff, L, s)))
  }

  /** The snapshot `advance` leaves in a box with edges `L`: the step stops, with energies
      and forces absent and the counter unchanged, where the field is infinite. */
  function Step(ff: ForceField, dt: real, L: Vec, s: Snapshot): (t: Snapshot)
    requires Positive(L) && s.mass > 0.0 && Shaped(s)
    ensures |t.positions| == |t.images| == |s.positions| && t.mass == s.mass
    ensures t.velocities.Some?
    ensures t.counter == if t.forces.Some? then s.counter + 1 else s.counter
  {
    var s1 := Started(ff, L, s);
    if s1.forces.None? then s1
    else
      var s2 := Evaluated(ff, L, Midway(ff, dt, L, s));
      if s2.forces.None? then s2 else HalfKick(dt, s2).(counter := s.counter + 1)
  }

  /** The stored energies and forces are the field's values at the stored positions. */
  predicate Consistent(ff: ForceField, L: Vec, s: Snapshot)
    requires Positive(L)
  {
    && s.energies.Some? && s.forces.Some?
    && ff.Evaluate(L, s.positions) == Sums(s.energies.value, s.forces.value)
  }

  /** Velocity Verlet integrator with time step `dt` and a force field. */
  class VelocityVerlet {
    var dt: real
    var potential: ForceField

    predicate Valid()
      reads this
    {
      dt >= 0.0
    }

    constructor Init(step: real, field: ForceField)
      requires step >= 0.0
      ensures Valid() && dt == step && potential == field
    {
      dt := step;
      potential := field;
    }

    /** `VelocityVerlet(dt, potential)`: the time step goes through the `dt` setter. */
    static method Create(step: real, field: ForceField) returns (r: Result<VelocityVerlet>)
      ensures step < 0.0 ==> r == Failure(ValueError("Timestep must be nonnegative"))
      ensures step >= 0.0 ==>
        r.Success? && fresh(r.value) && r.value.Valid() && r.value.dt == step && r.value.potential == field
    {
      if step < 0.0 {
        return Failure(ValueError("Timestep must be nonnegative"));
      }
      var v := new VelocityVerlet.Init(step, field);
      return Success(v);
    }

    /** The `dt` setter: a negative time step is refused and the old one kept. */
    method SetDt(value: real) returns (err: Option<Error>)
      modifies this
      ensures potential == old(potential)
      ensures value < 0.0 ==> err == Some(ValueError("Timestep must be nonnegative")) && dt == old(dt)
      ensures value >= 0.0 ==> err == None && dt == value
      ensures old(Valid()) ==> Valid()
    {
      if value < 0.0 {
        return Some(ValueError("Timestep must be nonnegative"));
      }
      dt := value;
      return None;
    }

    /** `advance(state)`: one velocity Verlet step in place, `completed` telling whether
        it ran to the end. */
    method Advance(state: State) returns (completed: bool)
      requires state.Valid()
      modifies state
      ensures state.box == old(state.box) && state.Valid()
      ensures state.Snap() == Step(potential, dt, state.box.L, old(state.Snap()))
      ensures completed <==> state.forces.Some?
    {
      ghost var s0 := state.Snap();
      ghost var L := state.box.L;
      completed := StartInPlace(state);
      if !completed {
        return;
      }
      KickInPlace(state);
      DriftInPlace(state);
      assert state.Snap() == Midway(potential, dt, L, s0);
      completed := EvaluateInPlace(state);
      if !completed {
        return;
      }
      KickInPlace(state);
      state.counter := state.counter + 1;
    }

    /** Absent velocities are set to zero and absent forces computed. */
    method StartInPlace(state: State) returns (started: bool)
      requires state.Valid()
      modifies state
      ensures state.box == old(state.box) && state.Valid()
      ensures state.Snap() == Started(potential, state.box.L, old(state.Snap()))
      ensures started <==> state.forces.Some?
    {
      ghost var s0 := state.Snap();
      if state.velocities.None? {
        state.velocities := Some(Zeros(state.N));
      }
      assert state.Snap() == WithVelocities(s0);
      started := true;
      if state.forces.None? {
        started := EvaluateInPlace(state);
      }
    }

    /** `state.energies, state.forces = potential.compute(state)`. */
    method EvaluateInPlace(state: State) returns (finite: bool)
      requires state.Valid()
      modifies state
      ensures state.box == old(state.box) && state.Valid()
      ensures state.Snap() == Evaluated(potential, state.box.L, old(state.Snap()))
      ensures finite <==> state.forces.Some?
    {
      ghost var s0 := state.Snap();
      var r := potential.Compute(state);
      assert Fits(r, state.N);
      if r.Overlapped? {
        state.energies, state.forces := None, None;
        assert state.Snap() == s0.(energies := None, forces := None);
        return false;
      }
      state.energies, state.forces := Some(r.energies), Some(r.forces);
      assert state.Snap() == s0.(energies := Some(r.energies), forces := Some(r.forces));
      return true;
    }

    /** `state.velocities += 0.5 * dt * state.forces / state.mass`. */
    method KickInPlace(state: State)
      requires state.Valid() && state.velocities.Some? && state.forces.Some?
      modifies state
      ensures state.box == old(state.box) && state.Valid()
      ensures state.Snap() == HalfKick(dt, old(state.Snap()))
    {
      var h := dt / (2.0 * state.mass);
      state.velocities := Some(Kick(state.velocities.value, state.forces.value, h));
    }

    /** `state.positions += dt * state.velocities`, then wrapped with the images updated. */
    method DriftInPlace(state: State)
      requires state.Valid() && state.velocities.Some?
      modifies state
      ensures state.box == old(state.box) && state.Valid()
      ensures state.Snap() == DriftAndWrap(state.box.L, dt, old(state.Snap()))
    {
      var L := state.box.L;
      var drifted := Drift(state.positions, state.velocities.value, dt);
      state.images := AddImages(state.images, ShiftAll(L, drifted));
      state.positions := WrapAll(L, drifted);
    }
  }

  /** What one step leaves behind: every array keeps one row per particle and velocities
      are present; a completed step has advanced the counter by one, wrapped every
      particle into the box and stored the field's values at the new positions, and a
      step stopped by an overlap leaves the counter alone with energies and forces absent.
      A constant field never stops a step. */
  lemma StepOutcome(ff: ForceField, dt: real, L: Vec, s: Snapshot)
    requires Positive(L) && s.mass > 0.0 && Shaped(s)
    ensures var t := Step(ff, dt, L, s);
      && Shaped(t) && |t.positions| == |s.positions| && t.mass == s.mass && t.velocities.Some?
      && (t.forces.Some? ==>
            && t.counter == s.counter + 1 && Consistent(ff, L, t)
            && forall i :: 0 <= i < |t.positions| ==> InBox(L, t.positions[i]))
      && (t.forces.None? ==> t.counter == s.counter && t.energies.None?)
      && (ff.ConstantForce? ==> t.forces.Some?)
  {
    var s1 := Started(ff, L, s);
    if s1.forces.Some? {
      var s2 := Evaluated(ff, L, Midway(ff, dt, L, s));
      if s2.forces.Some? {
        assert Step(ff, dt, L, s) == HalfKick(dt, s2).(counter := s.counter + 1);
        assert Consistent(ff, L, s2);
      }
    }
  }

  /** With the Lennard-Jones field a step runs to the end exactly when no two particles
      overlap where forces are computed: at the start (unless forces were stored) and at
      the new positions. */
  lemma LennardJonesStep(lj: LennardJones, dt: real, L: Vec, s: Snapshot)
    requires Positive(L) && s.mass > 0.0 && Shaped(s)
    ensures var t := Step(LennardJonesField(lj), dt, L, s);
      t.forces.Some? <==> (s.forces.Some? || Apart(L, s.positions)) && Apart(L, t.positions)
  {
    var ff := LennardJonesField(lj);
    var s1 := Started(ff, L, s);
    assert s1.forces.Some? <==> s.forces.Some? || Apart(L, s.positions) by {
      ComputeTotals(lj, L, s.positions);
    }
    if s1.forces.Some? {
      var s2 := Evaluated(ff, L, Midway(ff, dt, L, s));
      assert s2.forces.Some? <==> Apart(L, s2.positions) by {
        ComputeTotals(lj, L, s2.positions);
      }
      assert Step(ff, dt, L, s).positions == s2.positions;
    } else {
      assert Step(ff, dt, L, s) == s1;
    }
  }

  /** A completed step is the midway snapshot with the forces recomputed, a second half
      kick and the counter advanced. */
  lemma StepFromMidway(ff: ForceField, dt: real, L: Vec, s: Snapshot)
    requires Positive(L) && s.mass > 0.0 && Shaped(s)
    requires Step(ff, dt, L, s).forces.Some?
    ensures Started(ff, L, s).forces.Some?
    ensures var m := Evaluated(ff, L, Midway(ff, dt, L, s));
      && m.forces.Some? && m.velocities.Some? && |m.velocities.value| == |m.forces.value|
      && Step(ff, dt, L, s) == HalfKick(dt, m).(counter := s.counter + 1)
  {
    StepOutcome(ff, dt, L, s);
  }

  /** The velocity Verlet update of a completed step. With v and f the velocities and
      forces before the first kick and h = dt/2m, the half-step velocity is v + h·f, the
      unwrapped position of every particle moves by dt times it, and the final velocity
      adds h times the new force. */
  lemma StepMoves(ff: ForceField, dt: real, L: Vec, s: Snapshot)
    requires Positive(L) && s.mass > 0.0 && Shaped(s)
    requires Step(ff, dt, L, s).forces.Some?
    ensures var s1 := Started(ff, L, s);
      var t := Step(ff, dt, L, s);
      var h := dt / (2.0 * s.mass);
      && s1.velocities.Some? && s1.forces.Some? && t.velocities.Some? && t.forces.Some?
      && |s1.velocities.value| == |s1.forces.value| == |t.forces.value| == |s.positions|
      && var vh := Kick(s1.velocities.value, s1.forces.value, h);
      && t.velocities.value == Kick(vh, t.forces.value, h)
      && forall i :: 0 <= i < |s.positions| ==>
           Unwrap(L, t.positions[i], t.images[i]) == Add(Unwrap(L, s.positions[i], s.images[i]), Scale(dt, vh[i]))
  {
    var s1 := Started(ff, L, s);
    var t := Step(ff, dt, L, s);
    StepFromMidway(ff, dt, L, s);
    StepOutcome(ff, dt, L, s);
    var k := HalfKick(dt, s1);
    var d := Drift(s.positions, k.velocities.value, dt);
    assert t.positions == WrapAll(L, d) && t.images == AddImages(s.images, ShiftAll(L, d));
    DriftUnwrapped(L, s.positions, s.images, k.velocities.value, dt);
  }

  /** Drifting and wrapping moves every unwrapped position by `dt·v`. */
  lemma DriftUnwrapped(L: Vec, r: seq<Vec>, m: seq<Image>, v: seq<Vec>, dt: real)
    requires Positive(L) && |r| == |m| == |v|
    ensures var d := Drift(r, v, dt);
      forall i :: 0 <= i < |r| ==>
        Unwrap(L, WrapAll(L, d)[i], AddImages(m, ShiftAll(L, d))[i]) == Add(Unwrap(L, r[i], m[i]), Scale(dt, v[i]))
  {
    var d := Drift(r, v, dt);
    WrapAllRoundTrip(L, d, m);
    forall i | 0 <= i < |r|
      ensures Unwrap(L, WrapAll(L, d)[i], AddImages(m, ShiftAll(L, d))[i]) == Add(Unwrap(L, r[i], m[i]), Scale(dt, v[i]))
    {
      assert UnwrapAll(L, WrapAll(L, d), AddImages(m, ShiftAll(L, d)))[i] == UnwrapAll(L, d, m)[i];
      UnwrapAdd(L, r[i], m[i], Scale(dt, v[i]));
    }
  }

  /** The values a constant field F stores: energy `-F·r_i` and force F on every particle. */
  lemma ConstantForceValues(F: Vec, L: Vec, t: Snapshot)
    requires Positive(L) && Consistent(ConstantForce(F), L, t)
    ensures t.energies == Some(LinearEnergies(F, t.positions))
    ensures t.forces == Some(Uniform(|t.positions|, F))
  {
    assert ConstantForce(F).Evaluate(L, t.positions) == Sums(LinearEnergies(F, t.positions), Uniform(|t.positions|, F));
  }

  /** Two half kicks with a constant force F make one full kick: with h = dt/2m,
      `(v + h·F) + h·F == v + (dt/m)·F`. */
  lemma TwoHalfKicks(v: Vec, F: Vec, dt: real, m: real)
    requires m > 0.0
    ensures Add(Add(v, Scale(dt / (2.0 * m), F)), Scale(dt / (2.0 * m), F)) == Add(v, Scale(dt / m, F))
  {
    var h := dt / (2.0 * m);
    assert h + h == dt / m;
    assert h * F.x + h * F.x == (h + h) * F.x;
    assert h * F.y + h * F.y == (h + h) * F.y;
    assert h * F.z + h * F.z == (h + h) * F.z;
  }

  /** Drifting with the half-step velocity in a constant field F:
      `u + dt·(v + h·F) == u + dt·v + (dt²/2m)·F` with h = dt/2m. */
  lemma DriftHalfKicked(u: Vec, v: Vec, F: Vec, dt: real, m: real)
    requires m > 0.0
    ensures Add(u, Scale(dt, Add(v, Scale(dt / (2.0 * m), F))))
            == Add(Add(u, Scale(dt, v)), Scale(dt * dt / (2.0 * m), F))
  {
    HalfStepCoefficient(dt, m);
    DriftKicked(u, v, F, dt, dt / (2.0 * m), dt * dt / (2.0 * m));
  }

  /** `u + dt·(v + h·F) == u + dt·v + c·F` whenever dt·h = c. */
  lemma DriftKicked(u: Vec, v: Vec, F: Vec, dt: real, h: real, c: real)
    requires dt * h == c
    ensures Add(u, Scale(dt, Add(v, Scale(h, F)))) == Add(Add(u, Scale(dt, v)), Scale(c, F))
  {
    DriftComponent(u.x, v.x, F.x, dt, h, c);
    DriftComponent(u.y, v.y, F.y, dt, h, c);
    DriftComponent(u.z, v.z, F.z, dt, h, c);
  }

  lemma HalfStepCoefficient(dt: real, m: real)
    requires m > 0.0
    ensures dt * (dt / (2.0 * m)) == dt * dt / (2.0 * m)
  {
  }

  lemma DriftComponent(u: real, v: real, f: real, dt: real, h: real, c: real)
    requires dt * h == c
    ensures u + dt * (v + h * f) == (u + dt * v) + c * f
  {
    assert dt * (v + h * f) == dt * v + dt * (h * f);
    assert dt * (h * f) == (dt * h) * f;
  }

  /** In a constant field F a step always completes. With v the starting velocities (zero
      when absent) the new velocities are `v + (dt/m)·F` and every unwrapped position
      moves by `dt·v + (dt²/2m)·F`; stored forces, when present, are the field's. */
  lemma ConstantForceStep(F: Vec, dt: real, L: Vec, s: Snapshot)
    requires Positive(L) && s.mass > 0.0 && Shaped(s)
    requires s.forces.Some? ==> s.forces.value == Uniform(|s.positions|, F)
    ensures var t := Step(ConstantForce(F), dt, L, s);
      var v := WithVelocities(s).velocities.value;
      && t.forces.Some? && t.velocities.Some? && |t.velocities.value| == |v| == |s.positions|
      && forall i :: 0 <= i < |s.positions| ==>
           && t.velocities.value[i] == Add(v[i], Scale(dt / s.mass, F))
           && Unwrap(L, t.positions[i], t.images[i])
              == Add(Add(Unwrap(L, s.positions[i], s.images[i]), Scale(dt, v[i])), Scale(dt * dt / (2.0 * s.mass), F))
  {
    var ff := ConstantForce(F);
    var n := |s.positions|;
    var m := s.mass;
    var h := dt / (2.0 * m);
    var s1 := Started(ff, L, s);
    var t := Step(ff, dt, L, s);
    var v := WithVelocities(s).velocities.value;
    StepOutcome(ff, dt, L, s);
    StepMoves(ff, dt, L, s);
    assert s1.velocities.value == v;
    assert s1.forces.value == Uniform(n, F);
    assert t.forces.value == Uniform(n, F) by {
      assert Consistent(ff, L, t);
    }
    var vh := Kick(v, Uniform(n, F), h);
    forall i | 0 <= i < n
      ensures t.velocities.value[i] == Add(v[i], Scale(dt / m, F))
      ensures Unwrap(L, t.positions[i], t.images[i])
              == Add(Add(Unwrap(L, s.positions[i], s.images[i]), Scale(dt, v[i])), Scale(dt * dt / (2.0 * m), F))
    {
      assert vh[i] == Add(v[i], Scale(h, F));
      assert t.velocities.value[i] == Add(vh[i], Scale(h, F));
      TwoHalfKicks(v[i], F, dt, m);
      DriftHalfKicked(Unwrap(L, s.positions[i], s.images[i]), v[i], F, dt, m);
    }
  }

  /** `ConstantForceStep` for a single particle. */
  lemma OneParticleConstantForce(F: Vec, dt: real, L: Vec, s: Snapshot, a: real, c: real)
    requires Positive(L) && s.mass > 0.0 && Shaped(s) && |s.positions| == 1 && s.forces.None?
    requires a == dt / s.mass && c == dt * dt / (2.0 * s.mass)
    ensures var t := Step(ConstantForce(F), dt, L, s);
      var v := WithVelocities(s).velocities.value;
      && t.forces == Some([F])
      && t.velocities == Some([Add(v[0], Scale(a, F))])
      && Unwrap(L, t.positions[0], t.images[0])
         == Add(Add(Unwrap(L, s.positions[0], s.images[0]), Scale(dt, v[0])), Scale(c, F))
  {
    var t := Step(ConstantForce(F), dt, L, s);
    assert t.forces == Some([F]) by {
      StepOutcome(ConstantForce(F), dt, L, s);
      ConstantForceValues(F, L, t);
      assert Uniform(1, F) == [F] by {
        assert Uniform(1, F)[0] == F;
      }
    }
    ConstantForceStep(F, dt, L, s);
    var w := t.velocities.value;
    assert w == [w[0]];
  }

  /** Without a force a step leaves the velocities as they were (zero when absent) and
      moves every unwrapped position by `dt·v`. */
  lemma FreeFlight(dt: real, L: Vec, s: Snapshot)
    requires Positive(L) && s.mass > 0.0 && Shaped(s)
    requires s.forces.Some? ==> s.forces.value == Zeros(|s.positions|)
    ensures var t := Step(ConstantForce(Zero), dt, L, s);
      var v := WithVelocities(s).velocities.value;
      && t.forces.Some? && t.velocities == Some(v)
      && forall i :: 0 <= i < |s.positions| ==>
           Unwrap(L, t.positions[i], t.images[i]) == Add(Unwrap(L, s.positions[i], s.images[i]), Scale(dt, v[i]))
  {
    assert s.forces.Some? ==> s.forces.value == Uniform(|s.positions|, Zero);
    ConstantForceStep(Zero, dt, L, s);
    var t := Step(ConstantForce(Zero), dt, L, s);
    var v := WithVelocities(s).velocities.value;
    assert t.velocities.value == v;
  }

  /** One particle of mass 10 at (0, 9.9, 5) with velocity (-1, 2, 1), no force and
      dt = 0.1 in a box of edge 10 ends at (9.9, 0.1, 5.1), having crossed the lower x
      face and the upper y face, with its velocity unchanged. */
  lemma TestFreeFlight(dt: real, L: Vec, s: Snapshot)
    requires dt == 0.1 && L == Vec(10.0, 10.0, 10.0)
    requires s == Snapshot(10.0, 0, [Vec(0.0, 9.9, 5.0)], [Image(0, 0, 0)], Some([Vec(-1.0, 2.0, 1.0)]), None, None)
    ensures var t := Step(ConstantForce(Zero), dt, L, s);
      && t.positions == [Vec(9.9, 0.1, 5.1)] && t.images == [Image(-1, 1, 0)]
      && t.velocities == Some([Vec(-1.0, 2.0, 1.0)]) && t.counter == 1
  {
    var t := Step(ConstantForce(Zero), dt, L, s);
    TestFreeFlightUnwrapped(dt, L, s);
    FreeFlightLanding(L);
    LandsAt(L, t.positions, t.images, Vec(9.9, 0.1, 5.1), Image(-1, 1, 0));
  }

  lemma TestFreeFlightUnwrapped(dt: real, L: Vec, s: Snapshot)
    requires dt == 0.1 && L == Vec(10.0, 10.0, 10.0)
    requires s == Snapshot(10.0, 0, [Vec(0.0, 9.9, 5.0)], [Image(0, 0, 0)], Some([Vec(-1.0, 2.0, 1.0)]), None, None)
    ensures var t := Step(ConstantForce(Zero), dt, L, s);
      && |t.positions| == |t.images| == 1 && InBox(L, t.positions[0]) && t.counter == 1
      && t.velocities == Some([Vec(-1.0, 2.0, 1.0)])
      && Unwrap(L, t.positions[0], t.images[0]) == Vec(-0.1, 10.1, 5.1)
  {
    var t := Step(ConstantForce(Zero), dt, L, s);
    assert Shaped(t) && |t.positions| == 1 && InBox(L, t.positions[0]) && t.counter == 1 by {
      StepOutcome(ConstantForce(Zero), dt, L, s);
    }
    FreeFlight(dt, L, s);
  }

  lemma FreeFlightLanding(L: Vec)
    requires L == Vec(10.0, 10.0, 10.0)
    ensures Positive(L) && InBox(L, Vec(9.9, 0.1, 5.1))
    ensures Unwrap(L, Vec(9.9, 0.1, 5.1), Image(-1, 1, 0)) == Vec(-0.1, 10.1, 5.1)
  {
  }

  /** The same particle restarted at the origin at rest, with its forces cleared, under
      the constant force F = (10, -20, 30): the forces are computed first, the velocity
      becomes dt·F/m = (0.1, -0.2, 0.3) and the position moves by dt²·F/2m, to
      (0.005, 9.99, 0.015) once wrapped. */
  lemma TestConstantForce(F: Vec, dt: real, L: Vec, s: Snapshot)
    requires F == Vec(10.0, -20.0, 30.0) && dt == 0.1 && L == Vec(10.0, 10.0, 10.0)
    requires s == Snapshot(10.0, 1, [Vec(0.0, 0.0, 0.0)], [Image(-1, 1, 0)], Some([Vec(0.0, 0.0, 0.0)]), Some([0.0]), None)
    ensures var t := Step(ConstantForce(F), dt, L, s);
      && t.velocities == Some([Vec(0.1, -0.2, 0.3)]) && t.forces == Some([F])
      && t.positions == [Vec(0.005, 9.99, 0.015)] && t.images == [Image(-1, 0, 0)] && t.counter == 2
  {
    TestConstantForceKick(F, dt, L, s);
    TestConstantForceDrift(F, dt, L, s);
  }

  lemma TestConstantForceKick(F: Vec, dt: real, L: Vec, s: Snapshot)
    requires F == Vec(10.0, -20.0, 30.0) && dt == 0.1 && L == Vec(10.0, 10.0, 10.0)
    requires s == Snapshot(10.0, 1, [Vec(0.0, 0.0, 0.0)], [Image(-1, 1, 0)], Some([Vec(0.0, 0.0, 0.0)]), Some([0.0]), None)
    ensures var t := Step(ConstantForce(F), dt, L, s);
      t.velocities == Some([Vec(0.1, -0.2, 0.3)]) && t.forces == Some([F])
  {
    assert WithVelocities(s).velocities.value == [Vec(0.0, 0.0, 0.0)];
    assert dt / s.mass == 0.01;
    OneParticleConstantForce(F, dt, L, s, 0.01, 0.0005);
  }

  lemma TestConstantForceDrift(F: Vec, dt: real, L: Vec, s: Snapshot)
    requires F == Vec(10.0, -20.0, 30.0) && dt == 0.1 && L == Vec(10.0, 10.0, 10.0)
    requires s == Snapshot(10.0, 1, [Vec(0.0, 0.0, 0.0)], [Image(-1, 1, 0)], Some([Vec(0.0, 0.0, 0.0)]), Some([0.0]), None)
    ensures var t := Step(ConstantForce(F), dt, L, s);
      t.positions == [Vec(0.005, 9.99, 0.015)] && t.images == [Image(-1, 0, 0)] && t.counter == 2
  {
    var t := Step(ConstantForce(F), dt, L, s);
    TestConstantForceUnwrapped(F, dt, L, s);
    TestConstantForceInBox(F, dt, L, s);
    assert Unwrap(L, Vec(0.005, 9.99, 0.015), Image(-1, 0, 0)) == Vec(-9.995, 9.99, 0.015);
    LandsAt(L, t.positions, t.images, Vec(0.005, 9.99, 0.015), Image(-1, 0, 0));
  }

  lemma TestConstantForceInBox(F: Vec, dt: real, L: Vec, s: Snapshot)
    requires F == Vec(10.0, -20.0, 30.0) && dt == 0.1 && L == Vec(10.0, 10.0, 10.0)
    requires s == Snapshot(10.0, 1, [Vec(0.0, 0.0, 0.0)], [Image(-1, 1, 0)], Some([Vec(0.0, 0.0, 0.0)]), Some([0.0]), None)
    ensures var t := Step(ConstantForce(F), dt, L, s);
      |t.positions| == 1 && InBox(L, t.positions[0]) && t.counter == 2
  {
    StepOutcome(ConstantForce(F), dt, L, s);
  }

  lemma TestConstantForceUnwrapped(F: Vec, dt: real, L: Vec, s: Snapshot)
    requires F == Vec(10.0, -20.0, 30.0) && dt == 0.1 && L == Vec(10.0, 10.0, 10.0)
    requires s == Snapshot(10.0, 1, [Vec(0.0, 0.0, 0.0)], [Image(-1, 1, 0)], Some([Vec(0.0, 0.0, 0.0)]), Some([0.0]), None)
    ensures var t := Step(ConstantForce(F), dt, L, s);
      && |t.positions| == |t.images| == 1
      && Unwrap(L, t.positions[0], t.images[0]) == Vec(-9.995, 9.99, 0.015)
  {
    var v := WithVelocities(s).velocities.value;
    assert v == [Vec(0.0, 0.0, 0.0)];
    ConstantForceStart(L);
    OneParticleConstantForce(F, dt, L, s, 0.01, 0.0005);
    assert v[0] == Vec(0.0, 0.0, 0.0);
    ConstantForceDisplacement();
  }

  /** The starting point of the constant-force test unwrapped, and its kick and drift
      coefficients dt/m and dt²/2m. */
  lemma ConstantForceStart(L: Vec)
    requires L == Vec(10.0, 10.0, 10.0)
    ensures Unwrap(L, Vec(0.0, 0.0, 0.0), Image(-1, 1, 0)) == Vec(-10.0, 10.0, 0.0)
    ensures 0.1 / 10.0 == 0.01 && 0.1 * 0.1 / (2.0 * 10.0) == 0.0005
  {
  }

  /** The unwrapped displacement of the constant-force test, taken one vector operation at
      a time. */
  lemma ConstantForceDisplacement()
    ensures Add(Add(Vec(-10.0, 10.0, 0.0), Scale(0.1, Vec(0.0, 0.0, 0.0))), Scale(0.0005, Vec(10.0, -20.0, 30.0)))
      == Vec(-9.995, 9.99, 0.015)
  {
    RestDrift();
    RestStart();
    ForceHalfKick();
    ForceLanding();
  }

  lemma RestStart()
    ensures Add(Vec(-10.0, 10.0, 0.0), Vec(0.0, 0.0, 0.0)) == Vec(-10.0, 10.0, 0.0)
  {
  }

  lemma RestDrift()
    ensures Scale(0.1, Vec(0.0, 0.0, 0.0)) == Vec(0.0, 0.0, 0.0)
  {
  }

  lemma ForceHalfKick()
    ensures Scale(0.0005, Vec(10.0, -20.0, 30.0)) == Vec(0.005, -0.01, 0.015)
  {
  }

  lemma ForceLanding()
    ensures Add(Vec(-10.0, 10.0, 0.0), Vec(0.005, -0.01, 0.015)) == Vec(-9.995, 9.99, 0.015)
  {
  }
}
