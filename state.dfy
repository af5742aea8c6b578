/** The simulation state: the periodic `Box` and the `State` that holds N particles as a
    structure of arrays, each array assigned only through a setter that checks its shape. */
module MolState {
  import opened Base
  import opened Arith
  import opened Vectors
  import opened Periodic

  /** Validation of a box-edge assignment: one length is broadcast to a cube, any other
      length than three is a TypeError, and a non-positive edge is a ValueError. */
  function CheckEdges(value: seq<real>): (r: Result<Vec>)
    ensures r.Success? <==> (|value| == 1 || |value| == 3) && forall i :: 0 <= i < |value| ==> value[i] > 0.0
    ensures r.Success? ==> Positive(r.value)
    ensures r.Success? && |value| == 1 ==> r.value == Vec(value[0], value[0], value[0])
    ensures r.Success? && |value| == 3 ==> Row(r.value) == value
    ensures r.Failure? && |value| != 1 && |value| != 3 ==> r.error == TypeError("Box size must be a 3-element array")
    ensures r.Failure? && (|value| == 1 || |value| == 3) ==> r.error == ValueError("Box size must be positive")
  {
    var l := if |value| == 1 then [value[0], value[0], value[0]] else value;
    if |l| != 3 then
      Failure(TypeError("Box size must be a 3-element array"))
    else if l[0] <= 0.0 || l[1] <= 0.0 || l[2] <= 0.0 then
      Failure(ValueError("Box size must be positive"))
    else
      Success(OfRow(l))
  }

  /** What a wrap returns: the wrapped positions and, if images were given, the updated images. */
  datatype Wrapped = Wrapped(positions: seq<seq<real>>, images: Option<seq<seq<int>>>)

  /** The positions of an (N, 3) array wrapped into the box: each row is its particle's
      position r - L*floor(r/L), which lands in [0, L), and a row already inside is unchanged. */
  function WrapRows(L: Vec, position: seq<seq<real>>): (out: seq<seq<real>>)
    requires Positive(L) && IsArray(position, |position|)
    ensures IsArray(out, |position|)
    ensures forall i :: 0 <= i < |position| ==> OfRow(out[i]) == WrapVec(L, OfRow(position[i]))
    ensures forall i :: 0 <= i < |position| ==> InBox(L, OfRow(out[i]))
    ensures forall i :: 0 <= i < |position| && InBox(L, OfRow(position[i])) ==> out[i] == position[i]
  {
    var rs := OfRows(position);
    var ws := WrapAll(L, rs);
    var out := Rows(ws);
    assert forall i :: 0 <= i < |position| ==> OfRow(out[i]) == ws[i];
    assert forall i :: 0 <= i < |position| ==> rs[i] == OfRow(position[i]);
    forall i | 0 <= i < |position| && InBox(L, OfRow(position[i]))
      ensures out[i] == position[i]
    {
      assert rs[i] == OfRow(position[i]);
      WrapVecInside(L, rs[i]);
      assert Row(rs[i]) == position[i];
    }
    out
  }

  /** The image counters of an (N, 3) array after wrapping: each row gains the periods its
      particle crossed, so the unwrapped position of every particle is unchanged. */
  function WrapImageRows(L: Vec, position: seq<seq<real>>, image: seq<seq<int>>): (out: seq<seq<int>>)
    requires Positive(L) && IsArray(position, |position|) && IsArray(image, |position|)
    ensures IsArray(out, |position|)
    ensures forall i :: 0 <= i < |position| ==>
      Unwrap(L, OfRow(WrapRows(L, position)[i]), OfImageRow(out[i]))
      == Unwrap(L, OfRow(position[i]), OfImageRow(image[i]))
  {
    var rs := OfRows(position);
    var ws := WrapAll(L, rs);
    var ms := OfImageRows(image);
    var ns := AddImages(ms, ShiftAll(L, rs));
    var out := ImageRows(ns);
    WrapAllRoundTrip(L, rs, ms);
    assert WrapRows(L, position) == Rows(ws);
    forall i | 0 <= i < |position|
      ensures Unwrap(L, OfRow(WrapRows(L, position)[i]), OfImageRow(out[i]))
              == Unwrap(L, OfRow(position[i]), OfImageRow(image[i]))
    {
      assert OfRow(WrapRows(L, position)[i]) == ws[i];
      assert OfImageRow(out[i]) == ns[i];
      assert OfRow(position[i]) == rs[i] && OfImageRow(image[i]) == ms[i];
      assert UnwrapAll(L, ws, ns)[i] == UnwrapAll(L, rs, ms)[i];
    }
    out
  }

  /** Orthorhombic periodic box with its origin at (0,0,0) and edge lengths `L`. */
  class Box {
    var L: Vec

    predicate Valid()
      reads this
    {
      Positive(L)
    }

    constructor Init(l: Vec)
      requires Positive(l)
      ensures Valid() && L == l
    {
      L := l;
    }

    /** `Box(L)`: the edges are validated as by the `L` setter. */
    static method Create(value: seq<real>) returns (r: Result<Box>)
      ensures CheckEdges(value).Failure? ==> r == Failure(CheckEdges(value).error)
      ensures CheckEdges(value).Success? ==>
        r.Success? && fresh(r.value) && r.value.Valid() && r.value.L == CheckEdges(value).value
    {
      var checked := CheckEdges(value);
      if checked.Failure? {
        return Failure(checked.error);
      }
      var b := new Box.Init(checked.value);
      return Success(b);
    }

    /** The `L` setter: the edges are stored only when every check passes. */
    method SetL(value: seq<real>) returns (err: Option<Error>)
      requires Valid()
      modifies this
      ensures Valid()
      ensures CheckEdges(value).Failure? ==> err == Some(CheckEdges(value).error) && L == old(L)
      ensures CheckEdges(value).Success? ==> err == None && L == CheckEdges(value).value
    {
      var checked := CheckEdges(value);
      if checked.Failure? {
        return Some(checked.error);
      }
      L := checked.value;
      return None;
    }

    /** Volume of the box, the product of its edges. */
    function Volume(): (v: real)
      reads this
      requires Valid()
      ensures v > 0.0
    {
      MulPositive(L.x, L.y);
      MulPositive(Mul(L.x, L.y), L.z);
      Mul(Mul(L.x, L.y), L.z)
    }

    /** `wrap(position, image)` on an (N, 3) array: every particle is moved into [0, L) and
        the images it crossed are added to its image counters, so that its unwrapped
        position is unchanged; a position already in the box is left as it is. */
    function Wrap(position: seq<seq<real>>, image: Option<seq<seq<int>>>): (r: Result<Wrapped>)
      reads this
      requires Valid()
      ensures r.Failure? <==> !IsArray(position, |position|) || (image.Some? && !IsArray(image.value, |position|))
      ensures r.Failure? ==> r.error.TypeError?
      ensures r.Success? ==>
        && IsArray(r.value.positions, |position|)
        && (r.value.images.Some? <==> image.Some?)
        && (forall i :: 0 <= i < |position| ==> InBox(L, OfRow(r.value.positions[i])))
      ensures r.Success? ==>
        forall i :: 0 <= i < |position| ==> OfRow(r.value.positions[i]) == WrapVec(L, OfRow(position[i]))
      ensures r.Success? ==>
        forall i :: 0 <= i < |position| && InBox(L, OfRow(position[i])) ==> r.value.positions[i] == position[i]
      ensures r.Success? && image.Some? ==>
        && IsArray(r.value.images.value, |position|)
        && forall i :: 0 <= i < |position| ==>
             Unwrap(L, OfRow(r.value.positions[i]), OfImageRow(r.value.images.value[i]))
             == Unwrap(L, OfRow(position[i]), OfImageRow(image.value[i]))
    {
      if !IsArray(position, |position|) then
        Failure(TypeError("Position must have shape (3,) or (N,3)"))
      else if image.Some? && !IsArray(image.value, |position|) then
        Failure(TypeError("Image shape must match position shape"))
      else if image.None? then
        Success(Wrapped(WrapRows(L, position), None))
      else
        Success(Wrapped(WrapRows(L, position), Some(WrapImageRows(L, position, image.value))))
    }

    /** `wrap` of a single particle given as a 3-element position (and image): the one row
        is wrapped into the box, and its image, when given, keeps its unwrapped position. */
    function WrapOne(position: seq<real>, image: Option<seq<int>>): (r: Result<Wrapped>)
      reads this
      requires Valid()
      ensures r.Failure? <==> |position| != 3 || (image.Some? && |image.value| != 3)
      ensures r.Success? ==>
        && IsArray(r.value.positions, 1)
        && (r.value.images.Some? <==> image.Some?)
        && InBox(L, OfRow(r.value.positions[0]))
        && OfRow(r.value.positions[0]) == WrapVec(L, OfRow(position))
      ensures r.Success? && image.Some? ==>
        && IsArray(r.value.images.value, 1)
        && Unwrap(L, OfRow(r.value.positions[0]), OfImageRow(r.value.images.value[0]))
           == Unwrap(L, OfRow(position), OfImageRow(image.value))
    {
      var images := if image.Some? then Some([image.value]) else None;
      assert [position][0] == position;
      assert image.Some? ==> images.value[0] == image.value;
      Wrap([position], images)
    }

    /** `wrap` in place on a position array and its image array, which NumPy does when no
        copy is needed: afterwards each particle is wrapped and its images updated. */
    method WrapInPlace(position: array<Vec>, image: array<Image>) returns (err: Option<Error>)
      requires Valid()
      modifies position, image
      ensures position.Length != image.Length ==>
        && err.Some? && err.value.TypeError?
        && position[..] == old(position[..]) && image[..] == old(image[..])
      ensures position.Length == image.Length ==>
        && err == None
        && position[..] == WrapAll(L, old(position[..]))
        && image[..] == AddImages(old(image[..]), ShiftAll(L, old(position[..])))
    {
      if position.Length != image.Length {
        return Some(TypeError("Image shape must match position shape"));
      }
      ghost var r0 := position[..];
      ghost var m0 := image[..];
      var i := 0;
      while i < position.Length
        invariant 0 <= i <= position.Length
        invariant position[..i] == WrapAll(L, r0)[..i] && position[i..] == r0[i..]
        invariant image[..i] == AddImages(m0, ShiftAll(L, r0))[..i] && image[i..] == m0[i..]
      {
        var r := position[i];
        image[i] := AddImage(image[i], ShiftVec(L, r));
        position[i] := WrapVec(L, r);
        i := i + 1;
      }
      assert position[..] == position[..position.Length];
      assert image[..] == image[..image.Length];
      return None;
    }

    /** `minimum_image` of an (N, 3) array of separation vectors: each vector is moved by
        round(v/L) whole box lengths per axis, which puts every component in [-L/2, L/2).
        Its nearest-image property is `Periodic.MinImageVecNearest`. */
    function MinimumImage(vectors: seq<Vec>): (ms: seq<Vec>)
      reads this
      requires Valid()
      ensures |ms| == |vectors| && forall i :: 0 <= i < |ms| ==> InHalfBox(L, ms[i])
      ensures forall i :: 0 <= i < |ms| ==> ms[i] == MinImage(L, vectors[i])
      ensures forall i :: 0 <= i < |ms| ==>
        var v := vectors[i];
        v == Unwrap(L, ms[i], Image(Round(v.x / L.x), Round(v.y / L.y), Round(v.z / L.z)))
    {
      var ms := MinImageAll(L, vectors);
      forall i | 0 <= i < |ms|
        ensures vectors[i] == Unwrap(L, ms[i], Image(Round(vectors[i].x / L.x), Round(vectors[i].y / L.y), Round(vectors[i].z / L.z)))
      {
        MinImageVecOffset(L, vectors[i]);
      }
      ms
    }
  }

  /** The value part of a `State`, everything but its box. */
  datatype Snapshot = Snapshot(
    mass: real,
    counter: int,
    positions: seq<Vec>,
    images: seq<Image>,
    velocities: Option<seq<Vec>>,
    energies: Option<seq<real>>,
    forces: Option<seq<Vec>>)

  /** N particles sharing a box and a mass, stored as a structure of arrays. */
  class State {
    const N: nat
    var box: Box
    var mass: real
    var counter: int
    var positions: seq<Vec>
    var images: seq<Image>
    var velocities: Option<seq<Vec>>
    var energies: Option<seq<real>>
    var forces: Option<seq<Vec>>

    /** Every array has N rows and the mass is positive. */
    predicate Valid()
      reads this, box
    {
      box.Valid() && mass > 0.0 && |positions| == N && |images| == N
      && (velocities.Some? ==> |velocities.value| == N)
      && (energies.Some? ==> |energies.value| == N)
      && (forces.Some? ==> |forces.value| == N)
    }

    function Snap(): Snapshot
      reads this
    {
      Snapshot(mass, counter, positions, images, velocities, energies, forces)
    }

    constructor Init(n: nat, b: Box, m: real, c: int)
      requires b.Valid() && m > 0.0
      ensures Valid() && N == n && box == b
      ensures Snap() == Snapshot(m, c, Zeros(n), NoImages(n), None, None, None)
    {
      N := n;
      box := b;
      mass := m;
      counter := c;
      positions := Zeros(n);
      images := NoImages(n);
      velocities := None;
      energies := None;
      forces := None;
    }

    /** `State(N, box, mass=1.0, counter=0)`: N must be non-negative and the mass positive;
        particles start at the origin with no images, and velocities, energies and forces
        are absent. */
    static method Create(N: int, box: Box, mass: real := 1.0, counter: int := 0) returns (r: Result<State>)
      requires box.Valid()
      ensures N < 0 ==> r == Failure(ValueError("Number of particles must be nonnegative integer"))
      ensures N >= 0 && mass <= 0.0 ==> r == Failure(ValueError("Mass must be positive"))
      ensures N >= 0 && mass > 0.0 ==>
        && r.Success? && fresh(r.value) && r.value.Valid()
        && r.value.N == N && r.value.box == box
        && r.value.Snap() == Snapshot(mass, counter, Zeros(N), NoImages(N), None, None, None)
    {
      if N < 0 {
        return Failure(ValueError("Number of particles must be nonnegative integer"));
      }
      if mass <= 0.0 {
        return Failure(ValueError("Mass must be positive"));
      }
      var s := new State.Init(N, box, mass, counter);
      return Success(s);
    }

    method SetBox(value: Box)
      requires Valid() && value.Valid()
      modifies this
      ensures Valid()
      ensures box == value && Snap() == old(Snap())
    {
      box := value;
    }

    method SetMass(value: real) returns (err: Option<Error>)
      requires Valid()
      modifies this
      ensures Valid()
      ensures box == old(box)
      ensures value <= 0.0 ==> err == Some(ValueError("Mass must be positive")) && Snap() == old(Snap())
      ensures value > 0.0 ==> err == None && Snap() == old(Snap()).(mass := value)
    {
      if value <= 0.0 {
        return Some(ValueError("Mass must be positive"));
      }
      mass := value;
      return None;
    }

    method SetCounter(value: int)
      requires Valid()
      modifies this
      ensures Valid()
      ensures box == old(box) && Snap() == old(Snap()).(counter := value)
    {
      counter := value;
    }

    method SetPositions(value: seq<seq<real>>) returns (err: Option<Error>)
      requires Valid()
      modifies this
      ensures Valid()
      ensures box == old(box)
      ensures !IsArray(value, N) ==> err == Some(TypeError("Positions must be an Nx3 array")) && Snap() == old(Snap())
      ensures IsArray(value, N) ==> err == None && Snap() == old(Snap()).(positions := OfRows(value))
    {
      if !IsArray(value, N) {
        return Some(TypeError("Positions must be an Nx3 array"));
      }
      positions := OfRows(value);
      return None;
    }

    method SetImages(value: seq<seq<int>>) returns (err: Option<Error>)
      requires Valid()
      modifies this
      ensures Valid()
      ensures box == old(box)
      ensures !IsArray(value, N) ==> err == Some(TypeError("Images must be an Nx3 array")) && Snap() == old(Snap())
      ensures IsArray(value, N) ==> err == None && Snap() == old(Snap()).(images := OfImageRows(value))
    {
      if !IsArray(value, N) {
        return Some(TypeError("Images must be an Nx3 array"));
      }
      images := OfImageRows(value);
      return None;
    }

    /** Assigning `None` clears the velocities. */
    method SetVelocities(value: Option<seq<seq<real>>>) returns (err: Option<Error>)
      requires Valid()
      modifies this
      ensures Valid()
      ensures box == old(box)
      ensures value.None? ==> err == None && Snap() == old(Snap()).(velocities := None)
      ensures value.Some? && !IsArray(value.value, N) ==>
        err == Some(TypeError("Velocities must be an Nx3 array")) && Snap() == old(Snap())
      ensures value.Some? && IsArray(value.value, N) ==>
        err == None && Snap() == old(Snap()).(velocities := Some(OfRows(value.value)))
    {
      if value.None? {
        velocities := None;
        return None;
      }
      if !IsArray(value.value, N) {
        return Some(TypeError("Velocities must be an Nx3 array"));
      }
      velocities := Some(OfRows(value.value));
      return None;
    }

    /** Assigning `None` clears the energies; otherwise exactly N values are needed. */
    method SetEnergies(value: Option<seq<real>>) returns (err: Option<Error>)
      requires Valid()
      modifies this
      ensures Valid()
      ensures box == old(box)
      ensures value.None? ==> err == None && Snap() == old(Snap()).(energies := None)
      ensures value.Some? && |value.value| != N ==>
        err == Some(TypeError("Energies must be an N array")) && Snap() == old(Snap())
      ensures value.Some? && |value.value| == N ==>
        err == None && Snap() == old(Snap()).(energies := value)
    {
      if value.None? {
        energies := None;
        return None;
      }
      if |value.value| != N {
        return Some(TypeError("Energies must be an N array"));
      }
      energies := value;
      return None;
    }

    /** Assigning `None` clears the forces. */
    method SetForces(value: Option<seq<seq<real>>>) returns (err: Option<Error>)
      requires Valid()
      modifies this
      ensures Valid()
      ensures box == old(box)
      ensures value.None? ==> err == None && Snap() == old(Snap()).(forces := None)
      ensures value.Some? && !IsArray(value.value, N) ==>
        err == Some(TypeError("Forces must be an Nx3 array")) && Snap() == old(Snap())
      ensures value.Some? && IsArray(value.value, N) ==>
        err == None && Snap() == old(Snap()).(forces := Some(OfRows(value.value)))
    {
      if value.None? {
        forces := None;
        return None;
      }
      if !IsArray(value.value, N) {
        return Some(TypeError("Forces must be an Nx3 array"));
      }
      forces := Some(OfRows(value.value));
      return None;
    }
  }
}
