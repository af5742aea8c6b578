/** Periodic-boundary arithmetic of an orthorhombic box with its origin at (0,0,0):
    wrapping a coordinate into [0, L) with floor while counting the images crossed,
    and the minimum-image convention with round. */
module Periodic {
  import opened Arith
  import opened Vectors

  /** The number of whole box lengths below `x`: `floor(x / l)`, the image count a wrap adds.
      It is the one k with `k * l <= x < k * l + l`. */
  function Shift(x: real, l: real): (k: int)
    requires l > 0.0
    ensures (k as real) * l <= x < (k as real) * l + l
  {
    FloorLower(x, l);
    FloorUpper(x, l);
    (x / l).Floor
  }

  lemma FloorLower(x: real, l: real)
    requires l > 0.0
    ensures ((x / l).Floor as real) * l <= x
  {
    var q := x / l;
    var k := q.Floor as real;
    assert k <= q;
    MulLeft(k, q, l);
    assert k * l <= q * l;
    DivMul(x, l);
  }

  lemma FloorUpper(x: real, l: real)
    requires l > 0.0
    ensures x < ((x / l).Floor as real) * l + l
  {
    var q := x / l;
    var k := q.Floor as real;
    assert q < k + 1.0;
    MulStrict(q, k + 1.0, l);
    assert q * l < (k + 1.0) * l;
    DivMul(x, l);
    assert x < (k + 1.0) * l;
    AddOne(k, l);
    assert x < k * l + l;
  }

  /** `x` moved by `k` whole box lengths `l`. */
  function Move(x: real, l: real, k: int): real
  {
    x + (k as real) * l
  }

  /** One coordinate wrapped back into the box: `x - floor(x / l) * l` lies in [0, l). */
  function WrapCoord(x: real, l: real): (w: real)
    requires l > 0.0
    ensures 0.0 <= w < l
  {
    x - (Shift(x, l) as real) * l
  }

  /** Wrapping is determined by its range: a coordinate written as `w + k * l` with `w` in
      [0, l) wraps to `w` and crosses exactly `k` images. */
  lemma WrapUnique(x: real, l: real, w: real, k: int)
    requires l > 0.0 && 0.0 <= w < l && x == Move(w, l, k)
    ensures Shift(x, l) == k && WrapCoord(x, l) == w
  {
    var kr := k as real;
    FractionBounds(w, l);
    DivMul(w, l);
    AddMul(w / l, kr, l);
    DivOf(x, l, w / l + kr);
  }

  /** A coordinate inside [0, l) is less than one box length: `0 <= w / l < 1`. */
  lemma FractionBounds(w: real, l: real)
    requires l > 0.0 && 0.0 <= w < l
    ensures 0.0 <= w / l < 1.0
  {
    var q := w / l;
    DivMul(w, l);
    if q < 0.0 {
      MulStrict(q, 0.0, l);
    } else if q >= 1.0 {
      MulLeft(1.0, q, l);
    }
  }

  /** Moving a coordinate by whole box lengths does not change where it wraps to; the
      image count absorbs the move. */
  lemma WrapPeriodic(x: real, l: real, k: int)
    requires l > 0.0
    ensures Shift(Move(x, l, k), l) == Shift(x, l) + k
    ensures WrapCoord(Move(x, l, k), l) == WrapCoord(x, l)
  {
    var s := Shift(x, l);
    AddMul(s as real, k as real, l);
    WrapUnique(Move(x, l, k), l, WrapCoord(x, l), s + k);
  }

  /** A coordinate already inside [0, l) is left where it is, with no image crossed. */
  lemma WrapInside(x: real, l: real)
    requires l > 0.0 && 0.0 <= x < l
    ensures Shift(x, l) == 0 && WrapCoord(x, l) == x
  {
    WrapUnique(x, l, x, 0);
  }

  lemma WrapIdempotent(x: real, l: real)
    requires l > 0.0
    ensures WrapCoord(WrapCoord(x, l), l) == WrapCoord(x, l)
  {
    WrapInside(WrapCoord(x, l), l);
  }

  /** Unwrapping with the updated image count gives back the unwrapped coordinate:
      `x_wrap + l * (m + shift) == x + l * m`. */
  lemma {:induction false} WrapRoundTrip(x: real, l: real, m: int)
    requires l > 0.0
    ensures Move(WrapCoord(x, l), l, m + Shift(x, l)) == Move(x, l, m)
  {
    AddMul(m as real, Shift(x, l) as real, l);
  }

  /** The nearest integer to `q`, halves rounded up: `q` lies in [k - 1/2, k + 1/2). */
  function Round(q: real): (k: int)
    ensures (k as real) - 0.5 <= q < (k as real) + 0.5
  {
    (q + 0.5).Floor
  }

  /** Rounding `v / l` is flooring after moving `v` up by half a box length. */
  lemma RoundShift(v: real, l: real)
    requires l > 0.0
    ensures Round(v / l) == Shift(v + l / 2.0, l)
  {
    var a := (v + l / 2.0) / l;
    var b := v / l + 0.5;
    DivMul(v + l / 2.0, l);
    DivMul(v, l);
    AddMul(v / l, 0.5, l);
    MulCancel(a, b, l);
  }

  /** One component of the minimum-image vector: `v - round(v / l) * l`, in [-l/2, l/2). */
  function MinImageCoord(v: real, l: real): (m: real)
    requires l > 0.0
    ensures -l / 2.0 <= m < l / 2.0
  {
    RoundShift(v, l);
    var k := Round(v / l);
    var w := WrapCoord(v + l / 2.0, l);
    assert w == v + l / 2.0 - (k as real) * l;
    v - (k as real) * l
  }

  /** The minimum image is determined by its range: `m + k * l` with `m` in [-l/2, l/2)
      has minimum image `m`, reached by removing exactly `k` box lengths. */
  lemma MinImageUnique(v: real, l: real, m: real, k: int)
    requires l > 0.0 && -l / 2.0 <= m < l / 2.0 && v == Move(m, l, k)
    ensures Round(v / l) == k && MinImageCoord(v, l) == m
  {
    RoundShift(v, l);
    WrapUnique(v + l / 2.0, l, m + l / 2.0, k);
  }

  lemma MinImagePeriodic(v: real, l: real, k: int)
    requires l > 0.0
    ensures MinImageCoord(Move(v, l, k), l) == MinImageCoord(v, l)
  {
    var m := MinImageCoord(v, l);
    var j := Round(v / l);
    AddMul(j as real, k as real, l);
    MinImageUnique(Move(v, l, k), l, m, j + k);
  }

  lemma MinImageInside(v: real, l: real)
    requires l > 0.0 && -l / 2.0 <= v < l / 2.0
    ensures MinImageCoord(v, l) == v
  {
    MinImageUnique(v, l, v, 0);
  }

  /** The minimum image differs from `v` by whole box lengths. */
  lemma MinImageOffset(v: real, l: real)
    requires l > 0.0
    ensures Move(MinImageCoord(v, l), l, Round(v / l)) == v
  {
  }

  /** The minimum image is the shortest of all periodic copies of `v`. */
  lemma MinImageNearest(v: real, l: real, k: int)
    requires l > 0.0
    ensures Abs(MinImageCoord(v, l)) <= Abs(Move(v, l, k))
  {
    var m := MinImageCoord(v, l);
    var j := Round(v / l);
    var n := j + k;
    AddMul(j as real, k as real, l);
    var d := Move(v, l, k);
    assert d == m + (n as real) * l;
    if n >= 1 {
      MulLeft(1.0, n as real, l);
      assert d >= m + l;
    } else if n <= -1 {
      MulLeft(n as real, -1.0, l);
      assert d <= m - l;
    } else {
      assert d == m;
    }
  }

  /** Every coordinate lies in [0, L) on its axis. */
  predicate InBox(L: Vec, r: Vec)
  {
    0.0 <= r.x < L.x && 0.0 <= r.y < L.y && 0.0 <= r.z < L.z
  }

  /** Every component lies in [-L/2, L/2) on its axis. */
  predicate InHalfBox(L: Vec, v: Vec)
  {
    -L.x / 2.0 <= v.x < L.x / 2.0 && -L.y / 2.0 <= v.y < L.y / 2.0 && -L.z / 2.0 <= v.z < L.z / 2.0
  }

  function WrapVec(L: Vec, r: Vec): (w: Vec)
    requires Positive(L)
    ensures InBox(L, w)
  {
    Vec(WrapCoord(r.x, L.x), WrapCoord(r.y, L.y), WrapCoord(r.z, L.z))
  }

  /** The images crossed on each axis when `r` is wrapped. */
  function ShiftVec(L: Vec, r: Vec): Image
    requires Positive(L)
  {
    Image(Shift(r.x, L.x), Shift(r.y, L.y), Shift(r.z, L.z))
  }

  function AddImage(a: Image, b: Image): Image
  {
    Image(a.x + b.x, a.y + b.y, a.z + b.z)
  }

  /** The unwrapped position `r + L * image`. No images leave `r` where it is, and moving
      back by the opposite images returns to `r`. */
  function Unwrap(L: Vec, r: Vec, m: Image): (u: Vec)
    ensures m == NoImage ==> u == r
    ensures Vec(Move(u.x, L.x, -m.x), Move(u.y, L.y, -m.y), Move(u.z, L.z, -m.z)) == r
  {
    MoveBack(r.x, L.x, m.x);
    MoveBack(r.y, L.y, m.y);
    MoveBack(r.z, L.z, m.z);
    Vec(Move(r.x, L.x, m.x), Move(r.y, L.y, m.y), Move(r.z, L.z, m.z))
  }

  lemma MoveBack(x: real, l: real, k: int)
    ensures Move(Move(x, l, k), l, -k) == x
  {
    AddMul(k as real, -(k as real), l);
  }

  /** A position moved by k images wraps to the same point and crosses k more images. */
  lemma WrapVecPeriodic(L: Vec, r: Vec, k: Image)
    requires Positive(L)
    ensures WrapVec(L, Unwrap(L, r, k)) == WrapVec(L, r)
    ensures ShiftVec(L, Unwrap(L, r, k)) == AddImage(ShiftVec(L, r), k)
  {
    WrapPeriodic(r.x, L.x, k.x);
    WrapPeriodic(r.y, L.y, k.y);
    WrapPeriodic(r.z, L.z, k.z);
  }

  /** Moving a position does not change its image count: `(r + w) + L·m == (r + L·m) + w`. */
  lemma UnwrapAdd(L: Vec, r: Vec, m: Image, w: Vec)
    ensures Unwrap(L, Add(r, w), m) == Add(Unwrap(L, r, m), w)
  {
  }

  /** A position inside the box and its image count are fixed by the unwrapped position. */
  lemma UnwrapDetermines(L: Vec, r: Vec, m: Image, w: Vec, k: Image)
    requires Positive(L) && InBox(L, r) && InBox(L, w) && Unwrap(L, r, m) == Unwrap(L, w, k)
    ensures r == w && m == k
  {
    var u := Unwrap(L, r, m);
    WrapUnique(u.x, L.x, r.x, m.x);
    WrapUnique(u.x, L.x, w.x, k.x);
    WrapUnique(u.y, L.y, r.y, m.y);
    WrapUnique(u.y, L.y, w.y, k.y);
    WrapUnique(u.z, L.z, r.z, m.z);
    WrapUnique(u.z, L.z, w.z, k.z);
  }

  /** A single particle inside the box is placed by its unwrapped position. */
  lemma LandsAt(L: Vec, rs: seq<Vec>, ms: seq<Image>, w: Vec, k: Image)
    requires Positive(L) && |rs| == |ms| == 1 && InBox(L, rs[0]) && InBox(L, w)
    requires Unwrap(L, rs[0], ms[0]) == Unwrap(L, w, k)
    ensures rs == [w] && ms == [k]
  {
    UnwrapDetermines(L, rs[0], ms[0], w, k);
  }

  lemma WrapVecRoundTrip(L: Vec, r: Vec, m: Image)
    requires Positive(L)
    ensures Unwrap(L, WrapVec(L, r), AddImage(m, ShiftVec(L, r))) == Unwrap(L, r, m)
  {
    WrapRoundTrip(r.x, L.x, m.x);
    WrapRoundTrip(r.y, L.y, m.y);
    WrapRoundTrip(r.z, L.z, m.z);
  }

  lemma WrapVecInside(L: Vec, r: Vec)
    requires Positive(L) && InBox(L, r)
    ensures WrapVec(L, r) == r && ShiftVec(L, r) == NoImage
  {
    WrapInside(r.x, L.x);
    WrapInside(r.y, L.y);
    WrapInside(r.z, L.z);
  }

  function MinImage(L: Vec, v: Vec): (m: Vec)
    requires Positive(L)
    ensures InHalfBox(L, m)
  {
    Vec(MinImageCoord(v.x, L.x), MinImageCoord(v.y, L.y), MinImageCoord(v.z, L.z))
  }

  /** On every axis the minimum image is at most as long as any periodic copy of `v`. */
  lemma MinImageVecNearest(L: Vec, v: Vec, k: Image)
    requires Positive(L)
    ensures var m, d := MinImage(L, v), Unwrap(L, v, k);
      Abs(m.x) <= Abs(d.x) && Abs(m.y) <= Abs(d.y) && Abs(m.z) <= Abs(d.z)
  {
    MinImageNearest(v.x, L.x, k.x);
    MinImageNearest(v.y, L.y, k.y);
    MinImageNearest(v.z, L.z, k.z);
  }

  lemma MinImageVecPeriodic(L: Vec, v: Vec, k: Image)
    requires Positive(L)
    ensures MinImage(L, Unwrap(L, v, k)) == MinImage(L, v)
  {
    MinImagePeriodic(v.x, L.x, k.x);
    MinImagePeriodic(v.y, L.y, k.y);
    MinImagePeriodic(v.z, L.z, k.z);
  }

  lemma MinImageVecInside(L: Vec, v: Vec)
    requires Positive(L) && InHalfBox(L, v)
    ensures MinImage(L, v) == v
  {
    MinImageInside(v.x, L.x);
    MinImageInside(v.y, L.y);
    MinImageInside(v.z, L.z);
  }

  /** The minimum image differs from `v` by whole box lengths: `v == m + L * round(v / L)`. */
  lemma MinImageVecOffset(L: Vec, v: Vec)
    requires Positive(L)
    ensures v == Unwrap(L, MinImage(L, v), Image(Round(v.x / L.x), Round(v.y / L.y), Round(v.z / L.z)))
  {
    MinImageOffset(v.x, L.x);
    MinImageOffset(v.y, L.y);
    MinImageOffset(v.z, L.z);
  }

  /** Every particle of an (N, 3) array wrapped into the box. */
  function WrapAll(L: Vec, rs: seq<Vec>): (ws: seq<Vec>)
    requires Positive(L)
    ensures |ws| == |rs| && forall i :: 0 <= i < |rs| ==> InBox(L, ws[i])
  {
    seq(|rs|, i requires 0 <= i < |rs| => WrapVec(L, rs[i]))
  }

  /** The images each particle crosses when the array is wrapped. */
  function ShiftAll(L: Vec, rs: seq<Vec>): (ms: seq<Image>)
    requires Positive(L)
    ensures |ms| == |rs|
  {
    seq(|rs|, i requires 0 <= i < |rs| => ShiftVec(L, rs[i]))
  }

  function AddImages(a: seq<Image>, b: seq<Image>): (c: seq<Image>)
    requires |a| == |b|
    ensures |c| == |a|
  {
    seq(|a|, i requires 0 <= i < |a| => AddImage(a[i], b[i]))
  }

  /** The unwrapped positions of an array. */
  function UnwrapAll(L: Vec, rs: seq<Vec>, ms: seq<Image>): (us: seq<Vec>)
    requires |rs| == |ms|
    ensures |us| == |rs|
  {
    seq(|rs|, i requires 0 <= i < |rs| => Unwrap(L, rs[i], ms[i]))
  }

  /** Wrapping an array while adding the crossed images to the image array leaves every
      unwrapped position where it was. */
  lemma WrapAllRoundTrip(L: Vec, rs: seq<Vec>, ms: seq<Image>)
    requires Positive(L) && |rs| == |ms|
    ensures UnwrapAll(L, WrapAll(L, rs), AddImages(ms, ShiftAll(L, rs))) == UnwrapAll(L, rs, ms)
  {
    forall i | 0 <= i < |rs|
      ensures UnwrapAll(L, WrapAll(L, rs), AddImages(ms, ShiftAll(L, rs)))[i] == UnwrapAll(L, rs, ms)[i]
    {
      WrapVecRoundTrip(L, rs[i], ms[i]);
    }
  }

  /** Particles already in the box are neither moved nor given images. */
  lemma WrapAllInside(L: Vec, rs: seq<Vec>)
    requires Positive(L) && forall i :: 0 <= i < |rs| ==> InBox(L, rs[i])
    ensures WrapAll(L, rs) == rs && ShiftAll(L, rs) == NoImages(|rs|)
  {
    forall i | 0 <= i < |rs|
      ensures WrapAll(L, rs)[i] == rs[i] && ShiftAll(L, rs)[i] == NoImage
    {
      WrapVecInside(L, rs[i]);
    }
  }

  /** The minimum image of every vector of an (N, 3) array. */
  function MinImageAll(L: Vec, vs: seq<Vec>): (ms: seq<Vec>)
    requires Positive(L)
    ensures |ms| == |vs| && forall i :: 0 <= i < |vs| ==> InHalfBox(L, ms[i])
  {
    seq(|vs|, i requires 0 <= i < |vs| => MinImage(L, vs[i]))
  }

  /** A position written as `w + L * k` with `w` inside the box wraps to `w` and crosses
      `k` images. */
  lemma WrapVecUnique(L: Vec, r: Vec, w: Vec, k: Image)
    requires Positive(L) && InBox(L, w) && r == Unwrap(L, w, k)
    ensures WrapVec(L, r) == w && ShiftVec(L, r) == k
  {
    WrapUnique(r.x, L.x, w.x, k.x);
    WrapUnique(r.y, L.y, w.y, k.y);
    WrapUnique(r.z, L.z, w.z, k.z);
  }

  /** A vector written as `m + L * k` with `m` in the half box has minimum image `m`. */
  lemma MinImageVecUnique(L: Vec, v: Vec, m: Vec, k: Image)
    requires Positive(L) && InHalfBox(L, m) && v == Unwrap(L, m, k)
    ensures MinImage(L, v) == m
  {
    MinImageUnique(v.x, L.x, m.x, k.x);
    MinImageUnique(v.y, L.y, m.y, k.y);
    MinImageUnique(v.z, L.z, m.z, k.z);
  }

  /** In a box of edges (10, 15, 20), (11, -1, 18) wraps to (1, 14, 18) and crosses the
      images (1, -1, 0). */
  lemma TestWrap(L: Vec)
    requires L == Vec(10.0, 15.0, 20.0)
    ensures WrapVec(L, Vec(11.0, -1.0, 18.0)) == Vec(1.0, 14.0, 18.0)
    ensures AddImage(NoImage, ShiftVec(L, Vec(11.0, -1.0, 18.0))) == Image(1, -1, 0)
  {
    WrapVecUnique(L, Vec(11.0, -1.0, 18.0), Vec(1.0, 14.0, 18.0), Image(1, -1, 0));
  }

  /** Two particles at (1, 17, 3) and (15, 2, -2) with images (1, 2, 3) and (4, 5, 6) wrap to
      (1, 2, 3) and (5, 2, 18) with images (1, 3, 3) and (5, 5, 5). */
  lemma TestWrapMultipleParticles(L: Vec)
    requires L == Vec(10.0, 15.0, 20.0)
    ensures WrapAll(L, [Vec(1.0, 17.0, 3.0), Vec(15.0, 2.0, -2.0)]) == [Vec(1.0, 2.0, 3.0), Vec(5.0, 2.0, 18.0)]
    ensures AddImages([Image(1, 2, 3), Image(4, 5, 6)], ShiftAll(L, [Vec(1.0, 17.0, 3.0), Vec(15.0, 2.0, -2.0)]))
            == [Image(1, 3, 3), Image(5, 5, 5)]
  {
    var rs := [Vec(1.0, 17.0, 3.0), Vec(15.0, 2.0, -2.0)];
    WrapVecUnique(L, rs[0], Vec(1.0, 2.0, 3.0), Image(0, 1, 0));
    WrapVecUnique(L, rs[1], Vec(5.0, 2.0, 18.0), Image(1, 0, -1));
    assert WrapAll(L, rs) == [WrapVec(L, rs[0]), WrapVec(L, rs[1])];
    assert ShiftAll(L, rs) == [ShiftVec(L, rs[0]), ShiftVec(L, rs[1])];
  }

  /** (30, 30, 30) with images (1, 2, 3) wraps to (0, 0, 10) with images (4, 4, 4): several
      box lengths are removed at once. */
  lemma TestWrapMultipleImages(L: Vec)
    requires L == Vec(10.0, 15.0, 20.0)
    ensures WrapVec(L, Vec(30.0, 30.0, 30.0)) == Vec(0.0, 0.0, 10.0)
    ensures AddImage(Image(1, 2, 3), ShiftVec(L, Vec(30.0, 30.0, 30.0))) == Image(4, 4, 4)
  {
    WrapVecUnique(L, Vec(30.0, 30.0, 30.0), Vec(0.0, 0.0, 10.0), Image(3, 2, 1));
  }

  /** The separations (7, -13, 15), (1, -1, 1) and (-14, 30, 45) have minimum images
      (-3, 2, -5), (1, -1, 1) and (-4, 0, 5). */
  lemma TestMinimumImage(L: Vec)
    requires L == Vec(10.0, 15.0, 20.0)
    ensures MinImageAll(L, [Vec(7.0, -13.0, 15.0), Vec(1.0, -1.0, 1.0)]) == [Vec(-3.0, 2.0, -5.0), Vec(1.0, -1.0, 1.0)]
    ensures MinImage(L, Vec(-14.0, 30.0, 45.0)) == Vec(-4.0, 0.0, 5.0)
  {
    MinImageVecUnique(L, Vec(7.0, -13.0, 15.0), Vec(-3.0, 2.0, -5.0), Image(1, -1, 1));
    MinImageVecInside(L, Vec(1.0, -1.0, 1.0));
    MinImageVecUnique(L, Vec(-14.0, 30.0, 45.0), Vec(-4.0, 0.0, 5.0), Image(-1, 2, 2));
  }
}
