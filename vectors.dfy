/** Three-component vectors over exact reals and over integers, the arithmetic the
    simulation uses on them, and sums over arrays of them. */
module Vectors {
  import opened Arith

  /** A 3-vector of reals: a position, velocity, force or edge-length triple. */
  datatype Vec = Vec(x: real, y: real, z: real)
  {
    /** Component `k` (0 = x, 1 = y, 2 = z). */
    function Get(k: nat): real
      requires k < 3
    {
      if k == 0 then x else if k == 1 then y else z
    }
  }

  /** A 3-vector of integers: the periodic image counters of one particle. */
  datatype Image = Image(x: int, y: int, z: int)
  {
    function Get(k: nat): int
      requires k < 3
    {
      if k == 0 then x else if k == 1 then y else z
    }
  }

  const Zero: Vec := Vec(0.0, 0.0, 0.0)
  const NoImage: Image := Image(0, 0, 0)

  function Add(a: Vec, b: Vec): Vec { Vec(a.x + b.x, a.y + b.y, a.z + b.z) }

  function Sub(a: Vec, b: Vec): Vec { Vec(a.x - b.x, a.y - b.y, a.z - b.z) }

  function Scale(c: real, a: Vec): Vec { Vec(c * a.x, c * a.y, c * a.z) }

  function Dot(a: Vec, b: Vec): real { a.x * b.x + a.y * b.y + a.z * b.z }

  /** Squared length |a|^2: never negative, and zero exactly at the zero vector. */
  function Norm2(a: Vec): (r: real)
    ensures r >= 0.0
    ensures r == 0.0 <==> a == Zero
  {
    DotSelfNonNegative(a);
    if a == Zero then Dot(a, a) else DotSelfPositive(a); Dot(a, a)
  }

  lemma DotSelf(a: Vec)
    ensures Dot(a, a) == Sq(a.x) + Sq(a.y) + Sq(a.z)
  {
  }

  lemma DotSelfNonNegative(a: Vec)
    ensures Dot(a, a) >= 0.0
  {
    DotSelf(a);
    SqNonNegative(a.x);
    SqNonNegative(a.y);
    SqNonNegative(a.z);
  }

  lemma FirstAxisPositive(a: Vec)
    requires a.x != 0.0
    ensures Dot(a, a) > 0.0
  {
    DotSelf(a);
    SqPositive(a.x);
    SqNonNegative(a.y);
    SqNonNegative(a.z);
  }

  /** A non-zero vector has a positive squared length (its non-zero axis is rotated to x). */
  lemma DotSelfPositive(a: Vec)
    requires a != Zero
    ensures Dot(a, a) > 0.0
  {
    if a.x != 0.0 {
      FirstAxisPositive(a);
    } else if a.y != 0.0 {
      var b := Vec(a.y, a.x, a.z);
      FirstAxisPositive(b);
      assert Dot(b, b) == Dot(a, a);
    } else {
      var b := Vec(a.z, a.x, a.y);
      FirstAxisPositive(b);
      assert Dot(b, b) == Dot(a, a);
    }
  }
  /** The dot product is symmetric, and linear in its first argument. */
  lemma DotSymmetric(a: Vec, b: Vec)
    ensures Dot(a, b) == Dot(b, a)
  {
  }

  lemma DotAdd(a: Vec, b: Vec, c: Vec)
    ensures Dot(Add(a, b), c) == Dot(a, c) + Dot(b, c)
  {
  }

  lemma DotScale(k: real, a: Vec, b: Vec)
    ensures Dot(Scale(k, a), b) == Mul(k, Dot(a, b))
  {
  }


  /** Positive in every component (a valid box). */
  predicate Positive(l: Vec)
  {
    l.x > 0.0 && l.y > 0.0 && l.z > 0.0
  }

  /** An array of `n` zero vectors (`numpy.zeros((n,3))`). */
  function Zeros(n: nat): (r: seq<Vec>)
    ensures |r| == n && forall i :: 0 <= i < n ==> r[i] == Zero
  {
    seq(n, _ => Zero)
  }

  /** An array of `n` integer zero triples (`numpy.zeros((n,3), dtype=int32)`). */
  function NoImages(n: nat): (r: seq<Image>)
    ensures |r| == n && forall i :: 0 <= i < n ==> r[i] == NoImage
  {
    seq(n, _ => NoImage)
  }

  /** Sum of an array of vectors (`numpy.sum(a, axis=0)`). */
  function Sum(s: seq<Vec>): Vec
  {
    if |s| == 0 then Zero else Add(s[0], Sum(s[1..]))
  }

  /** Sum of an array of reals (`numpy.sum(a)`). */
  function SumReals(s: seq<real>): real
  {
    if |s| == 0 then 0.0 else s[0] + SumReals(s[1..])
  }

  /** Replacing one entry changes the vector sum by the difference of the entries. */
  lemma {:induction false} SumUpdate(s: seq<Vec>, k: nat, v: Vec)
    requires k < |s|
    ensures Sum(s[k := v]) == Add(Sub(Sum(s), s[k]), v)
  {
    if k > 0 {
      assert s[k := v][1..] == s[1..][k - 1 := v];
      SumUpdate(s[1..], k - 1, v);
    } else {
      assert s[k := v][1..] == s[1..];
    }
  }

  /** Replacing one entry changes the real sum by the difference of the entries. */
  lemma {:induction false} SumRealsUpdate(s: seq<real>, k: nat, v: real)
    requires k < |s|
    ensures SumReals(s[k := v]) == SumReals(s) - s[k] + v
  {
    if k > 0 {
      assert s[k := v][1..] == s[1..][k - 1 := v];
      SumRealsUpdate(s[1..], k - 1, v);
    } else {
      assert s[k := v][1..] == s[1..];
    }
  }

  lemma {:induction false} SumZeros(n: nat)
    ensures Sum(Zeros(n)) == Zero
  {
    if n > 0 {
      assert Zeros(n)[1..] == Zeros(n - 1);
      SumZeros(n - 1);
    }
  }

  lemma {:induction false} SumRealsZeros(n: nat)
    ensures SumReals(seq(n, _ => 0.0)) == 0.0
  {
    if n > 0 {
      assert seq(n, _ => 0.0)[1..] == seq(n - 1, _ => 0.0);
      SumRealsZeros(n - 1);
    }
  }

  /** An array row (a Python list or NumPy row) as a vector; the row must have 3 entries. */
  function OfRow(row: seq<real>): (v: Vec)
    requires |row| == 3
    ensures forall k :: 0 <= k < 3 ==> v.Get(k) == row[k]
  {
    Vec(row[0], row[1], row[2])
  }

  function Row(v: Vec): (row: seq<real>)
    ensures |row| == 3 && OfRow(row) == v
  {
    [v.x, v.y, v.z]
  }

  function OfImageRow(row: seq<int>): (m: Image)
    requires |row| == 3
    ensures forall k :: 0 <= k < 3 ==> m.Get(k) == row[k]
  {
    Image(row[0], row[1], row[2])
  }

  function ImageRow(m: Image): (row: seq<int>)
    ensures |row| == 3 && OfImageRow(row) == m
  {
    [m.x, m.y, m.z]
  }

  /** The array has shape (n, 3). */
  predicate IsArray<T>(a: seq<seq<T>>, n: nat)
  {
    |a| == n && forall i :: 0 <= i < n ==> |a[i]| == 3
  }

  /** An (n, 3) real array as n vectors; converting back gives the same array. */
  function OfRows(a: seq<seq<real>>): (vs: seq<Vec>)
    requires IsArray(a, |a|)
    ensures |vs| == |a| && Rows(vs) == a
  {
    var vs := seq(|a|, i requires 0 <= i < |a| => OfRow(a[i]));
    assert forall i :: 0 <= i < |a| ==> Row(vs[i]) == a[i];
    vs
  }

  function Rows(vs: seq<Vec>): (a: seq<seq<real>>)
    ensures IsArray(a, |vs|)
  {
    seq(|vs|, i requires 0 <= i < |vs| => Row(vs[i]))
  }

  /** An (n, 3) integer array as n image triples; converting back gives the same array. */
  function OfImageRows(a: seq<seq<int>>): (ms: seq<Image>)
    requires IsArray(a, |a|)
    ensures |ms| == |a| && ImageRows(ms) == a
  {
    var ms := seq(|a|, i requires 0 <= i < |a| => OfImageRow(a[i]));
    assert forall i :: 0 <= i < |a| ==> ImageRow(ms[i]) == a[i];
    ms
  }

  function ImageRows(ms: seq<Image>): (a: seq<seq<int>>)
    ensures IsArray(a, |ms|)
  {
    seq(|ms|, i requires 0 <= i < |ms| => ImageRow(ms[i]))
  }
}
