/** The view frustum of project/src/Math/BoundingFrustum.cpp: six planes read off a 4x4 matrix,
    and a point test that combines the six plane tests. The matrix is indexed as glm does,
    `m[i][j]` being entry j of column i. */
module Frusta {
  import opened Planes

  datatype Containment = Disjoint | Contains | Intersects

  ghost predicate IsMat4(m: seq<seq<real>>)
  {
    |m| == 4 && forall i :: 0 <= i < 4 ==> |m[i]| == 4
  }

  /** A plane's coefficients before normalisation. */
  datatype RawPlane = RawPlane(normal: Vec3, distance: real)

  /** The plane whose normal is (m[0][j], m[1][j], m[2][j]) and distance m[3][j], for entry j. */
  function Entry(m: seq<seq<real>>, j: nat): RawPlane
    requires IsMat4(m) && j < 4
  {
    RawPlane(Vec3(m[0][j], m[1][j], m[2][j]), m[3][j])
  }

  /** Entry 3 plus `sign` times entry j, component by component. */
  function Combined(m: seq<seq<real>>, j: nat, sign: real): RawPlane
    requires IsMat4(m) && j < 4
  {
    RawPlane(Vec3(m[0][3] + sign * m[0][j], m[1][3] + sign * m[1][j], m[2][3] + sign * m[2][j]),
             m[3][3] + sign * m[3][j])
  }

  /** The planes before normalisation. */
  function RawLeft(m: seq<seq<real>>): RawPlane requires IsMat4(m) { Combined(m, 0, 1.0) }
  function RawRight(m: seq<seq<real>>): RawPlane requires IsMat4(m) { Combined(m, 0, -1.0) }
  function RawTop(m: seq<seq<real>>): RawPlane requires IsMat4(m) { Combined(m, 1, -1.0) }
  function RawBottom(m: seq<seq<real>>): RawPlane requires IsMat4(m) { Combined(m, 1, 1.0) }
  function RawNear(m: seq<seq<real>>): RawPlane requires IsMat4(m) { Entry(m, 2) }
  function RawFar(m: seq<seq<real>>): RawPlane requires IsMat4(m) { Combined(m, 2, -1.0) }

  /** A plane holds `raw` scaled by the factor its normal gets. */
  ghost predicate Holds(p: Plane, raw: RawPlane, inverseLength: Vec3 -> real)
    reads p
  {
    p.normal == Scale(raw.normal, inverseLength(raw.normal)) && p.distance == raw.distance * inverseLength(raw.normal)
  }

  /** A plane holding a normalised raw plane sorts points as the raw plane does. */
  lemma NormalisedClassifiesAsRaw(p: Plane, raw: RawPlane, inverseLength: Vec3 -> real, v: Vec3)
    requires Holds(p, raw, inverseLength) && inverseLength(raw.normal) > 0.0
    ensures p.Intersects(v) == Classify(raw.normal, raw.distance, v)
  {
    ScaledClassifiesAlike(raw.normal, raw.distance, inverseLength(raw.normal), v);
  }

  /** Sets a plane to `raw` and normalises it. */
  method SetPlane(p: Plane, raw: RawPlane, inverseLength: Vec3 -> real)
    requires inverseLength(raw.normal) > 0.0
    modifies p
    ensures Holds(p, raw, inverseLength)
    ensures forall v :: p.Intersects(v) == Classify(raw.normal, raw.distance, v)
  {
    p.SetNormal(raw.normal);
    p.SetDistance(raw.distance);
    p.Normalize(inverseLength(raw.normal));
  }

  /** `GetPlanesFromMatrix`: each plane is its raw combination, normalised; so each classifies
      points exactly as the raw combination does. The square root is `inverseLength`, positive. */
  method GetPlanesFromMatrix(m: seq<seq<real>>, near: Plane, far: Plane, left: Plane, right: Plane,
                             top: Plane, bottom: Plane, inverseLength: Vec3 -> real)
    requires IsMat4(m)
    requires forall v :: inverseLength(v) > 0.0
    requires Distinct([near, far, left, right, top, bottom])
    modifies near, far, left, right, top, bottom
    ensures Holds(near, RawNear(m), inverseLength) && Holds(far, RawFar(m), inverseLength)
    ensures Holds(left, RawLeft(m), inverseLength) && Holds(right, RawRight(m), inverseLength)
    ensures Holds(top, RawTop(m), inverseLength) && Holds(bottom, RawBottom(m), inverseLength)
  {
    var ps := [near, far, left, right, top, bottom];
    assert ps[0] != ps[1] && ps[0] != ps[2] && ps[0] != ps[3] && ps[0] != ps[4] && ps[0] != ps[5];
    assert ps[1] != ps[2] && ps[1] != ps[3] && ps[1] != ps[4] && ps[1] != ps[5];
    assert ps[2] != ps[3] && ps[2] != ps[4] && ps[2] != ps[5];
    assert ps[3] != ps[4] && ps[3] != ps[5] && ps[4] != ps[5];
    SetPlane(left, RawLeft(m), inverseLength);
    SetPlane(right, RawRight(m), inverseLength);
    SetPlane(top, RawTop(m), inverseLength);
    SetPlane(bottom, RawBottom(m), inverseLength);
    SetPlane(near, RawNear(m), inverseLength);
    SetPlane(far, RawFar(m), inverseLength);
  }

  ghost predicate Distinct(ps: seq<Plane>)
  {
    forall i, j :: 0 <= i < j < |ps| ==> ps[i] != ps[j]
  }

  /** The combination rule of `Contains`, over the plane results in test order: the first Back
      makes the point Disjoint, the first Intersecting makes it Intersects, and only a run of
      Front results to the end makes it Contained. */
  function Combine(results: seq<PlaneIntersection>): Containment
  {
    if results == [] then Contains
    else if results[0] == Back then Disjoint
    else if results[0] == Intersecting then Intersects
    else Combine(results[1..])
  }

  /** Contains exactly when every plane reports Front. */
  lemma {:induction false} ContainsIffAllFront(results: seq<PlaneIntersection>)
    ensures Combine(results) == Contains <==> forall k :: 0 <= k < |results| ==> results[k] == Front
  {
    if results != [] {
      ContainsIffAllFront(results[1..]);
      if results[0] == Front {
        assert forall k :: 1 <= k < |results| ==> results[k] == results[1..][k - 1];
      }
    }
  }

  /** The verdict is decided by the first non-Front result: Disjoint for Back, Intersects for
      Intersecting, whatever the planes after it report. */
  lemma {:induction false} FirstNonFrontDecides(results: seq<PlaneIntersection>, k: nat)
    requires k < |results| && results[k] != Front
    requires forall j :: 0 <= j < k ==> results[j] == Front
    ensures Combine(results) == if results[k] == Back then Disjoint else Intersects
  {
    if k > 0 {
      FirstNonFrontDecides(results[1..], k - 1);
    }
  }

  class BoundingFrustum {
    const near: Plane
    const far: Plane
    const left: Plane
    const right: Plane
    const top: Plane
    const bottom: Plane

    /** The planes in the order `Contains` tests them. */
    function Planes(): seq<Plane>
    {
      [near, far, left, right, top, bottom]
    }

    ghost predicate Valid()
    {
      Distinct(Planes())
    }

    /** What each plane says about v, in test order. */
    function Results(v: Vec3): seq<PlaneIntersection>
      reads near, far, left, right, top, bottom
    {
      [near.Intersects(v), far.Intersects(v), left.Intersects(v), right.Intersects(v),
       top.Intersects(v), bottom.Intersects(v)]
    }

    constructor (m: seq<seq<real>>, inverseLength: Vec3 -> real)
      requires IsMat4(m)
      requires forall v :: inverseLength(v) > 0.0
      ensures Valid()
      ensures Holds(near, RawNear(m), inverseLength) && Holds(far, RawFar(m), inverseLength)
      ensures Holds(left, RawLeft(m), inverseLength) && Holds(right, RawRight(m), inverseLength)
      ensures Holds(top, RawTop(m), inverseLength) && Holds(bottom, RawBottom(m), inverseLength)
    {
      near := new Plane();
      far := new Plane();
      left := new Plane();
      right := new Plane();
      top := new Plane();
      bottom := new Plane();
      new;
      GetPlanesFromMatrix(m, near, far, left, right, top, bottom, inverseLength);
    }

    /** Tests the planes near, far, left, right, top, bottom in turn and stops at the first that
        does not report Front. */
    method Contains(v: Vec3) returns (r: Containment)
      ensures r == Combine(Results(v))
    {
      var results := Results(v);
      var i := 0;
      while i < 6
        invariant 0 <= i <= 6
        invariant forall j :: 0 <= j < i ==> results[j] == Front
      {
        var planeResult := Planes()[i].Intersects(v);
        if planeResult == Back {
          FirstNonFrontDecides(results, i);
          return Disjoint;
        }
        if planeResult == Intersecting {
          FirstNonFrontDecides(results, i);
          return Intersects;
        }
        i := i + 1;
      }
      ContainsIffAllFront(results);
      return Containment.Contains;
    }
  }
}
