/** The plane of project/src/Math/Plane.cpp: the points p with dot(normal, p) + distance == 0.
    Components are real numbers; float rounding is ignored, and the square root in `Normalize`
    is the caller-supplied factor `magnitude` (the reciprocal of the normal's length). */
module Planes {

  datatype Vec3 = Vec3(x: real, y: real, z: real)

  function Dot(a: Vec3, b: Vec3): real
  {
    a.x * b.x + a.y * b.y + a.z * b.z
  }

  function Scale(v: Vec3, k: real): Vec3
  {
    Vec3(v.x * k, v.y * k, v.z * k)
  }

  function LengthSquared(v: Vec3): real
  {
    Dot(v, v)
  }

  datatype PlaneIntersection = Back | Front | Intersecting

  /** Which side of the plane (normal, distance) the point p lies on. */
  function Classify(normal: Vec3, distance: real, p: Vec3): (r: PlaneIntersection)
    ensures r == Front <==> Dot(normal, p) + distance > 0.0
    ensures r == Back <==> Dot(normal, p) + distance < 0.0
    ensures r == Intersecting <==> Dot(normal, p) + distance == 0.0
  {
    var signed := Dot(normal, p) + distance;
    if signed > 0.0 then Front else if signed < 0.0 then Back else Intersecting
  }

  /** Scaling normal and distance by one positive factor moves no point to another side. */
  lemma ScaledClassifiesAlike(normal: Vec3, distance: real, k: real, p: Vec3)
    requires k > 0.0
    ensures Classify(Scale(normal, k), distance * k, p) == Classify(normal, distance, p)
  {
    var s := Dot(normal, p) + distance;
    assert Dot(Scale(normal, k), p) + distance * k == s * k;
    if s > 0.0 {
      assert s * k > 0.0;
    } else if s < 0.0 {
      assert s * k < 0.0;
    }
  }

  /** With the reciprocal of the normal's length as factor, the scaled normal has length one. */
  lemma ScaledIsUnit(normal: Vec3, k: real)
    requires k * k * LengthSquared(normal) == 1.0
    ensures LengthSquared(Scale(normal, k)) == 1.0
  {
    assert LengthSquared(Scale(normal, k)) == k * k * LengthSquared(normal);
  }

  /** The plane through `point` with the given normal contains that point. */
  lemma ThroughPointContainsIt(point: Vec3, normal: Vec3)
    ensures Classify(normal, -Dot(normal, point), point) == Intersecting
  {
  }

  class Plane {
    var normal: Vec3
    var distance: real

    /** `Plane()`: zero normal and zero distance, so every point classifies as Intersecting. */
    constructor ()
      ensures normal == Vec3(0.0, 0.0, 0.0) && distance == 0.0
      ensures forall p :: Intersects(p) == Intersecting
    {
      normal := Vec3(0.0, 0.0, 0.0);
      distance := 0.0;
    }

    /** `Plane(a, b, c, d)`. */
    constructor FromComponents(a: real, b: real, c: real, d: real)
      ensures normal == Vec3(a, b, c) && distance == d
    {
      normal := Vec3(a, b, c);
      distance := d;
    }

    /** `Plane(point, normal)`: the plane through `point`, which it then contains. */
    constructor FromPoint(point: Vec3, normal: Vec3)
      ensures this.normal == normal && distance == -Dot(normal, point)
      ensures Intersects(point) == Intersecting
    {
      this.normal := normal;
      distance := -Dot(normal, point);
      ThroughPointContainsIt(point, normal);
    }

    /** `Plane(normal, d)`. */
    constructor FromNormal(normal: Vec3, d: real)
      ensures this.normal == normal && distance == d
    {
      this.normal := normal;
      distance := d;
    }

    function GetNormal(): Vec3
      reads this
    {
      normal
    }

    function GetDistance(): real
      reads this
    {
      distance
    }

    method SetNormal(n: Vec3)
      modifies this
      ensures normal == n && distance == old(distance)
    {
      normal := n;
    }

    method SetDistance(d: real)
      modifies this
      ensures distance == d && normal == old(normal)
    {
      distance := d;
    }

    /** Scales the normal and the distance by `magnitude`, the reciprocal of the normal's length:
        every point keeps its side, and the normal becomes a unit vector. */
    method Normalize(magnitude: real)
      requires magnitude > 0.0
      modifies this
      ensures normal == Scale(old(normal), magnitude) && distance == old(distance) * magnitude
      ensures forall p :: Intersects(p) == old(Intersects(p))
      ensures magnitude * magnitude * LengthSquared(old(normal)) == 1.0 ==> LengthSquared(normal) == 1.0
    {
      ghost var n, d := normal, distance;
      normal := Vec3(normal.x * magnitude, normal.y * magnitude, normal.z * magnitude);
      distance := distance * magnitude;
      forall p
        ensures Classify(normal, distance, p) == Classify(n, d, p)
      {
        ScaledClassifiesAlike(n, d, magnitude, p);
      }
      if magnitude * magnitude * LengthSquared(n) == 1.0 {
        ScaledIsUnit(n, magnitude);
      }
    }

    function Intersects(p: Vec3): PlaneIntersection
      reads this
    {
      Classify(normal, distance, p)
    }
  }
}
