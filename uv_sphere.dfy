/** The index-buffer construction of project/src/Project/UVSphere.cpp. Vertex positions, normals
    and texture coordinates are trigonometry on floats; here each vertex is named by where it
    sits (grid row and column, or a pole), which fixes the buffer layout and every index. The
    index arithmetic is on `unsigned int` and is wrapped to 32 bits. */
module UVSpheres {

  const U32Modulus: nat := 0x1_0000_0000

  /** `unsigned int` arithmetic: the value modulo 2^32. */
  function U32(x: int): (r: nat)
    ensures r < U32Modulus
    ensures 0 <= x < U32Modulus ==> r == x
  {
    x % U32Modulus
  }

  /** Which point of the sphere a buffer entry belongs to. */
  datatype SphereVertex = GridVertex(lat: nat, lon: nat) | TopPole | BottomPole

  // ---------------------------------------------------------------------------------------------
  // Vertex layout

  /** The first `rows` rings of the grid loop, `cols` vertices per ring. */
  function GridVertices(rows: nat, cols: nat): seq<SphereVertex>
  {
    if rows == 0 then [] else GridVertices(rows - 1, cols) + Ring(rows - 1, cols)
  }

  function Ring(lat: nat, cols: nat): (r: seq<SphereVertex>)
    ensures |r| == cols && forall j :: 0 <= j < cols ==> r[j] == GridVertex(lat, j)
  {
    seq(cols, j requires 0 <= j => GridVertex(lat, j))
  }

  /** Vertex (lat, lon) of the grid sits at lat * cols + lon: rows hold `cols` vertices. */
  lemma {:induction false} GridVertexAt(rows: nat, cols: nat, lat: nat, lon: nat)
    requires lat < rows && lon < cols
    ensures |GridVertices(rows, cols)| == rows * cols
    ensures lat * cols + lon < rows * cols
    ensures GridVertices(rows, cols)[lat * cols + lon] == GridVertex(lat, lon)
  {
    GridSize(rows, cols);
    GridSize(rows - 1, cols);
    assert rows * cols == (rows - 1) * cols + cols;
    if lat < rows - 1 {
      GridVertexAt(rows - 1, cols, lat, lon);
    } else {
      assert lat * cols + lon == (rows - 1) * cols + lon;
    }
  }

  lemma {:induction false} GridSize(rows: nat, cols: nat)
    ensures |GridVertices(rows, cols)| == rows * cols
  {
    if rows > 0 {
      GridSize(rows - 1, cols);
      assert rows * cols == (rows - 1) * cols + cols;
    }
  }

  /** The whole vertex buffer: the grid ring by ring, then the top and the bottom pole. */
  function Vertices(horiz: nat, vert: nat): seq<SphereVertex>
  {
    GridVertices(horiz, vert) + [TopPole, BottomPole]
  }

  /** H * V + 2 entries; the top pole is entry H * V and the bottom pole entry H * V + 1. */
  lemma VertexCount(horiz: nat, vert: nat)
    ensures |Vertices(horiz, vert)| == horiz * vert + 2
    ensures Vertices(horiz, vert)[horiz * vert] == TopPole
    ensures Vertices(horiz, vert)[horiz * vert + 1] == BottomPole
  {
    GridSize(horiz, vert);
  }

  // ---------------------------------------------------------------------------------------------
  // Index layout, parameterised by the row stride and the cap and seam parameters

  /** The two triangles the grid loop adds at (lat, lon): a b c and d c b. */
  function Quad(lat: int, lon: int, stride: int): seq<nat>
  {
    var a := U32(lat * stride + lon);
    var b := U32(lat * stride + (lon - 1));
    var c := U32((lat - 1) * stride + lon);
    var d := U32((lat - 1) * stride + (lon - 1));
    [a, b, c, d, c, b]
  }

  /** What the inner grid loop adds for longitudes 0 .. n - 1 of ring `lat`. */
  function RowQuads(lat: nat, n: nat, stride: int): seq<nat>
  {
    if n == 0 then []
    else RowQuads(lat, n - 1, stride) + (if lat > 0 && n - 1 > 0 then Quad(lat, n - 1, stride) else [])
  }

  /** What the grid loop adds for latitudes 0 .. rows - 1. */
  function GridIndices(rows: nat, cols: nat, stride: int): seq<nat>
  {
    if rows == 0 then [] else GridIndices(rows - 1, cols, stride) + RowQuads(rows - 1, cols, stride)
  }

  /** The top cap loop for columns 1 .. n - 1: col, col - 1 on row `row`, then the pole. */
  function TopFan(row: int, n: nat, stride: int, pole: nat): seq<nat>
  {
    if n <= 1 then []
    else TopFan(row, n - 1, stride, pole) +
         [U32(row * stride + (n - 1)), U32(row * stride + (n - 2)), U32(pole)]
  }

  /** The bottom cap loop for columns 1 .. n - 1: the pole, then col - 1 and col of row 0. */
  function BottomFan(n: nat, pole: nat): seq<nat>
  {
    if n <= 1 then [] else BottomFan(n - 1, pole) + [U32(pole), U32(n - 2), U32(n - 1)]
  }

  /** The last-column loop for rows 1 .. n - 1, closing each ring: b d a and d b c. */
  function Seam(n: nat, stride: int, lastCol: int): seq<nat>
  {
    if n <= 1 then []
    else
      var row := n - 1;
      var a := U32((row - 1) * stride);
      var b := U32((row - 1) * stride + lastCol);
      var c := U32(row * stride);
      var d := U32(row * stride + lastCol);
      Seam(n - 1, stride, lastCol) + [b, d, a, d, b, c]
  }

  /** The index buffer as the constructor writes it, for V = vertRes and H = horizRes: H rings
      of V vertices, but every index uses the row stride H, the top cap uses row V - 1 and
      columns below H, and the seam uses column H - 1 and rows below V. */
  function IndicesAsWritten(vert: nat, horiz: nat): (r: seq<nat>)
    ensures vert == horiz ==> r == Indices(vert, horiz)
  {
    var hv: nat := horiz * vert;
    var r := GridIndices(horiz, vert, horiz) + TopFan(vert as int - 1, horiz, horiz, hv) +
             BottomFan(horiz, hv + 1) + Seam(vert, horiz, horiz as int - 1);
    if vert == horiz then SquareLayout(vert, horiz, hv, r); r else r
  }

  /** The index buffer with the row stride V that the vertex layout has: the top cap on the last
      ring H - 1 over V columns, the bottom cap over V columns, and the seam at column V - 1 for
      every ring. */
  function Indices(vert: nat, horiz: nat): seq<nat>
  {
    GridIndices(horiz, vert, vert) + TopFan(horiz as int - 1, vert, vert, horiz * vert) +
    BottomFan(vert, horiz * vert + 1) + Seam(horiz, vert, vert as int - 1)
  }

  /** For a square sphere the parts the constructor writes make up the corrected buffer. */
  lemma SquareLayout(vert: nat, horiz: nat, hv: nat, r: seq<nat>)
    requires vert == horiz && hv == horiz * vert
    requires r == GridIndices(horiz, vert, horiz) + TopFan(vert as int - 1, horiz, horiz, hv) +
                  BottomFan(horiz, hv + 1) + Seam(vert, horiz, horiz as int - 1)
    ensures r == Indices(vert, horiz)
  {
  }

  /** For a square sphere (V == H) the two agree. */
  lemma SquareAgrees(n: nat)
    ensures IndicesAsWritten(n, n) == Indices(n, n)
  {
  }

  /** With V = 2 and H = 4 the buffer has 10 vertices, yet the grid loop emits index 13
      (ring 3, column 1, stride 4). */
  lemma AsWrittenOutOfRange()
    ensures |Vertices(4, 2)| == 10
    ensures 13 in IndicesAsWritten(2, 4)
  {
    VertexCount(4, 2);
    var row3 := RowQuads(3, 2, 4);
    assert RowQuads(3, 1, 4) == [];
    assert row3 == Quad(3, 1, 4);
    assert Quad(3, 1, 4)[0] == 13;
    assert GridIndices(4, 2, 4) == GridIndices(3, 2, 4) + row3;
    assert 13 in GridIndices(4, 2, 4);
  }

  // ---------------------------------------------------------------------------------------------
  // Counts

  lemma {:induction false} RowQuadsCount(lat: nat, n: nat, stride: int)
    ensures |RowQuads(lat, n, stride)| == if lat == 0 || n == 0 then 0 else 6 * (n - 1)
  {
    if n > 0 {
      RowQuadsCount(lat, n - 1, stride);
    }
  }

  lemma {:induction false} GridCount(rows: nat, cols: nat, stride: int)
    requires cols >= 1
    ensures rows == 0 ==> |GridIndices(rows, cols, stride)| == 0
    ensures rows >= 1 ==> |GridIndices(rows, cols, stride)| == 6 * ((rows - 1) * (cols - 1))
  {
    if rows > 0 {
      GridCount(rows - 1, cols, stride);
      RowQuadsCount(rows - 1, cols, stride);
      if rows > 1 {
        MulStep(rows - 2, cols - 1);
      }
    }
  }

  lemma MulStep(a: nat, k: nat)
    ensures (a + 1) * k == a * k + k
  {
  }

  lemma {:induction false} TopFanCount(row: int, n: nat, stride: int, pole: nat)
    ensures |TopFan(row, n, stride, pole)| == if n == 0 then 0 else 3 * (n - 1)
  {
    if n > 1 {
      TopFanCount(row, n - 1, stride, pole);
    }
  }

  lemma {:induction false} BottomFanCount(n: nat, pole: nat)
    ensures |BottomFan(n, pole)| == if n == 0 then 0 else 3 * (n - 1)
  {
    if n > 1 {
      BottomFanCount(n - 1, pole);
    }
  }

  lemma {:induction false} SeamCount(n: nat, stride: int, lastCol: int)
    ensures |Seam(n, stride, lastCol)| == if n == 0 then 0 else 6 * (n - 1)
  {
    if n > 1 {
      SeamCount(n - 1, stride, lastCol);
    }
  }

  /** The triangles of a sphere with H, V >= 1: two per grid cell, one per cap column on each
      cap, two per ring on the seam. */
  function TriangleCount(vert: nat, horiz: nat): nat
    requires vert >= 1 && horiz >= 1
  {
    2 * ((horiz - 1) * (vert - 1)) + 2 * (horiz - 1) + 2 * (vert - 1)
  }

  /** For H, V >= 1 both buffers hold 6(H-1)(V-1) + 6(H-1) + 6(V-1) indices, three per
      triangle. */
  lemma IndexCount(vert: nat, horiz: nat)
    requires vert >= 1 && horiz >= 1
    ensures |IndicesAsWritten(vert, horiz)| == 6 * ((horiz - 1) * (vert - 1)) + 6 * (horiz - 1) + 6 * (vert - 1)
    ensures |Indices(vert, horiz)| == |IndicesAsWritten(vert, horiz)|
    ensures |Indices(vert, horiz)| == 3 * TriangleCount(vert, horiz)
  {
    var g := (horiz - 1) * (vert - 1);
    AsWrittenLength(vert, horiz, g);
    IndicesLength(vert, horiz, g);
  }

  lemma AsWrittenLength(vert: nat, horiz: nat, g: nat)
    requires vert >= 1 && horiz >= 1 && g == (horiz - 1) * (vert - 1)
    ensures |IndicesAsWritten(vert, horiz)| == 6 * g + 6 * (horiz - 1) + 6 * (vert - 1)
  {
    var hv := horiz * vert;
    var grid, top := GridIndices(horiz, vert, horiz), TopFan(vert as int - 1, horiz, horiz, hv);
    var bottom, seam := BottomFan(horiz, hv + 1), Seam(vert, horiz, horiz as int - 1);
    assert IndicesAsWritten(vert, horiz) == grid + top + bottom + seam;
    GridCount(horiz, vert, horiz);
    assert |grid| == 6 * g;
    TopFanCount(vert as int - 1, horiz, horiz, hv);
    BottomFanCount(horiz, hv + 1);
    SeamCount(vert, horiz, horiz as int - 1);
  }

  lemma IndicesLength(vert: nat, horiz: nat, g: nat)
    requires vert >= 1 && horiz >= 1 && g == (horiz - 1) * (vert - 1)
    ensures |Indices(vert, horiz)| == 6 * g + 6 * (horiz - 1) + 6 * (vert - 1)
  {
    var hv := horiz * vert;
    var grid, top := GridIndices(horiz, vert, vert), TopFan(horiz as int - 1, vert, vert, hv);
    var bottom, seam := BottomFan(vert, hv + 1), Seam(horiz, vert, vert as int - 1);
    assert Indices(vert, horiz) == grid + top + bottom + seam;
    GridCount(horiz, vert, vert);
    assert |grid| == 6 * g;
    TopFanCount(horiz as int - 1, vert, vert, hv);
    BottomFanCount(vert, hv + 1);
    SeamCount(horiz, vert, vert as int - 1);
  }

  /** Every grid row contributes whole quads, so the grid part is `k` quads for some `k`, for any
      sizes, zero included. */
  lemma {:induction false} GridWholeQuads(rows: nat, cols: nat, stride: int) returns (k: nat)
    ensures |GridIndices(rows, cols, stride)| == 6 * k
  {
    k := 0;
    if rows > 0 {
      k := GridWholeQuads(rows - 1, cols, stride);
      RowQuadsCount(rows - 1, cols, stride);
      if rows > 1 && cols > 0 {
        k := k + (cols - 1);
      }
    }
  }

  lemma ThreeDivides(m: nat)
    ensures (3 * m) % 3 == 0
  {
  }

  /** Four parts of 6k, 3a, 3a and 6c indices: a multiple of three in all. */
  lemma PartsThirds(total: nat, grid: nat, top: nat, bottom: nat, seam: nat, k: nat, a: nat, c: nat)
    requires total == grid + top + bottom + seam
    requires grid == 6 * k && top == 3 * a && bottom == 3 * a && seam == 6 * c
    ensures total == 3 * (2 * k + 2 * a + 2 * c)
  {
  }

  /** For every pair of resolutions, zero included, both index buffers hold whole triangles: the
      grid and the seam add six indices at a time and each cap three. */
  lemma WholeTriangles(vert: nat, horiz: nat)
    ensures |Indices(vert, horiz)| % 3 == 0
    ensures |IndicesAsWritten(vert, horiz)| % 3 == 0
  {
    if vert >= 1 && horiz >= 1 {
      IndexCount(vert, horiz);
      ThreeDivides(2 * ((horiz - 1) * (vert - 1)) + 2 * (horiz - 1) + 2 * (vert - 1));
    } else {
      var m := IndicesThirds(vert, horiz);
      ThreeDivides(m);
      var m' := AsWrittenThirds(vert, horiz);
      ThreeDivides(m');
    }
  }

  /** A sphere with no rings or no columns: the corrected buffer still holds whole triangles. */
  lemma IndicesThirds(vert: nat, horiz: nat) returns (m: nat)
    requires vert == 0 || horiz == 0
    ensures |Indices(vert, horiz)| == 3 * m
  {
    var hv := horiz * vert;
    var grid, top := GridIndices(horiz, vert, vert), TopFan(horiz as int - 1, vert, vert, hv);
    var bottom, seam := BottomFan(vert, hv + 1), Seam(horiz, vert, vert as int - 1);
    assert Indices(vert, horiz) == grid + top + bottom + seam;
    var k := GridWholeQuads(horiz, vert, vert);
    TopFanCount(horiz as int - 1, vert, vert, hv);
    BottomFanCount(vert, hv + 1);
    SeamCount(horiz, vert, vert as int - 1);
    var a: nat := if vert == 0 then 0 else vert - 1;
    var c: nat := if horiz == 0 then 0 else horiz - 1;
    PartsThirds(|Indices(vert, horiz)|, |grid|, |top|, |bottom|, |seam|, k, a, c);
    m := 2 * k + 2 * a + 2 * c;
  }

  /** The same for the buffer as the constructor writes it. */
  lemma AsWrittenThirds(vert: nat, horiz: nat) returns (m: nat)
    requires vert == 0 || horiz == 0
    ensures |IndicesAsWritten(vert, horiz)| == 3 * m
  {
    var hv := horiz * vert;
    var grid, top := GridIndices(horiz, vert, horiz), TopFan(vert as int - 1, horiz, horiz, hv);
    var bottom, seam := BottomFan(horiz, hv + 1), Seam(vert, horiz, horiz as int - 1);
    assert IndicesAsWritten(vert, horiz) == grid + top + bottom + seam;
    var k := GridWholeQuads(horiz, vert, horiz);
    TopFanCount(vert as int - 1, horiz, horiz, hv);
    BottomFanCount(horiz, hv + 1);
    SeamCount(vert, horiz, horiz as int - 1);
    var a: nat := if horiz == 0 then 0 else horiz - 1;
    var c: nat := if vert == 0 then 0 else vert - 1;
    PartsThirds(|IndicesAsWritten(vert, horiz)|, |grid|, |top|, |bottom|, |seam|, k, a, c);
    m := 2 * k + 2 * a + 2 * c;
  }

  // ---------------------------------------------------------------------------------------------
  // Range and poles

  /** A grid cell (lat, lon) with lat < rows and lon < cols is below rows * cols. */
  lemma CellBelow(lat: int, lon: int, rows: nat, cols: nat)
    requires 0 <= lat < rows && 0 <= lon < cols
    ensures 0 <= lat * cols + lon < rows * cols
  {
    assert lat * cols + lon < (lat + 1) * cols;
    assert (lat + 1) * cols <= rows * cols;
  }

  /** Every index names a vertex: each one is below H * V + 2. */
  lemma IndicesInRange(vert: nat, horiz: nat)
    requires vert >= 1 && horiz >= 1 && horiz * vert + 2 <= U32Modulus
    ensures forall i :: i in Indices(vert, horiz) ==> i < horiz * vert + 2
  {
    var hv := horiz * vert;
    GridInRange(horiz, vert, horiz);
    TopFanInRange(horiz, horiz - 1, vert, vert, hv);
    BottomFanInRange(vert, hv + 1);
    MulStep(horiz - 1, vert);
    assert vert <= hv;
    SeamInRange(horiz, horiz, vert, vert - 1);
  }

  lemma {:induction false} GridInRange(rows: nat, cols: nat, allRows: nat)
    requires rows <= allRows && allRows * cols + 2 <= U32Modulus
    ensures forall i :: i in GridIndices(rows, cols, cols) ==> i < allRows * cols
  {
    if rows > 0 {
      GridInRange(rows - 1, cols, allRows);
      RowInRange(rows - 1, cols, cols, allRows);
    }
  }

  lemma {:induction false} RowInRange(lat: nat, n: nat, cols: nat, rows: nat)
    requires lat < rows && n <= cols && rows * cols + 2 <= U32Modulus
    ensures forall i :: i in RowQuads(lat, n, cols) ==> i < rows * cols
  {
    if n > 0 {
      RowInRange(lat, n - 1, cols, rows);
      if lat > 0 && n - 1 > 0 {
        var lon := n - 1;
        CellBelow(lat, lon, rows, cols);
        CellBelow(lat, lon - 1, rows, cols);
        CellBelow(lat - 1, lon, rows, cols);
        CellBelow(lat - 1, lon - 1, rows, cols);
      }
    }
  }

  /** The top fan over the last ring stays below the pole's index plus one. */
  lemma {:induction false} TopFanInRange(rows: nat, row: nat, n: nat, cols: nat, pole: nat)
    requires row + 1 == rows && n <= cols && pole == rows * cols && pole < U32Modulus
    ensures forall i :: i in TopFan(row, n, cols, pole) ==> i <= pole
  {
    if n > 1 {
      TopFanInRange(rows, row, n - 1, cols, pole);
      CellBelow(row, n - 1, rows, cols);
      CellBelow(row, n - 2, rows, cols);
    }
  }

  /** The bottom fan holds the pole and columns below n. */
  lemma {:induction false} BottomFanInRange(n: nat, pole: nat)
    requires pole < U32Modulus && n <= U32Modulus
    ensures forall i :: i in BottomFan(n, pole) ==> i == pole || i < n
  {
    if n > 1 {
      BottomFanInRange(n - 1, pole);
    }
  }

  lemma {:induction false} SeamInRange(n: nat, rows: nat, cols: nat, lastCol: nat)
    requires lastCol + 1 == cols && n <= rows && rows * cols + 2 <= U32Modulus
    ensures forall i :: i in Seam(n, cols, lastCol) ==> i < rows * cols
  {
    if n > 1 {
      SeamInRange(n - 1, rows, cols, lastCol);
      var row := n - 1;
      CellBelow(row - 1, 0, rows, cols);
      CellBelow(row - 1, lastCol, rows, cols);
      CellBelow(row, 0, rows, cols);
      CellBelow(row, lastCol, rows, cols);
    }
  }

  /** Every top-cap triangle ends with the top pole, every bottom-cap triangle starts with the
      bottom pole. */
  lemma {:induction false} FansEndAtPoles(row: int, n: nat, stride: int, pole: nat)
    requires pole < U32Modulus
    ensures forall t :: 0 <= t < |TopFan(row, n, stride, pole)| / 3 ==>
      3 * t + 2 < |TopFan(row, n, stride, pole)| && TopFan(row, n, stride, pole)[3 * t + 2] == pole
    ensures forall t :: 0 <= t < |BottomFan(n, pole)| / 3 ==>
      3 * t < |BottomFan(n, pole)| && BottomFan(n, pole)[3 * t] == pole
  {
    TopFanCount(row, n, stride, pole);
    BottomFanCount(n, pole);
    TopFanPoles(row, n, stride, pole);
    BottomFanPoles(n, pole);
    var k := if n == 0 then 0 else n - 1;
    assert |TopFan(row, n, stride, pole)| / 3 == k;
    assert |BottomFan(n, pole)| / 3 == k;
  }

  lemma {:induction false} TopFanPoles(row: int, n: nat, stride: int, pole: nat)
    requires pole < U32Modulus
    ensures forall t :: 0 <= t < n - 1 ==> 3 * t + 2 < |TopFan(row, n, stride, pole)| &&
                                           TopFan(row, n, stride, pole)[3 * t + 2] == pole
  {
    if n > 1 {
      var prev := TopFan(row, n - 1, stride, pole);
      TopFanPoles(row, n - 1, stride, pole);
      TopFanCount(row, n - 1, stride, pole);
      var last := [U32(row * stride + (n - 1)), U32(row * stride + (n - 2)), U32(pole)];
      assert TopFan(row, n, stride, pole) == prev + last;
      forall t | 0 <= t < n - 1
        ensures 3 * t + 2 < |TopFan(row, n, stride, pole)| && TopFan(row, n, stride, pole)[3 * t + 2] == pole
      {
        if t < n - 2 {
          assert (prev + last)[3 * t + 2] == prev[3 * t + 2];
        } else {
          assert (prev + last)[3 * t + 2] == last[2];
        }
      }
    }
  }

  lemma {:induction false} BottomFanPoles(n: nat, pole: nat)
    requires pole < U32Modulus
    ensures forall t :: 0 <= t < n - 1 ==> 3 * t < |BottomFan(n, pole)| && BottomFan(n, pole)[3 * t] == pole
  {
    if n > 1 {
      var prev := BottomFan(n - 1, pole);
      BottomFanPoles(n - 1, pole);
      BottomFanCount(n - 1, pole);
      var last := [U32(pole), U32(n - 2), U32(n - 1)];
      assert BottomFan(n, pole) == prev + last;
      forall t | 0 <= t < n - 1
        ensures 3 * t < |BottomFan(n, pole)| && BottomFan(n, pole)[3 * t] == pole
      {
        if t < n - 2 {
          assert (prev + last)[3 * t] == prev[3 * t];
        } else {
          assert (prev + last)[3 * t] == last[0];
        }
      }
    }
  }

  // ---------------------------------------------------------------------------------------------
  // The mesh

  /** The grid loop: H rings of V vertices, and two triangles per cell away from ring 0 and
      column 0, with row stride `stride`. */
  method BuildGrid(vert: nat, horiz: nat, stride: int) returns (vs: seq<SphereVertex>, idx: seq<nat>)
    ensures vs == GridVertices(horiz, vert)
    ensures idx == GridIndices(horiz, vert, stride)
  {
    vs, idx := [], [];
    for lat := 0 to horiz
      invariant vs == GridVertices(lat, vert)
      invariant idx == GridIndices(lat, vert, stride)
    {
      for lon := 0 to vert
        invariant vs == GridVertices(lat, vert) + Ring(lat, vert)[..lon]
        invariant idx == GridIndices(lat, vert, stride) + RowQuads(lat, lon, stride)
      {
        RingStep(GridVertices(lat, vert), lat, vert, lon);
        vs := vs + [GridVertex(lat, lon)];
        if lat > 0 && lon > 0 {
          QuadStep(GridIndices(lat, vert, stride), lat, lon, stride);
          idx := idx + Quad(lat, lon, stride);
        }
      }
      assert Ring(lat, vert)[..vert] == Ring(lat, vert);
    }
  }

  /** One more vertex of ring `lat` after the grid built so far. */
  lemma RingStep(done: seq<SphereVertex>, lat: nat, cols: nat, lon: nat)
    requires lon < cols
    ensures done + Ring(lat, cols)[..lon] + [GridVertex(lat, lon)] == done + Ring(lat, cols)[..lon + 1]
  {
    assert Ring(lat, cols)[..lon + 1] == Ring(lat, cols)[..lon] + [GridVertex(lat, lon)];
  }

  /** The two triangles of cell (lat, lon) after the indices built so far. */
  lemma QuadStep(done: seq<nat>, lat: nat, lon: nat, stride: int)
    requires lat > 0 && lon > 0
    ensures done + RowQuads(lat, lon, stride) + Quad(lat, lon, stride) == done + RowQuads(lat, lon + 1, stride)
  {
  }

  /** The top cap loop: one triangle per column 1 .. n - 1 of ring `row`, closed at the pole. */
  method BuildTopCap(row: int, n: nat, stride: int, pole: nat) returns (idx: seq<nat>)
    ensures idx == TopFan(row, n, stride, pole)
  {
    idx := [];
    if n == 0 {
      return;
    }
    for col := 1 to n
      invariant idx == TopFan(row, col, stride, pole)
    {
      idx := idx + [U32(row * stride + col), U32(row * stride + (col - 1)), U32(pole)];
    }
  }

  /** The bottom cap loop: one triangle per column 1 .. n - 1 of ring 0, opened at the pole. */
  method BuildBottomCap(n: nat, pole: nat) returns (idx: seq<nat>)
    ensures idx == BottomFan(n, pole)
  {
    idx := [];
    if n == 0 {
      return;
    }
    for col := 1 to n
      invariant idx == BottomFan(col, pole)
    {
      idx := idx + [U32(pole), U32(col - 1), U32(col)];
    }
  }

  /** The last-column loop: two triangles joining column `lastCol` to column 0, for rings
      1 .. n - 1. */
  method BuildSeam(n: nat, stride: int, lastCol: int) returns (idx: seq<nat>)
    ensures idx == Seam(n, stride, lastCol)
  {
    idx := [];
    if n == 0 {
      return;
    }
    for row := 1 to n
      invariant idx == Seam(row, stride, lastCol)
    {
      var a := U32((row - 1) * stride);
      var b := U32((row - 1) * stride + lastCol);
      var c := U32(row * stride);
      var d := U32(row * stride + lastCol);
      idx := idx + [b, d, a, d, b, c];
    }
  }

  class UVSphere {
    const verticalSegments: nat
    const horizontalSegments: nat
    const radius: real
    var positions: seq<SphereVertex>
    var textureCoords: seq<SphereVertex>
    var normals: seq<SphereVertex>
    var indices: seq<nat>

    /** Builds H rings of V vertices, then the two poles, and the triangles over them, with
        indices laid out by the stride V the rings actually have. */
    constructor (vertRes: nat, horizRes: nat, radius: real)
      ensures verticalSegments == vertRes && horizontalSegments == horizRes && this.radius == radius
      ensures positions == Vertices(horizRes, vertRes)
      ensures textureCoords == positions && normals == positions
      ensures indices == Indices(vertRes, horizRes)
    {
      verticalSegments := vertRes;
      horizontalSegments := horizRes;
      this.radius := radius;
      var vs, grid := BuildGrid(vertRes, horizRes, vertRes);
      GridSize(horizRes, vertRes);
      ghost var hv := horizRes * vertRes;
      var top := |vs|;
      assert top == hv;
      var topCap := BuildTopCap(horizRes as int - 1, vertRes, vertRes, top);
      vs := vs + [TopPole];
      var bottom := |vs|;
      assert bottom == hv + 1;
      var bottomCap := BuildBottomCap(vertRes, bottom);
      vs := vs + [BottomPole];
      assert vs == GridVertices(horizRes, vertRes) + [TopPole, BottomPole];
      var seam := BuildSeam(horizRes, vertRes, vertRes as int - 1);
      positions := vs;
      textureCoords := vs;
      normals := vs;
      indices := grid + topCap + bottomCap + seam;
    }

    function GetRadius(): real
    {
      radius
    }

    function GetNumVerticalSegments(): nat
    {
      verticalSegments
    }

    function GetNumHorizontalSegments(): nat
    {
      horizontalSegments
    }
  }
}
