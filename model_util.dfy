/** The Wavefront loader of project/src/ModelUtil.cpp. The OBJ reader (tinyobjloader) is replaced
    by its output: per shape, its name and the number of vertices of each face. Vertex attributes
    are not part of this model; the loader emits one vertex and one index per face vertex. */
module ModelUtil {
  import opened SeqUtil
  import opened Exceptions
  import opened Models
  import opened ModelManagers

  /** The only format the loader knows (`kModelFormat_Wavefront`). */
  const WavefrontFormat := 0

  /** A shape read from an OBJ file: its name and the vertex count of each face. */
  datatype ObjShape = ObjShape(name: string, numFaceVertices: seq<nat>)

  /** What the OBJ reader reports: the shapes and the number of materials, or its error and
      warning texts. */
  datatype ObjResult = ObjLoaded(shapes: seq<ObjShape>, materialCount: nat)
                     | ObjFailed(errors: string, warnings: string)

  function Sum(xs: seq<nat>): nat
  {
    if xs == [] then 0 else Sum(xs[..|xs| - 1]) + xs[|xs| - 1]
  }

  /** 0, 1, ..., n - 1. */
  function Range(n: nat): (r: seq<nat>)
    ensures |r| == n && forall i :: 0 <= i < n ==> r[i] == i
  {
    seq(n, i requires 0 <= i => i)
  }

  /** The body of the shape loop: one vertex and one index per face vertex, the index being the
      running offset, so the indices are 0, 1, ..., N - 1 for N face vertices in all. */
  method BuildShapeMesh(shape: ObjShape) returns (m: Mesh)
    ensures m.name == shape.name && m.material == null
    ensures m.indices == Range(Sum(shape.numFaceVertices))
    ensures m.vertexCount == |m.indices|
  {
    var counts := shape.numFaceVertices;
    var vertexCount := 0;
    var indices: seq<nat> := [];
    var offset := 0;
    for f := 0 to |counts|
      invariant offset == Sum(counts[..f])
      invariant indices == Range(offset) && vertexCount == offset
    {
      var fv := counts[f];
      for v := 0 to fv
        invariant indices == Range(offset + v) && vertexCount == offset + v
      {
        vertexCount := vertexCount + 1;
        indices := indices + [offset + v];
      }
      offset := offset + fv;
      assert counts[..f + 1][..f] == counts[..f];
    }
    assert counts[..|counts|] == counts;
    m := new Mesh(shape.name, vertexCount, indices, null);
  }

  function ObjPath(path: string, name: string, extension: string): string
  {
    path + "/" + name + "." + extension
  }

  function ObjLoadError(objPath: string, errors: string, warnings: string): Exception
  {
    Thrown("ModelLoadException",
           "Unable to load model " + objPath + ": Error: " + errors + " | Warning: " + warnings)
  }

  /** `LoadWavefrontModelFromFile`: one mesh per shape, in shape order, and no materials (the
      material loop has an empty body). */
  method LoadWavefront(path: string, name: string, extension: string, obj: string -> ObjResult)
    returns (r: Result<Model>)
    ensures obj(ObjPath(path, name, extension)).ObjFailed? <==> r.Throw?
    ensures r.Throw? ==> var e := obj(ObjPath(path, name, extension));
      r.error == ObjLoadError(ObjPath(path, name, extension), e.errors, e.warnings)
    ensures r.Ok? ==> var shapes := obj(ObjPath(path, name, extension)).shapes;
      r.value.name == name && r.value.materials == [] && |r.value.meshes| == |shapes| &&
      forall i :: 0 <= i < |shapes| ==>
        r.value.meshes[i].name == shapes[i].name && r.value.meshes[i].material == null &&
        r.value.meshes[i].indices == Range(Sum(shapes[i].numFaceVertices)) &&
        r.value.meshes[i].vertexCount == |r.value.meshes[i].indices|
  {
    var objPath := ObjPath(path, name, extension);
    var loaded := obj(objPath);
    if loaded.ObjFailed? {
      return Throw(ObjLoadError(objPath, loaded.errors, loaded.warnings));
    }
    var shapes := loaded.shapes;
    var meshes: seq<Mesh> := [];
    for i := 0 to |shapes|
      invariant |meshes| == i
      invariant forall k :: 0 <= k < i ==>
        meshes[k].name == shapes[k].name && meshes[k].material == null &&
        meshes[k].indices == Range(Sum(shapes[k].numFaceVertices)) &&
        meshes[k].vertexCount == |meshes[k].indices|
    {
      var m := BuildShapeMesh(shapes[i]);
      meshes := meshes + [m];
    }
    var model := new Model(name, meshes, []);
    r := Ok(model);
  }

  /** A shape of triangles only yields three indices per face. */
  lemma {:induction false} SumOfTriangles(xs: seq<nat>)
    requires forall f :: 0 <= f < |xs| ==> xs[f] == 3
    ensures Sum(xs) == 3 * |xs|
  {
    if xs != [] {
      SumOfTriangles(xs[..|xs| - 1]);
    }
  }

  /** The metadata file's record for the loader. */
  datatype ModelMeta = ModelMeta(name: string, extension: string, format: int)

  /** The checks of `LoadModelFromFile`, in order. */
  function ModelMetaOf(parsed: ParseResult): Result<ModelMeta>
  {
    match parsed
    case ParseError(code) => Throw(InvalidMeta("Meta data parse error: " + Decimal(code)))
    case Parsed(members) =>
      var name := MemberValue(members, "name");
      var extension := MemberValue(members, "extension");
      var format := MemberValue(members, "format");
      if name.None? || !name.value.JString? then Throw(InvalidMeta("Meta data invalid name"))
      else if extension.None? || !extension.value.JString? then Throw(InvalidMeta("Meta data invalid extension"))
      else if format.None? || !format.value.JInt? then Throw(InvalidMeta("Meta data invalid format"))
      else Ok(ModelMeta(name.value.s, extension.value.s, format.value.i))
  }

  /** `LoadModelFromFile`: reads "<path>/<name>.json", checks it, and hands format 0 to the
      Wavefront loader under the name and extension the metadata gives; any other format throws. */
  method LoadModelFromFile(path: string, name: string, meta: string -> ParseResult,
                           obj: string -> ObjResult)
    returns (r: Result<Model>)
    ensures ModelMetaOf(meta(path + "/" + name + ".json")).Throw? ==>
      r == Throw(ModelMetaOf(meta(path + "/" + name + ".json")).error)
    ensures ModelMetaOf(meta(path + "/" + name + ".json")).Ok? &&
            ModelMetaOf(meta(path + "/" + name + ".json")).value.format != WavefrontFormat ==>
      r == Throw(InvalidMeta("Meta data invalid unknown format"))
    ensures r.Ok? ==> var m := ModelMetaOf(meta(path + "/" + name + ".json"));
      m.Ok? && m.value.format == WavefrontFormat && r.value.name == m.value.name &&
      obj(ObjPath(path, m.value.name, m.value.extension)).ObjLoaded?
    ensures var m := ModelMetaOf(meta(path + "/" + name + ".json"));
      m.Ok? && m.value.format == WavefrontFormat ==>
        var op := ObjPath(path, m.value.name, m.value.extension);
        && (r.Throw? <==> obj(op).ObjFailed?)
        && (r.Throw? ==> r.error == ObjLoadError(op, obj(op).errors, obj(op).warnings))
        && (r.Ok? ==> r.value.materials == [] && |r.value.meshes| == |obj(op).shapes| &&
                      forall i :: 0 <= i < |obj(op).shapes| ==>
                        r.value.meshes[i].indices == Range(Sum(obj(op).shapes[i].numFaceVertices)))
  {
    var parsed := meta(path + "/" + name + ".json");
    if parsed.ParseError? {
      return Throw(InvalidMeta("Meta data parse error: " + Decimal(parsed.code)));
    }
    var metaName := MemberValue(parsed.members, "name");
    if metaName.None? || !metaName.value.JString? {
      return Throw(InvalidMeta("Meta data invalid name"));
    }
    var extension := MemberValue(parsed.members, "extension");
    if extension.None? || !extension.value.JString? {
      return Throw(InvalidMeta("Meta data invalid extension"));
    }
    var format := MemberValue(parsed.members, "format");
    if format.None? || !format.value.JInt? {
      return Throw(InvalidMeta("Meta data invalid format"));
    }
    if format.value.i == WavefrontFormat {
      r := LoadWavefront(path, metaName.value.s, extension.value.s, obj);
    } else {
      r := Throw(InvalidMeta("Meta data invalid unknown format"));
    }
  }
}
