/** Models (project/src/Model.cpp): a named list of meshes and the materials they use, with
    name lookups and the per-mesh compile and render passes. Meshes are reduced to what the
    loaders produce and what the lookups read; their GL buffers are not part of this model. */
module Models {
  import opened SeqUtil
  import opened Exceptions
  import opened Materials
  import Nodes

  /** A mesh: its name, how many vertices it holds, its index list and its material (may be null). */
  class Mesh {
    const name: string
    const vertexCount: nat
    const indices: seq<nat>
    const material: Material?

    constructor (name: string, vertexCount: nat, indices: seq<nat>, material: Material?)
      ensures this.name == name && this.vertexCount == vertexCount
      ensures this.indices == indices && this.material == material
    {
      this.name := name;
      this.vertexCount := vertexCount;
      this.indices := indices;
      this.material := material;
    }
  }

  /** One call a pass makes on a mesh. */
  datatype MeshCall = CompileMesh(mesh: Mesh) | RenderMesh(mesh: Mesh, context: Nodes.RenderContext)

  function MeshIndex(meshes: seq<Mesh>, name: string): Option<nat>
  {
    FirstWhere(meshes, (m: Mesh) => m.name == name)
  }

  function MaterialIndex(materials: seq<Material>, name: string): Option<nat>
  {
    FirstWhere(materials, (m: Material) => m.name == name)
  }

  function MeshNotFound(name: string): Exception
  {
    Thrown("MeshNotFoundException", "Mesh " + name + " not found")
  }

  function MaterialNotFound(name: string): Exception
  {
    Thrown("MaterialNotFoundException", "Material " + name + " not found")
  }

  class Model {
    const name: string
    const meshes: seq<Mesh>
    const materials: seq<Material>

    /** Keeps the meshes and materials exactly as given, in order. */
    constructor (name: string, meshes: seq<Mesh>, materials: seq<Material>)
      ensures this.name == name && this.meshes == meshes && this.materials == materials
    {
      this.name := name;
      this.meshes := meshes;
      this.materials := materials;
    }

    /** The first mesh called `name`, or MeshNotFoundException. */
    method GetMesh(name: string) returns (r: Result<Mesh>)
      ensures MeshIndex(meshes, name).Some? ==> r == Ok(meshes[MeshIndex(meshes, name).value])
      ensures MeshIndex(meshes, name).None? ==> r == Throw(MeshNotFound(name))
      ensures r.Ok? ==> r.value in meshes && r.value.name == name
    {
      var i := 0;
      while i < |meshes|
        invariant 0 <= i <= |meshes|
        invariant forall j :: 0 <= j < i ==> meshes[j].name != name
      {
        if meshes[i].name == name {
          FirstWhereAt(meshes, (m: Mesh) => m.name == name, i);
          return Ok(meshes[i]);
        }
        i := i + 1;
      }
      FirstWhereNone(meshes, (m: Mesh) => m.name == name);
      r := Throw(MeshNotFound(name));
    }

    /** The first material called `name`, or MaterialNotFoundException. */
    method GetMaterial(name: string) returns (r: Result<Material>)
      ensures MaterialIndex(materials, name).Some? ==>
        r == Ok(materials[MaterialIndex(materials, name).value])
      ensures MaterialIndex(materials, name).None? ==> r == Throw(MaterialNotFound(name))
      ensures r.Ok? ==> r.value in materials && r.value.name == name
    {
      var i := 0;
      while i < |materials|
        invariant 0 <= i <= |materials|
        invariant forall j :: 0 <= j < i ==> materials[j].name != name
      {
        if materials[i].name == name {
          FirstWhereAt(materials, (m: Material) => m.name == name, i);
          return Ok(materials[i]);
        }
        i := i + 1;
      }
      FirstWhereNone(materials, (m: Material) => m.name == name);
      r := Throw(MaterialNotFound(name));
    }

    /** Compiles each mesh once, in list order. */
    method Compile() returns (calls: seq<MeshCall>)
      ensures |calls| == |meshes|
      ensures forall i :: 0 <= i < |meshes| ==> calls[i] == CompileMesh(meshes[i])
    {
      calls := [];
      for i := 0 to |meshes|
        invariant |calls| == i
        invariant forall k :: 0 <= k < i ==> calls[k] == CompileMesh(meshes[k])
      {
        calls := calls + [CompileMesh(meshes[i])];
      }
    }

    /** Renders each mesh once, in list order, all with the same context. */
    method Render(context: Nodes.RenderContext) returns (calls: seq<MeshCall>)
      ensures |calls| == |meshes|
      ensures forall i :: 0 <= i < |meshes| ==> calls[i] == RenderMesh(meshes[i], context)
    {
      calls := [];
      for i := 0 to |meshes|
        invariant |calls| == i
        invariant forall k :: 0 <= k < i ==> calls[k] == RenderMesh(meshes[k], context)
      {
        calls := calls + [RenderMesh(meshes[i], context)];
      }
    }
  }
}
