/** The model loader and cache of project/src/ModelManager.cpp. The importer (assimp), the JSON
    reader (rapidjson), the file system and the graphics manager are replaced by their outputs:
    an imported scene is a plain tree of records, a parsed metadata file is a list of JSON
    members, and the shader and texture tables are lookup functions. */
module ModelManagers {
  import opened SeqUtil
  import opened Exceptions
  import opened Materials
  import opened Models

  // ---------------------------------------------------------------------------------------------
  // Texture name derivation (loadTexture)

  /** Position of the last `c` in `s` (`std::string::find_last_of` with one character). */
  function LastIndexOf(s: string, c: char): (r: Option<nat>)
    ensures r.Some? ==> r.value < |s| && s[r.value] == c && c !in s[r.value + 1..]
    ensures r.None? <==> c !in s
  {
    if s == [] then None
    else if s[|s| - 1] == c then Some(|s| - 1)
    else
      var r := LastIndexOf(s[..|s| - 1], c);
      assert s == s[..|s| - 1] + [s[|s| - 1]];
      r
  }

  /** The part of a path after its last '/' (all of it when there is none: npos + 1 wraps to 0). */
  function FilePart(path: string): (r: string)
    ensures '/' !in r
    ensures '/' !in path ==> r == path
  {
    match LastIndexOf(path, '/')
    case None => path
    case Some(i) => path[i + 1..]
  }

  /** A file name up to its last '.' (all of it when there is none). */
  function StripExtension(file: string): (r: string)
    ensures |r| <= |file| && r == file[..|r|]
    ensures '.' !in file ==> r == file
  {
    match LastIndexOf(file, '.')
    case None => file
    case Some(j) => file[..j]
  }

  /** The texture key for a texture path: the file part, without its extension. */
  function TextureName(path: string): string
  {
    StripExtension(FilePart(path))
  }

  /** The derived key never holds a '/', and a plain name with neither '/' nor '.' is its own key. */
  lemma TextureNameShape(path: string)
    ensures '/' !in TextureName(path)
    ensures '/' !in path && '.' !in path ==> TextureName(path) == path
  {
    var file := FilePart(path);
    var name := StripExtension(file);
    assert forall k :: 0 <= k < |name| ==> name[k] == file[k];
  }

  /** Directory, stem and extension come apart again: "dir/stem.ext" yields "stem" whenever the
      stem holds no '/' and the extension holds neither '/' nor '.'. */
  lemma TextureNameOfPath(dir: string, stem: string, ext: string)
    requires '/' !in stem && '/' !in ext && '.' !in ext
    ensures TextureName(dir + "/" + stem + "." + ext) == stem
  {
    var file := stem + "." + ext;
    assert dir + "/" + stem + "." + ext == dir + ['/'] + file;
    FilePartAfter(dir, file);
    StripAfter(stem, ext);
  }

  /** With no separator at all, only the extension is cut. */
  lemma TextureNameOfBareFile(stem: string, ext: string)
    requires '/' !in stem && '/' !in ext && '.' !in ext
    ensures TextureName(stem + "." + ext) == stem
  {
    StripAfter(stem, ext);
  }

  lemma FilePartAfter(dir: string, file: string)
    requires '/' !in file
    ensures FilePart(dir + ['/'] + file) == file
  {
    LastIndexAfter(dir, file, '/');
    assert (dir + ['/'] + file)[|dir| + 1..] == file;
  }

  lemma StripAfter(stem: string, ext: string)
    requires '/' !in stem && '/' !in ext && '.' !in ext
    ensures '/' !in stem + "." + ext
    ensures StripExtension(stem + "." + ext) == stem
  {
    assert stem + "." + ext == stem + ['.'] + ext;
    LastIndexAfter(stem, ext, '.');
    assert (stem + ['.'] + ext)[..|stem|] == stem;
  }

  lemma LastIndexAfter(a: string, b: string, c: char)
    requires c !in b
    ensures LastIndexOf(a + [c] + b, c) == Some(|a|)
  {
    var s := a + [c] + b;
    assert s[|a|] == c;
    assert s[|a| + 1..] == b;
  }

  /** `loadTexture`: binds the graphics manager's texture for the derived name under `key` as
      `Material.SetTexture` does, leaving every other resource, the shader and the variables alone;
      when `enableKey` is non-empty, answers the material variable the enable flag is written to
      (or the lookup's MaterialVariableNotFoundException). */
  method LoadTexture(material: Material, textures: string -> Texture?, path: string, key: string,
                     enableKey: string)
    returns (r: Result<Option<MaterialVariable>>)
    requires material.Valid()
    modifies material`resources, material.resources
    ensures material.Valid()
    ensures material.shader == old(material.shader) && material.variables == old(material.variables)
    ensures ResourceIndex(material.resources, key).Some?
    ensures material.resources[ResourceIndex(material.resources, key).value].texture
            == textures(TextureName(path))
    ensures ResourceIndex(old(material.resources), key).Some? ==>
      var i := ResourceIndex(old(material.resources), key).value;
      material.resources == old(material.resources) &&
      forall j :: 0 <= j < |material.resources| && j != i ==>
        material.resources[j].texture == old(material.resources[j].texture)
    ensures ResourceIndex(old(material.resources), key).None? ==>
      var n := |old(material.resources)|;
      |material.resources| == n + 1 && material.resources[..n] == old(material.resources) &&
      material.resources[n].name == key && material.resources[n].slot == n &&
      forall j :: 0 <= j < n ==> material.resources[j].texture == old(material.resources[j].texture)
    ensures enableKey == "" <==> r == Ok(None)
    ensures enableKey != "" && VariableIndex(material.variables, enableKey).Some? ==>
      r == Ok(Some(material.variables[VariableIndex(material.variables, enableKey).value]))
    ensures enableKey != "" && VariableIndex(material.variables, enableKey).None? ==>
      r == Throw(VariableNotFound(enableKey))
  {
    var name := TextureName(path);
    var texture := textures(name);
    material.SetTexture(key, texture);
    if ResourceIndex(old(material.resources), key).None? {
      ResourceNamesUnique(material, key, |material.resources| - 1);
    }
    if enableKey == "" {
      return Ok(None);
    }
    var v := material.GetVariable(enableKey);
    match v
    case Throw(e) => r := Throw(e);
    case Ok(variable) => r := Ok(Some(variable));
  }

  // ---------------------------------------------------------------------------------------------
  // Imported scenes

  /** An imported mesh: its name, vertex count, faces (each a list of vertex indices) and the
      index of its material in the scene. */
  datatype AiMesh = AiMesh(name: string, numVertices: nat, faces: seq<seq<nat>>, materialIndex: nat)

  /** An imported material: its name, when the importer has one. */
  datatype AiMaterial = AiMaterial(name: Option<string>)

  /** A scene node: the scene indices of its own meshes and its child nodes. */
  datatype AiNode = AiNode(meshes: seq<nat>, children: seq<AiNode>)

  datatype AiScene = AiScene(meshes: seq<AiMesh>, materials: seq<AiMaterial>, root: AiNode)

  /** Every mesh index a node mentions is a mesh of the scene. */
  ghost predicate NodeOk(scene: AiScene, node: AiNode)
    decreases node
  {
    (forall k :: k in node.meshes ==> k < |scene.meshes|) &&
    forall c :: c in node.children ==> NodeOk(scene, c)
  }

  /** What the importer guarantees: node and material indices are in range. */
  ghost predicate SceneOk(scene: AiScene)
  {
    (forall m :: m in scene.meshes ==> m.materialIndex < |scene.materials|) &&
    NodeOk(scene, scene.root)
  }

  /** The mesh indices of a subtree in pre-order: the node's own meshes, then each child's. */
  function PreOrder(node: AiNode): seq<nat>
    decreases node
  {
    node.meshes + Flatten(ChildOrders(node))
  }

  function ChildOrders(node: AiNode): seq<seq<nat>>
    decreases node, 0
  {
    seq(|node.children|, i requires 0 <= i < |node.children| => PreOrder(node.children[i]))
  }

  lemma {:induction false} PreOrderInRange(scene: AiScene, node: AiNode)
    requires NodeOk(scene, node)
    ensures forall k :: k in PreOrder(node) ==> k < |scene.meshes|
    decreases node
  {
    var orders := ChildOrders(node);
    assert PreOrder(node) == node.meshes + Flatten(orders);
    forall k: nat | k in PreOrder(node)
      ensures k < |scene.meshes|
    {
      if k !in node.meshes {
        FlattenMember<nat>(orders, k);
        var i :| 0 <= i < |orders| && k in orders[i];
        assert orders[i] == PreOrder(node.children[i]);
        assert node.children[i] in node.children;
        PreOrderInRange(scene, node.children[i]);
      }
    }
  }

  /** The mesh at scene index `k` has a material with a name. */
  ghost predicate Named(scene: AiScene, k: nat)
  {
    k < |scene.meshes| && scene.meshes[k].materialIndex < |scene.materials| &&
    scene.materials[scene.meshes[k].materialIndex].name.Some?
  }

  ghost predicate AllNamed(scene: AiScene, ks: seq<nat>)
  {
    forall k :: k in ks ==> Named(scene, k)
  }

  /** The loaded material a mesh gets: the first one with the requested name, or null. */
  function MaterialFor(materials: seq<Material>, requested: string): Material?
  {
    match MaterialIndex(materials, requested)
    case None => null
    case Some(i) => materials[i]
  }

  /** A mesh built by processMesh from scene mesh `k`, with the material processNode picks. */
  ghost predicate MeshFrom(m: Mesh, scene: AiScene, k: nat, materials: seq<Material>)
  {
    Named(scene, k) &&
    var source := scene.meshes[k];
    m.name == source.name && m.vertexCount == source.numVertices &&
    m.indices == Flatten(source.faces) &&
    m.material == MaterialFor(materials, scene.materials[source.materialIndex].name.value)
  }

  /** `out` holds one mesh per scene index of `ks`, in the same order. */
  ghost predicate BuiltFrom(out: seq<Mesh>, ks: seq<nat>, scene: AiScene, materials: seq<Material>)
  {
    |out| == |ks| && forall j :: 0 <= j < |out| ==> MeshFrom(out[j], scene, ks[j], materials)
  }

  lemma BuiltFromAppend(a: seq<Mesh>, ka: seq<nat>, b: seq<Mesh>, kb: seq<nat>, scene: AiScene,
                        materials: seq<Material>)
    requires BuiltFrom(a, ka, scene, materials) && BuiltFrom(b, kb, scene, materials)
    ensures BuiltFrom(a + b, ka + kb, scene, materials)
  {
    forall j | 0 <= j < |a + b|
      ensures MeshFrom((a + b)[j], scene, (ka + kb)[j], materials)
    {
      if j >= |a| {
        assert (a + b)[j] == b[j - |a|] && (ka + kb)[j] == kb[j - |a|];
      }
    }
  }

  function NodeMaterialNameError(): Exception
  {
    Thrown("ModelLoadException", "Unable to get material name")
  }

  /** `processMesh`: the vertex count, and the faces' indices concatenated in face order. */
  method ProcessMesh(material: Material?, mesh: AiMesh) returns (m: Mesh)
    ensures m.name == mesh.name && m.vertexCount == mesh.numVertices && m.material == material
    ensures m.indices == Flatten(mesh.faces)
  {
    var indices: seq<nat> := [];
    for i := 0 to |mesh.faces|
      invariant indices == Flatten(mesh.faces[..i])
    {
      var face := mesh.faces[i];
      for j := 0 to |face|
        invariant indices == Flatten(mesh.faces[..i]) + face[..j]
      {
        indices := indices + [face[j]];
      }
      assert mesh.faces[..i + 1][..i] == mesh.faces[..i];
      assert face[..|face|] == face;
    }
    assert mesh.faces[..|mesh.faces|] == mesh.faces;
    m := new Mesh(mesh.name, mesh.numVertices, indices, material);
  }

  /** The search loop of `processNode`: the first loaded material with the requested name. */
  method FindMaterial(materials: seq<Material>, requested: string) returns (material: Material?)
    ensures material == MaterialFor(materials, requested)
    ensures material != null ==> material in materials && material.name == requested
  {
    var j := 0;
    while j < |materials| && materials[j].name != requested
      invariant 0 <= j <= |materials|
      invariant forall l :: 0 <= l < j ==> materials[l].name != requested
    {
      j := j + 1;
    }
    if j < |materials| {
      FirstWhereAt(materials, (m: Material) => m.name == requested, j);
      material := materials[j];
    } else {
      FirstWhereNone(materials, (m: Material) => m.name == requested);
      material := null;
    }
  }

  /** The first loop of `processNode`: one mesh per mesh index of the node itself, in order. */
  method ProcessOwnMeshes(materials: seq<Material>, scene: AiScene, node: AiNode, meshes: seq<Mesh>)
    returns (r: Result<seq<Mesh>>)
    requires SceneOk(scene) && NodeOk(scene, node)
    ensures r.Ok? <==> AllNamed(scene, node.meshes)
    ensures r.Ok? ==> |r.value| == |meshes| + |node.meshes| && r.value[..|meshes|] == meshes &&
                      BuiltFrom(r.value[|meshes|..], node.meshes, scene, materials)
    ensures r.Throw? ==> r.error == NodeMaterialNameError()
  {
    var acc := meshes;
    for i := 0 to |node.meshes|
      invariant |acc| == |meshes| + i && acc[..|meshes|] == meshes
      invariant BuiltFrom(acc[|meshes|..], node.meshes[..i], scene, materials)
      invariant AllNamed(scene, node.meshes[..i])
    {
      var k := node.meshes[i];
      assert k in node.meshes;
      var info := scene.materials[scene.meshes[k].materialIndex];
      if info.name.None? {
        assert !Named(scene, k);
        return Throw(NodeMaterialNameError());
      }
      var material := FindMaterial(materials, info.name.value);
      var m := ProcessMesh(material, scene.meshes[k]);
      BuiltFromAppend(acc[|meshes|..], node.meshes[..i], [m], [k], scene, materials);
      assert (acc + [m])[|meshes|..] == acc[|meshes|..] + [m];
      assert node.meshes[..i + 1] == node.meshes[..i] + [k];
      acc := acc + [m];
    }
    assert node.meshes[..|node.meshes|] == node.meshes;
    r := Ok(acc);
  }

  /** `processNode`: appends one mesh per mesh index of the subtree, in pre-order, each with the
      first loaded material of the requested name; fails when a requested material has no name. */
  method ProcessNode(materials: seq<Material>, scene: AiScene, node: AiNode, meshes: seq<Mesh>)
    returns (r: Result<seq<Mesh>>)
    requires SceneOk(scene) && NodeOk(scene, node)
    ensures r.Ok? <==> AllNamed(scene, PreOrder(node))
    ensures r.Ok? ==> |r.value| == |meshes| + |PreOrder(node)| && r.value[..|meshes|] == meshes &&
                      BuiltFrom(r.value[|meshes|..], PreOrder(node), scene, materials)
    ensures r.Throw? ==> r.error == NodeMaterialNameError()
    decreases node, 1
  {
    var own := ProcessOwnMeshes(materials, scene, node, meshes);
    if own.Throw? {
      ghost var k :| k in node.meshes && !Named(scene, k);
      assert k in PreOrder(node);
      return Throw(own.error);
    }
    r := ProcessChildren(materials, scene, node, meshes, own.value);
    if r.Ok? {
      assert |r.value[|meshes|..]| == |PreOrder(node)|;
    }
  }

  /** The second loop of `processNode`: after the node's own meshes, the subtree of each child in
      turn; fails with the first child subtree that requests a material without a name. */
  method ProcessChildren(materials: seq<Material>, scene: AiScene, node: AiNode, meshes: seq<Mesh>,
                         own: seq<Mesh>)
    returns (r: Result<seq<Mesh>>)
    requires SceneOk(scene) && NodeOk(scene, node)
    requires |own| >= |meshes| && own[..|meshes|] == meshes
    requires BuiltFrom(own[|meshes|..], node.meshes, scene, materials) && AllNamed(scene, node.meshes)
    ensures r.Ok? <==> AllNamed(scene, PreOrder(node))
    ensures r.Ok? ==> |r.value| >= |meshes| && r.value[..|meshes|] == meshes &&
                      BuiltFrom(r.value[|meshes|..], PreOrder(node), scene, materials)
    ensures r.Throw? ==> r.error == NodeMaterialNameError()
    decreases node, 0
  {
    var acc := own;
    for i := 0 to |node.children|
      invariant |acc| >= |meshes| && acc[..|meshes|] == meshes
      invariant BuiltFrom(acc[|meshes|..], Visited(node, i), scene, materials)
      invariant AllNamed(scene, Visited(node, i))
    {
      var child := node.children[i];
      assert child in node.children;
      var rc := ProcessNode(materials, scene, child, acc);
      if rc.Throw? {
        ChildUnnamed(scene, node, i);
        return Throw(rc.error);
      }
      ChildExtend(scene, materials, node, i, meshes, acc, rc.value);
      acc := rc.value;
    }
    VisitedAll(node);
    r := Ok(acc);
  }

  /** The mesh indices of a node and its first `i` child subtrees, in pre-order. */
  ghost function Visited(node: AiNode, i: nat): seq<nat>
    requires i <= |node.children|
  {
    node.meshes + Flatten(ChildOrders(node)[..i])
  }

  lemma VisitedAll(node: AiNode)
    ensures Visited(node, |node.children|) == PreOrder(node)
  {
    assert ChildOrders(node)[..|node.children|] == ChildOrders(node);
  }

  /** A child subtree that requests an unnamed material makes the whole subtree do so. */
  lemma ChildUnnamed(scene: AiScene, node: AiNode, i: nat)
    requires i < |node.children| && !AllNamed(scene, PreOrder(node.children[i]))
    ensures !AllNamed(scene, PreOrder(node))
  {
    var k :| k in PreOrder(node.children[i]) && !Named(scene, k);
    ChildInPreOrder(node, i, k);
  }

  /** One turn of the child loop: the meshes of child `i` follow those already built. */
  lemma ChildExtend(scene: AiScene, materials: seq<Material>, node: AiNode, i: nat,
                    meshes: seq<Mesh>, acc: seq<Mesh>, next: seq<Mesh>)
    requires i < |node.children|
    requires |meshes| <= |acc| <= |next| && acc[..|meshes|] == meshes && next[..|acc|] == acc
    requires BuiltFrom(acc[|meshes|..], Visited(node, i), scene, materials)
    requires AllNamed(scene, Visited(node, i))
    requires BuiltFrom(next[|acc|..], PreOrder(node.children[i]), scene, materials)
    requires AllNamed(scene, PreOrder(node.children[i]))
    ensures next[..|meshes|] == meshes
    ensures BuiltFrom(next[|meshes|..], Visited(node, i + 1), scene, materials)
    ensures AllNamed(scene, Visited(node, i + 1))
  {
    var child := PreOrder(node.children[i]);
    ChildStep(node, i);
    assert Visited(node, i + 1) == Visited(node, i) + child;
    ExtendBuilt(meshes, acc, next, Visited(node, i), child, scene, materials);
    AllNamedAppend(scene, Visited(node, i), child);
  }

  /** A mesh index in a child's subtree is in the node's pre-order. */
  lemma ChildInPreOrder(node: AiNode, i: nat, k: nat)
    requires i < |node.children| && k in PreOrder(node.children[i])
    ensures k in PreOrder(node)
  {
    var orders := ChildOrders(node);
    assert k in orders[i];
    FlattenMember(orders, k);
  }

  lemma AllNamedAppend(scene: AiScene, a: seq<nat>, b: seq<nat>)
    requires AllNamed(scene, a) && AllNamed(scene, b)
    ensures AllNamed(scene, a + b)
  {
  }

  /** The pre-order of the first i + 1 children extends that of the first i by child i's. */
  lemma ChildStep(node: AiNode, i: nat)
    requires i < |node.children|
    ensures var orders := ChildOrders(node);
      Flatten(orders[..i + 1]) == Flatten(orders[..i]) + PreOrder(node.children[i])
  {
    var orders := ChildOrders(node);
    assert orders[..i + 1][..i] == orders[..i];
  }

  /** Appending the meshes of a child subtree after those already built. */
  lemma ExtendBuilt(meshes: seq<Mesh>, acc: seq<Mesh>, next: seq<Mesh>, ks: seq<nat>, kc: seq<nat>,
                    scene: AiScene, materials: seq<Material>)
    requires |meshes| <= |acc| <= |next| && acc[..|meshes|] == meshes && next[..|acc|] == acc
    requires BuiltFrom(acc[|meshes|..], ks, scene, materials)
    requires BuiltFrom(next[|acc|..], kc, scene, materials)
    ensures next[..|meshes|] == meshes
    ensures BuiltFrom(next[|meshes|..], ks + kc, scene, materials)
  {
    assert next[|meshes|..] == acc[|meshes|..] + next[|acc|..];
    BuiltFromAppend(acc[|meshes|..], ks, next[|acc|..], kc, scene, materials);
  }

  // ---------------------------------------------------------------------------------------------
  // Materials of a scene

  function MaterialNameError(): Exception
  {
    Thrown("ModelLoadException", "Unable to get material name, possibly no materials")
  }

  function ShaderNameError(): Exception
  {
    Thrown("ModelLoadException", "Unable to get shader name, material must be mapped to a shader")
  }

  /** The error `processMaterial` throws for an imported material, if any. */
  function MaterialError(materialMap: map<string, string>, material: AiMaterial): Option<Exception>
  {
    if material.name.None? then Some(MaterialNameError())
    else if material.name.value !in materialMap then Some(ShaderNameError())
    else None
  }

  /** `processMaterial`: a material named after the imported one, using the shader its name maps
      to, with no textures; no name, or a name the material map lacks, throws ModelLoadException. */
  method ProcessMaterial(materialMap: map<string, string>, material: AiMaterial,
                         shaders: string -> Shader)
    returns (r: Result<Material>)
    ensures r.Throw? <==> MaterialError(materialMap, material).Some?
    ensures r.Throw? ==> r.error == MaterialError(materialMap, material).value
    ensures r.Ok? ==> r.value.name == material.name.value &&
                      r.value.shader == shaders(materialMap[material.name.value]) &&
                      r.value.resources == [] && r.value.Valid()
  {
    if material.name.None? {
      return Throw(MaterialNameError());
    }
    var name := material.name.value;
    if name !in materialMap {
      return Throw(ShaderNameError());
    }
    var s := shaders(materialMap[name]);
    var m := new Material(name, s);
    r := Ok(m);
  }

  /** The first error among the scene's materials, in scene order. */
  function FirstMaterialError(materialMap: map<string, string>, materials: seq<AiMaterial>)
    : Option<Exception>
  {
    if materials == [] then None
    else if MaterialError(materialMap, materials[0]).Some? then MaterialError(materialMap, materials[0])
    else FirstMaterialError(materialMap, materials[1..])
  }

  lemma {:induction false} NoMaterialError(materialMap: map<string, string>, materials: seq<AiMaterial>)
    ensures FirstMaterialError(materialMap, materials).None? <==>
            forall i :: 0 <= i < |materials| ==> MaterialError(materialMap, materials[i]).None?
  {
    if materials != [] {
      NoMaterialError(materialMap, materials[1..]);
      assert forall i :: 1 <= i < |materials| ==> materials[i] == materials[1..][i - 1];
    }
  }

  /** The error processScene ends with, if any. */
  ghost function SceneError(scene: AiScene, materialMap: map<string, string>): Option<Exception>
  {
    var e := FirstMaterialError(materialMap, scene.materials);
    if e.Some? then e
    else if !AllNamed(scene, PreOrder(scene.root)) then Some(NodeMaterialNameError())
    else None
  }

  /** Every material is processed before any node, and that already rejects an unnamed material,
      so processNode's own "Unable to get material name" error can never surface. */
  lemma NodeErrorUnreachable(scene: AiScene, materialMap: map<string, string>)
    requires SceneOk(scene)
    ensures SceneError(scene, materialMap) != Some(NodeMaterialNameError())
  {
    var e := FirstMaterialError(materialMap, scene.materials);
    if e.None? {
      NoMaterialError(materialMap, scene.materials);
      PreOrderInRange(scene, scene.root);
      forall k | k in PreOrder(scene.root)
        ensures Named(scene, k)
      {
        assert scene.meshes[k] in scene.meshes;
      }
    } else {
      FirstErrorIsMaterialError(materialMap, scene.materials);
      assert |NodeMaterialNameError().message| != |MaterialNameError().message|;
    }
  }

  lemma {:induction false} FirstErrorIsMaterialError(materialMap: map<string, string>,
                                                     materials: seq<AiMaterial>)
    ensures FirstMaterialError(materialMap, materials) in {None, Some(MaterialNameError()), Some(ShaderNameError())}
  {
    if materials != [] {
      FirstErrorIsMaterialError(materialMap, materials[1..]);
    }
  }

  /** `processScene`: the scene's materials in order, then the meshes of the node tree. */
  method ProcessScene(scene: AiScene, materialMap: map<string, string>, shaders: string -> Shader)
    returns (r: Result<(seq<Material>, seq<Mesh>)>)
    requires SceneOk(scene)
    ensures r.Throw? <==> SceneError(scene, materialMap).Some?
    ensures r.Throw? ==> SceneError(scene, materialMap) == Some(r.error)
    ensures r.Ok? ==>
      |r.value.0| == |scene.materials| &&
      (forall i :: 0 <= i < |scene.materials| ==> Some(r.value.0[i].name) == scene.materials[i].name) &&
      BuiltFrom(r.value.1, PreOrder(scene.root), scene, r.value.0)
  {
    var built := ProcessMaterials(scene.materials, materialMap, shaders);
    if built.Throw? {
      return Throw(built.error);
    }
    var materials := built.value;
    ghost var e := SceneErrorAfterMaterials(scene, materialMap);
    var meshes := ProcessNode(materials, scene, scene.root, []);
    if meshes.Throw? {
      return Throw(meshes.error);
    }
    assert meshes.value[0..] == meshes.value;
    r := Ok((materials, meshes.value));
  }

  /** The material loop of `processScene`: one material per imported one, in order, stopping at
      the first that `processMaterial` rejects. */
  method ProcessMaterials(imported: seq<AiMaterial>, materialMap: map<string, string>,
                          shaders: string -> Shader)
    returns (r: Result<seq<Material>>)
    ensures r.Throw? <==> FirstMaterialError(materialMap, imported).Some?
    ensures r.Throw? ==> FirstMaterialError(materialMap, imported) == Some(r.error)
    ensures r.Ok? ==> |r.value| == |imported|
    ensures r.Ok? ==> forall i :: 0 <= i < |imported| ==> Some(r.value[i].name) == imported[i].name
  {
    var materials: seq<Material> := [];
    for i := 0 to |imported|
      invariant |materials| == i
      invariant forall l :: 0 <= l < i ==> MaterialError(materialMap, imported[l]).None?
      invariant forall l :: 0 <= l < i ==> Some(materials[l].name) == imported[l].name
    {
      var m := ProcessMaterial(materialMap, imported[i], shaders);
      if m.Throw? {
        FirstErrorAt(materialMap, imported, i);
        return Throw(m.error);
      }
      NoErrorExtend(materialMap, imported, i);
      materials := materials + [m.value];
    }
    AllAccepted(materialMap, imported);
    r := Ok(materials);
  }

  lemma AllAccepted(materialMap: map<string, string>, imported: seq<AiMaterial>)
    requires forall l :: 0 <= l < |imported| ==> MaterialError(materialMap, imported[l]).None?
    ensures FirstMaterialError(materialMap, imported) == None
  {
    NoMaterialError(materialMap, imported);
  }

  lemma NoErrorExtend(materialMap: map<string, string>, imported: seq<AiMaterial>, i: nat)
    requires i < |imported| && MaterialError(materialMap, imported[i]).None?
    requires forall l :: 0 <= l < i ==> MaterialError(materialMap, imported[l]).None?
    ensures forall l :: 0 <= l < i + 1 ==> MaterialError(materialMap, imported[l]).None?
  {
  }

  /** Once every material is accepted, the only error left is an unnamed material along the tree. */
  lemma SceneErrorAfterMaterials(scene: AiScene, materialMap: map<string, string>)
    returns (e: Option<Exception>)
    requires FirstMaterialError(materialMap, scene.materials).None?
    ensures e == SceneError(scene, materialMap)
    ensures e == if AllNamed(scene, PreOrder(scene.root)) then None else Some(NodeMaterialNameError())
  {
    e := SceneError(scene, materialMap);
  }

  lemma {:induction false} FirstErrorAt(materialMap: map<string, string>, materials: seq<AiMaterial>, i: nat)
    requires i < |materials| && MaterialError(materialMap, materials[i]).Some?
    requires forall l :: 0 <= l < i ==> MaterialError(materialMap, materials[l]).None?
    ensures FirstMaterialError(materialMap, materials) == MaterialError(materialMap, materials[i])
  {
    if i > 0 {
      FirstErrorAt(materialMap, materials[1..], i - 1);
    }
  }

  // ---------------------------------------------------------------------------------------------
  // Metadata

  /** The JSON values the metadata file can hold, as far as the loader tells them apart. */
  datatype Json = JString(s: string) | JInt(i: int) | JObject(members: seq<Member>) | JOther
  datatype Member = Member(key: string, value: Json)

  /** A parsed metadata document: a parse error code, or the members of its top-level object. */
  datatype ParseResult = ParseError(code: int) | Parsed(members: seq<Member>)

  /** `HasMember` / `operator[]`: the first member with the key. */
  function MemberValue(members: seq<Member>, key: string): Option<Json>
  {
    match FirstWhere(members, (m: Member) => m.key == key)
    case None => None
    case Some(i) => Some(members[i].value)
  }

  /** The material map built by `emplace`, which keeps the first value of a repeated key; None
      when some value is not a string. */
  function MaterialMapOf(members: seq<Member>): Option<map<string, string>>
  {
    if members == [] then Some(map[])
    else
      var last := members[|members| - 1];
      match MaterialMapOf(members[..|members| - 1])
      case None => None
      case Some(m) =>
        if !last.value.JString? then None
        else if last.key in m then Some(m)
        else Some(m[last.key := last.value.s])
  }

  /** The map is rejected exactly when some value is not a string; otherwise it holds every key,
      each with the value of its first member. */
  lemma {:induction false} MaterialMapFirstWins(members: seq<Member>)
    ensures MaterialMapOf(members).None? <==> exists j :: 0 <= j < |members| && !members[j].value.JString?
    ensures MaterialMapOf(members).Some? ==>
      forall k :: (k in MaterialMapOf(members).value <==> MemberValue(members, k).Some?) &&
                  (k in MaterialMapOf(members).value ==> MemberValue(members, k) == Some(JString(MaterialMapOf(members).value[k])))
  {
    if members != [] {
      var n := |members| - 1;
      var init := members[..n];
      MaterialMapFirstWins(init);
      if MaterialMapOf(members).Some? {
        var m := MaterialMapOf(members).value;
        forall k
          ensures (k in m <==> MemberValue(members, k).Some?) &&
                  (k in m ==> MemberValue(members, k) == Some(JString(m[k])))
        {
          MemberValueSnoc(members, k);
        }
      }
      if exists j :: 0 <= j < |init| && !init[j].value.JString? {
        var j :| 0 <= j < |init| && !init[j].value.JString?;
        assert members[j] == init[j];
      }
      if exists j :: 0 <= j < |members| && !members[j].value.JString? {
        var j :| 0 <= j < |members| && !members[j].value.JString?;
        if j < n {
          assert init[j] == members[j];
        }
      }
    }
  }

  /** Looking a key up in a list with one more member at the end. */
  lemma MemberValueSnoc(members: seq<Member>, k: string)
    requires members != []
    ensures var n := |members| - 1;
      MemberValue(members, k) ==
        (if MemberValue(members[..n], k).Some? then MemberValue(members[..n], k)
         else if members[n].key == k then Some(members[n].value) else None)
  {
    var n := |members| - 1;
    var f := (m: Member) => m.key == k;
    var a := FirstWhere(members[..n], f);
    if a.Some? {
      FirstWhereAt(members, f, a.value);
    } else if members[n].key == k {
      FirstWhereAt(members, f, n);
    } else {
      FirstWhereNone(members, f);
    }
  }

  /** What the metadata file provides. */
  datatype Meta = Meta(name: string, extension: string, materialMap: map<string, string>)

  function InvalidMeta(message: string): Exception
  {
    Thrown("InvalidModelException", message)
  }

  /** The checks `loadFromFile` runs on the metadata, in order. */
  function MetaOf(parsed: ParseResult): Result<Meta>
  {
    match parsed
    case ParseError(code) => Throw(InvalidMeta("Meta data parse error: " + Decimal(code)))
    case Parsed(members) =>
      var name := MemberValue(members, "name");
      var extension := MemberValue(members, "extension");
      var map_ := MemberValue(members, "materialMap");
      if name.None? || !name.value.JString? then Throw(InvalidMeta("Meta data invalid name"))
      else if extension.None? || !extension.value.JString? then Throw(InvalidMeta("Meta data invalid extension"))
      else if map_.None? || !map_.value.JObject? then Throw(InvalidMeta("Meta data invalid material map"))
      else match MaterialMapOf(map_.value.members)
        case None => Throw(InvalidMeta("Meta data invalid material map value"))
        case Some(m) => Ok(Meta(name.value.s, extension.value.s, m))
  }

  /** Valid metadata is exactly a string name, a string extension and an object of strings. */
  lemma MetaAccepted(members: seq<Member>)
    ensures MetaOf(Parsed(members)).Ok? <==>
      MemberValue(members, "name").Some? && MemberValue(members, "name").value.JString? &&
      MemberValue(members, "extension").Some? && MemberValue(members, "extension").value.JString? &&
      MemberValue(members, "materialMap").Some? && MemberValue(members, "materialMap").value.JObject? &&
      forall j :: 0 <= j < |MemberValue(members, "materialMap").value.members| ==>
        MemberValue(members, "materialMap").value.members[j].value.JString?
  {
    var v := MemberValue(members, "materialMap");
    if v.Some? && v.value.JObject? {
      MaterialMapFirstWins(v.value.members);
    }
  }

  /** The material-map loop of `loadFromFile`. */
  method BuildMaterialMap(members: seq<Member>) returns (r: Option<map<string, string>>)
    ensures r == MaterialMapOf(members)
  {
    var m: map<string, string> := map[];
    for i := 0 to |members|
      invariant MaterialMapOf(members[..i]) == Some(m)
    {
      assert members[..i + 1][..i] == members[..i];
      var member := members[i];
      if !member.value.JString? {
        NonStringStaysRejected(members, i + 1);
        return None;
      }
      if member.key !in m {
        m := m[member.key := member.value.s];
      }
    }
    assert members[..|members|] == members;
    r := Some(m);
  }

  lemma {:induction false} NonStringStaysRejected(members: seq<Member>, i: nat)
    requires 0 < i <= |members| && MaterialMapOf(members[..i]) == None
    ensures MaterialMapOf(members) == None
    decreases |members| - i
  {
    if i < |members| {
      assert members[..i + 1][..i] == members[..i];
      NonStringStaysRejected(members, i + 1);
    } else {
      assert members[..i] == members;
    }
  }

  /** The metadata checks of `loadFromFile`. */
  method ValidateMeta(parsed: ParseResult) returns (r: Result<Meta>)
    ensures r == MetaOf(parsed)
  {
    if parsed.ParseError? {
      return Throw(InvalidMeta("Meta data parse error: " + Decimal(parsed.code)));
    }
    var members := parsed.members;
    var name := MemberValue(members, "name");
    if name.None? || !name.value.JString? {
      return Throw(InvalidMeta("Meta data invalid name"));
    }
    var extension := MemberValue(members, "extension");
    if extension.None? || !extension.value.JString? {
      return Throw(InvalidMeta("Meta data invalid extension"));
    }
    var mapValue := MemberValue(members, "materialMap");
    if mapValue.None? || !mapValue.value.JObject? {
      return Throw(InvalidMeta("Meta data invalid material map"));
    }
    var materialMap := BuildMaterialMap(mapValue.value.members);
    if materialMap.None? {
      return Throw(InvalidMeta("Meta data invalid material map value"));
    }
    r := Ok(Meta(name.value.s, extension.value.s, materialMap.value));
  }

  // ---------------------------------------------------------------------------------------------
  // Loading and caching

  /** The importer's answer for a model file. */
  datatype ImportResult = Imported(scene: AiScene) | ImportFailed(error: string)

  /** The files under the data path: the parsed metadata file at a path, and the import of a
      model file at a path. */
  datatype Disk = Disk(meta: string -> ParseResult, importer: string -> ImportResult)

  ghost predicate DiskOk(disk: Disk)
  {
    forall path :: disk.importer(path).Imported? ==> SceneOk(disk.importer(path).scene)
  }

  function MetaPath(dataPath: string, name: string): string
  {
    dataPath + "/" + name + "/meta.json"
  }

  function ModelPath(dataPath: string, name: string, extension: string): string
  {
    dataPath + "/" + name + "/" + name + "." + extension
  }

  /** The error `loadFromFile` throws, if any. */
  ghost function LoadError(dataPath: string, name: string, disk: Disk): Option<Exception>
  {
    match MetaOf(disk.meta(MetaPath(dataPath, name)))
    case Throw(e) => Some(e)
    case Ok(meta) =>
      var path := ModelPath(dataPath, name, meta.extension);
      match disk.importer(path)
      case ImportFailed(err) => Some(Thrown("ModelLoadException", "Unable to load model " + path + ": " + err))
      case Imported(scene) => SceneError(scene, meta.materialMap)
  }

  /** `loadFromFile`: validates the metadata, imports "<data>/<name>/<name>.<extension>" and
      builds a model called `name` from the scene's materials and its meshes in pre-order. */
  method LoadFromFile(dataPath: string, name: string, disk: Disk, shaders: string -> Shader)
    returns (r: Result<Model>)
    requires DiskOk(disk)
    ensures r.Throw? <==> LoadError(dataPath, name, disk).Some?
    ensures r.Throw? ==> r.error == LoadError(dataPath, name, disk).value
    ensures r.Ok? ==> r.value.name == name
    ensures r.Ok? ==>
      var meta := MetaOf(disk.meta(MetaPath(dataPath, name))).value;
      var scene := disk.importer(ModelPath(dataPath, name, meta.extension)).scene;
      |r.value.materials| == |scene.materials| &&
      BuiltFrom(r.value.meshes, PreOrder(scene.root), scene, r.value.materials)
  {
    var meta := ValidateMeta(disk.meta(MetaPath(dataPath, name)));
    if meta.Throw? {
      return Throw(meta.error);
    }
    var path := ModelPath(dataPath, name, meta.value.extension);
    var imported := disk.importer(path);
    if imported.ImportFailed? {
      return Throw(Thrown("ModelLoadException", "Unable to load model " + path + ": " + imported.error));
    }
    var parts := ProcessScene(imported.scene, meta.value.materialMap, shaders);
    if parts.Throw? {
      return Throw(parts.error);
    }
    var model := new Model(name, parts.value.1, parts.value.0);
    r := Ok(model);
  }

  /** The model cache. */
  class ModelManager {
    const dataPath: string
    var models: map<string, Model>

    constructor (dataPath: string)
      ensures this.dataPath == dataPath && models == map[]
    {
      this.dataPath := dataPath;
      models := map[];
    }

    /** A cached model is returned as is; otherwise the model is loaded as `LoadFromFile` loads
        it and, when that succeeds, cached under `name`. A failed load throws `LoadError` and
        leaves the cache as it was. */
    method GetModel(name: string, disk: Disk, shaders: string -> Shader) returns (r: Result<Model>)
      requires DiskOk(disk)
      modifies this
      ensures name in old(models) ==> r == Ok(old(models)[name]) && models == old(models)
      ensures name !in old(models) ==> (r.Throw? <==> LoadError(dataPath, name, disk).Some?)
      ensures name !in old(models) && r.Ok? ==> models == old(models)[name := r.value] && r.value.name == name
      ensures name !in old(models) && r.Throw? ==> models == old(models)
      ensures name !in old(models) && r.Throw? ==> r.error == LoadError(dataPath, name, disk).value
      ensures name !in old(models) && r.Ok? ==>
        var meta := MetaOf(disk.meta(MetaPath(dataPath, name))).value;
        var scene := disk.importer(ModelPath(dataPath, name, meta.extension)).scene;
        |r.value.materials| == |scene.materials| &&
        BuiltFrom(r.value.meshes, PreOrder(scene.root), scene, r.value.materials)
    {
      if name in models {
        return Ok(models[name]);
      }
      r := LoadFromFile(dataPath, name, disk, shaders);
      if r.Ok? {
        models := models[name := r.value];
      }
    }
  }

  /** Asking twice loads at most once: the second answer is the model the first one cached. */
  method GetModelTwice(manager: ModelManager, name: string, disk: Disk, shaders: string -> Shader)
    returns (first: Result<Model>, second: Result<Model>)
    requires DiskOk(disk)
    modifies manager
    ensures first.Ok? ==> second == first
  {
    first := manager.GetModel(name, disk, shaders);
    second := manager.GetModel(name, disk, shaders);
  }
}
