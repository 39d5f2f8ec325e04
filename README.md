# A Dafny model of the engine core of CSCI4110U_Project

CSCI4110U_Project is a small C++ OpenGL engine. This project models the parts of it that are
bookkeeping rather than graphics:

- the three scene trees (`Object`, `Node`, `GameObject`), with their parent pointers, child
  lists, lookups and recursive passes;
- the keyed tables and registries: the memory ledger, `ValueContainer`, `Material`, `Model`,
  the `ModelManager` cache, the `LightManager` list and `Event` callback lists;
- the loaders' post-processing: face-index flattening, the mesh pre-order, texture names
  derived from paths, and the metadata checks;
- the keyframe animation's state machine;
- the UV sphere's index-buffer topology;
- plane and frustum point classification;
- the string helpers, and how exception messages are put together.

Each source file becomes one Dafny module:

| module | source |
|---|---|
| `Objects` | `Object.cpp`, `Object.h` |
| `Nodes` | `Node.cpp`, `Node.h` |
| `GameObjects` | `GameObject.h` |
| `Memory` | `Memory.cpp` |
| `Values` | `Value.h` |
| `Materials` | `Material.cpp` |
| `Models` | `Model.cpp` |
| `ModelManagers` | `ModelManager.cpp` |
| `ModelUtil` | `ModelUtil.cpp` |
| `Lights` | `LightManager.h` |
| `Events` | `Utility/Event.h` |
| `Animations` | `Project/Animation.cpp` |
| `UVSpheres` | `Project/UVSphere.cpp` |
| `Planes` | `Math/Plane.cpp` |
| `Frusta` | `Math/BoundingFrustum.cpp` |
| `StringUtil` | `Utility/StringUtil.cpp` |
| `LegacyString` | `String.cpp` |
| `Exceptions` | `Utility/Exception.cpp`, `Exception.h` |

`SeqUtil` holds shared list helpers: the first index where a predicate holds, erasing the first
occurrence, and flattening.

Objects whose fields the C++ updates in place are Dafny classes, and their methods carry
`modifies` clauses. Loops stay loops, each proved against a specification function. Pure
computations are functions.

A C++ `throw` becomes a returned value: `Result<T>` is `Ok(value)` or `Throw(exception)`, and
`Outcome` is `Done` or `Fail(exception)`. The exception is built exactly as
`THROW_EXCEPTION(Name, ...)` builds it, with the type name as its type and the formatted message.

The recursive passes over the trees return the trace of the objects they reach, in call order.
Each takes a ghost `rank` map under which every child ranks below its parent. This is how the
model states that the tree is acyclic; the C++ never checks for cycles.

## Model

| member | source | states |
|---|---|---|
| Objects.Object.constructor | project/src/Object.cpp:3-6 | A new object is active, stores the given parent pointer, has no children, and is not in that parent's child list |
| Objects.Object.SetActive | project/src/Object.cpp:18-21 | Only the active flag changes, to the given value |
| Objects.Object.RemoveChild | project/src/Object.cpp:37-53 | If obj's parent is not this, nothing changes. Otherwise the first occurrence of obj is erased, the other children keep their order, and obj's parent becomes null |
| Objects.Object.AddChild | project/src/Object.cpp:28-35 | obj first leaves its old parent's list (only its first occurrence there), then its parent is this and it is the last child. Re-adding an existing child moves it to the end |
| Objects.Object.CreateChild | project/src/Object.h:41-48 | The new child is fresh and active, has no children, has this as its parent, and is appended last |
| Objects.Object.GetChild | project/src/Object.h:50-60 | Returns the cast of the first child whose name equals the receiver's own name (not the argument). When there is none it throws ObjectNotFoundException with "Object does not exist: " and the name |
| Objects.Object.GetChildOfType | project/src/Object.h:62-73 | Returns the first child of the dynamic type T, in insertion order. It throws ObjectNotFoundException exactly when no child has that type |
| Objects.Object.Traverse | project/src/Object.cpp:63-84 | The call trace equals `Calls`: each child that passes the gate, followed by that child's own pass, in list order |
| Objects.Object.Update | project/src/Object.cpp:63-69 | Only active children are updated; an inactive child's whole subtree is skipped, and the receiver's own flag is not checked |
| Objects.Object.Render | project/src/Object.cpp:71-77 | The same active-child gating as Update |
| Objects.Object.Shutdown | project/src/Object.cpp:79-84 | Every descendant is shut down, whatever its active flag |
| Objects.Object.Destroy | project/src/Object.cpp:55-61 | Destroys every descendant in destructor order and empties the child list. It leaves the parent's list alone: the object does not unlink itself |
| Objects.Cast | project/src/Object.h:62-73 | `dynamic_cast` yields the object exactly when it has type T, and null otherwise |
| Objects.GatedReachesOnlyActive | project/src/Object.cpp:63-77 | Every object a gated pass reaches is active |
| Objects.ChildCallsActive | project/src/Object.cpp:63-77 | The same over a list of children: a gated child loop reaches only active objects |
| Objects.ChildPassIncluded | project/src/Object.cpp:63-84 | A child that passes the gate is called, and so is everything that child's own pass reaches |
| Objects.ChildCallsInclude | project/src/Object.cpp:63-84 | The same over a list of children: the child loop includes each passing child's whole pass |
| Objects.ShutdownReachesGrandchildren | project/src/Object.cpp:79-84 | An ungated pass reaches children and grandchildren whatever their active flags |
| Nodes.Node.constructor | project/src/Node.cpp:3-6 | Records the parent pointer but does not link the node into that parent's children |
| Nodes.Node.RemoveChild | project/src/Node.cpp:27-43 | Nothing changes unless node's parent is this. Otherwise the first occurrence is erased, the order is kept, and node's parent becomes null |
| Nodes.Node.AddChild | project/src/Node.cpp:18-25 | node is detached from its old parent, gets this as its parent and is appended last. When the old parent listed it once, it is no longer in that list |
| Nodes.Node.CreateChild | project/src/Node.h:29-36 | The new child has this as its parent, no children, and is appended last |
| Nodes.Node.GetChild | project/src/Node.h:38-48 | Returns the cast of the first child whose name equals the receiver's own name. Otherwise it throws NodeNotFoundException |
| Nodes.Node.GetChildren | project/src/Node.h:50-61 | Returns the casts of all children named like the receiver, in order; the result is empty rather than an exception when none match |
| Nodes.Node.GetChildOfType | project/src/Node.h:63-74 | Returns the first child of type T. It throws NodeNotFoundException exactly when there is none |
| Nodes.Node.Traverse | project/src/Node.cpp:56-66 | The visit trace equals `Visits`: every child in list order, each followed by its own subtree, with no gating |
| Nodes.Node.Compile | project/src/Node.cpp:56-60 | Issues one compile call per node the pass reaches, in that order |
| Nodes.Node.Render | project/src/Node.cpp:62-66 | Issues one render call per node the pass reaches, every call with the same context |
| Nodes.Node.Destroy | project/src/Node.cpp:45-54 | The node first leaves its parent's list (its first occurrence) and its parent pointer is cleared. Then the whole subtree is destroyed and the child list is emptied |
| Nodes.Cast | project/src/Node.h:63-74 | `dynamic_cast` yields the node exactly when it has type T |
| Nodes.CastAll | project/src/Node.h:50-61 | Casts every node of a list, position by position |
| Nodes.NamedExactly | project/src/Node.h:50-61 | The name filter keeps exactly the nodes with the name. It is empty exactly when the single lookup would throw |
| Nodes.ChildVisitsOfLeaves | project/src/Node.cpp:56-66 | Children without children of their own are visited exactly once each, in list order |
| Nodes.VisitsCount | project/src/Node.cpp:56-66 | A pass reaches every child of the node |
| Nodes.ChildrenInOrder | project/src/Node.cpp:56-66 | The pass over a child list reaches each child at its own position, and those positions rise in list order |
| Nodes.VisitsChildrenInOrder | project/src/Node.cpp:56-66 | A pass from a node reaches its direct children in list order, each at its own position |
| Nodes.ChildVisitsCover | project/src/Node.cpp:56-66 | A child loop reaches every child in the list |
| GameObjects.GameObject.constructor | project/src/GameObject.h:19-25 | A new game object is active, with a null parent and no children |
| GameObjects.GameObject.SetTransform | project/src/GameObject.h:37-45 | The stored transform becomes the given matrix, and GetTransform returns it |
| GameObjects.GameObject.CreateChild | project/src/GameObject.h:52-59 | The new child has this as its parent and is appended last |
| GameObjects.GameObject.AddChild | project/src/GameObject.h:61-65 | Sets the parent and appends the child. The child is not removed from a previous parent's list |
| GameObjects.GameObject.GetChild | project/src/GameObject.h:67-78 | Returns the cast of the first child named like the receiver, or null (no exception) when there is none |
| GameObjects.GameObject.GetChildOfType | project/src/GameObject.h:80-92 | Returns the first child of type T. The result is null exactly when there is none |
| GameObjects.GameObject.Traverse | project/src/GameObject.h:96-122 | The visit trace equals `Visits`: every child in order, then its subtree, with no active check |
| GameObjects.GameObject.Update | project/src/GameObject.h:96-101 | Reaches every descendant in order, active or not |
| GameObjects.GameObject.Render | project/src/GameObject.h:103-108 | Reaches every descendant in order, active or not |
| GameObjects.GameObject.RenderAudio | project/src/GameObject.h:110-115 | Reaches every descendant in order, active or not |
| GameObjects.GameObject.Shutdown | project/src/GameObject.h:117-122 | Reaches every descendant in order, active or not |
| GameObjects.Cast | project/src/GameObject.h:80-92 | `dynamic_pointer_cast` yields the object exactly when it has type T |
| GameObjects.AddedTwice | project/src/GameObject.h:61-65 | After adding a child to two parents in turn, both parents list it, and its parent pointer names only the second |
| GameObjects.VisitsEveryChild | project/src/GameObject.h:96-122 | Every pass reaches every child |
| GameObjects.ChildVisitsCover | project/src/GameObject.h:96-122 | A child loop reaches every child in the list |
| Memory.SumIgnoresAbove | project/src/Memory.cpp:48-49 | Recording or dropping a block at an address at or above n leaves the total below n unchanged |
| Memory.SumAfterInsert | project/src/Memory.cpp:45-49 | Recording a new block adds exactly its size to the sum of recorded sizes |
| Memory.SumAfterRemove | project/src/Memory.cpp:68-72 | Dropping a recorded block subtracts exactly its size from the sum |
| Memory.Zeros | project/src/Memory.cpp:46 | A fresh block's contents are its size in zeros |
| Memory.Ledger.constructor | project/src/Memory.cpp:4-6 | The ledger starts with no limit, no blocks and a zero total, and its invariant holds |
| Memory.Ledger.Initialize | project/src/Memory.cpp:9-12 | Sets the limit and keeps the invariant |
| Memory.Ledger.InitializeDefault | project/src/Memory.h:7-15 | With no argument the limit becomes `MEMORY_DEFAULT_LIMIT`, 1 GiB, and the invariant is kept |
| Memory.Ledger.Allocate | project/src/Memory.cpp:33-53 | When the limit is nonzero and total + size exceeds it, throws OutOfMemoryException and changes nothing; a limit of 0 means unlimited. Otherwise it records exactly one new zero-filled block at an unused address and adds its size to the total. The total stays equal to the sum of the recorded sizes |
| Memory.Ledger.Free | project/src/Memory.cpp:55-75 | An unrecorded address throws UnknownMemoryException and changes nothing. A recorded one drops just that block and subtracts its size, and the invariant is kept |
| Memory.Ledger.Shutdown | project/src/Memory.cpp:14-19 | Throws MemoryLeakException exactly when blocks remain; with no blocks the total is zero |
| Memory.EmptySum | project/src/Memory.cpp:14-19 | An empty ledger sums to zero |
| Memory.AllocateThenFree | project/src/Memory.cpp:33-75 | Allocating and then freeing the same block gives back the same blocks and total |
| Values.Ordinal | project/src/Value.h:11-23 | The enumerators are numbered 0 to 9 in declaration order |
| Values.Cell.constructor | project/src/Value.h:33-36 | The heap cell holds the given contents |
| Values.Value.constructor | project/src/Value.h:33-36 | The tag comes from the template, and the value is held in a fresh cell |
| Values.Value.Copy | project/src/Value.h:43-46 | A copy has the same tag and contents in a cell of its own |
| Values.Value.Assign | project/src/Value.h:48-57 | Assignment takes the other value's tag and a fresh copy of its contents |
| Values.Value.Set | project/src/Value.h:73-76 | After Set(v), Get() returns v and GetType() is unchanged |
| Values.CopyThenSet | project/src/Value.h:43-76 | Copies are deep: setting a copy leaves the original's contents alone |
| Values.Lookup | project/src/Value.h:105-116 | An absent key throws KeyNotFoundException, and a stored tag other than the wanted one throws ValueTypeMismatchException. The read succeeds exactly when the key is present with the wanted tag, and then returns the stored payload |
| Values.FirstTwo | project/src/Value.h:184-187 | The vec2 read keeps x and y of a vec2, vec3 or vec4 payload and drops the rest |
| Values.GetVec2 | project/src/Value.h:184-187 | The vec2 overload of Get succeeds exactly when the generic read with the Vec2 tag does, throws the same error otherwise, and returns the first two floats of the stored payload |
| Values.Vec3ReadAsVec2 | project/src/Value.h:79-87 | A vec3 stored as a `ValueVec3` (Vec2 tag) reads back through the vec2 overload as its x and y; a vec2 stored through the vec2 overload reads back unchanged |
| Values.TypedGetAfterTypedSet | project/src/Value.h:134-222 | After a typed Set of one overload, the typed Get of another returns the stored payload exactly when the two overloads carry the same tag, and otherwise throws ValueTypeMismatchException naming the wanted and the stored tag |
| Values.SetThenGet | project/src/Value.h:194-202 | Set then Get through the same typed overload returns what was stored |
| Values.SetOtherKey | project/src/Value.h:95-103 | Setting one key leaves every other key's reads unchanged, and the key set becomes the old keys plus that key |
| Values.WrongOverloadMismatch | project/src/Value.h:105-116 | Reading through a different overload than the one that wrote throws ValueTypeMismatchException |
| Values.Vec3TypedefMismatch | project/src/Value.h:79-87 | A vec3 stored through the ValueVec3 typedef carries the Vec2 tag, so the vec3 overload of Get rejects it |
| Values.ValueContainer.constructor | project/src/Value.h:118 | A new container is empty |
| Values.ValueContainer.SetValue | project/src/Value.h:95-103 | Stores the value's tag and contents under the key, replacing any entry there |
| Values.ValueContainer.GetValue | project/src/Value.h:105-116 | Returns exactly what `Lookup` decides: the payload, or the not-found or mismatch exception |
| Values.ValueContainer.Set | project/src/Value.h:134-222 | A typed Set stores the payload under the key with its overload's tag |
| Materials.ZeroMatrix | project/src/Material.cpp:4-8 | Sixteen entries, all zero |
| Materials.ShaderVariable.constructor | project/src/Material.cpp:4-8 | A shader variable keeps its name |
| Materials.Shader.constructor | project/src/Material.cpp:107-118 | A shader exposes its variables in declaration order |
| Materials.MaterialVariable.constructor | project/src/Material.cpp:4-8 | A new variable has all four cached components and all sixteen matrix entries at zero |
| Materials.MaterialVariable.SetFloat1 | project/src/Material.cpp:15-19 | Overwrites exactly the first cached component; the rest and the matrix are kept |
| Materials.MaterialVariable.SetFloat2 | project/src/Material.cpp:21-26 | Overwrites exactly the first two components |
| Materials.MaterialVariable.SetFloat3 | project/src/Material.cpp:28-34 | Overwrites exactly the first three components |
| Materials.MaterialVariable.SetFloat4 | project/src/Material.cpp:36-43 | Overwrites all four components; the matrix is kept |
| Materials.MaterialVariable.SetFloatMat4x4 | project/src/Material.cpp:45-49 | Copies all sixteen matrix entries; the components are kept |
| Materials.MaterialVariable.GetFloat1 | project/src/Material.cpp:51-54 | Returns the first cached component |
| Materials.MaterialVariable.GetFloat2 | project/src/Material.cpp:56-60 | Returns the first two cached components |
| Materials.MaterialVariable.GetFloat3 | project/src/Material.cpp:62-67 | Returns the first three cached components |
| Materials.MaterialVariable.GetFloat4 | project/src/Material.cpp:69-75 | Returns all four cached components |
| Materials.MaterialVariable.GetFloatMat4x4 | project/src/Material.cpp:77-80 | Returns the cached matrix |
| Materials.SetFloat2ThenGetFloat4 | project/src/Material.cpp:21-26 | After writing two components, reading four gives the two new values followed by the two old ones |
| Materials.MaterialResource.constructor | project/src/Material.cpp:82-85 | A resource keeps its name, texture and slot |
| Materials.MaterialResource.SetTexture | project/src/Material.cpp:102-105 | Replaces only the texture |
| Materials.Material.constructor | project/src/Material.cpp:120-124 | A material starts with no textures and one fresh, zeroed variable per shader variable, in shader order |
| Materials.Material.Init | project/src/Material.cpp:107-118 | Rebuilds the variable list with exactly one fresh entry per shader variable, in shader order |
| Materials.Material.SetShader | project/src/Material.cpp:183-188 | Replaces the shader, rebuilds the variables for it and leaves the texture resources untouched |
| Materials.Material.SetTexture | project/src/Material.cpp:162-176 | An existing name gets the new texture in place, with its slot and the resource count unchanged. A new name is appended with slot equal to the old resource count, so slots stay 0..n-1 in insertion order and names stay distinct |
| Materials.Material.GetTexture | project/src/Material.cpp:139-148 | Returns the texture of the first resource with the name, or throws MaterialTextureNotFoundException |
| Materials.Material.GetTextureSlot | project/src/Material.cpp:150-159 | Returns the slot of the first resource with the name, or throws MaterialTextureNotFoundException. In a valid material that slot is the resource's own position |
| Materials.Material.GetVariable | project/src/Material.cpp:190-199 | Returns the first variable with the name, or throws MaterialVariableNotFoundException |
| Materials.ResourceNamesUnique | project/src/Material.cpp:162-176 | In a valid material, the first resource with a name is the only one with it |
| Materials.SetThenGetTexture | project/src/Material.cpp:139-176 | Binding a texture and looking it up again returns that texture. Its slot is the resource's position, and the count grows only for a new name |
| Models.Mesh.constructor | project/src/ModelManager.cpp:67 | A mesh keeps its name, vertex count, indices and material |
| Models.Model.constructor | project/src/Model.cpp:3-6 | Keeps the meshes and materials exactly as given, in order |
| Models.Model.GetMesh | project/src/Model.cpp:21-30 | Returns the first mesh with the name, or throws MeshNotFoundException |
| Models.Model.GetMaterial | project/src/Model.cpp:32-41 | Returns the first material with the name, or throws MaterialNotFoundException |
| Models.Model.Compile | project/src/Model.cpp:43-47 | Compiles each mesh exactly once, in list order |
| Models.Model.Render | project/src/Model.cpp:49-53 | Renders each mesh exactly once, in list order, all with the same context |
| ModelManagers.LastIndexOf | project/src/ModelManager.cpp:9-10 | `find_last_of`: the last position holding the character, and none exactly when the character is absent |
| ModelManagers.FilePart | project/src/ModelManager.cpp:9 | The part after the last '/' contains no '/'; a path without '/' is kept whole |
| ModelManagers.StripExtension | project/src/ModelManager.cpp:10 | A prefix of the file name; with no '.' nothing is stripped |
| ModelManagers.TextureNameShape | project/src/ModelManager.cpp:9-10 | The texture key never holds '/'; a plain name with no '/' and no '.' is its own key |
| ModelManagers.TextureNameOfPath | project/src/ModelManager.cpp:9-10 | "dir/stem.ext" yields "stem" |
| ModelManagers.TextureNameOfBareFile | project/src/ModelManager.cpp:9-10 | "stem.ext" with no directory yields "stem" |
| ModelManagers.FilePartAfter | project/src/ModelManager.cpp:9 | The file part of "dir/file" is "file" |
| ModelManagers.StripAfter | project/src/ModelManager.cpp:10 | Stripping "stem.ext" leaves "stem" |
| ModelManagers.LastIndexAfter | project/src/ModelManager.cpp:9-10 | The last occurrence of c in a + [c] + b, with c not in b, is at \|a\| |
| ModelManagers.LoadTexture | project/src/ModelManager.cpp:6-22 | Binds the graphics manager's texture for the derived name under the key as `Material::SetTexture` does: an existing resource keeps its place and gets the texture, a new key gets the next slot, and every other resource, the shader and the variables are unchanged. The enable flag is looked up only when the enable key is non-empty, and a missing enable variable throws MaterialVariableNotFoundException |
| ModelManagers.PreOrderInRange | project/src/ModelManager.cpp:70-103 | Every mesh index the node tree mentions is a mesh of the scene |
| ModelManagers.BuiltFromAppend | project/src/ModelManager.cpp:70-103 | Meshes built for two runs of scene indices, appended, are the meshes for the joined run |
| ModelManagers.ProcessMesh | project/src/ModelManager.cpp:24-68 | The mesh has the scene mesh's name and vertex count, the given material, and the faces' indices concatenated in face order |
| ModelManagers.FindMaterial | project/src/ModelManager.cpp:83-91 | A mesh's material is the first loaded material with the requested name, or null |
| ModelManagers.ProcessOwnMeshes | project/src/ModelManager.cpp:74-95 | Appends one mesh per own mesh index of the node, in order. It throws ModelLoadException exactly when one of their materials has no name |
| ModelManagers.ProcessNode | project/src/ModelManager.cpp:70-103 | Appends the meshes of the subtree in pre-order, with earlier meshes kept. It throws exactly when a material along the way has no name |
| ModelManagers.ProcessChildren | project/src/ModelManager.cpp:97-102 | After the node's own meshes, appends each child subtree in turn. It throws exactly when one of those subtrees requests a material without a name |
| ModelManagers.ChildInPreOrder | project/src/ModelManager.cpp:97-102 | A mesh index of a child's subtree is in the node's pre-order |
| ModelManagers.ChildUnnamed | project/src/ModelManager.cpp:97-102 | A child subtree that requests an unnamed material makes the node's subtree do so |
| ModelManagers.ChildExtend | project/src/ModelManager.cpp:97-102 | One turn of the child loop extends the built meshes by child i's subtree, keeping every material named |
| ModelManagers.VisitedAll | project/src/ModelManager.cpp:97-102 | After the last child the loop has covered the node's whole pre-order |
| ModelManagers.ChildStep | project/src/ModelManager.cpp:98-102 | The pre-order of the first i+1 children extends that of the first i by child i's |
| ModelManagers.ExtendBuilt | project/src/ModelManager.cpp:98-102 | Appending a child subtree's meshes extends what has been built |
| ModelManagers.ProcessMaterial | project/src/ModelManager.cpp:105-171 | Throws ModelLoadException when the material has no name, or when its name is not in the material map. Otherwise it returns a material with that name, using the mapped shader |
| ModelManagers.ProcessMaterials | project/src/ModelManager.cpp:176-180 | One material per imported material, in order and with the same names. It throws exactly the first error processMaterial raises |
| ModelManagers.AllAccepted | project/src/ModelManager.cpp:176-180 | When every material is accepted, the loop raises no error |
| ModelManagers.NoErrorExtend | project/src/ModelManager.cpp:176-180 | An accepted material extends the run of accepted materials |
| ModelManagers.NoMaterialError | project/src/ModelManager.cpp:176-180 | The material loop raises no error exactly when no material has one |
| ModelManagers.NodeErrorUnreachable | project/src/ModelManager.cpp:80-81 | Materials are processed before nodes, so the node-side "Unable to get material name" error can never be the one a scene ends with |
| ModelManagers.FirstErrorIsMaterialError | project/src/ModelManager.cpp:109-115 | The material loop can only fail with one of processMaterial's two errors |
| ModelManagers.ProcessScene | project/src/ModelManager.cpp:173-184 | Builds the scene's materials in order, then the meshes in node pre-order. It throws exactly the first error among them |
| ModelManagers.SceneErrorAfterMaterials | project/src/ModelManager.cpp:173-184 | Once the materials are accepted, a scene fails only through an unnamed material along the node tree |
| ModelManagers.FirstErrorAt | project/src/ModelManager.cpp:176-180 | The loop's error is that of the first failing material |
| ModelManagers.MaterialMapFirstWins | project/src/ModelManager.cpp:210-217 | The map is rejected exactly when some value is not a string. Otherwise each key maps to its first value, since `emplace` keeps the first |
| ModelManagers.MemberValueSnoc | project/src/ModelManager.cpp:199-217 | Looking a key up in a member list with one more member at the end |
| ModelManagers.MetaAccepted | project/src/ModelManager.cpp:193-217 | Metadata is accepted exactly when it parses and has a string name, a string extension and an object material map whose values are all strings |
| ModelManagers.BuildMaterialMap | project/src/ModelManager.cpp:210-217 | The loop builds exactly `MaterialMapOf` |
| ModelManagers.NonStringStaysRejected | project/src/ModelManager.cpp:213-214 | Once a non-string value is seen, the whole map is rejected |
| ModelManagers.ValidateMeta | project/src/ModelManager.cpp:193-217 | Runs the checks in source order and throws InvalidModelException with each check's own message |
| ModelManagers.LoadFromFile | project/src/ModelManager.cpp:187-232 | Throws exactly the first metadata, import or scene error. Otherwise the model carries the requested name and the processed scene |
| ModelManagers.ModelManager.constructor | project/src/ModelManager.cpp:234-237 | A new manager has the data path and an empty cache |
| ModelManagers.ModelManager.GetModel | project/src/ModelManager.cpp:247-261 | A cached model is returned without loading. On a miss it throws exactly `LoadError`, with that error, and leaves the cache alone; otherwise it returns the model `LoadFromFile` builds (the name, one material per scene material, meshes built in pre-order) and caches it under the name |
| ModelManagers.GetModelTwice | project/src/ModelManager.cpp:247-261 | Asking twice returns the same model: the second call hits the cache |
| ModelUtil.Range | project/src/ModelUtil.cpp:41-73 | 0, 1, ..., n-1 |
| ModelUtil.BuildShapeMesh | project/src/ModelUtil.cpp:37-79 | A shape's indices are exactly 0..N-1, where N is the sum of its face sizes. The mesh has as many vertices as indices and no material |
| ModelUtil.LoadWavefront | project/src/ModelUtil.cpp:13-118 | A reader error throws ModelLoadException. Otherwise there is one mesh per shape in shape order, and the material list is empty |
| ModelUtil.SumOfTriangles | project/src/ModelUtil.cpp:41-73 | A shape of triangles yields three indices per face |
| ModelUtil.LoadModelFromFile | project/src/ModelUtil.cpp:120-152 | Metadata without a string name, a string extension or an integer format throws InvalidModelException. Format 0 goes to the Wavefront loader on `<path>/<name>.<extension>`: it throws exactly when that loader fails, with its errors and warnings, and otherwise returns one mesh per shape, indexed 0 .. n-1 over the shape's face vertices, and no materials. Any other integer throws InvalidModelException |
| Lights.LightVar | project/src/LightManager.h:15 | "u_" followed by the name |
| Lights.LightVarInjective | project/src/LightManager.h:15 | Different names give different uniform names |
| Lights.BlockVariableDistinct | project/src/LightManager.h:16 | "var[i].name" differs for different slots i |
| Lights.Light.constructor | project/src/LightManager.h:118-128 | A light keeps its type |
| Lights.LightManager.constructor | project/src/LightManager.h:106 | A new manager has no lights |
| Lights.LightManager.CreateLight | project/src/LightManager.h:118-128 | A fresh light of the type is appended last |
| Lights.LightManager.RemoveLight | project/src/LightManager.h:130-149 | A present light's first occurrence is erased and the others keep their order. An absent light throws LightNotFoundException and leaves the list unchanged |
| Lights.CreateThenRemove | project/src/LightManager.h:118-149 | Removing the light just created gives back the list as it was |
| Events.NewEventArgs | project/src/Utility/Event.h:11-14 | A new EventArgs is not cancelled |
| Events.TraceCallsEachOnce | project/src/Utility/Event.h:67-77 | Every registered callback is called exactly once, in registration order |
| Events.FirstSeesArgument | project/src/Utility/Event.h:67-77 | The first callback sees the argument exactly as passed |
| Events.TracePrefix | project/src/Utility/Event.h:75-76 | The calls for the first k callbacks are the first k calls |
| Events.RemovedErasesOneMatch | project/src/Utility/Event.h:43-58 | Removal erases at most one callback, the first wrapping the same callable, and keeps the rest in order. It is a no-op when nothing matches |
| Events.RemovedAsWritten | project/src/Utility/Event.h:43-58 | The removal as written erases at most one callback and adds none: the list shrinks by at most one and its multiset of callbacks only loses |
| Events.AsWrittenRemovesFirst | project/src/Utility/Event.h:48 | As written, both target pointers are null, so the first callback is erased whatever was asked |
| Events.AsWrittenRemovesWrongCallback | project/src/Utility/Event.h:48 | With callbacks 1 and 2, removing 2 erases 1 as written; the intended removal erases 2 |
| Events.Event.constructor | project/src/Utility/Event.h:24 | A new event has no callbacks |
| Events.Event.Add | project/src/Utility/Event.h:33-40 | Appends the callback at the end |
| Events.Event.Remove | project/src/Utility/Event.h:43-58 | The list becomes `Removed`: the first callback wrapping the same callable is erased, if there is one. This is the corrected removal (see Findings); as written, line 48 erases the first callback whatever was asked, which `Events.RemovedAsWritten` models |
| Events.Event.Clear | project/src/Utility/Event.h:60-65 | Empties the list |
| Events.Event.Trigger | project/src/Utility/Event.h:67-77 | Calls every callback of a snapshot once, in order, all on one shared argument |
| Events.Event.Call | project/src/Utility/Event.h:79-82 | `operator()` makes the same calls as Trigger |
| Animations.Progress | project/src/Project/Animation.cpp:71 | The fraction is clamped to at most 1; below the duration, progress times duration is the elapsed time. It is undefined exactly when the duration is zero |
| Animations.Step | project/src/Project/Animation.cpp:42-130 | One update keeps the current frame valid while animating, and a move always names an existing keyframe |
| Animations.StoppedIgnoresUpdates | project/src/Project/Animation.cpp:44-45 | An update does nothing when not animating or when there are no frames |
| Animations.StepAdvancesAtMostOne | project/src/Project/Animation.cpp:57-68 | The frame advances by at most one, and only when the elapsed time exceeds the frame's duration. A move always uses a valid frame |
| Animations.PastLastFrameStops | project/src/Project/Animation.cpp:60-64 | Running past the last frame stops the animation without moving the transform |
| Animations.FirstUpdateStarts | project/src/Project/Animation.cpp:47-52 | The first effective update sets started, lastFrameTime = time and lastTime = 0 |
| Animations.Animation.constructor | project/src/Project/Animation.cpp:8-11 | Not started, animating, at frame 0, with both times at zero and no frames |
| Animations.Animation.AddKeyFrame | project/src/Project/Animation.cpp:28-31 | Appends the frame and leaves the playback state alone |
| Animations.Animation.Reset | project/src/Project/Animation.cpp:33-40 | Not started, animating, frame 0, with both time marks at the given time |
| Animations.Animation.Update | project/src/Project/Animation.cpp:42-130 | The new state and the effect on the transform are exactly one `Step` |
| UVSpheres.U32 | project/src/Project/UVSphere.cpp:42-45 | Unsigned 32-bit wrap-around: the identity below 2^32 |
| UVSpheres.Ring | project/src/Project/UVSphere.cpp:18-38 | One ring: the V vertices of a latitude, in longitude order |
| UVSpheres.GridVertexAt | project/src/Project/UVSphere.cpp:13-38 | The vertex for (latitude, longitude) sits at position latitude·V + longitude |
| UVSpheres.GridSize | project/src/Project/UVSphere.cpp:13-38 | The rings hold H·V vertices |
| UVSpheres.VertexCount | project/src/Project/UVSphere.cpp:13-38 | Positions have H·V + 2 entries; the top pole is vertex H·V and the bottom pole H·V + 1 |
| UVSpheres.SquareAgrees | project/src/Project/UVSphere.cpp:42-45 | When V == H, the code as written and the corrected layout give the same indices |
| UVSpheres.IndicesAsWritten | project/src/Project/UVSphere.cpp:40-129 | The index buffer the constructor writes, with row stride H; for a square sphere (V == H) it is exactly the corrected buffer |
| UVSpheres.AsWrittenOutOfRange | project/src/Project/UVSphere.cpp:42-45 | With V = 2 and H = 4 the code as written emits index 13 for 10 vertices |
| UVSpheres.RowQuadsCount | project/src/Project/UVSphere.cpp:40-54 | One latitude after the first gives 6 indices per longitude after the first |
| UVSpheres.GridCount | project/src/Project/UVSphere.cpp:40-54 | The grid gives 6(rows-1)(cols-1) indices |
| UVSpheres.TopFanCount | project/src/Project/UVSphere.cpp:73-82 | The top cap gives 3 indices per column after the first |
| UVSpheres.BottomFanCount | project/src/Project/UVSphere.cpp:100-109 | The bottom cap gives 3 indices per column after the first |
| UVSpheres.SeamCount | project/src/Project/UVSphere.cpp:115-129 | The seam gives 6 indices per row after the first |
| UVSpheres.IndexCount | project/src/Project/UVSphere.cpp:40-129 | For H, V ≥ 1 there are 6(H-1)(V-1) + 6(H-1) + 6(V-1) indices, both as written and corrected. The count is three times the number of triangles |
| UVSpheres.WholeTriangles | project/src/Project/UVSphere.cpp:40-129 | For every pair of resolutions, zero included, both the as-written and the corrected index buffers hold a multiple of three indices: whole triangles |
| UVSpheres.AsWrittenLength | project/src/Project/UVSphere.cpp:40-129 | The as-written index count, part by part |
| UVSpheres.IndicesLength | project/src/Project/UVSphere.cpp:40-129 | The corrected index count, part by part |
| UVSpheres.IndicesInRange | project/src/Project/UVSphere.cpp:40-129 | With ring stride V, every index is below H·V + 2, so each one names a vertex |
| UVSpheres.GridInRange | project/src/Project/UVSphere.cpp:40-54 | Grid indices stay below rows·cols |
| UVSpheres.RowInRange | project/src/Project/UVSphere.cpp:40-54 | One latitude's quad indices stay below rows·cols |
| UVSpheres.TopFanInRange | project/src/Project/UVSphere.cpp:72-82 | Top-cap indices are the pole or a vertex of the last ring |
| UVSpheres.BottomFanInRange | project/src/Project/UVSphere.cpp:99-109 | Bottom-cap indices are the pole or a vertex of the first ring |
| UVSpheres.SeamInRange | project/src/Project/UVSphere.cpp:114-129 | Seam indices stay below rows·cols |
| UVSpheres.FansEndAtPoles | project/src/Project/UVSphere.cpp:72-109 | Every top-cap triangle ends with the top pole, and every bottom-cap triangle starts with the bottom pole |
| UVSpheres.TopFanPoles | project/src/Project/UVSphere.cpp:72-81 | Triangle t of the top cap, for each of its columns, has the pole as its third index |
| UVSpheres.BottomFanPoles | project/src/Project/UVSphere.cpp:98-109 | Triangle t of the bottom cap, for each of its columns, has the pole as its first index |
| UVSpheres.BuildGrid | project/src/Project/UVSphere.cpp:13-56 | The ring loops build exactly the grid vertices and the grid indices |
| UVSpheres.BuildTopCap | project/src/Project/UVSphere.cpp:58-83 | The top-cap loop builds exactly the top fan |
| UVSpheres.BuildBottomCap | project/src/Project/UVSphere.cpp:85-110 | The bottom-cap loop builds exactly the bottom fan |
| UVSpheres.BuildSeam | project/src/Project/UVSphere.cpp:112-130 | The last-column loop builds exactly the seam |
| UVSpheres.UVSphere.constructor | project/src/Project/UVSphere.cpp:5-131 | Keeps the segment counts and the radius, which the getters at lines 153-166 return. Positions, texture coordinates and normals are the H·V + 2 vertices, and the indices are the corrected layout, all in range |
| Planes.Classify | project/src/Math/Plane.cpp:56-67 | Front iff dot(n,p) + d > 0, Back iff it is < 0, Intersecting otherwise |
| Planes.ScaledClassifiesAlike | project/src/Math/Plane.cpp:46-54 | Scaling the normal and the distance by a positive factor does not change any classification |
| Planes.ScaledIsUnit | project/src/Math/Plane.cpp:46-54 | Scaling by the inverse length gives a unit normal |
| Planes.ThroughPointContainsIt | project/src/Math/Plane.cpp:15-19 | A plane built through a point classifies that point as Intersecting |
| Planes.Plane.constructor | project/src/Math/Plane.cpp:5-8 | The default plane has zero normal and distance, so every point is Intersecting |
| Planes.Plane.FromComponents | project/src/Math/Plane.cpp:10-13 | Stores (a,b,c) and d verbatim |
| Planes.Plane.FromPoint | project/src/Math/Plane.cpp:15-19 | The distance is -dot(normal, point), and that point classifies as Intersecting |
| Planes.Plane.FromNormal | project/src/Math/Plane.cpp:21-24 | Stores the normal and the distance verbatim |
| Planes.Plane.SetNormal | project/src/Math/Plane.cpp:31-34 | Changes only the normal |
| Planes.Plane.SetDistance | project/src/Math/Plane.cpp:41-44 | Changes only the distance |
| Planes.Plane.Normalize | project/src/Math/Plane.cpp:46-54 | Scales the normal and the distance by the same positive factor, so no point changes side. With the inverse length as factor, the normal becomes a unit vector |
| Frusta.NormalisedClassifiesAsRaw | project/src/Math/BoundingFrustum.cpp:3-62 | A normalised plane sorts points as its raw combination does |
| Frusta.SetPlane | project/src/Math/BoundingFrustum.cpp:10-16 | Setting then normalising a plane yields the scaled raw plane, which classifies like the raw one |
| Frusta.GetPlanesFromMatrix | project/src/Math/BoundingFrustum.cpp:3-62 | Left = column 3 + column 0, right = 3 - 0, top = 3 - 1, bottom = 3 + 1 and far = 3 - 2, as m[i][j]. Near is entry 2 alone. Each plane is normalised |
| Frusta.ContainsIffAllFront | project/src/Math/BoundingFrustum.cpp:73-96 | The verdict is Contains exactly when all six planes report Front |
| Frusta.FirstNonFrontDecides | project/src/Math/BoundingFrustum.cpp:84-94 | The first non-Front plane decides: Back gives Disjoint and Intersecting gives Intersects, whatever later planes say |
| Frusta.BoundingFrustum.constructor | project/src/Math/BoundingFrustum.cpp:64-67 | The six distinct planes hold the normalised combinations of the matrix |
| Frusta.BoundingFrustum.Contains | project/src/Math/BoundingFrustum.cpp:69-97 | Tests near, far, left, right, top, bottom in turn; the result is `Combine` of those six results |
| StringUtil.ToLower | project/src/Utility/StringUtil.cpp:11 | `tolower` in the C locale: only 'A'..'Z' change, each to its lower-case letter |
| StringUtil.Equals | project/src/Utility/StringUtil.cpp:4-15 | False whenever the lengths differ. Case-sensitive it is exact equality; otherwise it compares each position after `tolower` |
| StringUtil.CaseInsensitiveIsWeaker | project/src/Utility/StringUtil.cpp:4-15 | Exact equality implies the case-insensitive one, which is symmetric and transitive |
| StringUtil.FoldedIsLoweredEquality | project/src/Utility/StringUtil.cpp:4-15 | Case-insensitive equality holds exactly when the two strings are equal after `tolower` on every character |
| StringUtil.CStr | project/src/Utility/StringUtil.cpp:19 | `c_str()` as C sees it: the prefix before the first NUL |
| StringUtil.CStrBeforeNul | project/src/Utility/StringUtil.cpp:19 | `c_str()` ends at the first NUL whatever follows it |
| StringUtil.Contains | project/src/Utility/StringUtil.cpp:17-20 | True iff the C string of `find` occurs in the C string of `target` |
| StringUtil.ContainsIsSubstring | project/src/Utility/StringUtil.cpp:17-20 | Without NULs, Contains is substring containment, and the empty needle is always contained |
| StringUtil.NoNulIsOwnCStr | project/src/Utility/StringUtil.cpp:19 | A string without NUL is its own C string |
| StringUtil.ContainsStopsAtNul | project/src/Utility/StringUtil.cpp:19 | For every target, text after its first NUL is never searched: `Contains(s + NUL + rest, t) == Contains(s, t)` when s has no NUL |
| StringUtil.FindFrom | project/src/Utility/StringUtil.cpp:48 | `find` from a position: the leftmost occurrence at or after it |
| StringUtil.Find | project/src/Utility/StringUtil.cpp:48 | The leftmost occurrence, or none exactly when the delimiter does not occur |
| StringUtil.Split | project/src/Utility/StringUtil.cpp:42-57 | The loop yields exactly `SplitSpec`: cut at the leftmost delimiter, drop it, and repeat |
| StringUtil.Join | project/src/Utility/StringUtil.cpp:59-70 | The loop yields exactly `JoinSpec` |
| StringUtil.JoinCons | project/src/Utility/StringUtil.cpp:59-70 | Joining is the first element, the delimiter, then the join of the rest |
| StringUtil.JoinShape | project/src/Utility/StringUtil.cpp:59-70 | "" for no elements and the element itself for one. Otherwise the delimiter sits between consecutive elements and never trails |
| StringUtil.SplitNonEmpty | project/src/Utility/StringUtil.cpp:54 | Split always yields at least one piece |
| StringUtil.JoinSplit | project/src/Utility/StringUtil.cpp:42-70 | Join(Split(s, d), d) == s for every non-empty d |
| StringUtil.SplitPiecesFree | project/src/Utility/StringUtil.cpp:42-57 | No piece contains the delimiter |
| StringUtil.PrefixFree | project/src/Utility/StringUtil.cpp:42-57 | The piece before the leftmost delimiter contains no delimiter |
| StringUtil.CountSkips | project/src/Utility/StringUtil.cpp:48 | Counting occurrences skips positions where none starts |
| StringUtil.CountNone | project/src/Utility/StringUtil.cpp:48 | No occurrence ahead means a count of zero |
| StringUtil.CountShift | project/src/Utility/StringUtil.cpp:51 | Counting in the text after an erased prefix |
| StringUtil.SplitCount | project/src/Utility/StringUtil.cpp:42-57 | Split yields one more piece than there are leftmost non-overlapping occurrences |
| StringUtil.CountFirst | project/src/Utility/StringUtil.cpp:42-57 | The occurrences counted from the start are the leftmost one plus those in the rest after it |
| StringUtil.SplitWithoutDelimiter | project/src/Utility/StringUtil.cpp:42-57 | A string without the delimiter splits into itself alone |
| LegacyString.Equals | project/src/String.cpp:4-15 | The older copy decides exactly as `StringUtil.Equals`: false for different lengths, exact when case-sensitive |
| LegacyString.Contains | project/src/String.cpp:17-20 | Containment of the C strings; without NULs, substring containment |
| LegacyString.Split | project/src/String.cpp:42-57 | Occurrences + 1 pieces, none holding the delimiter; a string with no delimiter yields just itself |
| Exceptions.NatToBase | project/src/Utility/Exception.cpp:4-10 | `%d` digits are never empty |
| Exceptions.ParsePrinted | project/src/Utility/Exception.cpp:4-10 | Reading the printed digits back gives the number |
| Exceptions.Decimal | project/src/Utility/Exception.cpp:4-10 | `%d`: the digits, with a '-' for negatives |
| Exceptions.DecimalInjective | project/src/Utility/Exception.cpp:4-10 | Different codes print differently |
| Exceptions.DecimalChars | project/src/Utility/Exception.cpp:4-10 | `%d` prints only a sign and decimal digits |
| Exceptions.DigitsOnly | project/src/Utility/Exception.cpp:4-10 | The digits of a natural number are decimal digits |
| Exceptions.NoMinusInDigits | project/src/Utility/Exception.cpp:4-10 | The digits never start with '-' |
| Exceptions.WithCode | project/src/Utility/Exception.cpp:4-10 | Keeps the code, type and message |
| Exceptions.WithKind | project/src/Utility/Exception.cpp:12-18 | Code -1, with the type and message kept |
| Exceptions.Plain | project/src/Utility/Exception.cpp:20-24 | Code -1, empty type, and what() is the message |
| Exceptions.WhatWithCode | project/src/Utility/Exception.cpp:4-10 | what() is "<code> - <message>" for an empty type, else "[<type>] <code> - <message>" |
| Exceptions.WhatWithKind | project/src/Utility/Exception.cpp:12-18 | what() is the message for an empty type, else "[<type>] <message>". The message-only constructor is the empty-type case |
| Exceptions.ThrownWhatDetermines | project/src/Utility/Exception.cpp:26-29 | The what() text of a defined exception determines its type and message, when the type holds no ']' |
| Exceptions.BracketSplit | project/src/Utility/Exception.cpp:12-18 | "[T] m" splits back into T and m at the first ']' |
| SeqUtil.FirstWhere | project/src/Object.h:50-60 | The search loops' result: the first index where the test holds, or none when it holds nowhere |
| SeqUtil.IndexOf | project/src/Object.cpp:42-52 | The first occurrence of an element, as the erase loops find it |
| SeqUtil.RemoveFirstFacts | project/src/Object.cpp:42-52 | Erasing the first occurrence removes exactly one element and keeps the order of the rest |
| SeqUtil.CountAround | project/src/Object.cpp:42-52 | Occurrences are those before, at and after a position, and erasing the position drops only the middle term |
| SeqUtil.RemoveOnly | project/src/Node.cpp:18-25 | An element listed once is gone after erasing its first occurrence |
| SeqUtil.FlattenLength | project/src/ModelManager.cpp:58-65 | Concatenated faces are as long as the sum of the face sizes |
| SeqUtil.FlattenAppend | project/src/ModelManager.cpp:58-65 | Adding a face appends its indices |
| SeqUtil.FlattenMember | project/src/ModelManager.cpp:58-65 | Every index of every face is in the result, and nothing else is |
| SeqUtil.FlattenUniform | project/src/ModelManager.cpp:58-65 | k faces of size n give k·n indices |

## Left out

- Rendering, GL buffers, shaders, textures, windows, input, logging and file reading are not
  modelled. The loaders' file contents are parameters: parsed metadata documents, importer
  results, and a texture/shader lookup for the graphics manager.
- Mutexes in `Memory.cpp` and `Event.h`: every operation is sequential.
- Memory addresses are abstract ids from a counter. `malloc` itself, and `free` of the bytes,
  are not modelled.
- Destructors are traces: `Destroy` returns the objects destroyed, in order, and clears the
  receiver's own list. The effect on each destroyed descendant's own fields is not stated
  (their memory is freed). The `Node` destructor's iteration over a vector its children erase
  from is undefined behaviour; the model treats it as "the subtree is destroyed".
- Cycles in the trees: `AddChild` and `CreateChild` never check for them. The passes require
  a ranking of the tree instead of modelling unbounded recursion.
- `Object.h` declares `Update(float)` while `Object.cpp` defines `Update(float, float)`. The
  model follows the `.cpp` body; the time arguments are not modelled.
- Float rounding: times, plane coefficients and cached material values are reals.
- Square roots are parameters. `Plane::Normalize` takes its positive factor, and
  `GetPlanesFromMatrix` takes an `inverseLength` function returning positive values.
- Planes.Plane.Normalize: a zero normal (a division by zero in the source) is excluded by its
  requirement of a positive factor.
- Animations.Progress: a zero keyframe duration (a float division by zero) gives `None` rather
  than the infinity or NaN the source would compute.
- Animations.Animation.Update: the rotation and translation applied to the transform are left
  abstract. The effect only names the keyframe and the progress fraction. The "invalid axis"
  throws cannot happen, because every enumerator is handled.
- Sphere positions, normals and texture coordinates (trigonometry): each vertex is a
  descriptor (grid position or pole).
- UVSpheres.UVSphere.constructor: it builds the corrected index layout (see Findings); the
  as-written layout is `UVSpheres.IndicesAsWritten`. The 32-bit wrap of the unsigned index
  arithmetic is modelled; the range lemmas assume H·V + 2 ≤ 2^32.
- The 64-bit allocation totals (`m_Allocated` and `m_Limit` are `uint64_t`, and so is the limit
  argument of `MemoryInitialize`) and the `size_t` texture slot and counts do not have their
  wrap-around modelled: they are unbounded naturals.
- Out-of-memory: every allocation through the ledger is assumed to succeed, so the
  OutOfMemoryException that `MemoryAllocate` throws past a nonzero limit (Memory.cpp:38-42)
  is not propagated by Objects.Object.CreateChild, Nodes.Node.CreateChild,
  Values.ValueContainer.Set, the Value constructors and Values.Value.Assign, Materials.Material.Init
  and SetTexture, Lights.LightManager.CreateLight, or ModelManagers.ProcessMesh and
  LoadFromFile. The ledger's own `Allocate` models the throw.
- Events.Event.Remove: implements the corrected removal (the first callback wrapping the same
  callable), not the source's line 48, which always erases the first callback. The as-written
  behaviour is `Events.RemovedAsWritten`, and the Findings table shows the two differ.
- ModelManagers.ProcessMaterial: its contract (throws exactly on a missing name or an unmapped
  name; no resources on success) covers only the name and shader steps. In the source the
  colour and shininess steps call `Material::GetVariable` on names the material does not
  declare, which throws MaterialVariableNotFoundException whenever the imported material has
  such a property, and the texture steps would add resources. Neither is modelled.
- Values.Value.Assign: self-assignment is excluded by a precondition. In the source
  (Value.h:52-54) it frees the payload and then copies from the freed block, a use after free.
- Values.Lookup: it is the generic `Get<T, Type>` read with the `T` the entry was stored with, and
  returns the stored payload unchanged. A read with another `T` under the same tag (only the
  vec2, vec3 and vec4 typedefs share one, the Vec2 tag) reinterprets the stored bytes; only the
  vec2 overload's read of the first two floats is modelled, as `Values.GetVec2`.
- The tree passes (`Calls`, `Visits`) assume each child's `Update`, `Render`, `Shutdown` or
  `Compile` is the base version that recurses into its own children. A subclass override that
  does not call the base would change the trace.
- Strings are sequences of characters. The source's `std::string` positions (`find`,
  `find_last_of`, `substr`) count bytes, so multi-byte text is out of scope.
- GameObjects.GameObject.constructor: the initial transform is glm's default matrix, which
  depends on the glm version; the contract does not state it. `m_Game` is not modelled.
- The `%s` argument of a formatted message stops at a NUL; the model concatenates whole
  strings. `typeid(T).name()` is a parameter (`typeName`).
- `MaterialVariable::SetBool` and `SetVec3` are called by the model loader but are not
  declared in `Material.h`, and neither are the `kMaterialVar_*` names. `LoadTexture` looks the
  enable variable up and stops there. The colour, texture and shininess steps of
  `processMaterial` are not modelled.
- `Material::GetName` and the material's name are not declared in `Material.h`. The model
  gives a material a name field, because `Model::GetMaterial` and `processNode` look materials
  up by it.
- Material's forwarding to GL shader variables, and `Material::Apply`, are not modelled.
- A metadata document whose top level is not an object is not modelled: it is parsed as an
  error or as a member list.
- Vertex attribute contents in `ModelUtil.cpp`, which read the wrong arrays for normals and
  texture coordinates, are not modelled: only counts and indices are.
- `String::Format` is not modelled beyond the `%d`, `%X` and `%s` uses in exception messages.
- StringUtil.Split: an empty delimiter makes the source loop forever, so it is a precondition.
- Transform, Camera, Skybox, Star, Planet and the program drivers are not modelled.
- The `ILight` subclasses' colours, directions, `SetCount` and `Apply` are not modelled: they
  are GL-side and do not match `LightManager.cpp`.

## Findings

| source | as written | input that shows it | evidently intended | confidence | as-written member | corrected member |
|---|---|---|---|---|---|---|
| project/src/Utility/Event.h:48 | `Remove` compares `target<TFunction>()` of each callback with that of the argument, where `TFunction` is a call signature. Both sides are always null, so the first callback is erased whatever was asked | callbacks 1 then 2, `Remove(2)`: callback 1 is erased | erase the first callback wrapping the same callable | not executed | Events.AsWrittenRemovesWrongCallback | Events.RemovedErasesOneMatch |
| project/src/Project/UVSphere.cpp:42-45 | grid, top-cap and seam indices use the row stride H (`m_NumHorizontalSegments`), but each ring holds V (`m_NumVerticalSegments`) vertices | V = 2, H = 4: 10 vertices, yet index 13 is emitted | stride V, with the top cap on the last ring (H-1) and the caps and seam over V columns | not executed | UVSpheres.AsWrittenOutOfRange | UVSpheres.IndicesInRange |
