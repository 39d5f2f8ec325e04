/** Materials (project/src/Material.cpp): a material binds a shader, a table of named texture
    resources with fixed texture slots, and one cached variable per shader variable. The GL side
    (forwarding values to the shader variable, `Apply`) is not part of this model. */
module Materials {
  import opened SeqUtil
  import opened Exceptions

  /** A shader variable; a material only needs its name. */
  class ShaderVariable {
    const name: string

    constructor (name: string)
      ensures this.name == name
    {
      this.name := name;
    }
  }

  /** A shader program, seen as the variables it exposes, in declaration order. */
  class Shader {
    const variables: seq<ShaderVariable>

    constructor (variables: seq<ShaderVariable>)
      ensures this.variables == variables
    {
      this.variables := variables;
    }
  }

  /** A texture; a material only stores and hands back the pointer. */
  class Texture {
    constructor ()
    {
    }
  }

  /** The sixteen cached entries of a 4x4 matrix, row by row. */
  const MatrixSize := 16

  function ZeroMatrix(): (m: seq<real>)
    ensures |m| == MatrixSize && forall i :: 0 <= i < |m| ==> m[i] == 0.0
  {
    seq(MatrixSize, _ => 0.0)
  }

  /** A material's copy of the values last written to one shader variable. */
  class MaterialVariable {
    const shaderVariable: ShaderVariable
    var value1: real
    var value2: real
    var value3: real
    var value4: real
    var matrix: seq<real>

    /** The four cached float components, in order. */
    function Components(): seq<real>
      reads this
    {
      [value1, value2, value3, value4]
    }

    ghost predicate Valid()
      reads this
    {
      |matrix| == MatrixSize
    }

    /** A new variable caches zero in every component and every matrix entry. */
    constructor (shaderVariable: ShaderVariable)
      ensures this.shaderVariable == shaderVariable
      ensures Valid()
      ensures Components() == [0.0, 0.0, 0.0, 0.0] && matrix == ZeroMatrix()
    {
      this.shaderVariable := shaderVariable;
      value1, value2, value3, value4 := 0.0, 0.0, 0.0, 0.0;
      matrix := ZeroMatrix();
    }

    /** The name is the shader variable's name. */
    function Name(): string
    {
      shaderVariable.name
    }

    method SetFloat1(v1: real)
      modifies this
      ensures Components() == [v1] + old(Components())[1..]
      ensures matrix == old(matrix)
    {
      value1 := v1;
    }

    method SetFloat2(v1: real, v2: real)
      modifies this
      ensures Components() == [v1, v2] + old(Components())[2..]
      ensures matrix == old(matrix)
    {
      value1, value2 := v1, v2;
    }

    method SetFloat3(v1: real, v2: real, v3: real)
      modifies this
      ensures Components() == [v1, v2, v3] + old(Components())[3..]
      ensures matrix == old(matrix)
    {
      value1, value2, value3 := v1, v2, v3;
    }

    method SetFloat4(v1: real, v2: real, v3: real, v4: real)
      modifies this
      ensures Components() == [v1, v2, v3, v4]
      ensures matrix == old(matrix)
    {
      value1, value2, value3, value4 := v1, v2, v3, v4;
    }

    /** Copies all sixteen entries; the float components are untouched. */
    method SetFloatMat4x4(m: seq<real>)
      requires |m| == MatrixSize
      modifies this
      ensures Valid() && matrix == m
      ensures Components() == old(Components())
    {
      matrix := m;
    }

    method GetFloat1() returns (v1: real)
      ensures [v1] == Components()[..1]
    {
      v1 := value1;
    }

    method GetFloat2() returns (v1: real, v2: real)
      ensures [v1, v2] == Components()[..2]
    {
      v1, v2 := value1, value2;
    }

    method GetFloat3() returns (v1: real, v2: real, v3: real)
      ensures [v1, v2, v3] == Components()[..3]
    {
      v1, v2, v3 := value1, value2, value3;
    }

    method GetFloat4() returns (v1: real, v2: real, v3: real, v4: real)
      ensures [v1, v2, v3, v4] == Components()
    {
      v1, v2, v3, v4 := value1, value2, value3, value4;
    }

    method GetFloatMat4x4() returns (m: seq<real>)
      requires Valid()
      ensures |m| == MatrixSize && m == matrix
    {
      m := matrix;
    }
  }

  /** Writing N components and reading four back yields the new N followed by the old rest. */
  method SetFloat2ThenGetFloat4(v: MaterialVariable, a: real, b: real)
    returns (r1: real, r2: real, r3: real, r4: real)
    modifies v
    ensures [r1, r2, r3, r4] == [a, b, old(v.value3), old(v.value4)]
  {
    v.SetFloat2(a, b);
    r1, r2, r3, r4 := v.GetFloat4();
  }

  /** A named texture bound to a fixed texture unit. */
  class MaterialResource {
    const name: string
    var texture: Texture?
    const slot: nat

    constructor (name: string, texture: Texture?, slot: nat)
      ensures this.name == name && this.texture == texture && this.slot == slot
    {
      this.name := name;
      this.texture := texture;
      this.slot := slot;
    }

    method SetTexture(texture: Texture?)
      modifies this
      ensures this.texture == texture
    {
      this.texture := texture;
    }
  }

  /** Index of the first resource called `name`. */
  function ResourceIndex(resources: seq<MaterialResource>, name: string): Option<nat>
  {
    FirstWhere(resources, (r: MaterialResource) => r.name == name)
  }

  /** Index of the first variable called `name`. */
  function VariableIndex(variables: seq<MaterialVariable>, name: string): Option<nat>
  {
    FirstWhere(variables, (v: MaterialVariable) => v.Name() == name)
  }

  function TextureNotFound(name: string): Exception
  {
    Thrown("MaterialTextureNotFoundException", "Texture " + name + " not found")
  }

  function VariableNotFound(name: string): Exception
  {
    Thrown("MaterialVariableNotFoundException", "Variable " + name + " not found")
  }

  class Material {
    /** The name Model::GetMaterial and the model loader look materials up by. */
    const name: string
    var shader: Shader
    var variables: seq<MaterialVariable>
    var resources: seq<MaterialResource>

    /** Resource slots are 0..n-1 in insertion order and resource names are distinct. */
    ghost predicate Valid()
      reads this
    {
      (forall i :: 0 <= i < |resources| ==> resources[i].slot == i) &&
      (forall i, j :: 0 <= i < j < |resources| ==> resources[i].name != resources[j].name)
    }

    /** One fresh, zeroed variable per shader variable, in shader order. */
    ghost predicate FreshVariablesFor(s: Shader)
      reads this, variables
    {
      |variables| == |s.variables| &&
      forall i :: 0 <= i < |variables| ==>
        variables[i].shaderVariable == s.variables[i] && variables[i].Valid() &&
        variables[i].Components() == [0.0, 0.0, 0.0, 0.0] && variables[i].matrix == ZeroMatrix()
    }

    constructor (name: string, shader: Shader)
      ensures this.name == name && this.shader == shader && resources == []
      ensures Valid() && FreshVariablesFor(shader)
      ensures forall v :: v in variables ==> fresh(v)
    {
      this.name := name;
      this.shader := shader;
      variables := [];
      resources := [];
      new;
      Init();
    }

    /** `init`: drops the old variables and makes one per variable of the current shader. */
    method Init()
      modifies this`variables
      ensures FreshVariablesFor(shader)
      ensures forall v :: v in variables ==> fresh(v)
    {
      var vars: seq<MaterialVariable> := [];
      var i := 0;
      while i < |shader.variables|
        invariant 0 <= i <= |shader.variables| && |vars| == i
        invariant forall k :: 0 <= k < i ==>
          vars[k].shaderVariable == shader.variables[k] && vars[k].Valid() &&
          vars[k].Components() == [0.0, 0.0, 0.0, 0.0] && vars[k].matrix == ZeroMatrix()
        invariant forall v :: v in vars ==> fresh(v)
      {
        var v := new MaterialVariable(shader.variables[i]);
        vars := vars + [v];
        i := i + 1;
      }
      variables := vars;
    }

    /** Replaces the shader and rebuilds the variables for it; textures are kept. */
    method SetShader(s: Shader)
      modifies this`shader, this`variables
      ensures shader == s && FreshVariablesFor(s)
      ensures forall v :: v in variables ==> fresh(v)
      ensures resources == old(resources)
    {
      shader := s;
      Init();
    }

    /** Binds `texture` under `name`: an existing resource gets the new texture in place, a new
        name gets a resource on the next free slot. */
    method SetTexture(name: string, texture: Texture?)
      requires Valid()
      modifies this`resources, resources
      ensures Valid()
      ensures ResourceIndex(old(resources), name).Some? ==>
        var i := ResourceIndex(old(resources), name).value;
        resources == old(resources) && resources[i].texture == texture &&
        forall j :: 0 <= j < |resources| && j != i ==> resources[j].texture == old(resources[j].texture)
      ensures ResourceIndex(old(resources), name).None? ==>
        |resources| == |old(resources)| + 1 && resources[..|old(resources)|] == old(resources) &&
        fresh(resources[|old(resources)|]) &&
        resources[|old(resources)|].name == name && resources[|old(resources)|].texture == texture &&
        resources[|old(resources)|].slot == |old(resources)| &&
        forall j :: 0 <= j < |old(resources)| ==> resources[j].texture == old(resources[j].texture)
    {
      var i := 0;
      while i < |resources|
        invariant 0 <= i <= |resources|
        invariant forall j :: 0 <= j < i ==> resources[j].name != name
      {
        if resources[i].name == name {
          FirstWhereAt(resources, (r: MaterialResource) => r.name == name, i);
          resources[i].SetTexture(texture);
          return;
        }
        i := i + 1;
      }
      FirstWhereNone(resources, (r: MaterialResource) => r.name == name);
      var res := new MaterialResource(name, texture, |resources|);
      resources := resources + [res];
    }

    /** The texture of the first resource called `name`. */
    method GetTexture(name: string) returns (r: Result<Texture?>)
      ensures ResourceIndex(resources, name).Some? ==>
        r == Ok(resources[ResourceIndex(resources, name).value].texture)
      ensures ResourceIndex(resources, name).None? ==> r == Throw(TextureNotFound(name))
    {
      var i := 0;
      while i < |resources|
        invariant 0 <= i <= |resources|
        invariant forall j :: 0 <= j < i ==> resources[j].name != name
      {
        if resources[i].name == name {
          FirstWhereAt(resources, (r: MaterialResource) => r.name == name, i);
          return Ok(resources[i].texture);
        }
        i := i + 1;
      }
      FirstWhereNone(resources, (r: MaterialResource) => r.name == name);
      r := Throw(TextureNotFound(name));
    }

    /** The slot of the first resource called `name`; in a valid material that is its position. */
    method GetTextureSlot(name: string) returns (r: Result<nat>)
      ensures ResourceIndex(resources, name).Some? ==>
        r == Ok(resources[ResourceIndex(resources, name).value].slot)
      ensures ResourceIndex(resources, name).None? ==> r == Throw(TextureNotFound(name))
      ensures Valid() && r.Ok? ==> r.value < |resources| && resources[r.value].name == name
    {
      var i := 0;
      while i < |resources|
        invariant 0 <= i <= |resources|
        invariant forall j :: 0 <= j < i ==> resources[j].name != name
      {
        if resources[i].name == name {
          FirstWhereAt(resources, (r: MaterialResource) => r.name == name, i);
          return Ok(resources[i].slot);
        }
        i := i + 1;
      }
      FirstWhereNone(resources, (r: MaterialResource) => r.name == name);
      r := Throw(TextureNotFound(name));
    }

    /** The first variable whose shader variable is called `name`. */
    method GetVariable(name: string) returns (r: Result<MaterialVariable>)
      ensures VariableIndex(variables, name).Some? ==>
        r == Ok(variables[VariableIndex(variables, name).value])
      ensures VariableIndex(variables, name).None? ==> r == Throw(VariableNotFound(name))
      ensures r.Ok? ==> r.value in variables && r.value.Name() == name
    {
      var i := 0;
      while i < |variables|
        invariant 0 <= i <= |variables|
        invariant forall j :: 0 <= j < i ==> variables[j].Name() != name
      {
        if variables[i].Name() == name {
          FirstWhereAt(variables, (v: MaterialVariable) => v.Name() == name, i);
          return Ok(variables[i]);
        }
        i := i + 1;
      }
      FirstWhereNone(variables, (v: MaterialVariable) => v.Name() == name);
      r := Throw(VariableNotFound(name));
    }
  }

  /** In a valid material the first resource with a name is the only one with it. */
  lemma ResourceNamesUnique(m: Material, name: string, j: nat)
    requires m.Valid() && j < |m.resources| && m.resources[j].name == name
    ensures ResourceIndex(m.resources, name) == Some(j)
  {
    FirstWhereAt(m.resources, (r: MaterialResource) => r.name == name, j);
  }

  /** Binding a texture and looking it up again gives back that texture, on a slot that is the
      resource's position; the number of resources grows only for a new name. */
  method SetThenGetTexture(m: Material, name: string, t: Texture?)
    returns (got: Result<Texture?>, slot: Result<nat>)
    requires m.Valid()
    modifies m, m.resources
    ensures got == Ok(t)
    ensures slot.Ok? && slot.value < |m.resources| && m.resources[slot.value].name == name
    ensures |m.resources| == |old(m.resources)| + (if ResourceIndex(old(m.resources), name).Some? then 0 else 1)
  {
    m.SetTexture(name, t);
    if ResourceIndex(old(m.resources), name).None? {
      ResourceNamesUnique(m, name, |m.resources| - 1);
    }
    got := m.GetTexture(name);
    slot := m.GetTextureSlot(name);
  }
}
