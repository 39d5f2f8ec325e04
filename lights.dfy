/** The light registry and the shader-variable naming macros of project/src/LightManager.h.
    Light colours, directions and positions, and applying lights to a shader, are GL-side and are
    not part of this model. */
module Lights {
  import opened SeqUtil
  import opened Exceptions

  /** `LIGHT_DEFINE_VARIABLE(name)`: the uniform name "u_<name>". */
  function LightVar(name: string): (r: string)
    ensures |r| == |name| + 2 && r[..2] == "u_" && r[2..] == name
  {
    "u_" + name
  }

  const ViewPositionVar := LightVar("ViewPosition")
  const DirectionalLightCountVar := LightVar("DirectionalLightCount")
  const DirectionalLightsVar := LightVar("DirectionalLights")
  const PointLightCountVar := LightVar("PointLightCount")
  const PointLightsVar := LightVar("PointLights")

  /** Different names give different uniforms. */
  lemma LightVarInjective(a: string, b: string)
    requires LightVar(a) == LightVar(b)
    ensures a == b
  {
    assert a == LightVar(a)[2..];
  }

  /** `LIGHT_GET_BLOCK_VARIABLE(var, i, name)`: "%s[%d].%s". */
  function BlockVariable(variable: string, i: int, name: string): string
  {
    variable + "[" + Decimal(i) + "]." + name
  }

  /** Two light slots of the same array never share a uniform name: the field name of slot i
      differs from that of slot j whenever i != j. */
  lemma BlockVariableDistinct(variable: string, i: int, j: int, name: string)
    requires i != j
    ensures BlockVariable(variable, i, name) != BlockVariable(variable, j, name)
  {
    var di, dj := Decimal(i), Decimal(j);
    var s, t := BlockVariable(variable, i, name), BlockVariable(variable, j, name);
    var p := |variable| + 1;
    assert s == variable + "[" + (di + "]." + name);
    assert t == variable + "[" + (dj + "]." + name);
    if s == t {
      assert s[p..] == di + "]." + name && t[p..] == dj + "]." + name;
      DecimalChars(i);
      DecimalChars(j);
      if |di| == |dj| {
        assert di == s[p..p + |di|] == dj;
        DecimalInjective(i, j);
      }
    }
  }

  datatype LightType = Directional | Point

  /** A light; the registry only stores and compares pointers. */
  class Light {
    const lightType: LightType

    constructor (lightType: LightType)
      ensures this.lightType == lightType
    {
      this.lightType := lightType;
    }
  }

  function LightNotFound(): Exception
  {
    Thrown("LightNotFoundException", "Light does not exist")
  }

  class LightManager {
    var lights: seq<Light>

    constructor ()
      ensures lights == []
    {
      lights := [];
    }

    /** Makes a light and stores it last. */
    method CreateLight(lightType: LightType) returns (light: Light)
      modifies this
      ensures fresh(light) && light.lightType == lightType
      ensures lights == old(lights) + [light]
    {
      light := new Light(lightType);
      lights := lights + [light];
    }

    /** Erases the first occurrence of `light`; a light that is not registered throws
        LightNotFoundException and changes nothing. */
    method RemoveLight(light: Light) returns (r: Outcome)
      modifies this
      ensures light in old(lights) ==> r == Done && lights == RemoveFirst(old(lights), light)
      ensures light !in old(lights) ==> r == Fail(LightNotFound()) && lights == old(lights)
    {
      var i := 0;
      while i < |lights|
        invariant 0 <= i <= |lights| && light !in lights[..i]
      {
        if lights[i] == light {
          IndexOfAt(lights, light, i);
          lights := lights[..i] + lights[i + 1..];
          return Done;
        }
        assert lights[..i + 1] == lights[..i] + [lights[i]];
        i := i + 1;
      }
      assert lights[..i] == lights;
      r := Fail(LightNotFound());
    }
  }

  /** Removing the light just created gives back the registry as it was. */
  method CreateThenRemove(manager: LightManager, lightType: LightType) returns (r: Outcome)
    modifies manager
    ensures r == Done && manager.lights == old(manager.lights)
  {
    var light := manager.CreateLight(lightType);
    r := manager.RemoveLight(light);
    RemoveAppended(old(manager.lights), light);
  }
}
