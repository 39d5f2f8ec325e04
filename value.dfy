/** `Value<T, Type>` and `ValueContainer` of project/src/Value.h. A `Value` owns a heap cell holding its
    contents (`T *m_Value`); copies allocate a new cell. The container maps keys to type-tagged entries
    and checks the tag on every read. */
module Values {
  import opened Exceptions

  /** `enum ValueType`, in declaration order. */
  datatype ValueType = None | Int32 | UInt32 | Float | Double | String | Vec2 | Vec3 | Vec4 | Matrix4x4

  /** The integer a `ValueType` prints as with `%d`. */
  function Ordinal(t: ValueType): (n: nat)
    ensures n <= 9
  {
    match t
    case None => 0 case Int32 => 1 case UInt32 => 2 case Float => 3 case Double => 4
    case String => 5 case Vec2 => 6 case Vec3 => 7 case Vec4 => 8 case Matrix4x4 => 9
  }

  /** The tags the typedefs carry. `ValueVec3` and `ValueVec4` are declared with the Vec2 tag. */
  const ValueInt32Tag := Int32
  const ValueUInt32Tag := UInt32
  const ValueFloatTag := Float
  const ValueDoubleTag := Double
  const ValueStringTag := String
  const ValueVec2Tag := Vec2
  const ValueVec3Tag := Vec2
  const ValueVec4Tag := Vec2
  const ValueMatrix4x4Tag := Matrix4x4

  /** The contents a value can hold; floats are reals. */
  datatype Payload =
    | IntVal(i: int)
    | UIntVal(u: nat)
    | FloatVal(f: real)
    | DoubleVal(d: real)
    | StringVal(s: string)
    | Vec2Val(x: real, y: real)
    | Vec3Val(x: real, y: real, z: real)
    | Vec4Val(x: real, y: real, z: real, w: real)
    | MatrixVal(m: seq<real>)

  /** The tag each typed `ValueContainer::Set`/`Get` overload passes (lines 134-222): it names the
      enumerator directly, so the vec3 and vec4 overloads use Vec3 and Vec4. */
  function OverloadTag(p: Payload): ValueType
  {
    match p
    case IntVal(_) => Int32
    case UIntVal(_) => UInt32
    case FloatVal(_) => Float
    case DoubleVal(_) => Double
    case StringVal(_) => String
    case Vec2Val(_, _) => Vec2
    case Vec3Val(_, _, _) => Vec3
    case Vec4Val(_, _, _, _) => Vec4
    case MatrixVal(_) => Matrix4x4
  }

  /** The heap cell `m_Value` points to. */
  class Cell<T> {
    var contents: T

    constructor (v: T)
      ensures contents == v
    {
      contents := v;
    }
  }

  /** `Value<T, Type>`; the template tag is the constructor's `tag` argument. */
  class Value<T> {
    var tag: ValueType
    var cell: Cell<T>

    /** `Value(T value)`: tag from the template, a new cell holding `value`. */
    constructor (tag: ValueType, value: T)
      ensures this.tag == tag && cell.contents == value && fresh(cell)
    {
      this.tag := tag;
      cell := new Cell(value);
    }

    /** Copy construction: same tag, same contents, a cell of its own. */
    constructor Copy(other: Value<T>)
      ensures tag == other.tag && cell.contents == other.cell.contents && fresh(cell)
    {
      tag := other.tag;
      cell := new Cell(other.cell.contents);
    }

    /** Copy assignment from another value: take its tag and a fresh copy of its contents. */
    method Assign(other: Value<T>)
      requires other != this
      modifies this
      ensures tag == old(other.tag) && cell.contents == old(other.cell.contents) && fresh(cell)
    {
      tag := other.tag;
      cell := new Cell(other.cell.contents);
    }

    function GetType(): ValueType
      reads this
    {
      tag
    }

    function Get(): T
      reads this, cell
    {
      cell.contents
    }

    /** `Set` writes through the cell; the tag is untouched. */
    method Set(v: T)
      modifies cell
      ensures Get() == v && GetType() == old(GetType())
    {
      cell.contents := v;
    }
  }

  /** Copies are deep: setting a copy leaves the original's contents alone. */
  method CopyThenSet<T>(original: Value<T>, v: T) returns (copy: Value<T>)
    ensures copy.Get() == v && copy.GetType() == original.GetType()
    ensures original.Get() == old(original.Get())
  {
    copy := new Value.Copy(original);
    copy.Set(v);
  }

  /** One stored value: the tag recorded in it and its contents. */
  datatype Entry = Entry(tag: ValueType, payload: Payload)

  /** What `ValueContainer::Get<T, Type>` does with the map: KeyNotFoundException for an absent key,
      ValueTypeMismatchException when the stored tag is not the requested one. */
  function Lookup(values: map<string, Entry>, key: string, wanted: ValueType): (r: Result<Payload>)
    ensures key !in values ==> r == Throw(Thrown("KeyNotFoundException", "Key " + key + " not found"))
    ensures key in values && values[key].tag != wanted ==>
      r == Throw(Thrown("ValueTypeMismatchException",
        "Value type mismatch (expected " + Decimal(Ordinal(wanted)) + ", got " + Decimal(Ordinal(values[key].tag)) + ")"))
    ensures r.Ok? <==> key in values && values[key].tag == wanted
    ensures r.Ok? ==> r.value == values[key].payload
  {
    if key !in values then Throw(Thrown("KeyNotFoundException", "Key " + key + " not found"))
    else if values[key].tag != wanted then
      Throw(Thrown("ValueTypeMismatchException",
        "Value type mismatch (expected " + Decimal(Ordinal(wanted)) + ", got " + Decimal(Ordinal(values[key].tag)) + ")"))
    else Ok(values[key].payload)
  }

  /** Set-then-Get through the same typed overload returns what was stored. */
  lemma SetThenGet(values: map<string, Entry>, key: string, p: Payload)
    ensures Lookup(values[key := Entry(OverloadTag(p), p)], key, OverloadTag(p)) == Ok(p)
  {
  }

  /** Setting one key does not change what any other key reads as, and adds exactly that key. */
  lemma SetOtherKey(values: map<string, Entry>, key: string, e: Entry, other: string, wanted: ValueType)
    requires other != key
    ensures Lookup(values[key := e], other, wanted) == Lookup(values, other, wanted)
    ensures values[key := e].Keys == values.Keys + {key}
  {
  }

  /** Reading through a different overload than the one that wrote fails with a type mismatch. */
  lemma WrongOverloadMismatch(values: map<string, Entry>, key: string, p: Payload, wanted: ValueType)
    requires wanted != OverloadTag(p)
    ensures Lookup(values[key := Entry(OverloadTag(p), p)], key, wanted).Throw?
    ensures Lookup(values[key := Entry(OverloadTag(p), p)], key, wanted).error.kind == "ValueTypeMismatchException"
  {
  }

  /** After a typed `Set` of `p`, the typed `Get` of `q`'s overload returns `p` exactly when the two
      overloads carry the same tag, and otherwise reports both tags in the mismatch. */
  lemma TypedGetAfterTypedSet(values: map<string, Entry>, key: string, p: Payload, q: Payload)
    ensures var r := Lookup(values[key := Entry(OverloadTag(p), p)], key, OverloadTag(q));
      && (r.Ok? <==> OverloadTag(p) == OverloadTag(q))
      && (r.Ok? ==> r.value == p)
      && (r.Throw? ==> r.error == Thrown("ValueTypeMismatchException",
            "Value type mismatch (expected " + Decimal(Ordinal(OverloadTag(q))) + ", got " +
            Decimal(Ordinal(OverloadTag(p))) + ")"))
  {
  }

  /** A vec3 stored through the generic `Set` as a `ValueVec3` carries the Vec2 tag, so the vec3
      overload of `Get` rejects it. */
  lemma Vec3TypedefMismatch(values: map<string, Entry>, key: string, x: real, y: real, z: real)
    ensures Lookup(values[key := Entry(ValueVec3Tag, Vec3Val(x, y, z))], key, OverloadTag(Vec3Val(x, y, z))).Throw?
  {
  }

  /** What the vec2 overload's `Value<glm::vec2, Vec2>::Get` reads from a stored payload: its first two
      floats. A vec3 or vec4 stored through `ValueVec3`/`ValueVec4` carries the Vec2 tag, so the cast
      at Value.h:111 accepts it and the read keeps only x and y. */
  function FirstTwo(p: Payload): (r: Payload)
    ensures (p.Vec2Val? || p.Vec3Val? || p.Vec4Val?) ==> r == Vec2Val(p.x, p.y)
    ensures !(p.Vec2Val? || p.Vec3Val? || p.Vec4Val?) ==> r == p
  {
    match p
    case Vec3Val(x, y, _) => Vec2Val(x, y)
    case Vec4Val(x, y, _, _) => Vec2Val(x, y)
    case _ => p
  }

  /** `ValueContainer::Get(key, glm::vec2 &)`: the generic read with the Vec2 tag, then the first two
      floats of whatever was stored. */
  function GetVec2(values: map<string, Entry>, key: string): (r: Result<Payload>)
    ensures r.Ok? <==> Lookup(values, key, Vec2).Ok?
    ensures r.Throw? ==> r.error == Lookup(values, key, Vec2).error
    ensures r.Ok? ==> r.value == FirstTwo(values[key].payload)
  {
    match Lookup(values, key, Vec2)
    case Throw(e) => Throw(e)
    case Ok(p) => Ok(FirstTwo(p))
  }

  /** A vec3 stored as a `ValueVec3` reads back through the vec2 overload as its x and y, and a vec2
      stored through the vec2 overload reads back unchanged. */
  lemma Vec3ReadAsVec2(values: map<string, Entry>, key: string, x: real, y: real, z: real)
    ensures GetVec2(values[key := Entry(ValueVec3Tag, Vec3Val(x, y, z))], key) == Ok(Vec2Val(x, y))
    ensures GetVec2(values[key := Entry(OverloadTag(Vec2Val(x, y)), Vec2Val(x, y))], key) == Ok(Vec2Val(x, y))
  {
  }

  class ValueContainer {
    var values: map<string, Entry>

    constructor ()
      ensures values == map[]
    {
      values := map[];
    }

    /** Generic `Set<T, Type>`: store a copy of `value` under `key`, replacing an existing entry. */
    method SetValue(key: string, value: Value<Payload>)
      modifies this
      ensures values == old(values)[key := Entry(value.tag, value.cell.contents)]
    {
      values := values[key := Entry(value.tag, value.cell.contents)];
    }

    /** Generic `Get<T, Type>` read with the `T` the entry was stored with; each typed `Get`
        overload is this with its own tag, copying the contents out, except that the vec2 overload
        keeps only the first two floats (`GetVec2`). */
    method GetValue(key: string, wanted: ValueType) returns (r: Result<Payload>)
      ensures r == Lookup(values, key, wanted)
    {
      if key !in values {
        return Throw(Thrown("KeyNotFoundException", "Key " + key + " not found"));
      }
      var t := values[key].tag;
      if t != wanted {
        return Throw(Thrown("ValueTypeMismatchException",
          "Value type mismatch (expected " + Decimal(Ordinal(wanted)) + ", got " + Decimal(Ordinal(t)) + ")"));
      }
      return Ok(values[key].payload);
    }

    /** The typed `Set` overloads: wrap the plain value in a `Value` tagged by the overload. */
    method Set(key: string, p: Payload)
      modifies this
      ensures values == old(values)[key := Entry(OverloadTag(p), p)]
    {
      var v := new Value(OverloadTag(p), p);
      SetValue(key, v);
    }
  }
}
