/**
 * The type-code table `enums` of common/shader-util.js: for each uniform
 * type the GL reports, its code and the setter that marshals a value for
 * it, and `getKeyFromType`, the reverse lookup that scans the table.
 */
module ShaderTypes {
  import opened Wrappers
  import opened JsValues
  import opened Gl

  /** The keys of `enums`. */
  datatype TypeKey =
    | FloatVec2 | FloatVec3 | FloatVec4
    | IntVec2 | IntVec3 | IntVec4
    | Bool | BoolVec2 | BoolVec3 | BoolVec4
    | FloatMat2 | FloatMat3 | FloatMat4
    | Sampler2D | SamplerCube
    | Int | Float

  /** The keys in the order `for (let i in enums)` visits them: the order of declaration. */
  const Enums: seq<TypeKey> := [
    FloatVec2, FloatVec3, FloatVec4, IntVec2, IntVec3, IntVec4,
    Bool, BoolVec2, BoolVec3, BoolVec4, FloatMat2, FloatMat3, FloatMat4,
    Sampler2D, SamplerCube, Int, Float
  ]

  /**
   * `enums[k].value`: the GL type constant of each key (section 5.14 of the
   * WebGL 1.0 specification).
   */
  function Code(k: TypeKey): int
  {
    match k
    case FloatVec2 => 0x8B50
    case FloatVec3 => 0x8B51
    case FloatVec4 => 0x8B52
    case IntVec2 => 0x8B53
    case IntVec3 => 0x8B54
    case IntVec4 => 0x8B55
    case Bool => 0x8B56
    case BoolVec2 => 0x8B57
    case BoolVec3 => 0x8B58
    case BoolVec4 => 0x8B59
    case FloatMat2 => 0x8B5A
    case FloatMat3 => 0x8B5B
    case FloatMat4 => 0x8B5C
    case Sampler2D => 0x8B5E
    case SamplerCube => 0x8B60
    case Int => INT
    case Float => FLOAT
  }

  /**
   * The reverse table, code to key, written out on its own rather than by
   * scanning: the reference GetKeyFromType is proved against.
   */
  function KeyOf(typ: int): (r: Option<TypeKey>)
    ensures r.Some? ==> Code(r.value) == typ
    ensures r.None? <==> forall k: TypeKey :: Code(k) != typ
  {
    if typ == 0x8B50 then Some(FloatVec2)
    else if typ == 0x8B51 then Some(FloatVec3)
    else if typ == 0x8B52 then Some(FloatVec4)
    else if typ == 0x8B53 then Some(IntVec2)
    else if typ == 0x8B54 then Some(IntVec3)
    else if typ == 0x8B55 then Some(IntVec4)
    else if typ == 0x8B56 then Some(Bool)
    else if typ == 0x8B57 then Some(BoolVec2)
    else if typ == 0x8B58 then Some(BoolVec3)
    else if typ == 0x8B59 then Some(BoolVec4)
    else if typ == 0x8B5A then Some(FloatMat2)
    else if typ == 0x8B5B then Some(FloatMat3)
    else if typ == 0x8B5C then Some(FloatMat4)
    else if typ == 0x8B5E then Some(Sampler2D)
    else if typ == 0x8B60 then Some(SamplerCube)
    else if typ == INT then Some(Int)
    else if typ == FLOAT then Some(Float)
    else None
  }

  /** The table is a bijection: distinct keys have distinct codes, and KeyOf inverts Code. */
  lemma CodesDistinct()
    ensures forall k1: TypeKey, k2: TypeKey :: Code(k1) == Code(k2) ==> k1 == k2
    ensures forall k: TypeKey :: KeyOf(Code(k)) == Some(k)
  {
  }

  /** Every key is in the scanned table exactly once. */
  lemma EnumsComplete()
    ensures |Enums| == 17
    ensures forall k: TypeKey :: k in Enums
    ensures forall i, j :: 0 <= i < j < |Enums| ==> Enums[i] != Enums[j]
  {
    forall k: TypeKey
      ensures k in Enums
    {
      var i := match k
        case FloatVec2 => 0 case FloatVec3 => 1 case FloatVec4 => 2
        case IntVec2 => 3 case IntVec3 => 4 case IntVec4 => 5
        case Bool => 6 case BoolVec2 => 7 case BoolVec3 => 8 case BoolVec4 => 9
        case FloatMat2 => 10 case FloatMat3 => 11 case FloatMat4 => 12
        case Sampler2D => 13 case SamplerCube => 14 case Int => 15 case Float => 16;
      assert Enums[i] == k;
    }
  }

  /**
   * getKeyFromType (common/shader-util.js:231-237): scans the table in order
   * and returns the first key whose code is `typ`, or nothing.
   */
  method GetKeyFromType(typ: int) returns (key: Option<TypeKey>)
    ensures key == KeyOf(typ)
    ensures key.Some? ==> Code(key.value) == typ
    ensures key.None? <==> forall k: TypeKey :: Code(k) != typ
  {
    var i := 0;
    while i < |Enums|
      invariant 0 <= i <= |Enums|
      invariant forall j :: 0 <= j < i ==> Code(Enums[j]) != typ
    {
      if Code(Enums[i]) == typ {
        CodesDistinct();
        return Some(Enums[i]);
      }
      i := i + 1;
    }
    EnumsComplete();
    forall k: TypeKey
      ensures Code(k) != typ
    {
      assert k in Enums;
    }
    return None;
  }

  /**
   * `enums[k].setter(location, v)`: the calls each table setter makes. The
   * table's setters call the global context, which the model takes to be
   * the one context there is.
   */
  function TableSetterCalls(k: TypeKey, location: JsValue, v: JsValue): seq<Call>
  {
    match k
    case FloatVec2 => [Uniform(Uniform2fv, location, v)]
    case FloatVec3 => [Uniform(Uniform3fv, location, v)]
    case FloatVec4 => [Uniform(Uniform4fv, location, v)]
    case IntVec2 => [Uniform(Uniform2iv, location, v)]
    case IntVec3 => [Uniform(Uniform3iv, location, v)]
    case IntVec4 => [Uniform(Uniform4iv, location, v)]
    case Bool => [Uniform(Uniform1iv, location, v)]
    case BoolVec2 => [Uniform(Uniform2iv, location, v)]
    case BoolVec3 => [Uniform(Uniform3iv, location, v)]
    case BoolVec4 => [Uniform(Uniform4iv, location, v)]
    case FloatMat2 => [UniformMatrix(2, location, false, v)]
    case FloatMat3 => [UniformMatrix(3, location, false, v)]
    case FloatMat4 => [UniformMatrix(4, location, false, v)]
    case Sampler2D => SamplerCalls(location, TEXTURE_2D, v)
    case SamplerCube => SamplerCalls(location, TEXTURE_CUBE_MAP, v)
    case Int => [Uniform(Uniform1i, location, v)]
    case Float => [Uniform(Uniform1f, location, v)]
  }

  /** A sampler setter: the uniform gets unit 0, unit 0 is made active, the texture is bound. */
  function SamplerCalls(location: JsValue, target: int, texture: JsValue): seq<Call>
  {
    [Uniform(Uniform1i, location, Num(0.0)), ActiveTexture(TEXTURE0), BindTexture(target, texture)]
  }

  /** The texture target a sampler key binds to. */
  function SamplerTarget(k: TypeKey): int
    requires k == Sampler2D || k == SamplerCube
  {
    if k == Sampler2D then TEXTURE_2D else TEXTURE_CUBE_MAP
  }

  /** Only the two sampler setters touch texture state, and they do so on unit 0. */
  lemma TextureCallsOnlyFromSamplers(k: TypeKey, location: JsValue, v: JsValue)
    ensures forall c :: c in TableSetterCalls(k, location, v) && (c.ActiveTexture? || c.BindTexture?) ==>
      k == Sampler2D || k == SamplerCube
    ensures forall c :: c in TableSetterCalls(k, location, v) && c.ActiveTexture? ==> c.unit == TEXTURE0
    ensures forall c :: c in TableSetterCalls(k, location, v) ==> !c.Allocates()
  {
  }

  /** Every matrix setter asks for no transposition. */
  lemma MatrixSettersDoNotTranspose(k: TypeKey, location: JsValue, v: JsValue)
    ensures forall c :: c in TableSetterCalls(k, location, v) && c.UniformMatrix? ==>
      !c.transpose && c.value == v && c.location == location
  {
  }

  /**
   * Calling a sampler setter twice, with any two textures and from any state,
   * leaves unit 0 active, the second texture bound to unit 0 and the sampler's
   * uniform at 0.
   */
  lemma {:induction false} SamplerRebind(st: State, k: TypeKey, location: JsValue, t1: JsValue, t2: JsValue)
    requires k == Sampler2D || k == SamplerCube
    ensures var after := Replay(st, TableSetterCalls(k, location, t1) + TableSetterCalls(k, location, t2));
      after.activeTexture == TEXTURE0 &&
      (TEXTURE0, SamplerTarget(k)) in after.bound && after.bound[(TEXTURE0, SamplerTarget(k))] == t2 &&
      location in after.uniforms && after.uniforms[location] == Num(0.0)
  {
    var first := TableSetterCalls(k, location, t1);
    var second := TableSetterCalls(k, location, t2);
    ReplayAppend(st, first, second);
    var mid := Replay(st, first);
    var s := second;
    assert s[..2][..1] == [s[0]] && s[..3][..2] == s[..2] && s[..3] == s;
    var a := Effect(mid, s[0]);
    var b := Effect(a, s[1]);
    assert Replay(mid, s[..1]) == a;
    assert Replay(mid, s[..2]) == b;
    assert Replay(mid, s) == Effect(b, s[2]);
  }
}
