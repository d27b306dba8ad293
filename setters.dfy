/**
 * Uniform and attribute setters of common/shader-util.js. A setter is a
 * value (what the source's closure captures); invoking it appends the calls
 * it makes to the context's trace.
 */
module Setters {
  import opened Wrappers
  import opened JsValues
  import opened Gl
  import opened ShaderTypes

  /** WebGLActiveInfo: what getActiveUniform and getActiveAttrib report for one index. */
  datatype ActiveInfo = ActiveInfo(name: string, size: int, typ: int)

  /**
   * What the driver reports about one program: its link status and info log,
   * the active-uniform and active-attribute counts, the info at each index
   * (None where the query returns null), and the locations by name.
   */
  datatype ProgramReport = ProgramReport(
    linked: bool,
    infoLog: string,
    uniformCount: int,
    uniforms: seq<Option<ActiveInfo>>,
    uniformLocation: string -> JsValue,
    attributeCount: int,
    attributes: seq<Option<ActiveInfo>>,
    attribLocation: string -> int)

  /** getActiveUniform / getActiveAttrib at index i; null past the reported infos. */
  function ActiveAt(infos: seq<Option<ActiveInfo>>, i: nat): Option<ActiveInfo>
  {
    if i < |infos| then infos[i] else None
  }

  /** `name.substr(-3) === '[0]'`. */
  predicate HasArraySuffix(name: string)
  {
    |name| >= 3 && name[|name| - 3..] == "[0]"
  }

  /** The key a uniform is stored under: its name with one trailing "[0]" removed. */
  function StripArraySuffix(name: string): (key: string)
    ensures HasArraySuffix(name) ==> key + "[0]" == name
    ensures !HasArraySuffix(name) ==> key == name
  {
    if HasArraySuffix(name) then name[..|name| - 3] else name
  }

  /** The suffix is removed exactly once: "a[0][0]" is keyed "a[0]". */
  lemma StripArraySuffixOnce(base: string)
    ensures StripArraySuffix(base + "[0]") == base
  {
    var name := base + "[0]";
    assert name[|name| - 3..] == "[0]";
    assert name[..|name| - 3] == base;
  }

  /** `isArray`: more than one element and a reported name ending in "[0]". */
  predicate IsArrayUniform(info: ActiveInfo)
  {
    info.size > 1 && HasArraySuffix(info.name)
  }

  /** The three kinds of closure createUniformSetter returns. */
  datatype UniformSetter =
    | ArrayIntSetter(location: JsValue)
    | ArrayFloatSetter(location: JsValue)
    | TableSetter(location: JsValue, typ: int)

  /**
   * createUniformSetter (common/shader-util.js:257-275): the location is
   * looked up by the reported name; an array of INT or of FLOAT gets its own
   * setter before the table is consulted; every other uniform, whatever its
   * code, gets a setter that consults the table when it is invoked.
   */
  function CreateUniformSetter(report: ProgramReport, info: ActiveInfo): (s: UniformSetter)
    ensures s.location == report.uniformLocation(info.name)
    ensures s.ArrayIntSetter? <==> IsArrayUniform(info) && info.typ == Code(Int)
    ensures s.ArrayFloatSetter? <==> IsArrayUniform(info) && info.typ == Code(Float)
    ensures s.TableSetter? ==> s.typ == info.typ
  {
    var location := report.uniformLocation(info.name);
    var isArray := IsArrayUniform(info);
    if isArray && info.typ == Code(Int) then ArrayIntSetter(location)
    else if isArray && info.typ == Code(Float) then ArrayFloatSetter(location)
    else TableSetter(location, info.typ)
  }

  /**
   * The calls a uniform setter makes when given `v`, or the exception it
   * throws: `enums[getKeyFromType(type)]` is undefined for a code the table
   * lacks, and reading `.setter` of it is a TypeError.
   */
  function UniformSetterCalls(s: UniformSetter, v: JsValue): Result<seq<Call>, Exception>
  {
    match s
    case ArrayIntSetter(location) => Success([Uniform(Uniform1iv, location, v)])
    case ArrayFloatSetter(location) => Success([Uniform(Uniform1fv, location, v)])
    case TableSetter(location, typ) =>
      match KeyOf(typ)
      case None => Failure(TypeError)
      case Some(k) => Success(TableSetterCalls(k, location, v))
  }

  /**
   * Arrays of INT and of FLOAT take precedence over the table: the whole
   * value goes to uniform1iv or uniform1fv, never to uniform1i or uniform1f.
   */
  lemma ArrayScalarsBypassTable(report: ProgramReport, info: ActiveInfo, v: JsValue)
    requires IsArrayUniform(info)
    ensures info.typ == INT ==>
      UniformSetterCalls(CreateUniformSetter(report, info), v)
        == Success([Uniform(Uniform1iv, report.uniformLocation(info.name), v)])
    ensures info.typ == FLOAT ==>
      UniformSetterCalls(CreateUniformSetter(report, info), v)
        == Success([Uniform(Uniform1fv, report.uniformLocation(info.name), v)])
  {
  }

  /**
   * Every other uniform is marshalled by the table entry for its code; a code
   * the table lacks still yields a setter, and the failure surfaces only when
   * that setter is invoked.
   */
  lemma TableDispatch(report: ProgramReport, info: ActiveInfo, v: JsValue)
    requires !(IsArrayUniform(info) && (info.typ == INT || info.typ == FLOAT))
    ensures CreateUniformSetter(report, info) == TableSetter(report.uniformLocation(info.name), info.typ)
    ensures (forall k: TypeKey :: Code(k) != info.typ) ==>
      UniformSetterCalls(CreateUniformSetter(report, info), v) == Failure(TypeError)
    ensures forall k: TypeKey :: Code(k) == info.typ ==>
      UniformSetterCalls(CreateUniformSetter(report, info), v)
        == Success(TableSetterCalls(k, report.uniformLocation(info.name), v))
  {
    CodesDistinct();
  }

  /**
   * Invoking a uniform setter (the closures of common/shader-util.js:263-274):
   * the table setters look the key up again on every call.
   */
  method InvokeUniformSetter(gl: Context, s: UniformSetter, v: JsValue) returns (outcome: Outcome<Exception>)
    requires gl.Valid()
    modifies gl
    ensures gl.Valid() && gl.next == old(gl.next)
    ensures UniformSetterCalls(s, v).Success? ==>
      outcome == Pass && gl.trace == old(gl.trace) + UniformSetterCalls(s, v).value
    ensures UniformSetterCalls(s, v).Failure? ==>
      outcome == Fail(UniformSetterCalls(s, v).error) && gl.trace == old(gl.trace)
  {
    match s
    case ArrayIntSetter(location) =>
      gl.Record(Uniform(Uniform1iv, location, v));
      outcome := Pass;
    case ArrayFloatSetter(location) =>
      gl.Record(Uniform(Uniform1fv, location, v));
      outcome := Pass;
    case TableSetter(location, typ) =>
      var key := GetKeyFromType(typ);
      if key.None? {
        outcome := Fail(TypeError);
      } else {
        TextureCallsOnlyFromSamplers(key.value, location, v);
        gl.RecordAll(TableSetterCalls(key.value, location, v));
        outcome := Pass;
      }
  }

  /** The closure createAttributeSetter returns captures the attribute index. */
  datatype AttributeSetter = AttributeSetter(index: int)

  /** The buffer description an attribute setter is given; absent fields are Undefined. */
  datatype BufferInfo = BufferInfo(buffer: JsValue, numsPerElement: JsValue, size: JsValue,
                                   typ: JsValue, normalize: JsValue, stride: JsValue, offset: JsValue)

  /**
   * vertexAttribPointer with the defaults written `type || gl.FLOAT`,
   * `normalize || false`, `stride || 0` and `offset || 0`.
   */
  function PointerCall(index: int, size: JsValue, typ: JsValue, normalize: JsValue,
                       stride: JsValue, offset: JsValue): Call
  {
    VertexAttribPointer(index, size, Or(typ, Num(FLOAT as real)), Or(normalize, Boolean(false)),
                        Or(stride, Num(0.0)), Or(offset, Num(0.0)))
  }

  /**
   * What the vertexAttribPointer call passes: a truthy field as given, a falsy one
   * replaced by its default (FLOAT, false, 0, 0); the size is not defaulted.
   */
  lemma PointerDefaults(index: int, size: JsValue, typ: JsValue, normalize: JsValue,
                        stride: JsValue, offset: JsValue)
    ensures var c := PointerCall(index, size, typ, normalize, stride, offset);
      c.index == index && c.size == size &&
      c.typ == (if Truthy(typ) then typ else Num(FLOAT as real)) && Truthy(c.typ) &&
      c.normalize == (if Truthy(normalize) then normalize else Boolean(false)) &&
      c.stride == (if Truthy(stride) then stride else Num(0.0)) &&
      c.offset == (if Truthy(offset) then offset else Num(0.0))
  {
  }

  /**
   * The calls of an attribute setter (common/shader-util.js:291-304): bind the
   * buffer to ARRAY_BUFFER, enable the attribute, then describe it, with
   * `numsPerElement || size` as the size.
   */
  function AttributeSetterCalls(s: AttributeSetter, b: BufferInfo): (calls: seq<Call>)
    ensures |calls| == 3 && forall c :: c in calls ==> !c.Allocates()
  {
    [BindBuffer(ARRAY_BUFFER, b.buffer),
     EnableVertexAttribArray(s.index),
     PointerCall(s.index, Or(b.numsPerElement, b.size), b.typ, b.normalize, b.stride, b.offset)]
  }

  /**
   * The size passed is numsPerElement when that is truthy, else size; the
   * type passed is never falsy.
   */
  lemma AttributeSetterSize(s: AttributeSetter, b: BufferInfo)
    ensures AttributeSetterCalls(s, b)[2].size == if Truthy(b.numsPerElement) then b.numsPerElement else b.size
    ensures Truthy(AttributeSetterCalls(s, b)[2].typ)
    ensures AttributeSetterCalls(s, b)[0] == BindBuffer(ARRAY_BUFFER, b.buffer)
    ensures AttributeSetterCalls(s, b)[1] == EnableVertexAttribArray(s.index)
  {
  }

  /** Invoking an attribute setter, once per draw or bind. */
  method InvokeAttributeSetter(gl: Context, s: AttributeSetter, b: BufferInfo)
    requires gl.Valid()
    modifies gl
    ensures gl.Valid() && gl.next == old(gl.next)
    ensures gl.trace == old(gl.trace) + AttributeSetterCalls(s, b)
  {
    gl.RecordAll(AttributeSetterCalls(s, b));
  }
}
