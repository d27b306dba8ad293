/**
 * The shader and buffer pipeline of common/shader-util.js: compiling a
 * shader, linking a program and building its setters, and creating a vertex
 * buffer. Each operation appends its calls to the context's trace; the
 * driver's answers (compile status, link status, the program's report) are
 * parameters.
 */
module Programs {
  import opened Wrappers
  import opened JsValues
  import Gl
  import opened Setters
  import opened Introspection

  /** The calls createShader makes: create, source, compile, and delete when compilation fails. */
  function CompileCalls(stage: int, source: string, shader: JsValue, compiled: bool): seq<Gl.Call>
  {
    [Gl.CreateShader(stage, shader), Gl.ShaderSource(shader, source), Gl.CompileShader(shader)]
      + (if compiled then [] else [Gl.DeleteShader(shader)])
  }

  /**
   * createShader (common/shader-util.js:56-67): a compiled shader is returned
   * and stays alive; a failed one is deleted and the function returns
   * undefined by running off its end. The info log goes to the console only.
   */
  method CreateShader(gl: Gl.Context, stage: int, source: string, compiled: bool) returns (shader: JsValue)
    requires gl.Valid()
    modifies gl
    ensures gl.Valid() && gl.next == old(gl.next) + 1
    ensures gl.trace == old(gl.trace) + CompileCalls(stage, source, Ref(old(gl.next)), compiled)
    ensures shader == if compiled then Ref(old(gl.next)) else Undefined
    ensures Gl.Live(gl.trace) == if compiled then old(Gl.Live(gl.trace)) + {shader} else old(Gl.Live(gl.trace))
  {
    var h := gl.Allocate(Gl.ShaderObject(stage));
    gl.Record(Gl.ShaderSource(h, source));
    gl.Record(Gl.CompileShader(h));
    if compiled {
      return h;
    }
    gl.Record(Gl.DeleteShader(h));
    return Undefined;
  }

  /**
   * createShaderFromString (common/shader-util.js:52-54) passes its arguments
   * straight to createShader.
   */
  method CreateShaderFromString(gl: Gl.Context, stage: int, str: string, compiled: bool) returns (shader: JsValue)
    requires gl.Valid()
    modifies gl
    ensures gl.Valid() && gl.next == old(gl.next) + 1
    ensures gl.trace == old(gl.trace) + CompileCalls(stage, str, Ref(old(gl.next)), compiled)
    ensures shader == if compiled then Ref(old(gl.next)) else Undefined
  {
    shader := CreateShader(gl, stage, str, compiled);
  }

  /** The object createProgramHolder returns. */
  datatype ProgramHolder = ProgramHolder(program: JsValue,
                                         uniformSetters: map<string, UniformSetter>,
                                         attributeSetters: map<string, AttributeSetter>)

  /** `shader && gl.attachShader(program, shader)`: attach only a truthy shader. */
  function AttachCalls(program: JsValue, shader: JsValue): seq<Gl.Call>
  {
    if Truthy(shader) then [Gl.AttachShader(program, shader)] else []
  }

  /** The attach calls for the truthy shaders, then the link call. */
  function AttachLinkCalls(program: JsValue, vertexShader: JsValue, fragmentShader: JsValue): seq<Gl.Call>
  {
    AttachCalls(program, vertexShader) + AttachCalls(program, fragmentShader) + [Gl.LinkProgram(program)]
  }

  /** The calls createProgramHolder makes up to and including the link. */
  function LinkedCalls(program: JsValue, vertexShader: JsValue, fragmentShader: JsValue): seq<Gl.Call>
  {
    [Gl.CreateProgram(program)] + AttachLinkCalls(program, vertexShader, fragmentShader)
  }

  /**
   * A shader that createShader failed to compile is `undefined`, and the
   * `shader &&` guards leave no attach call for it: the attach calls are
   * those of the compiled shaders, vertex before fragment, then the link.
   */
  lemma FailedShaderIsSkipped(program: JsValue, vertexCompiled: bool, fragmentCompiled: bool, hv: nat, hf: nat)
    ensures AttachLinkCalls(program, if vertexCompiled then Ref(hv) else Undefined,
                            if fragmentCompiled then Ref(hf) else Undefined)
      == (if vertexCompiled then [Gl.AttachShader(program, Ref(hv))] else [])
       + (if fragmentCompiled then [Gl.AttachShader(program, Ref(hf))] else [])
       + [Gl.LinkProgram(program)]
  {
  }

  /** `shader && gl.attachShader(program, shader)` on the context. */
  method AttachIfTruthy(gl: Gl.Context, program: JsValue, shader: JsValue)
    requires gl.Valid()
    modifies gl
    ensures gl.Valid() && gl.next == old(gl.next)
    ensures gl.trace == old(gl.trace) + AttachCalls(program, shader)
    ensures Gl.Live(gl.trace) == old(Gl.Live(gl.trace))
  {
    if Truthy(shader) {
      gl.Record(Gl.AttachShader(program, shader));
    }
  }

  /** The attach and link calls of createProgramHolder, which neither allocate nor delete. */
  method AttachAndLink(gl: Gl.Context, program: JsValue, vertexShader: JsValue, fragmentShader: JsValue)
    requires gl.Valid()
    modifies gl
    ensures gl.Valid() && gl.next == old(gl.next)
    ensures gl.trace == old(gl.trace) + AttachLinkCalls(program, vertexShader, fragmentShader)
    ensures Gl.Live(gl.trace) == old(Gl.Live(gl.trace))
  {
    ghost var start := gl.trace;
    AttachIfTruthy(gl, program, vertexShader);
    AttachIfTruthy(gl, program, fragmentShader);
    gl.Record(Gl.LinkProgram(program));
    assert gl.trace == start + AttachLinkCalls(program, vertexShader, fragmentShader);
  }

  /**
   * The first half of createProgramHolder (common/shader-util.js:77-80): a
   * new program, the truthy shaders attached, and the program linked.
   */
  method NewLinkedProgram(gl: Gl.Context, vertexShader: JsValue, fragmentShader: JsValue)
    returns (program: JsValue)
    requires gl.Valid()
    modifies gl
    ensures gl.Valid() && gl.next == old(gl.next) + 1
    ensures program == Ref(old(gl.next)) && program !in old(Gl.Live(gl.trace))
    ensures gl.trace == old(gl.trace) + LinkedCalls(program, vertexShader, fragmentShader)
    ensures Gl.Live(gl.trace) == old(Gl.Live(gl.trace)) + {program}
  {
    ghost var start := gl.trace;
    program := gl.Allocate(Gl.ProgramObject);
    ghost var created := gl.trace;
    AttachAndLink(gl, program, vertexShader, fragmentShader);
    ghost var middle := AttachLinkCalls(program, vertexShader, fragmentShader);
    assert gl.trace == start + LinkedCalls(program, vertexShader, fragmentShader) by {
      assert created == start + [Gl.CreateProgram(program)];
      assert gl.trace == created + middle;
      assert start + [Gl.CreateProgram(program)] + middle == start + ([Gl.CreateProgram(program)] + middle);
    }
  }

  /**
   * The linked branch of createProgramHolder (common/shader-util.js:84-90):
   * the uniform walk, then the attribute walk, whose TypeError propagates.
   */
  method CollectSetters(program: JsValue, report: ProgramReport) returns (r: Result<ProgramHolder, Exception>)
    ensures r.Success? <==> AllAttributesReported(report)
    ensures r.Failure? ==> r.error == TypeError
    ensures r.Success? ==>
      r.value == ProgramHolder(program, UniformSettersOf(report), AttributeSettersOf(report))
  {
    var uniformSetters := CreateUniformSetters(report);
    var attributeSetters := CreateAttributeSetters(report);
    if attributeSetters.Failure? {
      return Failure(attributeSetters.error);
    }
    return Success(ProgramHolder(program, uniformSetters, attributeSetters.value));
  }

  /**
   * createProgramHolder (common/shader-util.js:76-95): a program that links
   * gets its uniform and attribute setters and stays alive; one that does not
   * is deleted and its info log thrown. A null attribute info makes the
   * attribute walk throw after linking, and the program is then left alive.
   */
  method CreateProgramHolder(gl: Gl.Context, vertexShader: JsValue, fragmentShader: JsValue,
                             report: ProgramReport) returns (r: Result<ProgramHolder, Exception>)
    requires gl.Valid()
    modifies gl
    ensures gl.Valid() && gl.next == old(gl.next) + 1
    ensures report.linked ==>
      gl.trace == old(gl.trace) + LinkedCalls(Ref(old(gl.next)), vertexShader, fragmentShader)
    ensures !report.linked ==>
      gl.trace == old(gl.trace) + LinkedCalls(Ref(old(gl.next)), vertexShader, fragmentShader)
        + [Gl.DeleteProgram(Ref(old(gl.next)))]
    ensures !report.linked ==> r == Failure(Thrown(report.infoLog)) && Gl.Live(gl.trace) == old(Gl.Live(gl.trace))
    ensures report.linked ==> Gl.Live(gl.trace) == old(Gl.Live(gl.trace)) + {Ref(old(gl.next))}
    ensures report.linked && !AllAttributesReported(report) ==> r == Failure(TypeError)
    ensures r.Success? <==> report.linked && AllAttributesReported(report)
    ensures r.Success? ==>
      r.value == ProgramHolder(Ref(old(gl.next)), UniformSettersOf(report), AttributeSettersOf(report))
  {
    ghost var live := Gl.Live(gl.trace);
    var program := NewLinkedProgram(gl, vertexShader, fragmentShader);
    if report.linked {
      r := CollectSetters(program, report);
      return;
    }
    ghost var linked := gl.trace;
    var errorLog := report.infoLog;
    gl.Record(Gl.DeleteProgram(program));
    assert Gl.Live(gl.trace) == live by {
      assert Gl.Live(gl.trace) == Gl.Live(linked) - {program};
    }
    return Failure(Thrown(errorLog));
  }

  /** The fields createBuffer destructures from its `vertexAttribPointer` argument. */
  datatype PointerInfo = PointerInfo(size: JsValue, typ: JsValue, normalize: JsValue,
                                     stride: JsValue, offset: JsValue)

  /**
   * The calls createBuffer makes: the attribute is enabled before the buffer
   * exists, the new buffer is bound to ARRAY_BUFFER, and the attribute layout is
   * described with the same defaults as an attribute setter's, the size
   * passed as given.
   */
  function BufferCalls(attribute: int, buffer: JsValue, p: PointerInfo): seq<Gl.Call>
  {
    [Gl.EnableVertexAttribArray(attribute), Gl.CreateBuffer(buffer), Gl.BindBuffer(Gl.ARRAY_BUFFER, buffer),
     PointerCall(attribute, p.size, p.typ, p.normalize, p.stride, p.offset)]
  }

  /** createBuffer (common/shader-util.js:321-335): returns the new buffer, which stays alive. */
  method CreateBuffer(gl: Gl.Context, attribute: int, pointer: PointerInfo) returns (buffer: JsValue)
    requires gl.Valid()
    modifies gl
    ensures gl.Valid() && gl.next == old(gl.next) + 1
    ensures buffer == Ref(old(gl.next)) && buffer !in old(Gl.Live(gl.trace))
    ensures gl.trace == old(gl.trace) + BufferCalls(attribute, buffer, pointer)
    ensures Gl.Live(gl.trace) == old(Gl.Live(gl.trace)) + {buffer}
  {
    gl.Record(Gl.EnableVertexAttribArray(attribute));
    buffer := gl.Allocate(Gl.BufferObject);
    gl.Record(Gl.BindBuffer(Gl.ARRAY_BUFFER, buffer));
    gl.Record(PointerCall(attribute, pointer.size, pointer.typ, pointer.normalize, pointer.stride, pointer.offset));
  }

  /**
   * createBuffer and an attribute setter describe the attribute layout alike: with the
   * setter's size taken from the buffer info, the last call of each is the
   * same vertexAttribPointer.
   */
  lemma BufferAgreesWithAttributeSetter(attribute: int, buffer: JsValue, p: PointerInfo, b: BufferInfo)
    requires b.typ == p.typ && b.normalize == p.normalize && b.stride == p.stride && b.offset == p.offset
    requires Or(b.numsPerElement, b.size) == p.size
    ensures BufferCalls(attribute, buffer, p)[3] == AttributeSetterCalls(AttributeSetter(attribute), b)[2]
  {
  }
}
