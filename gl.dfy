/**
 * The WebGL rendering context as the shader utilities of
 * common/shader-util.js use it: a single context that records, in order,
 * every call that changes GPU state. Queries (compile and link status, info
 * logs, active uniforms and attributes, locations) are not recorded: their
 * answers are inputs of the operations that ask them.
 */
module Gl {
  import opened JsValues

  // Constants of the WebGLRenderingContext interface (section 5.14 of the
  // WebGL 1.0 specification).
  const INT: int := 0x1404
  const FLOAT: int := 0x1406
  const TEXTURE_2D: int := 0x0DE1
  const TEXTURE_CUBE_MAP: int := 0x8513
  const TEXTURE0: int := 0x84C0
  const ARRAY_BUFFER: int := 0x8892

  /** The uniform* entry points that take a location and one value. */
  datatype UniformFn =
    | Uniform1i | Uniform1f | Uniform1iv | Uniform1fv
    | Uniform2fv | Uniform3fv | Uniform4fv
    | Uniform2iv | Uniform3iv | Uniform4iv

  /** One recorded call on the context; a create call records the handle it returned. */
  datatype Call =
    | Uniform(fn: UniformFn, location: JsValue, value: JsValue)
    | UniformMatrix(dim: nat, location: JsValue, transpose: bool, value: JsValue)
    | ActiveTexture(unit: int)
    | BindTexture(target: int, texture: JsValue)
    | BindBuffer(target: int, buffer: JsValue)
    | EnableVertexAttribArray(index: int)
    | VertexAttribPointer(index: int, size: JsValue, typ: JsValue, normalize: JsValue,
                          stride: JsValue, offset: JsValue)
    | CreateShader(stage: int, shader: JsValue)
    | ShaderSource(shader: JsValue, source: string)
    | CompileShader(shader: JsValue)
    | DeleteShader(shader: JsValue)
    | CreateProgram(program: JsValue)
    | AttachShader(program: JsValue, shader: JsValue)
    | LinkProgram(program: JsValue)
    | DeleteProgram(program: JsValue)
    | CreateBuffer(buffer: JsValue)
  {
    /** True of the calls that allocate a GPU object. */
    predicate Allocates()
    {
      CreateShader? || CreateProgram? || CreateBuffer?
    }
  }

  /** The kinds of GPU object the utilities allocate. */
  datatype ObjectKind = ShaderObject(stage: int) | ProgramObject | BufferObject

  /** The call that allocates an object of `kind` with handle h. */
  function Creation(kind: ObjectKind, h: JsValue): (c: Call)
    ensures c.Allocates()
  {
    match kind
    case ShaderObject(stage) => CreateShader(stage, h)
    case ProgramObject => CreateProgram(h)
    case BufferObject => CreateBuffer(h)
  }

  // ---------------------------------------------------------------------------
  // Live GPU objects
  // ---------------------------------------------------------------------------

  /** How one call changes the set of live objects. */
  function LiveStep(live: set<JsValue>, c: Call): set<JsValue>
  {
    match c
    case CreateShader(_, h) => live + {h}
    case CreateProgram(h) => live + {h}
    case CreateBuffer(h) => live + {h}
    case DeleteShader(h) => live - {h}
    case DeleteProgram(h) => live - {h}
    case _ => live
  }

  /** The objects that `calls`, run from `live`, leave alive. */
  function LiveAfter(live: set<JsValue>, calls: seq<Call>): set<JsValue>
    decreases |calls|
  {
    if calls == [] then live
    else LiveStep(LiveAfter(live, calls[..|calls| - 1]), calls[|calls| - 1])
  }

  /** The objects a trace has created and not deleted. */
  function Live(trace: seq<Call>): set<JsValue>
  {
    LiveAfter({}, trace)
  }

  /** Running two call sequences one after the other. */
  lemma {:induction false} LiveAfterAppend(live: set<JsValue>, a: seq<Call>, b: seq<Call>)
    ensures LiveAfter(live, a + b) == LiveAfter(LiveAfter(live, a), b)
    decreases |b|
  {
    if b == [] {
      assert a + b == a;
    } else {
      var b' := b[..|b| - 1];
      assert (a + b)[..|a + b| - 1] == a + b';
      LiveAfterAppend(live, a, b');
    }
  }

  /** Calls that allocate nothing never add a live object. */
  lemma {:induction false} LiveAfterShrinks(live: set<JsValue>, calls: seq<Call>)
    requires forall c :: c in calls ==> !c.Allocates()
    ensures LiveAfter(live, calls) <= live
    decreases |calls|
  {
    if calls != [] {
      var front := calls[..|calls| - 1];
      assert forall c :: c in front ==> c in calls;
      LiveAfterShrinks(live, front);
      assert !calls[|calls| - 1].Allocates();
    }
  }

  // ---------------------------------------------------------------------------
  // Texture-unit and uniform state
  // ---------------------------------------------------------------------------

  /**
   * The part of GPU state the uniform setters change: the active texture
   * unit, the texture bound to each (unit, target) pair, and the last value
   * given to each uniform location.
   */
  datatype State = State(activeTexture: int, bound: map<(int, int), JsValue>,
                         uniforms: map<JsValue, JsValue>)

  /** The effect of one call on that state. */
  function Effect(st: State, c: Call): State
  {
    match c
    case Uniform(_, loc, v) => st.(uniforms := st.uniforms[loc := v])
    case UniformMatrix(_, loc, _, v) => st.(uniforms := st.uniforms[loc := v])
    case ActiveTexture(u) => st.(activeTexture := u)
    case BindTexture(target, t) => st.(bound := st.bound[(st.activeTexture, target) := t])
    case _ => st
  }

  /** The state after running `calls` from `st`. */
  function Replay(st: State, calls: seq<Call>): State
    decreases |calls|
  {
    if calls == [] then st else Effect(Replay(st, calls[..|calls| - 1]), calls[|calls| - 1])
  }

  /** Replaying two call sequences one after the other. */
  lemma {:induction false} ReplayAppend(st: State, a: seq<Call>, b: seq<Call>)
    ensures Replay(st, a + b) == Replay(Replay(st, a), b)
    decreases |b|
  {
    if b == [] {
      assert a + b == a;
    } else {
      var b' := b[..|b| - 1];
      assert (a + b)[..|a + b| - 1] == a + b';
      ReplayAppend(st, a, b');
    }
  }

  // ---------------------------------------------------------------------------
  // The context
  // ---------------------------------------------------------------------------

  /** The single WebGL context: the calls made on it so far, and the next fresh handle. */
  class Context {
    var trace: seq<Call>
    var next: nat

    /** Every live object is a handle this context handed out. */
    ghost predicate Valid()
      reads this
    {
      forall h :: h in Live(trace) ==> h.Ref? && h.id < next
    }

    constructor ()
      ensures Valid() && trace == [] && next == 0
    {
      trace := [];
      next := 0;
    }

    /** A call that allocates nothing, appended to the trace. */
    method Record(c: Call)
      requires Valid() && !c.Allocates()
      modifies this
      ensures Valid() && next == old(next)
      ensures trace == old(trace) + [c]
      ensures Live(trace) == LiveStep(old(Live(trace)), c)
      ensures !c.DeleteShader? && !c.DeleteProgram? ==> Live(trace) == old(Live(trace))
    {
      assert (trace + [c])[..|trace|] == trace;
      trace := trace + [c];
    }

    /** Several calls that allocate nothing, appended in order. */
    method RecordAll(calls: seq<Call>)
      requires Valid() && forall c :: c in calls ==> !c.Allocates()
      modifies this
      ensures Valid() && next == old(next)
      ensures trace == old(trace) + calls
      ensures Live(trace) <= old(Live(trace))
    {
      ghost var start := trace;
      for i := 0 to |calls|
        invariant Valid() && next == old(next)
        invariant trace == start + calls[..i]
      {
        assert calls[..i + 1] == calls[..i] + [calls[i]];
        Record(calls[i]);
      }
      assert calls[..|calls|] == calls;
      LiveAfterAppend({}, start, calls);
      LiveAfterShrinks(Live(start), calls);
    }

    /** A create call: a fresh handle, recorded with the call that returned it. */
    method Allocate(kind: ObjectKind) returns (h: JsValue)
      requires Valid()
      modifies this
      ensures Valid() && next == old(next) + 1
      ensures h == Ref(old(next)) && h !in old(Live(trace))
      ensures trace == old(trace) + [Creation(kind, h)]
      ensures Live(trace) == old(Live(trace)) + {h}
    {
      h := Ref(next);
      assert (trace + [Creation(kind, h)])[..|trace|] == trace;
      trace := trace + [Creation(kind, h)];
      next := next + 1;
    }
  }
}
