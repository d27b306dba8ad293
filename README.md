# WebGL helper core, modelled in Dafny

This project models two parts of a small WebGL practice library.

- **The mesh generator** (`common/shape-creator.js`) turns a numeric description into flat vertex arrays of interleaved `(x, y, r, g, b, a)` tuples:
  - a filled circle, drawn as a triangle fan, in one colour or in random colours;
  - a ring (annulus), with the triangle index list that stitches its last segment back to its first.
- **The shader utilities** (`common/shader-util.js`) do four things:
  - compile shaders and link a program;
  - walk the program's active uniforms and attributes, and build a setter for each name;
  - use a table of GL type codes to decide how a uniform value is marshalled;
  - create a vertex buffer.

## Verifying

To verify the project, run `dafny verify --resource-limit 2000000 --verification-time-limit 0 --warn-contradictory-assumptions *.dfy` from this directory. All files are given to Dafny together.

## How the model is built

- **Mesh functions are methods with loops.** The three mesh functions work by pushing onto arrays inside `for` loops, so each is a loop over `seq<real>`.
  - Each is proved against predicates that describe the whole array: `FanPrefix`/`IsFan` for circles; `RingPrefix` and `RingIndexPrefix` for rings.
  - `Math.sin` and `Math.cos` are supplied by the caller (`Trig`) and applied to a symbolic `Angle(step, granularity)`. The angle stands for `step·2π/granularity`.
  - `randomColor` is supplied as `draw`, where `draw(k)` is the colour its k-th call returns. The methods also return how many colours they drew.
- **The GL context is a class that records calls.** `Gl.Context` keeps the sequence of state-changing calls made on it, and hands out fresh handles.
  - `Live` folds that trace into the set of objects that were created and not deleted.
  - `Replay` folds it into the small part of GPU state the uniform setters touch: the active texture unit, the texture bound per unit and target, and the last value of each uniform.
  - There is one context, because the table's setters use the global `gl`, not the parameter.
- **Driver answers are inputs.**
  - Compile and link status, the info log, active-variable counts and infos, and locations are inputs.
  - Shaders take them as parameters.
  - A program takes them as a `ProgramReport`, with `None` where a query returns null.
- **JavaScript semantics the code relies on are explicit**, in `JsValues`:
  - truthiness, which is ToBoolean (section 7.1.2 of ECMA-262);
  - `||`;
  - the two exceptions the code can raise: a `TypeError` from a property read on `undefined`/`null`, and the thrown info-log string.
- **The type table** is `ShaderTypes`:
  - `Code` lists the 17 keys of `enums` and their codes (section 5.14 of the WebGL 1.0 specification);
  - `TableSetterCalls` gives each key's setter calls;
  - `KeyOf` is the reverse table;
  - `GetKeyFromType` is the source's scanning loop, proved equal to `KeyOf`.
- **Setters are values.** A setter is what the source's closure captures, and invoking it appends that closure's calls to the trace.

Points of the code worth knowing, which the model follows:

- **createShader returns undefined on a failed compilation.** The doc comments of `createShaderFromString` (common/shader-util.js:50) and `createShaderFromScript` (common/shader-util.js:35) say null is returned. `createShader` itself runs off its end and returns `undefined`. Both are falsy, so `createProgramHolder` attaches neither (`Programs.FailedShaderIsSkipped`).
- **The last block of an eight-segment ring.** The unwrapped formula `2(i+1)+1, 2(i+1)` at `i = 7` gives 17 and 16; the wrap replaces them with 1 and 0. `ShapeCreator.RingOfEight` pins the block `[14, 15, 1, 1, 0, 14]`.
- **Index-list sizes for a ring.** Its position array has `2(g+1)` tuples, but the index list only refers to tuples `0 .. 2g-1`. The last pair is at angle step g, and no index refers to it.

## Model

| member | source | states |
|---|---|---|
| ShapeCreator.CreateCircleVertex | common/shape-creator.js:11-35 | the result is the whole fan: the centre tuple, then one perimeter tuple per step i = 0..granularity at angle i·2π/granularity. Every tuple carries the given colour, or red `(255, 0, 0, 1)` when none is passed |
| ShapeCreator.CreateCircleVertexWithRandomColor | common/shape-creator.js:46-74 | the same fan geometry, where tuple k carries the colour of the k-th draw, and exactly granularity + 2 colours are drawn |
| ShapeCreator.FanPrefixPush | common/shape-creator.js:20-32 | pushing perimeter step n's tuple onto a fan prefix of n + 1 tuples gives the prefix of n + 2 tuples |
| ShapeCreator.FanSlots | common/shape-creator.js:13-32 | every entry of a fan, by slot: tuple 0 holds (x, y); tuple k > 0 holds x + r·sin and y + r·cos of angle step k − 1; slots 2..5 hold the tuple's colour |
| ShapeCreator.FixedColorFan | common/shape-creator.js:27-31 | with one colour, the colour slots (offsets 2..5) of every tuple equal that colour |
| ShapeCreator.FanGeometryIgnoresColor | common/shape-creator.js:48-72 | two fans of the same geometry have the same length and the same position slots, whatever their colours, so the random-colour circle has the one-colour circle's positions |
| ShapeCreator.FanCloses | common/shape-creator.js:20-26 | for granularity g ≥ 1 the fan has 6(g + 2) numbers and starts with (x, y). Its first perimeter point is at angle step 0 and its last at step g, i.e. 0 and 2π radians |
| ShapeCreator.RingPrefixPush | common/shape-creator.js:99-116 | pushing step n's inner and then outer tuple, in one colour, extends a ring prefix of n steps to n + 1 steps |
| ShapeCreator.RingPositions | common/shape-creator.js:86-117 | 12(g + 1) numbers: at each step i the inner-radius tuple, then the outer-radius tuple, both in the colour of draw i/2 + 1; 1 + ⌈(g + 1)/2⌉ colours are drawn |
| ShapeCreator.RingIndexPush | common/shape-creator.js:122-130 | pushing block n extends an index prefix of n blocks to n + 1 blocks |
| ShapeCreator.RingIndices | common/shape-creator.js:119-131 | 6g indices: block i is `[2i, 2i+1, 2i+3, 2i+3, 2i+2, 2i]`, except the last block (i = g − 1), which uses 1 and 0 in place of 2i+3 and 2i+2 |
| ShapeCreator.CreateRingVertexWithRandomColor | common/shape-creator.js:85-137 | the positions and indices above; every index lies in [0, 2g); the far edge of block i is the near edge of block (i + 1) mod g |
| ShapeCreator.RingBlockIsCyclic | common/shape-creator.js:124-129 | the wrap branch is exactly "next pair modulo g": block i equals the block built from pair i and pair (i + 1) mod g |
| ShapeCreator.RingBlockBounded | common/shape-creator.js:122-130 | each entry of block i < g lies in [0, 2g) |
| ShapeCreator.RingIndicesBounded | common/shape-creator.js:121-131 | every index of a ring's index list lies in [0, 2g) |
| ShapeCreator.RingIndicesCycle | common/shape-creator.js:121-131 | entries (p3, p2) of block i equal entries (p0, p1) of block (i + 1) mod g, so the segments close into a cycle |
| ShapeCreator.RingColorPairs | common/shape-creator.js:88-93 | steps 2k and 2k + 1 share draw k + 1, and draw 0 (taken before the loop) colours no step |
| ShapeCreator.RingOfEight | common/shape-creator.js:121-131 | eight segments: 108 position numbers and 48 indices; blocks 0..6 follow the formula; block 7 is `[14, 15, 1, 1, 0, 14]` |
| ShaderTypes.KeyOf | common/shader-util.js:119-229 | the reverse table returns a key exactly when some key has that code, and the key it returns has that code |
| ShaderTypes.CodesDistinct | common/shader-util.js:119-229 | the 17 codes are pairwise distinct, and the reverse table maps each key's code back to the key |
| ShaderTypes.EnumsComplete | common/shader-util.js:119-229 | the scanned table lists every key, exactly once, 17 in all |
| ShaderTypes.GetKeyFromType | common/shader-util.js:231-237 | the scan returns the key whose code is `type`, or nothing when no key has it; it agrees with the reverse table |
| ShaderTypes.TextureCallsOnlyFromSamplers | common/shader-util.js:199-214 | only the two sampler setters touch texture state; they activate unit TEXTURE0; no table setter allocates |
| ShaderTypes.MatrixSettersDoNotTranspose | common/shader-util.js:181-197 | every matrix setter passes transpose = false, with the location and value it was given |
| ShaderTypes.SamplerRebind | common/shader-util.js:199-214 | after calling a sampler setter twice, from any state, unit 0 is active, the second texture is bound to unit 0 for the key's target (TEXTURE_2D or TEXTURE_CUBE_MAP), and the uniform holds 0 |
| Setters.StripArraySuffix | common/shader-util.js:248-251 | a name ending in "[0]" becomes the name with those three characters removed; any other name is kept |
| Setters.StripArraySuffixOnce | common/shader-util.js:248-251 | the suffix is removed once only: `s + "[0]"` is keyed `s`, even when `s` ends in "[0]" itself |
| Setters.CreateUniformSetter | common/shader-util.js:257-275 | the location is looked up by the raw name. The array-int setter is chosen iff size > 1, the raw name ends in "[0]" and the type is INT; the array-float setter likewise for FLOAT; every other uniform gets a table setter for its type |
| Setters.ArrayScalarsBypassTable | common/shader-util.js:260-271 | an array of INT sends the whole value to uniform1iv, and an array of FLOAT to uniform1fv, never to the table's uniform1i/uniform1f |
| Setters.TableDispatch | common/shader-util.js:272-274 | any other uniform gets a table setter, even when its code is unknown; invoking it makes the calls of the table entry for its code, or fails with a TypeError when no entry has the code |
| Setters.InvokeUniformSetter | common/shader-util.js:262-274 | invoking a setter appends exactly its calls to the trace; an unknown code throws TypeError and leaves the trace unchanged |
| Setters.PointerDefaults | common/shader-util.js:295-302 | the vertexAttribPointer call passes each truthy field as given, and replaces a falsy type, normalize, stride or offset by FLOAT, false, 0 or 0 |
| Setters.AttributeSetterCalls | common/shader-util.js:291-304 | an attribute setter makes three calls, none of which allocates |
| Setters.AttributeSetterSize | common/shader-util.js:293-301 | the calls are bindBuffer(ARRAY_BUFFER, buffer), then enableVertexAttribArray(index), then vertexAttribPointer, with size `numsPerElement` when truthy and `size` otherwise, and a type that is never falsy |
| Setters.InvokeAttributeSetter | common/shader-util.js:291-304 | invoking an attribute setter appends exactly those three calls |
| Introspection.FillKeys | common/shader-util.js:252 | the object a key-assignment loop builds has exactly the keys assigned |
| Introspection.FillLastWins | common/shader-util.js:252 | an entry whose key no later entry repeats is the value the object holds for that key |
| Introspection.ActivePrefixSpec | common/shader-util.js:243-247 | the infos the loop reads are the non-null infos at indices 0, 1, … in order, at most `count` of them; when fewer than `count` are read, the next query returned null |
| Introspection.ActivePrefixComplete | common/shader-util.js:280-281 | when every index below the count answers, exactly `count` infos are read |
| Introspection.CreateUniformSetters | common/shader-util.js:240-255 | the loop yields the setters of the infos read before the count or the first null. Each is stored under its name with "[0]" stripped, and the keys are exactly those stripped names |
| Introspection.UniformSettersLastWins | common/shader-util.js:243-253 | a uniform whose key no later uniform shares keeps its own setter, so of two uniforms sharing a key the later one's setter is kept |
| Introspection.AttributeSettersByName | common/shader-util.js:278-286 | the attribute object holds exactly the reported names, and the setter under each name carries `getAttribLocation` of that name |
| Introspection.FillByKey | common/shader-util.js:283-286 | when each assigned value is a function of its key, every value in the built object is that function of its key |
| Introspection.CreateAttributeSetters | common/shader-util.js:277-289 | succeeds iff every index below the count answers, and otherwise throws TypeError. On success it holds one setter per attribute under its unstripped name, carrying the attribute's location |
| Programs.CreateShader | common/shader-util.js:56-67 | records create, source and compile calls. A compiled shader is returned and stays live; a failed one is deleted, the live set is unchanged, and `undefined` is returned |
| Programs.CreateShaderFromString | common/shader-util.js:52-54 | the same calls and result as createShader |
| Programs.FailedShaderIsSkipped | common/shader-util.js:78-79 | with the results of createShader as shaders, each compiled shader gets an attach call, vertex first, a failed (`undefined`) one gets none, and the link follows |
| Programs.AttachIfTruthy | common/shader-util.js:78-79 | a truthy shader is attached, an absent one is skipped; nothing is created or deleted |
| Programs.AttachAndLink | common/shader-util.js:78-80 | attaches the truthy shaders in order, then links |
| Programs.NewLinkedProgram | common/shader-util.js:77-80 | a fresh program handle, its attach and link calls, and the program live |
| Programs.CollectSetters | common/shader-util.js:84-90 | the uniform walk, then the attribute walk. The result succeeds iff every attribute answers, holding both maps, and otherwise fails with TypeError |
| Programs.CreateProgramHolder | common/shader-util.js:76-95 | on link failure the program is deleted, the live set is unchanged, no setters are built, and the info log is thrown. On success the holder has the program and both setter maps, and the program stays live. An attribute TypeError after linking leaves the program live |
| Programs.CreateBuffer | common/shader-util.js:321-335 | records enableVertexAttribArray, a fresh buffer, its binding to ARRAY_BUFFER and the defaulted vertexAttribPointer call, with the size passed as given; returns that buffer, which stays live |
| Programs.BufferAgreesWithAttributeSetter | common/shader-util.js:326-333 | createBuffer's vertexAttribPointer call is the attribute setter's when the fields agree |

## Left out

- `$$`, `getContext` and the element lookup of `createShaderFromScript`: DOM and browser plumbing.
- `createProgramHolderFromUrls` and `readFile` in `common/file-util.js`: `fetch` and promises, i.e. asynchronous I/O. The two shader compilations and the link they chain are `Programs.CreateShader` and `Programs.CreateProgramHolder`.
- `loadTexture`: asynchronous image loading and texture upload.
- `randomColor` is not shown by the source. It is a caller-supplied function of the call number.
- **Floating point.**
  - Numbers are reals.
  - `Math.sin`, `Math.cos` and `Math.PI` are uninterpreted, so no numeric property of the circle (such as the last point coinciding with the first) is claimed.
  - `granularity` is an integer; with a non-integer value the wrap test `i === granularity - 1` never fires.
- `console.log` and `console.error`, including the stray log in the FLOAT_VEC3 setter: output only.
- Compile status, link status, info logs, active-variable counts and infos, and locations are inputs. `getVariableCounts` is the `uniformCount`/`attributeCount` of the report.
- The GL's own error handling is not modelled: the utilities ignore it, and a call that the GL rejects is still recorded.
- JavaScript objects are modelled as `map<string, _>`. Keys such as `__proto__`, which a plain object treats specially, are not distinguished.
- Programs.CreateProgramHolder: the report is independent of which shaders were attached; the model does not relate the driver's link result to the shader sources.
- Arguments are assumed to have the shape the code reads: an attribute setter's `bufferInfo` and createBuffer's `vertexAttribPointer` are records, so the TypeError of reading a field of `undefined` or `null` (common/shader-util.js:293 and 322) is not modelled; createCircleVertex's colour and each colour `randomColor` returns are four numbers, so the TypeError of `color = null` and the `undefined` entries of a shorter colour array (common/shape-creator.js:15-18) are not modelled.
