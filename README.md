# glfk bind cache, error helpers and tooling scripts in Dafny

glfk is a small C++ wrapper around OpenGL. Built with
`GLFK_PREVENT_MULTIPLE_BIND`, it remembers process-wide what is bound:
- a map from target to name for textures and framebuffers;
- one slot each for the active texture unit, the renderbuffer and the program.

It then skips a real `glBind*` call when the cache already holds the wanted
name. Mutating operations are wrapped in `GLFK_AUTO_BIND` and
`GLFK_AUTO_UNBIND`. The unbind half exists only with `GLFK_ENSURE_UNBIND`.

This project models that machinery, the error-reporting helpers in
`Utils.cpp`, the index bookkeeping of the mesh builders in `Model.cpp`, and
the two Ruby tools. Those are the header and indentation rewriter
`process_code.rb` and the `#define` scraper `extract_gl_enums.rb`, together
with the lookup function it generates.

**The driver.** The driver is not modelled. `GL.Context` holds:
- every static cache;
- the memoised maximum number of texture units;
- the three build switches as booleans (caching, ensure-unbind, `DEBUG`);
- `trace`, the sequence of real driver calls made so far.

Whatever the driver would answer is a parameter of the method that asks:
- generated names;
- compile and link status;
- `glGetIntegerv` results;
- framebuffer status;
- `glGetError`.

`GL.LastIssued(trace, key)` reads off the trace the name last issued for
each cache key: the active unit, each texture target, each framebuffer
target, the renderbuffer and the program. The caches are *coherent* when
every key holds the name last issued for it. Coherence is about the trace
on the caches' own keys, not about the state a driver would be in (see
"## Left out" for the two aliasings it does not see).

Most operations prove both their exact trace and cache post-state and that
they keep coherence. Two places are proved to break it:
- `Texture::SetTextureUnit` binds behind the cache's back;
- `Renderbuffer::BindNone` unbinds with `glBindBuffer`.

A third behaviour is shown but not proved to break coherence: framebuffer
targets are cached as separate keys, so unbinding `GL_READ_FRAMEBUFFER`
after a `GL_FRAMEBUFFER` bind makes no call.

The modules follow the source files:

| Module | File | Models |
|---|---|---|
| `GL` | `gl.dfy` | the context, the call and slot types, coherence, and the shared bind / bracket functions |
| `Renderer` | `renderer.dfy` | `src/core/Renderer.cpp` |
| `Textures` | `texture.dfy` | `src/core/Texture.cpp` |
| `Framebuffers` | `framebuffer.dfy` | `src/core/Framebuffer.cpp` |
| `Renderbuffers` | `renderbuffer.dfy` | `src/core/Renderbuffer.cpp` |
| `Shaders` | `shader.dfy` | `src/core/Shader.cpp` |
| `Utils` | `utils.dfy` | `src/core/Utils.cpp` |
| `Models` | `model.dfy` | `src/extra/Model.cpp` |
| `ProcessCode` | `process_code.dfy` | `tools/process_code.rb` |
| `GLEnums` | `extract_gl_enums.dfy` | `tools/extract_gl_enums.rb` |

**Ways the model follows the code rather than the design.**
- `BaseFramebuffer::Clear(target, mask)` ignores `mask`. It clears with the
  default `GL_COLOR_BUFFER_BIT | GL_DEPTH_BUFFER_BIT`.
- `Renderbuffer::BindNone` issues `glBindBuffer(GL_RENDERBUFFER, 0)`.
- `std::map::operator[]` inserts a 0 entry on lookup. The model keeps that
  insertion (`GL.Touch`).
- `PrintGLErrorImpl` compares the `where` string by address. The model's
  `Site` therefore carries an address next to the text.

## Model

| member | source | states |
|---|---|---|
| `GL.Wrap` | src/core/Renderer.cpp:53 | the C++ conversion of a signed driver answer to `unsigned`: congruent to the input modulo 2^32, and the identity on values already in range |
| `GL.Touch` | src/core/Texture.cpp:94 | a `std::map` lookup by `operator[]` leaves an entry for the key and changes no value any later lookup sees |
| `GL.Bracket` | src/core/Renderer.h:28-33 | `GLFK_AUTO_BIND` / `GLFK_AUTO_UNBIND` around an operation: the operation is always issued, it is the last call without ensure-unbind, and the bracket makes at most three calls |
| `GL.BracketCache` | src/core/Renderer.h:28-33 | the target-map cache after a bracket: unchanged with caching off; otherwise the target holds the name, or 0 under ensure-unbind, and no other target changes |
| `GL.Update` | src/core/Texture.cpp:96 | recording a name in one cache slot changes that slot only |
| `GL.NonBindingKeepsCoherence` | src/core/Texture.cpp:119 | a call that binds nothing keeps caches that agree with the trace in agreement |
| `GL.NonBindingCallsKeepCoherence` | src/extra/Model.cpp:32-37 | the same for a whole run of non-binding calls, such as the six `glBindAttribLocation` calls of `SetProgram` |
| `GL.RecordedBindKeepsCoherence` | src/core/Texture.cpp:96-98 | a real bind whose name is recorded in its own slot, and nowhere else, keeps coherence |
| `GL.BindIfChangedKeepsCoherence` | src/core/Texture.cpp:91-100 | the elision rule shared by every `Bind` keeps coherence: whether the real bind is issued or elided, recording the wanted name for its key leaves the caches agreeing with the trace |
| `GL.ElidedBindKeepsCoherence` | src/core/Texture.cpp:94-95 | skipping a bind whose name the cache already holds is sound: that name is already the last one issued for the key |
| `GL.UnrecordedBindBreaksCoherence` | src/core/Texture.cpp:132 | a real bind whose key caches a different name leaves cache and trace disagreeing, whatever came before |
| `GL.Context.constructor` | src/core/Texture.cpp:7-9 | the statics start empty or 0 (maps without entries, slots and `s_max` at 0), no call has been made, and the caches are coherent |
| `Renderer.Clear` | src/core/Renderer.cpp:8-11 | exactly one `glClear` with the given mask, and coherence is kept |
| `Renderer.GetMaxTextureUnits` | src/core/Renderer.cpp:46-54 | returns the value it stores, queries only when the memo was 0, stores the converted answer then, and keeps coherence |
| `Renderer.MaxUnitsMemoised` | src/core/Renderer.cpp:46-54 | two calls in a row: a positive first answer is reused without a second query, and a zero first answer is asked for again |
| `Textures.UnitEnum` | src/core/Texture.cpp:28 | `GL_TEXTURE0 + unit`, in 32-bit unsigned arithmetic, is the `glActiveTexture` argument that makes `unit` active |
| `Textures.LastUnit` | src/core/Texture.cpp:36 | `GetMaxTextureUnits() - 1`, wrapping to `0xFFFFFFFF` when the maximum is 0 |
| `Textures.NewTextureUnit` | src/core/Texture.cpp:11-18 | a unit below `GL_TEXTURE0` is stored as it is; an enum name at or above it is stored as the unit that name activates |
| `Textures.IndexAndEnumNameSameUnit` | src/core/Texture.cpp:11-18 | `TextureUnit(k)` and `TextureUnit(GL_TEXTURE0 + k)` are the same unit for every `k < GL_TEXTURE0` |
| `Textures.TextureUnit.Bind` | src/core/Texture.cpp:20-30 | `glActiveTexture` is issued exactly when caching is off or another unit is cached; with caching the slot then holds the unit and coherence is kept |
| `Textures.TextureUnit.BindNone` | src/core/Texture.cpp:32-44 | makes the last unit active, which takes the memoised maximum (querying it if needed), and issues no call when that unit is already cached as active |
| `Textures.Texture.constructor` | src/core/Texture.cpp:82-89 | one `glGenTextures`; the new texture is not valid and has no unit |
| `Textures.Texture.BindTarget` | src/core/Texture.cpp:91-100 | `glBindTexture(t, id)` is issued exactly when caching is off or `cache[t] != id`; with caching `cache[t]` becomes `id`, no other target changes, and coherence is kept |
| `Textures.Texture.BindNone` | src/core/Texture.cpp:102-110 | the same rule for name 0 |
| `Textures.Texture.Bracketed` | src/core/Renderer.h:28-33 | a texture operation between `GLFK_AUTO_BIND(target)` and `GLFK_AUTO_UNBIND(target)`: exact trace and cache, and coherence is kept |
| `Textures.Texture.GenerateMipmap` | src/core/Texture.cpp:112-122 | `glGenerateMipmap` inside the bracket, exact trace and cache, and coherence is kept; a `DEBUG` build demands a valid texture |
| `Textures.Texture.SetImage1D` | src/core/Texture.cpp:144-151 | `glTexImage1D` inside the bracket; the texture becomes valid, and coherence is kept |
| `Textures.Texture.SetImage2D` | src/core/Texture.cpp:155-163 | the same for `glTexImage2D` |
| `Textures.Texture.SetImage3D` | src/core/Texture.cpp:167-175 | the same for `glTexImage3D` |
| `Textures.Texture.SetImageCube` | src/core/Texture.cpp:179-187 | the same for one cube face, bound through the cube-map target |
| `Textures.Texture.SetTextureUnit` | src/core/Texture.cpp:126-140 | records the unit, then issues the exact call sequence: unit bind, the forced `glBindTexture`, the parking unbind of the unit and `GLFK_AUTO_UNBIND`. The texture ends as the last name issued for the target (or 0 after a real unbind). The target cache is not updated, so coherence is lost exactly when that cache held neither this texture nor a name a real unbind corrects |
| `Textures.ForceBindSticks` | src/core/Texture.cpp:130-138 | after the forced bind, the unit calls and an optional unbind, the texture is the last name issued for the target, or 0 when the unbind was issued |
| `Textures.ForceBindResync` | src/core/Texture.cpp:130-138 | when the caches at the end hold the names those calls leave last issued, the caches are coherent again |
| `Textures.ParkedUnit` | src/core/Texture.cpp:134-136 | after those calls, the last unit issued is the parking unit, or the earlier one when no unit call was made |
| `Textures.ForceBindElsewhere` | src/core/Texture.cpp:130-138 | those calls leave the last name issued for every other key as it was |
| `Textures.BindNoneTwice` | src/core/Texture.cpp:102-110 | with caching on, two consecutive `BindNone(t)` issue only what the first one would, and leave `cache[t] == 0` |
| `Textures.ForceBindLeavesStaleCache` | src/core/Texture.cpp:132 | `SetTextureUnit` of texture 2 while texture 1 is cached for the target makes the next bind of 1 issue nothing, although 2 is the last name issued for the target |
| `Framebuffers.Framebuffer.constructor` | src/core/Framebuffer.cpp:11-17 | one `glGenFramebuffers`, and coherence is kept |
| `Framebuffers.Framebuffer.ScreenObject` | src/core/Framebuffer.cpp:118-120 | the default framebuffer object: name 0, target `GL_FRAMEBUFFER` |
| `Framebuffers.Framebuffer.BindTarget` | src/core/Framebuffer.cpp:19-28 | `glBindFramebuffer(t, id)` is issued exactly when caching is off or `cache[t] != id`; with caching only `cache[t]` changes, to `id`, and coherence is kept |
| `Framebuffers.Framebuffer.BindNone` | src/core/Framebuffer.cpp:29-37 | the same rule for name 0 |
| `Framebuffers.Framebuffer.Bracketed` | src/core/Renderer.h:28-33 | a framebuffer operation between the bind and the optional unbind: exact trace and cache, and coherence is kept |
| `Framebuffers.Framebuffer.CheckStatus` | src/core/Framebuffer.cpp:39-47 | returns the driver's status, with `glCheckFramebufferStatus` inside the bracket |
| `Framebuffers.Framebuffer.AttachRenderbuffer` | src/core/Framebuffer.cpp:49-57 | `glFramebufferRenderbuffer` with `GL_RENDERBUFFER` inside the bracket |
| `Framebuffers.Framebuffer.AttachTexture1D` | src/core/Framebuffer.cpp:59-67 | `glFramebufferTexture1D` with `GL_TEXTURE_1D` inside the bracket |
| `Framebuffers.Framebuffer.AttachTexture2D` | src/core/Framebuffer.cpp:69-77 | `glFramebufferTexture2D` with the caller's texture target inside the bracket |
| `Framebuffers.Framebuffer.AttachTexture3D` | src/core/Framebuffer.cpp:79-87 | `glFramebufferTexture3D` with `GL_TEXTURE_3D` inside the bracket |
| `Framebuffers.Framebuffer.Clear` | src/core/Framebuffer.cpp:89-97 | `glClear` with the default mask, whatever mask is passed, inside the bracket |
| `Framebuffers.Framebuffer.ReadPixels` | src/core/Framebuffer.cpp:101-110 | `glReadPixels` inside a bracket on the framebuffer's own target |
| `Framebuffers.ScreenHolder.constructor` | src/core/Framebuffer.cpp:116 | the static pointer starts null |
| `Framebuffers.Screen` | src/core/Framebuffer.cpp:114-123 | the first call creates the screen object (name 0, `GL_FRAMEBUFFER`) and every later call returns that same object |
| `Framebuffers.ScreenIsOneInstance` | src/core/Framebuffer.cpp:114-123 | two calls of `Screen()` return one object, of name 0 |
| `Framebuffers.BindScreenFirst` | src/core/Framebuffer.cpp:8 | binding the screen to any target before anything else was bound there makes no call: a missing entry reads as 0 |
| `Framebuffers.ReadTargetIsSeparateKey` | src/core/Framebuffer.cpp:22-24 | after binding a framebuffer to `GL_FRAMEBUFFER`, unbinding `GL_READ_FRAMEBUFFER` makes no call, and only the `GL_FRAMEBUFFER` entry holds the name |
| `Renderbuffers.Renderbuffer.constructor` | src/core/Renderbuffer.cpp:11-17 | one `glGenRenderbuffers`, and coherence is kept |
| `Renderbuffers.Renderbuffer.WithStorage` | src/core/Renderbuffer.cpp:19-27 | generates a name and then runs `SetStorage`'s bracket, with the exact resulting slot |
| `Renderbuffers.Renderbuffer.Bind` | src/core/Renderbuffer.cpp:29-38 | `glBindRenderbuffer` is issued exactly when caching is off or the slot holds another name; with caching the slot then holds it and coherence is kept |
| `Renderbuffers.Renderbuffer.BindNone` | src/core/Renderbuffer.cpp:40-48 | issues nothing when the slot holds 0; otherwise it clears the slot and issues `glBindBuffer(GL_RENDERBUFFER, 0)`. From coherent caches, coherence survives exactly when the slot held 0 |
| `Renderbuffers.Renderbuffer.SetStorage` | src/core/Renderbuffer.cpp:50-58 | `glRenderbufferStorage` between a bind and, with ensure-unbind, `BindNone`. Coherence is kept without ensure-unbind; with it, coherence holds exactly when the name is 0 |
| `Renderbuffers.SizedTrace` | src/core/Renderbuffer.cpp:19-27 | with caching on and no ensure-unbind, the sized constructor's calls leave the new renderbuffer the last one bound |
| `Renderbuffers.SizedStaysBound` | src/core/Renderbuffer.cpp:19-27 | with caching on and no ensure-unbind, the sized constructor leaves the slot holding the new name, which is also the last renderbuffer bound |
| `Renderbuffers.EnsureUnbindLeavesItBound` | src/core/Renderbuffer.cpp:47 | with ensure-unbind, the slot ends at 0 while the renderbuffer is still the last one bound, because the closing call is `glBindBuffer` |
| `Shaders.Shader.constructor` | src/core/Shader.cpp:12-17 | one `glCreateShader`; the shader starts not valid |
| `Shaders.Shader.SetSource` | src/core/Shader.cpp:18-27 | prints the warning exactly when the source is empty, and forwards the source to `glShaderSource` in either case |
| `Shaders.Shader.Compile` | src/core/Shader.cpp:28-39 | compiles, queries `GL_COMPILE_STATUS`, and returns and stores whether the status is not `GL_FALSE` |
| `Shaders.Program.constructor` | src/core/Shader.cpp:63-68 | one `glCreateProgram`; the program starts not valid |
| `Shaders.Program.CopyOf` | src/extra/Model.cpp:29 | copying a `Program` value keeps its name and flag and makes no call |
| `Shaders.Program.AttachShader` | src/core/Shader.cpp:70-75 | one `glAttachShader` with the two names, and coherence is kept |
| `Shaders.Program.BindAttribLocation` | src/extra/Model.cpp:32 | one `glBindAttribLocation` with the index and name |
| `Shaders.Program.Link` | src/core/Shader.cpp:77-88 | links, queries `GL_LINK_STATUS`, and returns and stores whether the status is not `GL_FALSE` |
| `Shaders.Program.Use` | src/core/Shader.cpp:113-123 | `glUseProgram` is issued exactly when caching is off or another program is cached; with caching the slot then holds it and coherence is kept |
| `Shaders.Program.SetUniform` | src/core/Shader.cpp:147-153 | `Use` and then the `glUniform*` call; unless the caches had drifted from the trace, this program is the last one issued to `glUseProgram` when the uniform call is made |
| `Shaders.CompileOutcome` | src/core/Shader.cpp:28-39 | a fresh shader is not valid, and after `Compile` it is valid exactly when the status is not `GL_FALSE` |
| `Shaders.TwoUniformsOneUse` | src/core/Shader.cpp:113-123 | with caching on, two uniform updates on one program make a single `glUseProgram` |
| `Utils.HexChar` | src/core/Utils.cpp:51 | one `%X` digit is an uppercase hexadecimal character |
| `Utils.HexDigits` | src/core/Utils.cpp:51 | `%X` produces uppercase hex digits with no leading zero, and `"0"` for zero |
| `Utils.ParseHexDigits` | src/core/Utils.cpp:51 | reading the `%X` digits back in base 16 gives the number again |
| `Utils.HexDigitsInjective` | src/core/Utils.cpp:51 | different numbers have different `%X` digits |
| `Utils.UnknownErrorString` | src/core/Utils.cpp:49-53 | a code outside the six known ones yields `"0x"` and its `%X` digits, from which the code can be read back |
| `Utils.HexDigitsLength` | src/core/Utils.cpp:50-51 | a number below 16^k has at most k hex digits, so a 32-bit code needs at most 8 and fits the 32-byte buffer |
| `Utils.MessageLengths` | src/core/Utils.cpp:37-48 | the lengths of the six fixed messages, including the trailing newline of the `GL_INVALID_VALUE` one |
| `Utils.KnownErrorLength` | src/core/Utils.cpp:37-48 | a known code's message is at least 40 characters long |
| `Utils.UnknownErrorLength` | src/core/Utils.cpp:49-53 | a fallback string is at most 10 characters long |
| `Utils.UnknownFallbacksDistinct` | src/core/Utils.cpp:49-53 | two different unknown codes give different strings |
| `Utils.KnownMessagesDistinct` | src/core/Utils.cpp:37-48 | two different known codes give different messages |
| `Utils.KnownIsNoFallback` | src/core/Utils.cpp:35-54 | no known message equals any fallback string |
| `Utils.ErrorStringsDistinct` | src/core/Utils.cpp:35-54 | `GLErrorToString` is injective on all 32-bit codes |
| `Utils.ErrorLine` | src/core/Utils.cpp:75 | the printed line starts with `"GL error during <where>: "` and ends with a newline |
| `Utils.ErrorReporter.constructor` | src/core/Utils.cpp:62-63 | no previous error and no previous site |
| `Utils.ErrorReporter.Report` | src/core/Utils.cpp:56-76 | a non-`DEBUG` build, a zero error, or a repeat of the previous (error, site) pair leaves state and output unchanged; any other error is printed once and recorded as the previous pair |
| `Utils.ZeroErrorKeepsSuppression` | src/core/Utils.cpp:66-69 | error, then 0, then the same error at one site prints a single line |
| `Utils.SitesCompareByAddress` | src/core/Utils.cpp:68 | the same error at two sites with equal text but different addresses prints two equal lines |
| `Utils.NonDebugIsSilent` | src/core/Utils.cpp:58-60 | a non-`DEBUG` build prints nothing |
| `Models.Minus` | src/extra/Model.cpp:159-164 | the vector difference, which added back to the subtrahend gives the minuend |
| `Models.FaceVertices` | src/extra/Model.cpp:84-87 | the four corners origin, +right, +right+up and +up, with texcoords (0,0), (1,0), (1,1), (0,1) and one shared normal |
| `Models.FaceIndicesSpanTheFace` | src/extra/Model.cpp:89-94 | the six indices are `s, s+2, s+3, s, s+1, s+2`: two triangles over the four new corners, sharing a diagonal, and each of the corners is used |
| `Models.MeshArrays.constructor` | src/extra/Model.cpp:156-157 | empty vertex and index arrays |
| `Models.MeshArrays.AddFace` | src/extra/Model.cpp:79-95 | appends exactly the four vertices and the six indices from the count before the call, and keeps every index below the vertex count |
| `Models.AttributeCalls` | src/extra/Model.cpp:32-37 | six `glBindAttribLocation` calls for the program, at indices 0 to 5 |
| `Models.BindAttributes` | src/extra/Model.cpp:32-37 | issues exactly those six calls, and coherence is kept |
| `Models.Model.constructor` | src/extra/Model.cpp:11-15 | the members are built in declaration order: `glGenVertexArrays` for the vertex array, `glGenBuffers` for the index buffer, `glCreateProgram` for the program; a new model is not valid and has index count 0 and no vertex buffers |
| `Models.Model.SetProgram` | src/extra/Model.cpp:27-47 | takes a copy of the program, binds the six attributes and links. The model is valid exactly when linking succeeds, and the failure message with the driver's log is printed only then. The caller's program is left alone |
| `Models.Model.SetIndexBuffer` | src/extra/Model.cpp:49-56 | stores exactly the given buffer, type and count |
| `Models.Model.AddVertexBuffer` | src/extra/Model.cpp:57-62 | appends the buffer and leaves the earlier ones unchanged |
| `Models.Model.Draw` | src/extra/Model.cpp:17-25 | `Use` and then `glDrawElements` with the stored count and type; unless the caches had drifted, the model's program is in use for the draw |
| `Models.FinishModel` | src/extra/Model.cpp:166-189 | adds the vertex buffer, stores the index buffer with `GL_UNSIGNED_INT` and the 32-bit index count, and sets the program |
| `Models.PlaneModel` | src/extra/Model.cpp:99-130 | one face: 4 vertices, the indices of one face, index count 6, and validity from the link |
| `Models.BoxCorners` | src/extra/Model.cpp:145-154 | the eight corners of the box |
| `Models.FacesIndices` | src/extra/Model.cpp:159-164 | n faces in a row contribute 6n indices |
| `Models.BoxModel` | src/extra/Model.cpp:134-190 | six faces: 24 vertices, 36 indices all below 24, index count 36, and validity from the link |
| `Models.BoxMesh` | src/extra/Model.cpp:156-164 | the six `AddFace` calls on empty arrays give 24 vertices and 36 in-range indices |
| `Models.BoxFrontFace` | src/extra/Model.cpp:159 | the front face of the box runs over corners 0 to 3 with texcoords (0,0), (1,0), (1,1), (0,1) |
| `Models.PlaneCounts` | src/extra/Model.cpp:104-124 | a plane model has 4 vertices, index count 6, and validity from the link |
| `Models.BoxCounts` | src/extra/Model.cpp:159-184 | a box model has 24 vertices and index count 36, with every index below 24 |
| `ProcessCode.ConcatAppend` | tools/process_code.rb:15 | concatenating the output pieces distributes over appending piece lists |
| `ProcessCode.LineEnd` | tools/process_code.rb:21 | the end of the line `File#each` yields from a position: just past the first newline, or the end of the text |
| `ProcessCode.SplitLinesShape` | tools/process_code.rb:21 | every line `File#each` yields is non-empty and contains a newline only at its end; all but the last end with one |
| `ProcessCode.SplitLinesConcat` | tools/process_code.rb:21 | the lines joined give the text back |
| `ProcessCode.ConcatSplitLines` | tools/process_code.rb:21 | newline-terminated lines joined and split again give the same lines |
| `ProcessCode.ContentOfLine` | tools/process_code.rb:36 | what `^` to `$` sees of a line is the line without its final newline, and contains no newline |
| `ProcessCode.SpaceRun` | tools/process_code.rb:36 | the `\s*` run from a position covers only whitespace and stops before a non-whitespace character or at the end |
| `ProcessCode.LeadingSpaceRun` | tools/process_code.rb:36-38 | the leading `\s*` of a line is maximal: `$1` is all whitespace and `$2` starts with a non-space |
| `ProcessCode.QuartersBounds` | tools/process_code.rb:49 | integer division by 4 gives the quotient bounds |
| `ProcessCode.Round4Nearest` | tools/process_code.rb:49 | `((w/4.0).round*4)` is a multiple of 4 within two of `w`, with halves rounding up (1 to 0, 2 to 4, 6 to 8) |
| `ProcessCode.Round4Exact` | tools/process_code.rb:49 | a multiple of 4 is left unchanged |
| `ProcessCode.SpacesWidth` | tools/process_code.rb:40-47 | n spaces have width n when tabs count 4 and other characters 1 |
| `ProcessCode.FixLineShape` | tools/process_code.rb:36-54 | the fixed line ends in a newline and keeps the code after the indentation. An indented line gets the rounded width in spaces; a whitespace-only line passes through with a newline |
| `ProcessCode.LeadingSpaceOfIndented` | tools/process_code.rb:51 | a line written as n spaces and code has n leading spaces |
| `ProcessCode.FixLineIdempotent` | tools/process_code.rb:36-54 | fixing a fixed line changes nothing |
| `ProcessCode.CloseIndexScan` | tools/process_code.rb:26-29 | the header scan stops just past the first line ending in `*/`, or reads to the end |
| `ProcessCode.HeaderLengthShape` | tools/process_code.rb:22-30 | a header exists exactly when the first line starts with `/*-`. It runs through the first line ending in `*/`, or through end of file, and no earlier header line closes |
| `ProcessCode.MapLinesAt` | tools/process_code.rb:36-54 | the per-line transform is applied to each line, in order |
| `ProcessCode.FixIndent` | tools/process_code.rb:36-51 | the `each_char` loop, with its tab count, and the rounding compute the fixed line |
| `ProcessCode.EmitNext` | tools/process_code.rb:21-56 | one loop step: header lines emit nothing, the first line after the header emits the file header and the fixed line, and later lines emit their fixed line |
| `ProcessCode.EmittedSoFar` | tools/process_code.rb:21-56 | after i lines the output is empty while inside the header, and otherwise the file header followed by the fixed lines since the header |
| `ProcessCode.EmittedAll` | tools/process_code.rb:21-56 | the whole loop's output is the header rewrite of the file |
| `ProcessCode.InHeaderAfterIff` | tools/process_code.rb:22-30 | the `inHeader` flag after i lines is set exactly when those lines are still inside the header |
| `ProcessCode.HeaderStep` | tools/process_code.rb:22-27 | the flag update agrees with the header length, one line at a time |
| `ProcessCode.ProcessLines` | tools/process_code.rb:14-56 | the loop, with its `inHeader`, `firstLine` and `headerOutputted` flags, produces the header rewrite of the lines |
| `ProcessCode.ProcessFile` | tools/process_code.rb:14-59 | `processFile` on a text gives its processed form |
| `ProcessCode.ConcatFour` | tools/process_code.rb:8-11 | four pieces joined give their concatenation |
| `ProcessCode.FullLineOf` | tools/process_code.rb:12 | a newline-free text plus `LineEnd` is one full line |
| `ProcessCode.HeaderTextJoined` | tools/process_code.rb:8-12 | `FileHeader + LineEnd` is its four lines joined |
| `ProcessCode.HeaderLinesFull` | tools/process_code.rb:8-11 | the four header lines end in a newline and read `/*-`, the title, the licence line and `-*/` |
| `ProcessCode.TitleLineFull` | tools/process_code.rb:9 | the title line is one full line |
| `ProcessCode.LicenseLineFull` | tools/process_code.rb:10 | the licence line is one full line |
| `ProcessCode.HeaderLinesText` | tools/process_code.rb:8-12 | the emitted header is itself a header: it opens with `/*-`, and only its last line ends in `*/` |
| `ProcessCode.FixAllFull` | tools/process_code.rb:51-54 | every output line ends with a newline, one per input line |
| `ProcessCode.FixAllIdempotent` | tools/process_code.rb:36-54 | fixing the fixed body again changes nothing |
| `ProcessCode.RewrittenLines` | tools/process_code.rb:32-54 | the output splits into the header lines followed by the fixed lines |
| `ProcessCode.CloseIndexAt` | tools/process_code.rb:26-29 | the scan stops at the first closing line |
| `ProcessCode.HeaderLengthOf` | tools/process_code.rb:22-30 | a prefix that opens, closes only on its last line and is followed by anything is exactly the header |
| `ProcessCode.RewrittenAgain` | tools/process_code.rb:22-54 | rewriting a header plus fixed body gives the same text again |
| `ProcessCode.ProcessedLines` | tools/process_code.rb:14-59 | the output is empty exactly when the body after the header is empty; otherwise its lines are the file header lines followed by the fixed body, and every output line ends with a newline |
| `ProcessCode.ProcessedIdempotent` | tools/process_code.rb:14-59 | processing an already processed text yields the same text |
| `ProcessCode.DropTrailingP` | tools/process_code.rb:63 | stripping the trailing `p`s leaves a prefix that does not end in `p`, and only `p`s were removed |
| `ProcessCode.EndsWithSourceExtensionIff` | tools/process_code.rb:63 | the executable check agrees with the pattern: `.c` or `.h` followed by any number of `p`, at the end |
| `ProcessCode.MatchesSourcePatternIff` | tools/process_code.rb:63 | `/.*\.(cp*|hp*)$/` matches a path exactly when one of its lines ends that way (`.` does not cross newlines) |
| `ProcessCode.SourcePathsMembers` | tools/process_code.rb:61-73 | the paths processed are exactly the listed paths that match, and no more of them |
| `ProcessCode.SourcePathsFour` | tools/process_code.rb:61-73 | filtering keeps the matching paths in their order |
| `ProcessCode.PatternExamples` | tools/process_code.rb:63 | `a.cpp` and `b.h` match; `x.cc` and `c.md` do not |
| `ProcessCode.SelectSourcePaths` | tools/process_code.rb:61-66 | the loop with its `next if` keeps exactly the matching paths, in order |
| `ProcessCode.SingleLinePattern` | tools/process_code.rb:63 | for a path without a newline the pattern is just the extension check |
| `ProcessCode.FilterExamples` | tools/process_code.rb:61-73 | of `a.cpp`, `x.cc`, `b.h` and `c.md`, exactly `a.cpp` and `b.h` are processed |
| `GLEnums.AllIff` | tools/extract_gl_enums.rb:25 | a character class holds over a range exactly when it holds at every position |
| `GLEnums.RunEnd` | tools/extract_gl_enums.rb:25 | a greedy `+` / `*` run ends at the first character outside the class |
| `GLEnums.RunEndAt` | tools/extract_gl_enums.rb:25 | a run that stops at a non-member character ends there |
| `GLEnums.MatchAt` | tools/extract_gl_enums.rb:25 | a match of the pattern at a position has its captures inside the line |
| `GLEnums.MatchAtSound` | tools/extract_gl_enums.rb:25 | what the matcher finds at a position is a match of `#define\s+(GL_[_A-Z0-9]+)\s+([0-9a-fA-Fx]+)` there |
| `GLEnums.MatchAtComplete` | tools/extract_gl_enums.rb:25 | the matcher finds the greedy match at its position |
| `GLEnums.FirstMatch` | tools/extract_gl_enums.rb:25 | the scan gives the leftmost position with a match, or none when there is none |
| `GLEnums.MatchSound` | tools/extract_gl_enums.rb:25 | `=~` reports a real match of the pattern |
| `GLEnums.MatchIsLeftmost` | tools/extract_gl_enums.rb:25 | a line with any match is matched, at the leftmost match, and at that position with the greedy captures |
| `GLEnums.RubyHexDigits` | tools/extract_gl_enums.rb:26 | `to_i(16)` reads uppercase hex digits, with or without a `0x` prefix, as their value |
| `GLEnums.RubyHexUnprefixed` | tools/extract_gl_enums.rb:26 | without a `0x` prefix, `to_i(16)` reads the longest prefix of hex digits |
| `GLEnums.NoHexPrefix` | tools/extract_gl_enums.rb:26 | hex digits other than a lone `0`, followed by `x`, do not form a `0x` prefix |
| `GLEnums.RubyHexStopsAtX` | tools/extract_gl_enums.rb:26 | an `x` after leading digits other than a lone `0` ends the number |
| `GLEnums.LineEntryShape` | tools/extract_gl_enums.rb:25-26 | a line yields an entry exactly when it matches and the value text read by `to_i(16)` is at least 256; the entry is a `GL_` name and a non-empty value text |
| `GLEnums.EntriesAppend` | tools/extract_gl_enums.rb:24-27 | the per-line emission distributes over joining inputs |
| `GLEnums.EntriesFromLines` | tools/extract_gl_enums.rb:24-27 | every entry comes from some input line, and there is at most one per line |
| `GLEnums.LinesToEntries` | tools/extract_gl_enums.rb:24-27 | every accepted line produces its entry |
| `GLEnums.EntryValueEnd` | tools/extract_gl_enums.rb:26 | in the emitted `m[<value>] = "<name>";` line the value text ends at the first `]` |
| `GLEnums.EntryLineInjective` | tools/extract_gl_enums.rb:26 | different entries emit different lines |
| `GLEnums.EntryLines` | tools/extract_gl_enums.rb:26 | one emitted line per entry |
| `GLEnums.EntryStep` | tools/extract_gl_enums.rb:24-27 | one loop step appends that line's entry line, if any, to the output so far |
| `GLEnums.ExtractEnums` | tools/extract_gl_enums.rb:6-46 | the script prints the prologue, the entry lines in input order and the epilogue |
| `GLEnums.CppLiteral` | tools/extract_gl_enums.rb:26 | a value text that does not start with a digit is not a C++ integer literal |
| `GLEnums.Table` | tools/extract_gl_enums.rb:26 | the generated assignments in input order, each keyed by the value the C++ compiler reads from the text, modulo 2^32; at most one per entry |
| `GLEnums.FillLaterWins` | tools/extract_gl_enums.rb:26 | after the assignments, a key holds the name of its last assignment |
| `GLEnums.FillElsewhere` | tools/extract_gl_enums.rb:26 | a key with no assignment keeps what it held |
| `GLEnums.EnumNames.constructor` | tools/extract_gl_enums.rb:15-17 | the statics start with `inited` false and an empty map |
| `GLEnums.EnumNames.Populate` | tools/extract_gl_enums.rb:19-35 | runs the generated assignments on the map, in order |
| `GLEnums.EnumNames.ToString` | tools/extract_gl_enums.rb:13-45 | fills the map on the first call only. It answers the stored name, or `"0x"` and the `%X` digits, and leaves the looked-up key in the map |
| `GLEnums.HexLiteral256` | tools/extract_gl_enums.rb:26 | `0x0100` is the literal 256 |
| `GLEnums.SharedValueTable` | tools/extract_gl_enums.rb:26 | two lines with the same value give two assignments to one key, in input order |
| `GLEnums.LaterNameWins` | tools/extract_gl_enums.rb:26-44 | the generated lookup answers the later name for a shared value, `"0x5"` for an unknown value, and the same again on a repeated call |
| `GLEnums.HundredReadings` | tools/extract_gl_enums.rb:26 | the text `100` passes the filter as hex 256, while C++ reads it as decimal 100 |
| `GLEnums.HundredLineCaptures` | tools/extract_gl_enums.rb:25 | `#define GL_X 100` matches with `GL_X` and `100` as captures |
| `GLEnums.DecimalTextKey` | tools/extract_gl_enums.rb:25-26 | so `#define GL_X 100` is emitted, and its generated key is 100, not 256 |

## Left out

- The OpenGL driver: every `gl*` call is an element of `GL.Context.trace`. What the driver answers (names, statuses, queries, `glGetError`) is a parameter, and rendering is not modelled.
- `GLObject` / `AssignGLObject` shared ownership and deletion: their definition is not part of this model, so an object's id is a plain number.
- `src/core/Buffer.cpp` and `VertexArray.cpp`: only their constructors' `glGenBuffers` and `glGenVertexArrays` are modelled, as calls of `Models.Model.constructor`; binding, data upload and attribute setup are not. `Model::Draw`'s `_vao.DrawElements` is one `glDrawElements` call in the trace.
- `src/core/Shaders.cpp`: an older revision without the cache.
- Per-unit texture bindings: `glBindTexture` binds on the active texture unit (section 8.1 of the OpenGL 4.6 Core Profile specification), but `GL.Binds` keys a texture bind by its target alone, as `BaseTexture::s_boundTextureToTarget` does. Coherence therefore does not see that a bind elided after a unit switch leaves the new unit without the texture.
- Framebuffer target aliasing: binding `GL_FRAMEBUFFER` sets both the read and the draw binding (section 9.2 of the same specification), but `GL.Binds` keys each framebuffer target separately, as `BaseFramebuffer::s_boundFramebufferToTarget` does. Coherence therefore does not see that the elided read-target unbind in `Framebuffers.ReadTargetIsSeparateKey` leaves the framebuffer bound for reading.
- `src/core/Enums.h` and the headers, except the `GLFK_AUTO_BIND` / `GLFK_AUTO_UNBIND` macros and the `Program::Bind` alias of `Use`.
- `src/extra/Window.h` and `WindowGLFW.cpp` (windowing and the event loop), the example programs, and `src/extra/Shaders.cpp` (an unfinished placeholder).
- `ReadFile`: file input only.
- `GetInfoLog` for shaders and programs: reading the log is a foreign call, and the log text is a parameter of `Models.Model.SetProgram`.
- Floating-point content:
  - vertex positions are `real` vectors;
  - normals are the plain cross product of `right` and `up`, without `glm::normalize`;
  - uniform float values are abstracted to their arity.
- The glm `SetUniform` overloads (vectors, arrays, matrices): each is one more uniform call after the same `Use`.
- `Renderer::ClearColor`, `DrawElements`, `DrawArrays`, `Viewport` and `GetString`: single pass-through driver calls that touch no cache.
- `TextureUnit::GetInt`, `SetInt`, `SetWrap` and `SetFilter`: single pass-through calls.
- `Program::Validate`, `GetInt`, `GetAttribute` and `GetUniform`: single pass-through calls.
- The `PrintGLError` calls made between driver calls: the reporter is modelled on its own, in `Utils.ErrorReporter`.
- The static `buff` shared by the hex fallbacks. Returning a pointer into it means a later call overwrites an earlier answer; the model returns values.
- The directory walk and file writing of `tools/process_code.rb`, and the file reading and printing of `tools/extract_gl_enums.rb`: the lines are inputs and the output is a string.
- Concurrency: there is none. The caches assume one thread.
- `Shaders.Program.BindAttribLocation`: its contract does not repeat that coherence is kept. `GL.NonBindingCallsKeepCoherence` covers the six calls of `SetProgram` together.
- `ProcessCode.ProcessLines`: takes the header text as a parameter. `ProcessFile` passes the file header.
- `GLEnums.RubyHex`: models `to_i(16)` only on texts the value capture can hold (hex digits and `x`).
- `GLEnums.Table`: a value text that is not a C++ integer literal (a floating literal such as `1e5`, say) is not modelled and yields no assignment.
- `Textures.Texture.GenerateMipmap`: the `DEBUG` assertion is a precondition rather than a modelled abort.
