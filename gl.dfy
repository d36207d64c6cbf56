/**
  The graphics context that every resource wrapper of the framework talks to.

  The OpenGL driver itself is not modelled: every real `gl*` call the
  framework makes is one `Call` appended to `Context.trace`, and whatever the
  driver answers (a fresh object name, a compile status, an integer query) is
  an input of the method that makes the call.

  Next to the trace the context holds the process-wide statics that the
  wrappers keep when `GLFK_PREVENT_MULTIPLE_BIND` is defined (the binding
  caches) and the memo of `Renderer::GetMaxTextureUnits`. The three
  preprocessor switches `GLFK_PREVENT_MULTIPLE_BIND`, `GLFK_ENSURE_UNBIND`
  and `DEBUG` are runtime constants of the context.

  The caches are *coherent* with the trace when every cache key holds the
  name last issued for that key. This is a statement about the trace on
  the caches' own keys, not about the state of a driver: it does not see
  that `glBindTexture` binds on the active texture unit (section 8.1 of the
  OpenGL 4.6 Core Profile specification), nor that binding
  `GL_FRAMEBUFFER` also sets the read and draw bindings (section 9.2).
*/
module GL {

  datatype Option<+T> = None | Some(value: T)

  /** C/C++ `unsigned` / `GLenum` / `GLuint`. */
  type uint32 = x: int | 0 <= x < 0x1_0000_0000
  /** `GLint` / `GLsizei`. */
  type int32 = x: int | -0x8000_0000 <= x < 0x8000_0000

  /** A GL object name, treated as an opaque number; 0 names the default object. */
  type Id = nat

  /** Unsigned 32-bit arithmetic: the value of an `unsigned` expression. */
  function Wrap(x: int): (r: uint32)
    ensures 0 <= x < 0x1_0000_0000 ==> r == x
    ensures (r - x) % 0x1_0000_0000 == 0
  {
    x % 0x1_0000_0000
  }

  // Enumerants of the OpenGL 4.6 core profile that the framework passes around.
  const GL_FALSE: int32 := 0
  const GL_TEXTURE0: uint32 := 0x84C0
  const GL_TEXTURE_1D: uint32 := 0x0DE0
  const GL_TEXTURE_2D: uint32 := 0x0DE1
  const GL_TEXTURE_3D: uint32 := 0x806F
  const GL_TEXTURE_CUBE_MAP: uint32 := 0x8513
  const GL_FRAMEBUFFER: uint32 := 0x8D40
  const GL_READ_FRAMEBUFFER: uint32 := 0x8CA8
  const GL_DRAW_FRAMEBUFFER: uint32 := 0x8CA9
  const GL_RENDERBUFFER: uint32 := 0x8D41
  const GL_MAX_COMBINED_TEXTURE_IMAGE_UNITS: uint32 := 0x8B4D
  const GL_COMPILE_STATUS: uint32 := 0x8B81
  const GL_LINK_STATUS: uint32 := 0x8B82
  const GL_COLOR_BUFFER_BIT: uint32 := 0x4000
  const GL_DEPTH_BUFFER_BIT: uint32 := 0x0100
  const GL_UNSIGNED_INT: uint32 := 0x1405
  const GL_TRIANGLES: uint32 := 0x0004

  /** The argument of a `glUniform*` call; float components are abstracted to their number. */
  datatype UniformValue =
    | Int1(x: int32)
    | Int2(x: int32, y: int32)
    | Int3(x: int32, y: int32, z: int32)
    | Int4(x: int32, y: int32, z: int32, w: int32)
    | IntArray(count: uint32)
    | Float1
    | Float2
    | Float3
    | Float4
    | FloatArray(count: uint32)

  /** One real call into the driver. Pixel data pointers and float arguments are left out. */
  datatype Call =
    | ActiveTexture(unitEnum: uint32)
    | GenTextures(texture: Id)
    | BindTexture(target: uint32, texture: Id)
    | GenerateMipmap(target: uint32)
    | TexImage(target: uint32, level: int32, internalFormat: uint32, size: seq<int32>, format: uint32, dataType: uint32)
    | GenFramebuffers(framebuffer: Id)
    | BindFramebuffer(target: uint32, framebuffer: Id)
    | CheckFramebufferStatus(target: uint32)
    | FramebufferRenderbuffer(target: uint32, attachment: uint32, renderbufferTarget: uint32, renderbuffer: Id)
    | FramebufferTexture1D(target: uint32, attachment: uint32, textarget: uint32, texture: Id, level: int32)
    | FramebufferTexture2D(target: uint32, attachment: uint32, textarget: uint32, texture: Id, level: int32)
    | FramebufferTexture3D(target: uint32, attachment: uint32, textarget: uint32, texture: Id, level: int32, layer: int32)
    | ReadPixels(x: int32, y: int32, width: int32, height: int32, format: uint32, dataType: uint32)
    | Clear(mask: uint32)
    | GetIntegerv(pname: uint32)
    | GenRenderbuffers(renderbuffer: Id)
    | BindRenderbuffer(target: uint32, renderbuffer: Id)
    | GenVertexArrays(vertexArray: Id)
    | GenBuffers(buffer: Id)
    | BindBuffer(target: uint32, buffer: Id)
    | RenderbufferStorage(target: uint32, internalFormat: uint32, width: int32, height: int32)
    | CreateShader(shaderType: uint32, shader: Id)
    | ShaderSource(shader: Id, source: string)
    | CompileShader(shader: Id)
    | GetShaderiv(shader: Id, pname: uint32)
    | CreateProgram(program: Id)
    | AttachShader(program: Id, shader: Id)
    | BindAttribLocation(program: Id, index: uint32, name: string)
    | LinkProgram(program: Id)
    | GetProgramiv(program: Id, pname: uint32)
    | UseProgram(program: Id)
    | Uniform(location: int32, value: UniformValue)
    | DrawElements(mode: uint32, count: uint32, indexType: uint32)

  /**
    One key of the binding caches: the active texture unit, a texture target,
    a framebuffer target, the renderbuffer slot and the current program.
  */
  datatype Slot =
    | ActiveUnit
    | TextureTarget(target: uint32)
    | FramebufferTarget(target: uint32)
    | RenderbufferSlot
    | ProgramSlot

  /**
    The cache key a call binds and the value it issues for that key. Keys
    are the caches' own: each target is one key, whatever the active unit.
  */
  function Binds(c: Call): Option<(Slot, Id)>
  {
    match c
    case ActiveTexture(unitEnum) => Some((ActiveUnit, Wrap(unitEnum - GL_TEXTURE0)))
    case BindTexture(target, texture) => Some((TextureTarget(target), texture))
    case BindFramebuffer(target, framebuffer) => Some((FramebufferTarget(target), framebuffer))
    case BindRenderbuffer(target, renderbuffer) =>
      if target == GL_RENDERBUFFER then Some((RenderbufferSlot, renderbuffer)) else None
    case UseProgram(program) => Some((ProgramSlot, program))
    case _ => None
  }

  /** The value last issued for key `s` by a call of `trace`; 0 (the default object) if none was. */
  function LastIssued(trace: seq<Call>, s: Slot): Id
  {
    if trace == [] then 0
    else
      var c := trace[|trace| - 1];
      if Binds(c).Some? && Binds(c).value.0 == s then Binds(c).value.1
      else LastIssued(trace[..|trace| - 1], s)
  }

  lemma LastIssuedAppend(trace: seq<Call>, c: Call, s: Slot)
    ensures LastIssued(trace + [c], s) ==
              if Binds(c).Some? && Binds(c).value.0 == s then Binds(c).value.1 else LastIssued(trace, s)
  {
    assert (trace + [c])[..|trace|] == trace;
  }

  /** `std::map<GLenum, GLuint>::operator[]`: a missing key reads as 0. */
  function Lookup(m: map<uint32, Id>, k: uint32): Id
  {
    if k in m then m[k] else 0
  }

  /** The map after `operator[]` has been applied to `k` (a missing key is inserted with 0). */
  function Touch(m: map<uint32, Id>, k: uint32): (r: map<uint32, Id>)
    ensures r == m[k := Lookup(m, k)]
    ensures forall j :: Lookup(r, j) == Lookup(m, j)
  {
    if k in m then m else m[k := 0]
  }

  /**
    The rule every cached `Bind` follows: with caching on, the real call is
    elided when the cache already holds the wanted id; with caching off it is
    always issued.
  */
  function BindIfChanged(prevent: bool, cached: Id, wanted: Id, bind: Call): (calls: seq<Call>)
    ensures calls == [] || calls == [bind]
    ensures calls == [] <==> (prevent && cached == wanted)
  {
    if prevent && cached == wanted then [] else [bind]
  }

  /**
    The calls of one `GLFK_AUTO_BIND(...)` / native call / `GLFK_AUTO_UNBIND(...)`
    bracket, given the cached id before it: a cached bind of `id`, the call
    `op`, and, only with `GLFK_ENSURE_UNBIND`, a cached unbind (which sees the
    cache the bind left, i.e. `id` when caching is on).
  */
  function Bracket(prevent: bool, ensureUnbind: bool, cached: Id, id: Id, bind: Call, op: Call, unbind: Call): (calls: seq<Call>)
    ensures op in calls
    ensures !ensureUnbind ==> calls[|calls| - 1] == op
    ensures |calls| <= 3
  {
    BindIfChanged(prevent, cached, id, bind) + [op] + (if ensureUnbind then BindIfChanged(prevent, id, 0, unbind) else [])
  }

  /**
    A per-target cache after one bracket that starts from `m`: with caching
    on, the target holds the bound id, or 0 once the unbind half has run.
  */
  function BracketCache(prevent: bool, ensureUnbind: bool, m: map<uint32, Id>, k: uint32, id: Id): (r: map<uint32, Id>)
    ensures !prevent ==> r == m
    ensures prevent ==> Lookup(r, k) == (if ensureUnbind then 0 else id)
    ensures forall j :: j != k ==> Lookup(r, j) == Lookup(m, j)
  {
    if prevent then m[k := if ensureUnbind then 0 else id] else m
  }

  /** The values of all binding caches at one moment. */
  datatype CacheState = CacheState(
    activeUnit: nat,
    textures: map<uint32, Id>,
    framebuffers: map<uint32, Id>,
    renderbuffer: Id,
    program: Id)

  /** The id cached for slot `s`. */
  function CachedIn(cs: CacheState, s: Slot): Id
  {
    match s
    case ActiveUnit => cs.activeUnit
    case TextureTarget(t) => Lookup(cs.textures, t)
    case FramebufferTarget(t) => Lookup(cs.framebuffers, t)
    case RenderbufferSlot => cs.renderbuffer
    case ProgramSlot => cs.program
  }

  /** `cs` with slot `s` set to `v`. */
  function Update(cs: CacheState, s: Slot, v: Id): (r: CacheState)
    ensures CachedIn(r, s) == v
    ensures forall s' :: s' != s ==> CachedIn(r, s') == CachedIn(cs, s')
  {
    match s
    case ActiveUnit => cs.(activeUnit := v)
    case TextureTarget(t) => cs.(textures := cs.textures[t := v])
    case FramebufferTarget(t) => cs.(framebuffers := cs.framebuffers[t := v])
    case RenderbufferSlot => cs.(renderbuffer := v)
    case ProgramSlot => cs.(program := v)
  }

  /**
    The caches agree with the calls actually issued: every key holds
    exactly the id that the last real bind call for that key issued.
  */
  ghost predicate CoherentWith(cs: CacheState, trace: seq<Call>)
  {
    forall s :: CachedIn(cs, s) == LastIssued(trace, s)
  }

  /** A call that binds nothing keeps the caches coherent. */
  lemma {:induction false} NonBindingKeepsCoherence(cs: CacheState, trace: seq<Call>, c: Call)
    requires CoherentWith(cs, trace)
    requires Binds(c).None?
    ensures CoherentWith(cs, trace + [c])
  {
    forall s ensures CachedIn(cs, s) == LastIssued(trace + [c], s) {
      LastIssuedAppend(trace, c, s);
    }
  }

  /**
    A real bind call whose effect is recorded in the cache of the slot it
    binds, and nowhere else, keeps the caches coherent.
  */
  lemma {:induction false} RecordedBindKeepsCoherence(cs: CacheState, cs': CacheState, trace: seq<Call>, c: Call)
    requires CoherentWith(cs, trace)
    requires Binds(c).Some?
    requires CachedIn(cs', Binds(c).value.0) == Binds(c).value.1
    requires forall s :: s != Binds(c).value.0 ==> CachedIn(cs', s) == CachedIn(cs, s)
    ensures CoherentWith(cs', trace + [c])
  {
    forall s ensures CachedIn(cs', s) == LastIssued(trace + [c], s) {
      LastIssuedAppend(trace, c, s);
    }
  }

  /**
    Eliding a bind is sound: when the cache already holds `v` for `s`, the
    last call issued for `s` already named `v`, and recording `v` again
    changes nothing.
  */
  lemma ElidedBindKeepsCoherence(cs: CacheState, cs': CacheState, trace: seq<Call>, s: Slot, v: Id)
    requires CoherentWith(cs, trace)
    requires CachedIn(cs, s) == v
    requires CachedIn(cs', s) == v
    requires forall s' :: s' != s ==> CachedIn(cs', s') == CachedIn(cs, s')
    ensures CoherentWith(cs', trace)
  {
  }

  /**
    The cached `Bind` rule keeps coherence: whether the real call is made or
    elided, recording the wanted name for its key leaves the caches
    agreeing with the trace.
  */
  lemma BindIfChangedKeepsCoherence(cs: CacheState, trace: seq<Call>, prevent: bool, s: Slot, v: Id, bind: Call)
    requires CoherentWith(cs, trace)
    requires Binds(bind) == Some((s, v))
    ensures CoherentWith(Update(cs, s, v), trace + BindIfChanged(prevent, CachedIn(cs, s), v, bind))
  {
    if prevent && CachedIn(cs, s) == v {
      assert trace + [] == trace;
      ElidedBindKeepsCoherence(cs, Update(cs, s, v), trace, s, v);
    } else {
      RecordedBindKeepsCoherence(cs, Update(cs, s, v), trace, bind);
    }
  }

  /**
    A bind call that is NOT recorded in the cache, for a slot whose cached id
    differs from the bound one, leaves the caches incoherent.
  */
  lemma {:induction false} UnrecordedBindBreaksCoherence(cs: CacheState, trace: seq<Call>, c: Call)
    requires Binds(c).Some?
    requires CachedIn(cs, Binds(c).value.0) != Binds(c).value.1
    ensures !CoherentWith(cs, trace + [c])
  {
    LastIssuedAppend(trace, c, Binds(c).value.0);
  }

  /** Calls that bind nothing for key `s` do not change what was last issued for it. */
  lemma {:induction false} LastIssuedSkip(trace: seq<Call>, more: seq<Call>, s: Slot)
    requires forall i :: 0 <= i < |more| ==> !(Binds(more[i]).Some? && Binds(more[i]).value.0 == s)
    ensures LastIssued(trace + more, s) == LastIssued(trace, s)
    decreases |more|
  {
    if more != [] {
      var init := more[..|more| - 1];
      assert forall i :: 0 <= i < |init| ==> init[i] == more[i];
      assert trace + more == (trace + init) + [more[|more| - 1]];
      LastIssuedAppend(trace + init, more[|more| - 1], s);
      LastIssuedSkip(trace, init, s);
    } else {
      assert trace + more == trace;
    }
  }

  /** Calls that bind nothing keep the caches in agreement with the trace. */
  lemma {:induction false} NonBindingCallsKeepCoherence(cs: CacheState, trace: seq<Call>, more: seq<Call>)
    requires CoherentWith(cs, trace)
    requires forall i :: 0 <= i < |more| ==> Binds(more[i]).None?
    ensures CoherentWith(cs, trace + more)
  {
    forall s ensures CachedIn(cs, s) == LastIssued(trace + more, s) {
      LastIssuedSkip(trace, more, s);
    }
  }

  /** The context: trace of real calls, configuration, and the process-wide statics. */
  class Context {
    /** `GLFK_PREVENT_MULTIPLE_BIND` */
    const preventMultipleBind: bool
    /** `GLFK_ENSURE_UNBIND` */
    const ensureUnbind: bool
    /** `DEBUG` */
    const debug: bool

    /** Every real driver call so far, oldest first. */
    var trace: seq<Call>

    /** `TextureUnit::s_activeUnit` */
    var activeUnit: uint32
    /** `BaseTexture::s_boundTextureToTarget` */
    var boundTexture: map<uint32, Id>
    /** `BaseFramebuffer::s_boundFramebufferToTarget` */
    var boundFramebuffer: map<uint32, Id>
    /** `Renderbuffer::s_boundRenderbuffer` */
    var boundRenderbuffer: Id
    /** `Program::s_boundProgram` */
    var boundProgram: Id
    /** the function-local `static unsigned s_max` of `Renderer::GetMaxTextureUnits` */
    var maxTextureUnits: uint32

    /** Process start: no call made, every static zero-initialised, every map empty. */
    constructor (preventMultipleBind: bool, ensureUnbind: bool, debug: bool)
      ensures this.preventMultipleBind == preventMultipleBind
      ensures this.ensureUnbind == ensureUnbind
      ensures this.debug == debug
      ensures trace == []
      ensures activeUnit == 0 && boundTexture == map[] && boundFramebuffer == map[]
      ensures boundRenderbuffer == 0 && boundProgram == 0 && maxTextureUnits == 0
      ensures Coherent()
    {
      this.preventMultipleBind := preventMultipleBind;
      this.ensureUnbind := ensureUnbind;
      this.debug := debug;
      trace := [];
      activeUnit := 0;
      boundTexture := map[];
      boundFramebuffer := map[];
      boundRenderbuffer := 0;
      boundProgram := 0;
      maxTextureUnits := 0;
    }

    function Caches(): CacheState
      reads this
    {
      CacheState(activeUnit, boundTexture, boundFramebuffer, boundRenderbuffer, boundProgram)
    }

    /** The binding caches agree with the calls issued so far. */
    ghost predicate Coherent()
      reads this
    {
      CoherentWith(Caches(), trace)
    }

    /** Makes one real driver call that binds something; the caller keeps the caches. */
    method IssueBinding(c: Call)
      requires Binds(c).Some?
      modifies this`trace
      ensures trace == old(trace) + [c]
    {
      trace := trace + [c];
    }

    /** Makes one real driver call that binds nothing. */
    method Issue(c: Call)
      requires Binds(c).None?
      modifies this`trace
      ensures trace == old(trace) + [c]
      ensures old(Coherent()) ==> Coherent()
    {
      if Coherent() {
        NonBindingKeepsCoherence(Caches(), trace, c);
      }
      trace := trace + [c];
    }
  }
}
