/**
  Shader and program objects (`src/core/Shader.cpp`).

  Compile and link outcomes are the driver's: the status each query would
  write is an input. The current program is cached in the single slot
  `Program::s_boundProgram` of the context.
*/
module Shaders {
  import opened GL

  /** What `SetSource` prints for an empty source: `"%s: empty source!\n"` with `__FUNCTION__`. */
  const EMPTY_SOURCE_WARNING: string := "SetSource: empty source!\n"

  /** `BaseShader`: one shader object. */
  class Shader {
    /** the shader stage passed to `glCreateShader` */
    const shaderType: uint32
    /** the GL name `glCreateShader` returned */
    const id: Id
    /** `_valid`: the last compile succeeded */
    var valid: bool

    /** `BaseShader(shaderType)`: creates one shader object, named `newId` by the driver. */
    constructor (gl: Context, shaderType: uint32, newId: Id)
      modifies gl`trace
      ensures this.shaderType == shaderType && id == newId
      ensures !valid
      ensures gl.trace == old(gl.trace) + [CreateShader(shaderType, newId)]
      ensures old(gl.Coherent()) ==> gl.Coherent()
    {
      this.shaderType := shaderType;
      id := newId;
      valid := false;
      new;
      gl.Issue(CreateShader(shaderType, newId));
    }

    /**
      `BaseShader::SetSource`: an empty source is reported on standard
      output (`printed`) but forwarded to the driver all the same.
    */
    method SetSource(gl: Context, source: string) returns (printed: seq<string>)
      modifies gl`trace
      ensures |source| == 0 ==> printed == [EMPTY_SOURCE_WARNING]
      ensures |source| > 0 ==> printed == []
      ensures gl.trace == old(gl.trace) + [ShaderSource(id, source)]
      ensures old(gl.Coherent()) ==> gl.Coherent()
    {
      printed := [];
      if |source| == 0 {
        printed := printed + [EMPTY_SOURCE_WARNING];
      }
      gl.Issue(ShaderSource(id, source));
    }

    /**
      `BaseShader::Compile`: compiles, queries `GL_COMPILE_STATUS` (the
      driver writes `status`), and returns and records whether it is not
      `GL_FALSE`.
    */
    method Compile(gl: Context, status: int32) returns (ok: bool)
      modifies this`valid, gl`trace
      ensures ok <==> status != GL_FALSE
      ensures valid == ok
      ensures gl.trace == old(gl.trace) + [CompileShader(id), GetShaderiv(id, GL_COMPILE_STATUS)]
      ensures old(gl.Coherent()) ==> gl.Coherent()
    {
      gl.Issue(CompileShader(id));
      gl.Issue(GetShaderiv(id, GL_COMPILE_STATUS));
      valid := status != GL_FALSE;
      ok := valid;
    }
  }

  /** `Program`: one program object. */
  class Program {
    /** the GL name `glCreateProgram` returned */
    const id: Id
    /** `_valid`: the last link succeeded */
    var valid: bool

    /** `Program()`: creates one program object, named `newId` by the driver. */
    constructor (gl: Context, newId: Id)
      modifies gl`trace
      ensures id == newId
      ensures !valid
      ensures gl.trace == old(gl.trace) + [CreateProgram(newId)]
      ensures old(gl.Coherent()) ==> gl.Coherent()
    {
      id := newId;
      valid := false;
      new;
      gl.Issue(CreateProgram(newId));
    }

    /**
      A copy of the value `other`, as `Model::SetProgram` makes by assignment:
      the same GL name and flag, no GL call, and a flag of its own from then on.
    */
    constructor CopyOf(other: Program)
      ensures id == other.id && valid == other.valid
    {
      id := other.id;
      valid := other.valid;
    }

    /** `Program::AttachShader` */
    method AttachShader(gl: Context, sh: Shader)
      modifies gl`trace
      ensures gl.trace == old(gl.trace) + [Call.AttachShader(id, sh.id)]
      ensures old(gl.Coherent()) ==> gl.Coherent()
    {
      gl.Issue(Call.AttachShader(id, sh.id));
    }

    /**
      `Program::BindAttribLocation`: one `glBindAttribLocation`, a call that
      binds no cache slot (`NonBindingCallsKeepCoherence` covers a run of them).
    */
    method BindAttribLocation(gl: Context, index: uint32, name: string)
      modifies gl`trace
      ensures gl.trace == old(gl.trace) + [Call.BindAttribLocation(id, index, name)]
    {
      gl.Issue(Call.BindAttribLocation(id, index, name));
    }

    /**
      `Program::Link`: links, queries `GL_LINK_STATUS` (the driver writes
      `status`), and returns and records whether it is not `GL_FALSE`.
    */
    method Link(gl: Context, status: int32) returns (ok: bool)
      modifies this`valid, gl`trace
      ensures ok <==> status != GL_FALSE
      ensures valid == ok
      ensures gl.trace == old(gl.trace) + [LinkProgram(id), GetProgramiv(id, GL_LINK_STATUS)]
      ensures old(gl.Coherent()) ==> gl.Coherent()
    {
      gl.Issue(LinkProgram(id));
      gl.Issue(GetProgramiv(id, GL_LINK_STATUS));
      valid := status != GL_FALSE;
      ok := valid;
    }

    /**
      `Program::Use` (and its alias `Bind`). With caching on the real call is
      elided when the slot already holds this program; afterwards it does.
    */
    method Use(gl: Context)
      modifies gl`boundProgram, gl`trace
      ensures gl.trace == old(gl.trace) + BindIfChanged(gl.preventMultipleBind, old(gl.boundProgram), id, UseProgram(id))
      ensures gl.boundProgram == if gl.preventMultipleBind then id else old(gl.boundProgram)
      ensures gl.preventMultipleBind && old(gl.Coherent()) ==> gl.Coherent()
    {
      ghost var cs0, tr0 := gl.Caches(), gl.trace;
      if gl.preventMultipleBind {
        if gl.boundProgram == id {
          return;
        }
        gl.boundProgram := id;
      }
      gl.IssueBinding(UseProgram(id));
      if gl.preventMultipleBind && CoherentWith(cs0, tr0) {
        assert gl.Caches() == Update(cs0, ProgramSlot, id);
        RecordedBindKeepsCoherence(cs0, gl.Caches(), tr0, UseProgram(id));
      }
    }

    /**
      The `SetUniformInt` / `SetUniformFloat` overloads: `GLFK_AUTO_BIND()`
      (that is `Use`), then the `glUniform*` call. Unless the caches had
      drifted from the trace, this program is the last one issued to
      `glUseProgram` when the uniform call is made.
    */
    method SetUniform(gl: Context, location: int32, value: UniformValue)
      modifies gl`boundProgram, gl`trace
      ensures gl.trace == old(gl.trace) + BindIfChanged(gl.preventMultipleBind, old(gl.boundProgram), id, UseProgram(id))
                + [Uniform(location, value)]
      ensures gl.boundProgram == if gl.preventMultipleBind then id else old(gl.boundProgram)
      ensures !gl.preventMultipleBind || old(gl.Coherent()) ==> LastIssued(gl.trace[..|gl.trace| - 1], ProgramSlot) == id
      ensures gl.preventMultipleBind && old(gl.Coherent()) ==> gl.Coherent()
    {
      ghost var tr0 := gl.trace;
      Use(gl);
      ghost var tr1 := gl.trace;
      if tr1 == tr0 {
        assert gl.preventMultipleBind && old(gl.Coherent()) ==> CachedIn(gl.Caches(), ProgramSlot) == LastIssued(tr1, ProgramSlot);
      } else {
        assert tr1 == tr0 + [UseProgram(id)];
        LastIssuedAppend(tr0, UseProgram(id), ProgramSlot);
      }
      gl.Issue(Uniform(location, value));
      assert gl.trace[..|gl.trace| - 1] == tr1;
    }
  }

  /** A fresh shader compiled with driver status `status` is valid exactly when the status is not `GL_FALSE`. */
  method CompileOutcome(shaderType: uint32, status: int32) returns (before: bool, after: bool, trace: seq<Call>)
    ensures !before
    ensures after <==> status != GL_FALSE
    ensures trace == [CreateShader(shaderType, 1), CompileShader(1), GetShaderiv(1, GL_COMPILE_STATUS)]
  {
    var gl := new Context(true, false, false);
    var sh := new Shader(gl, shaderType, 1);
    before := sh.valid;
    var ok := sh.Compile(gl, status);
    after := sh.valid;
    trace := gl.trace;
  }

  /** With caching on, two uniform updates in a row make one `glUseProgram`. */
  method TwoUniformsOneUse(a: int32, b: int32) returns (trace: seq<Call>)
    ensures trace == [CreateProgram(3), UseProgram(3), Uniform(0, Int1(a)), Uniform(1, Int1(b))]
  {
    var gl := new Context(true, false, false);
    var p := new Program(gl, 3);
    p.SetUniform(gl, 0, Int1(a));
    p.SetUniform(gl, 1, Int1(b));
    trace := gl.trace;
  }
}
