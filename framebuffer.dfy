/**
  Framebuffer objects (`src/core/Framebuffer.cpp`).

  A `Framebuffer` carries its GL name and the target its
  `FramebufferWithTarget` part was built for; the `BaseFramebuffer`
  operations take the target as an argument. Binding goes through the
  per-target cache of the context (`BaseFramebuffer::s_boundFramebufferToTarget`),
  in which `GL_FRAMEBUFFER`, `GL_DRAW_FRAMEBUFFER` and `GL_READ_FRAMEBUFFER`
  are three unrelated keys.
*/
module Framebuffers {
  import opened GL
  import Renderer

  class Framebuffer {
    /** the GL name: from `glGenFramebuffers`, or 0 for the screen */
    const id: Id
    /** `FramebufferWithTarget::_target` */
    const target: uint32

    /**
      `Framebuffer()`, `DrawFramebuffer()`, `ReadFramebuffer()`: generates one
      framebuffer name (`newId`, the driver's answer) for the given target.
    */
    constructor (gl: Context, target: uint32, newId: Id)
      modifies gl`trace
      ensures id == newId && this.target == target
      ensures gl.trace == old(gl.trace) + [GenFramebuffers(newId)]
      ensures old(gl.Coherent()) ==> gl.Coherent()
    {
      id := newId;
      this.target := target;
      new;
      gl.Issue(GenFramebuffers(newId));
    }

    /**
      The object `Framebuffer::Screen()` allocates: no constructor runs and no
      GL call is made; the name is 0 (the default framebuffer) and the target
      `GL_FRAMEBUFFER`.
    */
    constructor ScreenObject()
      ensures id == 0 && target == GL_FRAMEBUFFER
    {
      id := 0;
      target := GL_FRAMEBUFFER;
    }

    /**
      `BaseFramebuffer::Bind(target)`. With caching on the real bind is elided
      when the cache already holds this framebuffer for `t`; afterwards the
      cache holds it for `t` and every other target, including the other two
      framebuffer targets, is as it was.
    */
    method BindTarget(gl: Context, t: uint32)
      modifies gl`boundFramebuffer, gl`trace
      ensures gl.trace == old(gl.trace) + BindIfChanged(gl.preventMultipleBind, Lookup(old(gl.boundFramebuffer), t), id, BindFramebuffer(t, id))
      ensures gl.boundFramebuffer == if gl.preventMultipleBind then old(gl.boundFramebuffer)[t := id] else old(gl.boundFramebuffer)
      ensures gl.preventMultipleBind && old(gl.Coherent()) ==> gl.Coherent()
    {
      ghost var cs0, tr0 := gl.Caches(), gl.trace;
      if gl.preventMultipleBind {
        gl.boundFramebuffer := Touch(gl.boundFramebuffer, t);
        if gl.boundFramebuffer[t] == id {
          if CoherentWith(cs0, tr0) {
            assert gl.Caches() == Update(cs0, FramebufferTarget(t), id);
            ElidedBindKeepsCoherence(cs0, gl.Caches(), tr0, FramebufferTarget(t), id);
          }
          return;
        }
        gl.boundFramebuffer := gl.boundFramebuffer[t := id];
      }
      gl.IssueBinding(BindFramebuffer(t, id));
      if gl.preventMultipleBind && CoherentWith(cs0, tr0) {
        assert gl.Caches() == Update(cs0, FramebufferTarget(t), id);
        RecordedBindKeepsCoherence(cs0, gl.Caches(), tr0, BindFramebuffer(t, id));
      }
    }

    /** `BaseFramebuffer::BindNone(target)`: binds framebuffer 0 to `t`, elided when the cache already holds 0. */
    static method BindNone(gl: Context, t: uint32)
      modifies gl`boundFramebuffer, gl`trace
      ensures gl.trace == old(gl.trace) + BindIfChanged(gl.preventMultipleBind, Lookup(old(gl.boundFramebuffer), t), 0, BindFramebuffer(t, 0))
      ensures gl.boundFramebuffer == if gl.preventMultipleBind then old(gl.boundFramebuffer)[t := 0] else old(gl.boundFramebuffer)
      ensures gl.preventMultipleBind && old(gl.Coherent()) ==> gl.Coherent()
    {
      ghost var cs0, tr0 := gl.Caches(), gl.trace;
      if gl.preventMultipleBind {
        gl.boundFramebuffer := Touch(gl.boundFramebuffer, t);
        if gl.boundFramebuffer[t] == 0 {
          if CoherentWith(cs0, tr0) {
            assert gl.Caches() == Update(cs0, FramebufferTarget(t), 0);
            ElidedBindKeepsCoherence(cs0, gl.Caches(), tr0, FramebufferTarget(t), 0);
          }
          return;
        }
        gl.boundFramebuffer := gl.boundFramebuffer[t := 0];
      }
      gl.IssueBinding(BindFramebuffer(t, 0));
      if gl.preventMultipleBind && CoherentWith(cs0, tr0) {
        assert gl.Caches() == Update(cs0, FramebufferTarget(t), 0);
        RecordedBindKeepsCoherence(cs0, gl.Caches(), tr0, BindFramebuffer(t, 0));
      }
    }

    /** One `GLFK_AUTO_BIND(t)` / `op` / `GLFK_AUTO_UNBIND(t)` bracket on target `t`. */
    method Bracketed(gl: Context, t: uint32, op: Call)
      requires Binds(op).None?
      modifies gl`boundFramebuffer, gl`trace
      ensures gl.trace == old(gl.trace) + Bracket(gl.preventMultipleBind, gl.ensureUnbind, Lookup(old(gl.boundFramebuffer), t), id,
                                                 BindFramebuffer(t, id), op, BindFramebuffer(t, 0))
      ensures gl.boundFramebuffer == BracketCache(gl.preventMultipleBind, gl.ensureUnbind, old(gl.boundFramebuffer), t, id)
      ensures gl.preventMultipleBind && old(gl.Coherent()) ==> gl.Coherent()
    {
      BindTarget(gl, t);
      gl.Issue(op);
      if gl.ensureUnbind {
        BindNone(gl, t);
        assert old(gl.boundFramebuffer)[t := id][t := 0] == old(gl.boundFramebuffer)[t := 0];
      }
    }

    /** `BaseFramebuffer::CheckStatus(target)`: returns the driver's answer `answer` unchanged. */
    method CheckStatus(gl: Context, t: uint32, answer: uint32) returns (status: uint32)
      modifies gl`boundFramebuffer, gl`trace
      ensures status == answer
      ensures gl.trace == old(gl.trace) + Bracket(gl.preventMultipleBind, gl.ensureUnbind, Lookup(old(gl.boundFramebuffer), t), id,
                                                 BindFramebuffer(t, id), CheckFramebufferStatus(t), BindFramebuffer(t, 0))
      ensures gl.boundFramebuffer == BracketCache(gl.preventMultipleBind, gl.ensureUnbind, old(gl.boundFramebuffer), t, id)
      ensures gl.preventMultipleBind && old(gl.Coherent()) ==> gl.Coherent()
    {
      Bracketed(gl, t, CheckFramebufferStatus(t));
      status := answer;
    }

    /** `BaseFramebuffer::AttachRenderbuffer`: always names `GL_RENDERBUFFER` as the renderbuffer target. */
    method AttachRenderbuffer(gl: Context, t: uint32, attachment: uint32, renderbuffer: Id)
      modifies gl`boundFramebuffer, gl`trace
      ensures gl.trace == old(gl.trace) + Bracket(gl.preventMultipleBind, gl.ensureUnbind, Lookup(old(gl.boundFramebuffer), t), id,
                                                 BindFramebuffer(t, id),
                                                 FramebufferRenderbuffer(t, attachment, GL_RENDERBUFFER, renderbuffer),
                                                 BindFramebuffer(t, 0))
      ensures gl.boundFramebuffer == BracketCache(gl.preventMultipleBind, gl.ensureUnbind, old(gl.boundFramebuffer), t, id)
      ensures gl.preventMultipleBind && old(gl.Coherent()) ==> gl.Coherent()
    {
      Bracketed(gl, t, FramebufferRenderbuffer(t, attachment, GL_RENDERBUFFER, renderbuffer));
    }

    /** `BaseFramebuffer::AttachTexture1D`: the texture target is always `GL_TEXTURE_1D`. */
    method AttachTexture1D(gl: Context, t: uint32, attachment: uint32, texture: Id, level: int32)
      modifies gl`boundFramebuffer, gl`trace
      ensures gl.trace == old(gl.trace) + Bracket(gl.preventMultipleBind, gl.ensureUnbind, Lookup(old(gl.boundFramebuffer), t), id,
                                                 BindFramebuffer(t, id),
                                                 FramebufferTexture1D(t, attachment, GL_TEXTURE_1D, texture, level),
                                                 BindFramebuffer(t, 0))
      ensures gl.boundFramebuffer == BracketCache(gl.preventMultipleBind, gl.ensureUnbind, old(gl.boundFramebuffer), t, id)
      ensures gl.preventMultipleBind && old(gl.Coherent()) ==> gl.Coherent()
    {
      Bracketed(gl, t, FramebufferTexture1D(t, attachment, GL_TEXTURE_1D, texture, level));
    }

    /** `BaseFramebuffer::AttachTexture2D`: the texture target (2D or a cube face) is the caller's. */
    method AttachTexture2D(gl: Context, t: uint32, attachment: uint32, textarget: uint32, texture: Id, level: int32)
      modifies gl`boundFramebuffer, gl`trace
      ensures gl.trace == old(gl.trace) + Bracket(gl.preventMultipleBind, gl.ensureUnbind, Lookup(old(gl.boundFramebuffer), t), id,
                                                 BindFramebuffer(t, id),
                                                 FramebufferTexture2D(t, attachment, textarget, texture, level),
                                                 BindFramebuffer(t, 0))
      ensures gl.boundFramebuffer == BracketCache(gl.preventMultipleBind, gl.ensureUnbind, old(gl.boundFramebuffer), t, id)
      ensures gl.preventMultipleBind && old(gl.Coherent()) ==> gl.Coherent()
    {
      Bracketed(gl, t, FramebufferTexture2D(t, attachment, textarget, texture, level));
    }

    /** `BaseFramebuffer::AttachTexture3D`: the texture target is always `GL_TEXTURE_3D`. */
    method AttachTexture3D(gl: Context, t: uint32, attachment: uint32, texture: Id, level: int32, layer: int32)
      modifies gl`boundFramebuffer, gl`trace
      ensures gl.trace == old(gl.trace) + Bracket(gl.preventMultipleBind, gl.ensureUnbind, Lookup(old(gl.boundFramebuffer), t), id,
                                                 BindFramebuffer(t, id),
                                                 FramebufferTexture3D(t, attachment, GL_TEXTURE_3D, texture, level, layer),
                                                 BindFramebuffer(t, 0))
      ensures gl.boundFramebuffer == BracketCache(gl.preventMultipleBind, gl.ensureUnbind, old(gl.boundFramebuffer), t, id)
      ensures gl.preventMultipleBind && old(gl.Coherent()) ==> gl.Coherent()
    {
      Bracketed(gl, t, FramebufferTexture3D(t, attachment, GL_TEXTURE_3D, texture, level, layer));
    }

    /**
      `BaseFramebuffer::Clear(target, mask)`: the `mask` argument is not
      used; the clear inside the bracket always uses `Renderer::Clear`'s
      default mask.
    */
    method Clear(gl: Context, t: uint32, mask: uint32)
      modifies gl`boundFramebuffer, gl`trace
      ensures gl.trace == old(gl.trace) + Bracket(gl.preventMultipleBind, gl.ensureUnbind, Lookup(old(gl.boundFramebuffer), t), id,
                                                 BindFramebuffer(t, id), Call.Clear(Renderer.DEFAULT_CLEAR_MASK),
                                                 BindFramebuffer(t, 0))
      ensures gl.boundFramebuffer == BracketCache(gl.preventMultipleBind, gl.ensureUnbind, old(gl.boundFramebuffer), t, id)
      ensures gl.preventMultipleBind && old(gl.Coherent()) ==> gl.Coherent()
    {
      BindTarget(gl, t);
      Renderer.Clear(gl, Renderer.DEFAULT_CLEAR_MASK);
      if gl.ensureUnbind {
        BindNone(gl, t);
        assert old(gl.boundFramebuffer)[t := id][t := 0] == old(gl.boundFramebuffer)[t := 0];
      }
    }

    /** `FramebufferWithTarget::ReadPixels`: a bracket on the framebuffer's own target. */
    method ReadPixels(gl: Context, x: int32, y: int32, width: int32, height: int32, format: uint32, dataType: uint32)
      modifies gl`boundFramebuffer, gl`trace
      ensures gl.trace == old(gl.trace) + Bracket(gl.preventMultipleBind, gl.ensureUnbind, Lookup(old(gl.boundFramebuffer), target), id,
                                                 BindFramebuffer(target, id), Call.ReadPixels(x, y, width, height, format, dataType),
                                                 BindFramebuffer(target, 0))
      ensures gl.boundFramebuffer == BracketCache(gl.preventMultipleBind, gl.ensureUnbind, old(gl.boundFramebuffer), target, id)
      ensures gl.preventMultipleBind && old(gl.Coherent()) ==> gl.Coherent()
    {
      Bracketed(gl, target, Call.ReadPixels(x, y, width, height, format, dataType));
    }
  }

  /** The function-local `static Framebuffer* fb` of `Framebuffer::Screen()`. */
  class ScreenHolder {
    var fb: Framebuffer?

    /** Whatever the holder points to is the screen: name 0, target `GL_FRAMEBUFFER`. */
    ghost predicate Valid()
      reads this
    {
      fb != null ==> fb.id == 0 && fb.target == GL_FRAMEBUFFER
    }

    /** Process start: the pointer is `NULL`. */
    constructor ()
      ensures fb == null && Valid()
    {
      fb := null;
    }
  }

  /**
    `Framebuffer::Screen()` (and the free function `Screen()`): allocates the
    screen object on the first call and returns the same object on every
    later call.
  */
  method Screen(holder: ScreenHolder) returns (s: Framebuffer)
    requires holder.Valid()
    modifies holder
    ensures holder.Valid() && holder.fb == s
    ensures s.id == 0 && s.target == GL_FRAMEBUFFER
    ensures old(holder.fb) != null ==> s == old(holder.fb)
    ensures old(holder.fb) == null ==> fresh(s)
  {
    if holder.fb == null {
      holder.fb := new Framebuffer.ScreenObject();
    }
    s := holder.fb;
  }

  /** Two calls of `Screen()` yield one and the same object. */
  method ScreenIsOneInstance() returns (same: bool, id: Id)
    ensures same
    ensures id == 0
  {
    var holder := new ScreenHolder();
    var s1 := Screen(holder);
    var s2 := Screen(holder);
    same := s1 == s2;
    id := s1.id;
  }

  /**
    The cache starts with no entries, which read as 0: binding the screen to
    any target before anything else was bound there makes no call.
  */
  method BindScreenFirst(t: uint32) returns (trace: seq<Call>, cached: Id)
    ensures trace == []
    ensures cached == 0
  {
    var gl := new Context(true, false, false);
    var holder := new ScreenHolder();
    var s := Screen(holder);
    s.BindTarget(gl, t);
    trace := gl.trace;
    cached := Lookup(gl.boundFramebuffer, t);
  }

  /**
    Binding to `GL_FRAMEBUFFER` records nothing for `GL_READ_FRAMEBUFFER`:
    each target is its own cache key, so the following read-target unbind
    makes no call. (Section 9.2 of the OpenGL 4.6 Core Profile specification
    makes a `GL_FRAMEBUFFER` bind set the read binding too; the model's
    trace keys do not capture that aliasing.)
  */
  method ReadTargetIsSeparateKey(newId: Id) returns (unbindRead: seq<Call>, cachedRead: Id, cachedBoth: Id)
    requires newId != 0
    ensures unbindRead == []
    ensures cachedRead == 0
    ensures cachedBoth == newId
  {
    var gl := new Context(true, false, false);
    var fb := new Framebuffer(gl, GL_FRAMEBUFFER, newId);
    fb.BindTarget(gl, GL_FRAMEBUFFER);
    var before := gl.trace;
    Framebuffer.BindNone(gl, GL_READ_FRAMEBUFFER);
    assert gl.trace == before;
    unbindRead := gl.trace[|before|..];
    cachedRead := Lookup(gl.boundFramebuffer, GL_READ_FRAMEBUFFER);
    cachedBoth := Lookup(gl.boundFramebuffer, GL_FRAMEBUFFER);
  }
}
