/**
  Renderbuffer objects (`src/core/Renderbuffer.cpp`), cached in the single
  slot `Renderbuffer::s_boundRenderbuffer` of the context.

  `BindNone` issues `glBindBuffer(GL_RENDERBUFFER, 0)`, a buffer-object call
  with a target that is not a buffer target; it unbinds no renderbuffer,
  and the model records it as a call that binds nothing.
*/
module Renderbuffers {
  import opened GL

  class Renderbuffer {
    /** the GL name from `glGenRenderbuffers` */
    const id: Id

    /** `Renderbuffer()`: generates one renderbuffer name (`newId`, the driver's answer). */
    constructor (gl: Context, newId: Id)
      modifies gl`trace
      ensures id == newId
      ensures gl.trace == old(gl.trace) + [GenRenderbuffers(newId)]
      ensures old(gl.Coherent()) ==> gl.Coherent()
    {
      id := newId;
      new;
      gl.Issue(GenRenderbuffers(newId));
    }

    /** `Renderbuffer(internalformat, width, height)`: generates a name, then runs `SetStorage`. */
    constructor WithStorage(gl: Context, newId: Id, internalFormat: uint32, width: int32, height: int32)
      modifies gl`boundRenderbuffer, gl`trace
      ensures id == newId
      ensures gl.trace == old(gl.trace) + [GenRenderbuffers(newId)]
                + Bracket(gl.preventMultipleBind, gl.ensureUnbind, old(gl.boundRenderbuffer), newId,
                          BindRenderbuffer(GL_RENDERBUFFER, newId),
                          RenderbufferStorage(GL_RENDERBUFFER, internalFormat, width, height),
                          BindBuffer(GL_RENDERBUFFER, 0))
      ensures gl.boundRenderbuffer == UnitCache(gl.preventMultipleBind, gl.ensureUnbind, old(gl.boundRenderbuffer), newId)
    {
      id := newId;
      new;
      gl.Issue(GenRenderbuffers(newId));
      SetStorage(gl, internalFormat, width, height);
    }

    /**
      `Renderbuffer::Bind()`. With caching on the real bind is elided when
      the slot already holds this renderbuffer; afterwards it does.
    */
    method Bind(gl: Context)
      modifies gl`boundRenderbuffer, gl`trace
      ensures gl.trace == old(gl.trace) + BindIfChanged(gl.preventMultipleBind, old(gl.boundRenderbuffer), id, BindRenderbuffer(GL_RENDERBUFFER, id))
      ensures gl.boundRenderbuffer == if gl.preventMultipleBind then id else old(gl.boundRenderbuffer)
      ensures gl.preventMultipleBind && old(gl.Coherent()) ==> gl.Coherent()
    {
      ghost var cs0, tr0 := gl.Caches(), gl.trace;
      if gl.preventMultipleBind {
        if gl.boundRenderbuffer == id {
          return;
        }
        gl.boundRenderbuffer := id;
      }
      gl.IssueBinding(BindRenderbuffer(GL_RENDERBUFFER, id));
      if gl.preventMultipleBind && CoherentWith(cs0, tr0) {
        assert gl.Caches() == Update(cs0, RenderbufferSlot, id);
        RecordedBindKeepsCoherence(cs0, gl.Caches(), tr0, BindRenderbuffer(GL_RENDERBUFFER, id));
      }
    }

    /**
      `Renderbuffer::BindNone()`. With caching on it does nothing when the
      slot holds 0; otherwise it clears the slot and issues
      `glBindBuffer(GL_RENDERBUFFER, 0)`, which unbinds no renderbuffer: from
      agreeing caches, the caches still agree afterwards exactly when the
      slot already held 0.
    */
    static method BindNone(gl: Context)
      modifies gl`boundRenderbuffer, gl`trace
      ensures gl.trace == old(gl.trace) + BindIfChanged(gl.preventMultipleBind, old(gl.boundRenderbuffer), 0, BindBuffer(GL_RENDERBUFFER, 0))
      ensures gl.boundRenderbuffer == if gl.preventMultipleBind then 0 else old(gl.boundRenderbuffer)
      ensures gl.preventMultipleBind && old(gl.Coherent()) ==> (gl.Coherent() <==> old(gl.boundRenderbuffer) == 0)
    {
      ghost var cs0, tr0 := gl.Caches(), gl.trace;
      if gl.preventMultipleBind {
        if gl.boundRenderbuffer == 0 {
          return;
        }
        gl.boundRenderbuffer := 0;
      }
      gl.Issue(BindBuffer(GL_RENDERBUFFER, 0));
      if gl.preventMultipleBind && CoherentWith(cs0, tr0) {
        LastIssuedAppend(tr0, BindBuffer(GL_RENDERBUFFER, 0), RenderbufferSlot);
        assert CachedIn(gl.Caches(), RenderbufferSlot) != LastIssued(gl.trace, RenderbufferSlot);
      }
    }

    /**
      `Renderbuffer::SetStorage`: `glRenderbufferStorage` between a bind and,
      with `GLFK_ENSURE_UNBIND`, an unbind. With caching on and no
      ensure-unbind the slot is left holding this renderbuffer and the caches
      keep agreeing; with ensure-unbind the slot ends at 0 and they agree
      afterwards only if this renderbuffer's name is 0.
    */
    method SetStorage(gl: Context, internalFormat: uint32, width: int32, height: int32)
      modifies gl`boundRenderbuffer, gl`trace
      ensures gl.trace == old(gl.trace)
                + Bracket(gl.preventMultipleBind, gl.ensureUnbind, old(gl.boundRenderbuffer), id,
                          BindRenderbuffer(GL_RENDERBUFFER, id),
                          RenderbufferStorage(GL_RENDERBUFFER, internalFormat, width, height),
                          BindBuffer(GL_RENDERBUFFER, 0))
      ensures gl.boundRenderbuffer == UnitCache(gl.preventMultipleBind, gl.ensureUnbind, old(gl.boundRenderbuffer), id)
      ensures gl.preventMultipleBind && !gl.ensureUnbind && old(gl.Coherent()) ==> gl.Coherent()
      ensures gl.preventMultipleBind && gl.ensureUnbind && old(gl.Coherent()) ==> (gl.Coherent() <==> id == 0)
    {
      Bind(gl);
      gl.Issue(RenderbufferStorage(GL_RENDERBUFFER, internalFormat, width, height));
      if gl.ensureUnbind {
        BindNone(gl);
      }
    }
  }

  /** A single-slot cache after one bracket that starts from `cached`. */
  function UnitCache(prevent: bool, ensureUnbind: bool, cached: Id, id: Id): (r: Id)
    ensures !prevent ==> r == cached
    ensures prevent && ensureUnbind ==> r == 0
    ensures prevent && !ensureUnbind ==> r == id
  {
    if !prevent then cached else if ensureUnbind then 0 else id
  }

  /**
    With caching on and no ensure-unbind, the calls that build a
    renderbuffer with storage leave it the last renderbuffer bound.
  */
  lemma SizedTrace(trace: seq<Call>, newId: Id, format: uint32, width: int32, height: int32)
    requires trace == [GenRenderbuffers(newId)]
                      + Bracket(true, false, 0, newId, BindRenderbuffer(GL_RENDERBUFFER, newId),
                                RenderbufferStorage(GL_RENDERBUFFER, format, width, height), BindBuffer(GL_RENDERBUFFER, 0))
    ensures LastIssued(trace, RenderbufferSlot) == newId
  {
    var gen, storage := GenRenderbuffers(newId), RenderbufferStorage(GL_RENDERBUFFER, format, width, height);
    LastIssuedAppend([], gen, RenderbufferSlot);
    if newId == 0 {
      assert trace == [] + [gen] + [storage];
      LastIssuedAppend([gen], storage, RenderbufferSlot);
    } else {
      var bind := BindRenderbuffer(GL_RENDERBUFFER, newId);
      assert trace == [] + [gen] + [bind] + [storage];
      LastIssuedAppend([gen] + [bind], storage, RenderbufferSlot);
      LastIssuedAppend([gen], bind, RenderbufferSlot);
    }
  }

  /**
    With caching on and no ensure-unbind, a renderbuffer built with storage
    is left bound, and the slot records it.
  */
  method SizedStaysBound(newId: Id) returns (cached: Id, bound: Id)
    ensures cached == newId
    ensures bound == newId
  {
    var gl := new Context(true, false, false);
    var rb := new Renderbuffer.WithStorage(gl, newId, 0, 16, 16);
    cached := gl.boundRenderbuffer;
    bound := LastIssued(gl.trace, RenderbufferSlot);
    SizedTrace(gl.trace, newId, 0, 16, 16);
  }

  /**
    With caching and ensure-unbind on, a renderbuffer built with storage
    ends with the slot at 0 while it is still the last renderbuffer bound:
    the closing call is `glBindBuffer`.
  */
  method EnsureUnbindLeavesItBound(newId: Id) returns (cached: Id, bound: Id, closing: Call)
    requires newId != 0
    ensures cached == 0
    ensures bound == newId
    ensures closing == BindBuffer(GL_RENDERBUFFER, 0)
  {
    var gl := new Context(true, true, false);
    var rb := new Renderbuffer.WithStorage(gl, newId, 0, 16, 16);
    cached := gl.boundRenderbuffer;
    bound := LastIssued(gl.trace, RenderbufferSlot);
    closing := gl.trace[|gl.trace| - 1];
    var t1 := [GenRenderbuffers(newId), BindRenderbuffer(GL_RENDERBUFFER, newId)];
    var t2 := t1 + [RenderbufferStorage(GL_RENDERBUFFER, 0, 16, 16)];
    assert gl.trace == t2 + [BindBuffer(GL_RENDERBUFFER, 0)];
    LastIssuedAppend(t2, BindBuffer(GL_RENDERBUFFER, 0), RenderbufferSlot);
    LastIssuedAppend(t1, RenderbufferStorage(GL_RENDERBUFFER, 0, 16, 16), RenderbufferSlot);
    LastIssuedAppend([GenRenderbuffers(newId)], BindRenderbuffer(GL_RENDERBUFFER, newId), RenderbufferSlot);
    assert [GenRenderbuffers(newId)] + [BindRenderbuffer(GL_RENDERBUFFER, newId)] == t1;
  }
}
