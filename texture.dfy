/**
  Texture units and textures (`src/core/Texture.cpp`).

  `TextureUnit` is a value: a 0-based unit index. `Texture` is an object with
  a fixed target, a GL name, a validity flag and the unit it was last put on.
  Binding goes through the caches of the context: the active unit
  (`TextureUnit::s_activeUnit`) and the per-target map
  (`BaseTexture::s_boundTextureToTarget`).
*/
module Textures {
  import opened GL
  import Renderer

  /** `GL_TEXTURE0 + u` in unsigned arithmetic: the enumerant `glActiveTexture` receives for unit `u`. */
  function UnitEnum(u: uint32): (e: uint32)
    ensures Binds(ActiveTexture(e)) == Some((ActiveUnit, u))
  {
    var e := Wrap(GL_TEXTURE0 + u);
    assert Wrap(e - GL_TEXTURE0) == u by {
      if GL_TEXTURE0 + u < 0x1_0000_0000 {
        assert e - GL_TEXTURE0 == u;
      } else {
        assert e - GL_TEXTURE0 == u - 0x1_0000_0000;
      }
    }
    e
  }

  /**
    `unitToSet` of `TextureUnit::BindNone`: `GetMaxTextureUnits() - 1` in
    unsigned arithmetic, so a maximum of 0 wraps to the largest unit.
  */
  function LastUnit(max: uint32): (u: uint32)
    ensures max > 0 ==> u == max - 1
    ensures max == 0 ==> u == 0xFFFF_FFFF
  {
    Wrap(max - 1)
  }

  /** A texture unit, by its 0-based index. */
  datatype TextureUnit = TextureUnit(unit: uint32)
  {
    /**
      `TextureUnit::Bind()`: activates this unit. With caching on the call is
      elided when the unit is already active, and the cache then holds it.
    */
    method Bind(gl: Context)
      modifies gl`activeUnit, gl`trace
      ensures gl.trace == old(gl.trace) + BindIfChanged(gl.preventMultipleBind, old(gl.activeUnit), unit, ActiveTexture(UnitEnum(unit)))
      ensures gl.activeUnit == if gl.preventMultipleBind then unit else old(gl.activeUnit)
      ensures gl.preventMultipleBind && old(gl.Coherent()) ==> gl.Coherent()
    {
      ghost var cs0, tr0 := gl.Caches(), gl.trace;
      if gl.preventMultipleBind {
        if gl.activeUnit == unit {
          return;
        }
        gl.activeUnit := unit;
      }
      gl.IssueBinding(ActiveTexture(UnitEnum(unit)));
      if gl.preventMultipleBind && CoherentWith(cs0, tr0) {
        assert gl.Caches() == Update(cs0, ActiveUnit, unit);
        RecordedBindKeepsCoherence(cs0, gl.Caches(), tr0, ActiveTexture(UnitEnum(unit)));
      }
    }

    /**
      `TextureUnit::BindNone()`: activates the last unit,
      `GetMaxTextureUnits() - 1`, so that binds and unbinds on lower units do
      not disturb each other. `answer` is what the unit-count query would
      return if it is made.
    */
    static method BindNone(gl: Context, answer: int32)
      modifies gl`activeUnit, gl`maxTextureUnits, gl`trace
      ensures gl.maxTextureUnits == Renderer.MaxUnitsValue(old(gl.maxTextureUnits), answer)
      ensures gl.trace == old(gl.trace) + Renderer.MaxUnitsQuery(old(gl.maxTextureUnits))
                + BindIfChanged(gl.preventMultipleBind, old(gl.activeUnit), LastUnit(gl.maxTextureUnits),
                                ActiveTexture(UnitEnum(LastUnit(gl.maxTextureUnits))))
      ensures gl.activeUnit == if gl.preventMultipleBind then LastUnit(gl.maxTextureUnits) else old(gl.activeUnit)
      ensures gl.preventMultipleBind && old(gl.Coherent()) ==> gl.Coherent()
    {
      var max := Renderer.GetMaxTextureUnits(gl, answer);
      var unitToSet := TextureUnit(LastUnit(max));
      unitToSet.Bind(gl);
    }
  }

  /**
    `TextureUnit(unsigned unit)`: accepts either a 0-based index or a
    `GL_TEXTUREi` enumerant and stores the index.
  */
  function NewTextureUnit(u: uint32): (tu: TextureUnit)
    ensures u < GL_TEXTURE0 ==> tu.unit == u
    ensures u >= GL_TEXTURE0 ==> UnitEnum(tu.unit) == u
  {
    var e := if u < GL_TEXTURE0 then GL_TEXTURE0 + u else u;
    TextureUnit(e - GL_TEXTURE0)
  }

  /** Index `k` and enumerant `GL_TEXTURE0 + k` name the same unit. */
  lemma IndexAndEnumNameSameUnit(k: uint32)
    requires k < GL_TEXTURE0
    ensures NewTextureUnit(k) == NewTextureUnit(GL_TEXTURE0 + k) == TextureUnit(k)
  {
  }

  /** `Texture` with its `BaseTexture` part: one GL texture object of a fixed target. */
  class Texture {
    /** `_target` */
    const target: uint32
    /** the GL name from `glGenTextures` */
    const id: Id
    /** `_valid`: image data has been supplied */
    var valid: bool
    /** `_unit`, not set until `SetTextureUnit` */
    var unit: Option<TextureUnit>

    /** `Texture(target)`: generates one texture name (`newId`, the driver's answer). */
    constructor (gl: Context, target: uint32, newId: Id)
      modifies gl`trace
      ensures this.target == target && id == newId
      ensures !valid && unit == None
      ensures gl.trace == old(gl.trace) + [GenTextures(newId)]
      ensures old(gl.Coherent()) ==> gl.Coherent()
    {
      this.target := target;
      id := newId;
      valid := false;
      unit := None;
      new;
      gl.Issue(GenTextures(newId));
    }

    /**
      `BaseTexture::Bind(target)`. With caching on the real bind is elided
      when the cache already holds this texture for `t`; afterwards the cache
      holds it for `t` and every other target is as it was.
    */
    method BindTarget(gl: Context, t: uint32)
      modifies gl`boundTexture, gl`trace
      ensures gl.trace == old(gl.trace) + BindIfChanged(gl.preventMultipleBind, Lookup(old(gl.boundTexture), t), id, BindTexture(t, id))
      ensures gl.boundTexture == if gl.preventMultipleBind then old(gl.boundTexture)[t := id] else old(gl.boundTexture)
      ensures gl.preventMultipleBind && old(gl.Coherent()) ==> gl.Coherent()
    {
      ghost var cs0, tr0 := gl.Caches(), gl.trace;
      if gl.preventMultipleBind {
        gl.boundTexture := Touch(gl.boundTexture, t);
        if gl.boundTexture[t] == id {
          if CoherentWith(cs0, tr0) {
            assert gl.Caches() == Update(cs0, TextureTarget(t), id);
            ElidedBindKeepsCoherence(cs0, gl.Caches(), tr0, TextureTarget(t), id);
          }
          return;
        }
        gl.boundTexture := gl.boundTexture[t := id];
      }
      gl.IssueBinding(BindTexture(t, id));
      if gl.preventMultipleBind && CoherentWith(cs0, tr0) {
        assert gl.Caches() == Update(cs0, TextureTarget(t), id);
        RecordedBindKeepsCoherence(cs0, gl.Caches(), tr0, BindTexture(t, id));
      }
    }

    /** `BaseTexture::BindNone(target)`: binds texture 0 to `t`, elided when the cache already holds 0. */
    static method BindNone(gl: Context, t: uint32)
      modifies gl`boundTexture, gl`trace
      ensures gl.trace == old(gl.trace) + BindIfChanged(gl.preventMultipleBind, Lookup(old(gl.boundTexture), t), 0, BindTexture(t, 0))
      ensures gl.boundTexture == if gl.preventMultipleBind then old(gl.boundTexture)[t := 0] else old(gl.boundTexture)
      ensures gl.preventMultipleBind && old(gl.Coherent()) ==> gl.Coherent()
    {
      ghost var cs0, tr0 := gl.Caches(), gl.trace;
      if gl.preventMultipleBind {
        gl.boundTexture := Touch(gl.boundTexture, t);
        if gl.boundTexture[t] == 0 {
          if CoherentWith(cs0, tr0) {
            assert gl.Caches() == Update(cs0, TextureTarget(t), 0);
            ElidedBindKeepsCoherence(cs0, gl.Caches(), tr0, TextureTarget(t), 0);
          }
          return;
        }
        gl.boundTexture := gl.boundTexture[t := 0];
      }
      gl.IssueBinding(BindTexture(t, 0));
      if gl.preventMultipleBind && CoherentWith(cs0, tr0) {
        assert gl.Caches() == Update(cs0, TextureTarget(t), 0);
        RecordedBindKeepsCoherence(cs0, gl.Caches(), tr0, BindTexture(t, 0));
      }
    }

    /**
      One `GLFK_AUTO_BIND(t)` / `op` / `GLFK_AUTO_UNBIND(t)` bracket on
      target `t`: the unbind half exists only with `GLFK_ENSURE_UNBIND`.
    */
    method Bracketed(gl: Context, t: uint32, op: Call)
      requires Binds(op).None?
      modifies gl`boundTexture, gl`trace
      ensures gl.trace == old(gl.trace) + Bracket(gl.preventMultipleBind, gl.ensureUnbind, Lookup(old(gl.boundTexture), t), id,
                                                 BindTexture(t, id), op, BindTexture(t, 0))
      ensures gl.boundTexture == BracketCache(gl.preventMultipleBind, gl.ensureUnbind, old(gl.boundTexture), t, id)
      ensures gl.preventMultipleBind && old(gl.Coherent()) ==> gl.Coherent()
    {
      BindTarget(gl, t);
      gl.Issue(op);
      if gl.ensureUnbind {
        BindNone(gl, t);
        assert old(gl.boundTexture)[t := id][t := 0] == old(gl.boundTexture)[t := 0];
      }
    }

    /** `BaseTexture::GenerateMipmap(target)`; a `DEBUG` build asserts the texture holds data. */
    method GenerateMipmap(gl: Context, t: uint32)
      requires gl.debug ==> valid
      modifies gl`boundTexture, gl`trace
      ensures gl.trace == old(gl.trace) + Bracket(gl.preventMultipleBind, gl.ensureUnbind, Lookup(old(gl.boundTexture), t), id,
                                                 BindTexture(t, id), Call.GenerateMipmap(t), BindTexture(t, 0))
      ensures gl.boundTexture == BracketCache(gl.preventMultipleBind, gl.ensureUnbind, old(gl.boundTexture), t, id)
      ensures gl.preventMultipleBind && old(gl.Coherent()) ==> gl.Coherent()
    {
      Bracketed(gl, t, Call.GenerateMipmap(t));
    }

    /** `Texture1D::SetImage`: uploads image data with a bracket on the texture's own target. */
    method SetImage1D(gl: Context, level: int32, internalFormat: uint32, width: int32, format: uint32, dataType: uint32)
      requires target == GL_TEXTURE_1D
      modifies this`valid, gl`boundTexture, gl`trace
      ensures valid
      ensures gl.trace == old(gl.trace) + Bracket(gl.preventMultipleBind, gl.ensureUnbind, Lookup(old(gl.boundTexture), target), id,
                                                 BindTexture(target, id), TexImage(target, level, internalFormat, [width], format, dataType),
                                                 BindTexture(target, 0))
      ensures gl.boundTexture == BracketCache(gl.preventMultipleBind, gl.ensureUnbind, old(gl.boundTexture), target, id)
      ensures gl.preventMultipleBind && old(gl.Coherent()) ==> gl.Coherent()
    {
      Bracketed(gl, target, TexImage(target, level, internalFormat, [width], format, dataType));
      valid := true;
    }

    /** `Texture2D::SetImage` */
    method SetImage2D(gl: Context, level: int32, internalFormat: uint32, width: int32, height: int32, format: uint32, dataType: uint32)
      requires target == GL_TEXTURE_2D
      modifies this`valid, gl`boundTexture, gl`trace
      ensures valid
      ensures gl.trace == old(gl.trace) + Bracket(gl.preventMultipleBind, gl.ensureUnbind, Lookup(old(gl.boundTexture), target), id,
                                                 BindTexture(target, id), TexImage(target, level, internalFormat, [width, height], format, dataType),
                                                 BindTexture(target, 0))
      ensures gl.boundTexture == BracketCache(gl.preventMultipleBind, gl.ensureUnbind, old(gl.boundTexture), target, id)
      ensures gl.preventMultipleBind && old(gl.Coherent()) ==> gl.Coherent()
    {
      Bracketed(gl, target, TexImage(target, level, internalFormat, [width, height], format, dataType));
      valid := true;
    }

    /** `Texture3D::SetImage` */
    method SetImage3D(gl: Context, level: int32, internalFormat: uint32, width: int32, height: int32, depth: int32,
                      format: uint32, dataType: uint32)
      requires target == GL_TEXTURE_3D
      modifies this`valid, gl`boundTexture, gl`trace
      ensures valid
      ensures gl.trace == old(gl.trace) + Bracket(gl.preventMultipleBind, gl.ensureUnbind, Lookup(old(gl.boundTexture), target), id,
                                                 BindTexture(target, id),
                                                 TexImage(target, level, internalFormat, [width, height, depth], format, dataType),
                                                 BindTexture(target, 0))
      ensures gl.boundTexture == BracketCache(gl.preventMultipleBind, gl.ensureUnbind, old(gl.boundTexture), target, id)
      ensures gl.preventMultipleBind && old(gl.Coherent()) ==> gl.Coherent()
    {
      Bracketed(gl, target, TexImage(target, level, internalFormat, [width, height, depth], format, dataType));
      valid := true;
    }

    /**
      `TextureCube::SetImage`: the bracket binds the cube-map target, the
      upload goes to one `face` target.
    */
    method SetImageCube(gl: Context, face: uint32, level: int32, internalFormat: uint32, width: int32, height: int32,
                        format: uint32, dataType: uint32)
      requires target == GL_TEXTURE_CUBE_MAP
      modifies this`valid, gl`boundTexture, gl`trace
      ensures valid
      ensures gl.trace == old(gl.trace) + Bracket(gl.preventMultipleBind, gl.ensureUnbind, Lookup(old(gl.boundTexture), target), id,
                                                 BindTexture(target, id), TexImage(face, level, internalFormat, [width, height], format, dataType),
                                                 BindTexture(target, 0))
      ensures gl.boundTexture == BracketCache(gl.preventMultipleBind, gl.ensureUnbind, old(gl.boundTexture), target, id)
      ensures gl.preventMultipleBind && old(gl.Coherent()) ==> gl.Coherent()
    {
      Bracketed(gl, target, TexImage(face, level, internalFormat, [width, height], format, dataType));
      valid := true;
    }

    /**
      `Texture::SetTextureUnit(unit)`: records the unit, activates it,
      force-binds this texture with a real `glBindTexture` that the target
      cache does not see, then parks the active unit on the last unit and,
      with `GLFK_ENSURE_UNBIND`, unbinds the target.

      Because the force-bind is not recorded, with caching on the caches end
      up agreeing with the trace exactly when the cache already held this
      texture for the target, or the final unbind was really issued (the
      cache held some other, non-zero texture).
    */
    method SetTextureUnit(gl: Context, u: TextureUnit, answer: int32)
      modifies this`unit, gl`activeUnit, gl`maxTextureUnits, gl`boundTexture, gl`trace
      ensures unit == Some(u)
      ensures gl.maxTextureUnits == Renderer.MaxUnitsValue(old(gl.maxTextureUnits), answer)
      ensures gl.trace == old(gl.trace)
                + BindIfChanged(gl.preventMultipleBind, old(gl.activeUnit), u.unit, ActiveTexture(UnitEnum(u.unit)))
                + [BindTexture(target, id)]
                + Renderer.MaxUnitsQuery(old(gl.maxTextureUnits))
                + BindIfChanged(gl.preventMultipleBind, u.unit, LastUnit(gl.maxTextureUnits), ActiveTexture(UnitEnum(LastUnit(gl.maxTextureUnits))))
                + (if gl.ensureUnbind then BindIfChanged(gl.preventMultipleBind, Lookup(old(gl.boundTexture), target), 0, BindTexture(target, 0)) else [])
      ensures gl.activeUnit == if gl.preventMultipleBind then LastUnit(gl.maxTextureUnits) else old(gl.activeUnit)
      ensures gl.boundTexture == if gl.preventMultipleBind && gl.ensureUnbind then old(gl.boundTexture)[target := 0] else old(gl.boundTexture)
      ensures gl.preventMultipleBind ==>
                LastIssued(gl.trace, TextureTarget(target)) == if gl.ensureUnbind && Lookup(old(gl.boundTexture), target) != 0 then 0 else id
      ensures gl.preventMultipleBind && Lookup(old(gl.boundTexture), target) != id
                && (gl.ensureUnbind ==> Lookup(old(gl.boundTexture), target) == 0)
              ==> !gl.Coherent()
      ensures gl.preventMultipleBind && old(gl.Coherent())
                && (Lookup(old(gl.boundTexture), target) == id || (gl.ensureUnbind && Lookup(old(gl.boundTexture), target) != 0))
              ==> gl.Coherent()
    {
      unit := Some(u);
      ghost var c := Lookup(gl.boundTexture, target);
      ghost var coherent0 := gl.Coherent();
      ghost var q := Renderer.MaxUnitsQuery(gl.maxTextureUnits);
      u.Bind(gl);
      ghost var cs1, tr1 := gl.Caches(), gl.trace;
      gl.IssueBinding(BindTexture(target, id));
      TextureUnit.BindNone(gl, answer);
      if gl.ensureUnbind {
        BindNone(gl, target);
      }
      if gl.preventMultipleBind {
        ghost var last := LastUnit(gl.maxTextureUnits);
        ghost var b2 := BindIfChanged(true, u.unit, last, ActiveTexture(UnitEnum(last)));
        ghost var unbound := if gl.ensureUnbind then BindIfChanged(true, c, 0, BindTexture(target, 0)) else [];
        assert gl.trace == tr1 + [BindTexture(target, id)] + q + b2 + unbound;
        ForceBindSticks(tr1, target, id, q, b2, last, unbound);
        if coherent0 && (c == id || (gl.ensureUnbind && c != 0)) {
          ForceBindResync(cs1, gl.Caches(), tr1, target, id, q, b2, last, unbound);
        }
        if c != id && (gl.ensureUnbind ==> c == 0) {
          assert CachedIn(gl.Caches(), TextureTarget(target)) != LastIssued(gl.trace, TextureTarget(target));
        }
      }
    }
  }

  /** The calls `TextureUnit::BindNone` can issue: at most one count query, then at most one activation of `last`. */
  ghost predicate ParkingCalls(q: seq<Call>, b2: seq<Call>, last: uint32)
  {
    (q == [] || q == [GetIntegerv(GL_MAX_COMBINED_TEXTURE_IMAGE_UNITS)]) &&
    (b2 == [] || b2 == [ActiveTexture(UnitEnum(last))])
  }

  /**
    After the force-bind of `SetTextureUnit`, `id` stays the last name issued
    for the target through the parking of the active unit, until a real
    unbind.
  */
  lemma {:induction false} ForceBindSticks(tr1: seq<Call>, target: uint32, id: Id, q: seq<Call>, b2: seq<Call>, last: uint32, unbound: seq<Call>)
    requires ParkingCalls(q, b2, last)
    requires unbound == [] || unbound == [BindTexture(target, 0)]
    ensures LastIssued(tr1 + [BindTexture(target, id)] + q + b2 + unbound, TextureTarget(target)) == if unbound == [] then id else 0
  {
    var tt := TextureTarget(target);
    var tr2 := tr1 + [BindTexture(target, id)];
    LastIssuedAppend(tr1, BindTexture(target, id), tt);
    var parked := q + b2;
    assert forall i :: 0 <= i < |parked| ==>
      parked[i] == GetIntegerv(GL_MAX_COMBINED_TEXTURE_IMAGE_UNITS) || parked[i] == ActiveTexture(UnitEnum(last));
    LastIssuedSkip(tr2, parked, tt);
    assert tr2 + q + b2 == tr2 + parked;
    if unbound == [] {
      assert tr2 + q + b2 + unbound == tr2 + parked;
    } else {
      LastIssuedAppend(tr2 + parked, BindTexture(target, 0), tt);
    }
  }

  /**
    The caches after `SetTextureUnit` agree with the trace when they agreed
    after its first step and the target entry ends up holding the name last
    issued for it.
  */
  lemma {:induction false} ForceBindResync(cs1: CacheState, csF: CacheState, tr1: seq<Call>, target: uint32, id: Id,
                                           q: seq<Call>, b2: seq<Call>, last: uint32, unbound: seq<Call>)
    requires CoherentWith(cs1, tr1)
    requires ParkingCalls(q, b2, last)
    requires b2 == [] ==> CachedIn(cs1, ActiveUnit) == last
    requires unbound == [] || unbound == [BindTexture(target, 0)]
    requires CachedIn(csF, ActiveUnit) == last
    requires CachedIn(csF, TextureTarget(target)) == if unbound == [] then id else 0
    requires csF.framebuffers == cs1.framebuffers && csF.renderbuffer == cs1.renderbuffer && csF.program == cs1.program
    requires forall t :: t != target ==> Lookup(csF.textures, t) == Lookup(cs1.textures, t)
    ensures CoherentWith(csF, tr1 + [BindTexture(target, id)] + q + b2 + unbound)
  {
    forall s ensures CachedIn(csF, s) == LastIssued(tr1 + [BindTexture(target, id)] + q + b2 + unbound, s) {
      if s == TextureTarget(target) {
        ForceBindSticks(tr1, target, id, q, b2, last, unbound);
      } else if s == ActiveUnit {
        ParkedUnit(tr1, target, id, q, b2, last, unbound);
      } else {
        ForceBindElsewhere(tr1, target, id, q, b2, last, unbound, s);
      }
    }
  }

  /** Through the force-bind and the parking, the active unit ends at `last` if it was activated, else where it was. */
  lemma {:induction false} ParkedUnit(tr1: seq<Call>, target: uint32, id: Id, q: seq<Call>, b2: seq<Call>, last: uint32, unbound: seq<Call>)
    requires ParkingCalls(q, b2, last)
    requires unbound == [] || unbound == [BindTexture(target, 0)]
    ensures LastIssued(tr1 + [BindTexture(target, id)] + q + b2 + unbound, ActiveUnit) ==
              if b2 == [] then LastIssued(tr1, ActiveUnit) else last
  {
    var force := BindTexture(target, id);
    LastIssuedSkip(tr1 + [force] + q + b2, unbound, ActiveUnit);
    if b2 == [] {
      assert tr1 + [force] + q + b2 == tr1 + ([force] + q);
      assert forall i :: 0 <= i < |[force] + q| ==> ([force] + q)[i] == force || ([force] + q)[i] in q;
      LastIssuedSkip(tr1, [force] + q, ActiveUnit);
    } else {
      LastIssuedAppend(tr1 + [force] + q, b2[0], ActiveUnit);
    }
  }

  /** The force-bind, the parking and the unbind leave every other slot as it was. */
  lemma {:induction false} ForceBindElsewhere(tr1: seq<Call>, target: uint32, id: Id, q: seq<Call>, b2: seq<Call>, last: uint32,
                                              unbound: seq<Call>, s: Slot)
    requires ParkingCalls(q, b2, last)
    requires unbound == [] || unbound == [BindTexture(target, 0)]
    requires s != ActiveUnit && s != TextureTarget(target)
    ensures LastIssued(tr1 + [BindTexture(target, id)] + q + b2 + unbound, s) == LastIssued(tr1, s)
  {
    var rest := [BindTexture(target, id)] + q + b2 + unbound;
    assert tr1 + [BindTexture(target, id)] + q + b2 + unbound == tr1 + rest;
    assert forall i :: 0 <= i < |rest| ==> rest[i] == BindTexture(target, id) || rest[i] in q || rest[i] in b2 || rest[i] in unbound;
    LastIssuedSkip(tr1, rest, s);
  }

  /**
    `BaseTexture::BindNone(t)` twice in a row: with caching on, the pair
    issues at most one real call, the one the first call would issue.
  */
  method BindNoneTwice(gl: Context, t: uint32)
    requires gl.preventMultipleBind
    modifies gl`boundTexture, gl`trace
    ensures gl.trace == old(gl.trace) + BindIfChanged(true, Lookup(old(gl.boundTexture), t), 0, BindTexture(t, 0))
    ensures Lookup(gl.boundTexture, t) == 0
  {
    Texture.BindNone(gl, t);
    ghost var tr1 := gl.trace;
    Texture.BindNone(gl, t);
    assert gl.trace == tr1;
  }

  /**
    With caching on and no ensure-unbind, `SetTextureUnit` of texture 2
    while texture 1 is cached for `GL_TEXTURE_2D` makes 2 the last name
    issued for that target but leaves the cache saying 1, so the next bind
    of texture 1 makes no call.
  */
  method ForceBindLeavesStaleCache(answer: int32) returns (rebind: seq<Call>, bound: Id, cached: Id)
    ensures rebind == []
    ensures bound == 2
    ensures cached == 1
  {
    var gl := new Context(true, false, false);
    var a := new Texture(gl, GL_TEXTURE_2D, 1);
    var b := new Texture(gl, GL_TEXTURE_2D, 2);
    a.BindTarget(gl, GL_TEXTURE_2D);
    b.SetTextureUnit(gl, TextureUnit(0), answer);
    assert LastIssued(gl.trace, TextureTarget(GL_TEXTURE_2D)) == 2;
    var before := gl.trace;
    a.BindTarget(gl, GL_TEXTURE_2D);
    assert gl.trace == before;
    rebind := gl.trace[|before|..];
    bound := LastIssued(gl.trace, TextureTarget(GL_TEXTURE_2D));
    cached := Lookup(gl.boundTexture, GL_TEXTURE_2D);
  }
}
