/**
  The static `Renderer` helpers that hold state: the memoised maximum number
  of texture units. The other helpers are single driver calls; `Clear` is
  kept because framebuffers call it.
*/
module Renderer {
  import opened GL

  /**
    The mask `Renderer::Clear` uses when called without arguments,
    `GL_COLOR_BUFFER_BIT | GL_DEPTH_BUFFER_BIT` (disjoint bits, so `|` is `+`).
  */
  const DEFAULT_CLEAR_MASK: uint32 := GL_COLOR_BUFFER_BIT + GL_DEPTH_BUFFER_BIT

  /** `Renderer::Clear(mask)`: one `glClear`. */
  method Clear(gl: Context, mask: uint32)
    modifies gl`trace
    ensures gl.trace == old(gl.trace) + [Call.Clear(mask)]
    ensures old(gl.Coherent()) ==> gl.Coherent()
  {
    gl.Issue(Call.Clear(mask));
  }

  /** The driver calls one `GetMaxTextureUnits` makes when the memo holds `stored`. */
  function MaxUnitsQuery(stored: uint32): (calls: seq<Call>)
    ensures calls == [] <==> stored > 0
    ensures calls == [] || calls == [GetIntegerv(GL_MAX_COMBINED_TEXTURE_IMAGE_UNITS)]
  {
    if stored > 0 then [] else [GetIntegerv(GL_MAX_COMBINED_TEXTURE_IMAGE_UNITS)]
  }

  /** The value `GetMaxTextureUnits` returns when the memo holds `stored` and the driver would answer `answer`. */
  function MaxUnitsValue(stored: uint32, answer: int32): (r: uint32)
    ensures stored > 0 ==> r == stored
    ensures stored == 0 ==> r == Wrap(answer)
  {
    if stored > 0 then stored else Wrap(answer)
  }

  /**
    `Renderer::GetMaxTextureUnits()`. `answer` is what `glGetIntegerv`
    would write; it is converted to `unsigned` as the assignment to `s_max`
    does. A positive memo is returned without a query; a zero memo (never
    queried, or the query gave 0) asks again.
  */
  method GetMaxTextureUnits(gl: Context, answer: int32) returns (r: uint32)
    modifies gl`maxTextureUnits, gl`trace
    ensures r == gl.maxTextureUnits
    ensures old(gl.maxTextureUnits) > 0 ==> r == old(gl.maxTextureUnits) && gl.trace == old(gl.trace)
    ensures old(gl.maxTextureUnits) == 0 ==>
              r == Wrap(answer) && gl.trace == old(gl.trace) + [GetIntegerv(GL_MAX_COMBINED_TEXTURE_IMAGE_UNITS)]
    ensures r == MaxUnitsValue(old(gl.maxTextureUnits), answer)
    ensures gl.trace == old(gl.trace) + MaxUnitsQuery(old(gl.maxTextureUnits))
    ensures old(gl.Coherent()) ==> gl.Coherent()
  {
    if gl.maxTextureUnits > 0 {
      return gl.maxTextureUnits;
    }
    gl.Issue(GetIntegerv(GL_MAX_COMBINED_TEXTURE_IMAGE_UNITS));
    gl.maxTextureUnits := Wrap(answer);
    r := gl.maxTextureUnits;
  }

  /**
    Two calls in a row on a fresh context: when the first query answers a
    positive count, the second call returns it without querying again; when it
    answers 0, the second call queries again.
  */
  method MaxUnitsMemoised(first: int32, second: int32) returns (r1: uint32, r2: uint32, trace: seq<Call>)
    ensures r1 == Wrap(first)
    ensures first > 0 ==> r2 == r1 && trace == [GetIntegerv(GL_MAX_COMBINED_TEXTURE_IMAGE_UNITS)]
    ensures first == 0 ==>
              r2 == Wrap(second) &&
              trace == [GetIntegerv(GL_MAX_COMBINED_TEXTURE_IMAGE_UNITS), GetIntegerv(GL_MAX_COMBINED_TEXTURE_IMAGE_UNITS)]
  {
    var gl := new Context(true, false, false);
    r1 := GetMaxTextureUnits(gl, first);
    r2 := GetMaxTextureUnits(gl, second);
    trace := gl.trace;
  }
}
