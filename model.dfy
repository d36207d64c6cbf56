/**
  Meshes and models (`src/extra/Model.cpp`): the vertex and index arrays
  `AddFace` grows, the `Model` that owns a program, an index buffer and
  vertex buffers, and the plane and box meshes built from faces.

  The glm vectors are exact reals here; buffers are opaque handles, since
  the buffer and vertex-array classes they come from are not part of this
  model.
*/
module Models {
  import opened GL
  import opened Shaders

  /** `ModelAttribute`: the attribute indices `SetProgram` binds names to. */
  const POSITION: uint32 := 0
  const NORMAL: uint32 := 1
  const TANGENT: uint32 := 2
  const BITANGENT: uint32 := 3
  const TEXCOORD: uint32 := 4
  const COLOR: uint32 := 5

  datatype Vec3 = Vec3(x: real, y: real, z: real)

  function Plus(a: Vec3, b: Vec3): (r: Vec3)
    ensures r.x == a.x + b.x && r.y == a.y + b.y && r.z == a.z + b.z
  {
    Vec3(a.x + b.x, a.y + b.y, a.z + b.z)
  }

  function Minus(a: Vec3, b: Vec3): (r: Vec3)
    ensures Plus(b, r) == a
  {
    Vec3(a.x - b.x, a.y - b.y, a.z - b.z)
  }

  /** The cross product; the normal of a face points along it. */
  function Cross(a: Vec3, b: Vec3): Vec3
  {
    Vec3(a.y * b.z - a.z * b.y, a.z * b.x - a.x * b.z, a.x * b.y - a.y * b.x)
  }

  /** A texture coordinate; `AddFace` only uses the corners of the unit square. */
  datatype TexCoord = TexCoord(s: int, t: int)

  /** `Model::BasicVertex`: position, normal, texture coordinate. */
  datatype BasicVertex = BasicVertex(position: Vec3, normal: Vec3, texcoord: TexCoord)

  /** The four vertices of the face spanned by `right` and `up` from `origin`. */
  function FaceVertices(origin: Vec3, right: Vec3, up: Vec3): (r: seq<BasicVertex>)
    ensures |r| == 4
    ensures r[0].position == origin && r[1].position == Plus(origin, right)
    ensures r[2].position == Plus(Plus(origin, right), up) && r[3].position == Plus(origin, up)
    ensures r[0].texcoord == TexCoord(0, 0) && r[1].texcoord == TexCoord(1, 0)
    ensures r[2].texcoord == TexCoord(1, 1) && r[3].texcoord == TexCoord(0, 1)
    ensures forall i :: 0 <= i < 4 ==> r[i].normal == Cross(right, up)
  {
    var n := Cross(right, up);
    [BasicVertex(origin, n, TexCoord(0, 0)),
     BasicVertex(Plus(origin, right), n, TexCoord(1, 0)),
     BasicVertex(Plus(Plus(origin, right), up), n, TexCoord(1, 1)),
     BasicVertex(Plus(origin, up), n, TexCoord(0, 1))]
  }

  /**
    The six indices of a face whose first vertex is number `count`: the
    count is truncated to `unsigned`, and each sum wraps.
  */
  function FaceIndices(count: nat): seq<uint32>
  {
    var start: int := Wrap(count);
    [Wrap(start + 0), Wrap(start + 2), Wrap(start + 3), Wrap(start + 0), Wrap(start + 1), Wrap(start + 2)]
  }

  /**
    While the vertex count fits in 32 bits, a face's indices are the
    triangles (s, s+2, s+3) and (s, s+1, s+2): they stay among the face's
    four vertices, use each of them, and share the diagonal s to s+2.
  */
  lemma FaceIndicesSpanTheFace(s: nat)
    requires s + 4 <= 0x1_0000_0000
    ensures FaceIndices(s) == [s as uint32, (s + 2) as uint32, (s + 3) as uint32, s as uint32, (s + 1) as uint32, (s + 2) as uint32]
    ensures forall i :: 0 <= i < 6 ==> s <= FaceIndices(s)[i] as int < s + 4
    ensures forall k: uint32 :: s <= k as int < s + 4 ==> k in FaceIndices(s)
    ensures FaceIndices(s)[0] == FaceIndices(s)[3] && FaceIndices(s)[1] == FaceIndices(s)[5]
  {
    var start: int := Wrap(s);
    assert start == s;
    assert Wrap(start + 2) == s + 2 && Wrap(start + 3) == s + 3 && Wrap(start + 1) == s + 1;
  }

  /** The `BasicVertexArray` and `IndexArray` vectors a mesh is built in. */
  class MeshArrays {
    var vertices: seq<BasicVertex>
    var indices: seq<uint32>

    constructor ()
      ensures vertices == [] && indices == []
    {
      vertices := [];
      indices := [];
    }

    /** Every index names a vertex of the array. */
    ghost predicate IndicesInRange()
      reads this
    {
      forall i :: 0 <= i < |indices| ==> indices[i] as int < |vertices|
    }

    /**
      `AddFace(varr, iarr, origin, right, up)`: pushes the face's four
      vertices and its six indices, numbered from the vertex count before
      the call. Indices in range stay in range while the count fits in 32
      bits.
    */
    method AddFace(origin: Vec3, right: Vec3, up: Vec3)
      modifies this
      ensures vertices == old(vertices) + FaceVertices(origin, right, up)
      ensures indices == old(indices) + FaceIndices(|old(vertices)|)
      ensures old(IndicesInRange()) && |old(vertices)| + 4 <= 0x1_0000_0000 ==> IndicesInRange()
    {
      var start: int := Wrap(|vertices|);
      var n := Cross(right, up);
      vertices := vertices + [BasicVertex(origin, n, TexCoord(0, 0))];
      vertices := vertices + [BasicVertex(Plus(origin, right), n, TexCoord(1, 0))];
      vertices := vertices + [BasicVertex(Plus(Plus(origin, right), up), n, TexCoord(1, 1))];
      vertices := vertices + [BasicVertex(Plus(origin, up), n, TexCoord(0, 1))];
      indices := indices + [Wrap(start + 0)];
      indices := indices + [Wrap(start + 2)];
      indices := indices + [Wrap(start + 3)];
      indices := indices + [Wrap(start + 0)];
      indices := indices + [Wrap(start + 1)];
      indices := indices + [Wrap(start + 2)];
      if old(IndicesInRange()) && |old(vertices)| + 4 <= 0x1_0000_0000 {
        FaceIndicesSpanTheFace(|old(vertices)|);
        assert indices[|old(indices)|..] == FaceIndices(|old(vertices)|);
        forall i | 0 <= i < |indices|
          ensures indices[i] as int < |vertices|
        {
          if i >= |old(indices)| {
            assert indices[i] == FaceIndices(|old(vertices)|)[i - |old(indices)|];
          }
        }
      }
    }
  }

  /** An index or vertex buffer object, by name. */
  datatype BufferHandle = BufferHandle(id: Id)

  /** The name `SetProgram` binds to each attribute index, in order. */
  function AttributeCalls(program: Id): (r: seq<Call>)
    ensures |r| == 6
    ensures forall i :: 0 <= i < 6 ==> r[i].BindAttribLocation? && r[i].program == program && r[i].index == i as uint32
  {
    [Call.BindAttribLocation(program, POSITION, "a_vPosition"),
     Call.BindAttribLocation(program, NORMAL, "a_vNormal"),
     Call.BindAttribLocation(program, TANGENT, "a_vTangent"),
     Call.BindAttribLocation(program, BITANGENT, "a_vBitangent"),
     Call.BindAttribLocation(program, TEXCOORD, "a_vTexCoord"),
     Call.BindAttribLocation(program, COLOR, "a_vColor")]
  }

  /** The six `BindAttribLocation` calls of `SetProgram`. */
  method BindAttributes(gl: Context, p: Program)
    modifies gl`trace
    ensures gl.trace == old(gl.trace) + AttributeCalls(p.id)
    ensures old(gl.Coherent()) ==> gl.Coherent()
  {
    ghost var cs0, t0, a := gl.Caches(), gl.trace, AttributeCalls(p.id);
    p.BindAttribLocation(gl, POSITION, "a_vPosition");
    PrefixStep(t0, a, 0);
    p.BindAttribLocation(gl, NORMAL, "a_vNormal");
    PrefixStep(t0, a, 1);
    p.BindAttribLocation(gl, TANGENT, "a_vTangent");
    PrefixStep(t0, a, 2);
    p.BindAttribLocation(gl, BITANGENT, "a_vBitangent");
    PrefixStep(t0, a, 3);
    p.BindAttribLocation(gl, TEXCOORD, "a_vTexCoord");
    PrefixStep(t0, a, 4);
    p.BindAttribLocation(gl, COLOR, "a_vColor");
    PrefixStep(t0, a, 5);
    assert a[..6] == a;
    if CoherentWith(cs0, t0) {
      NonBindingCallsKeepCoherence(cs0, t0, a);
    }
  }

  /** Calls issued after `t` in the order of `a` are, after `k + 1` of them, `t` and the first `k + 1` of `a`. */
  lemma PrefixStep(t: seq<Call>, a: seq<Call>, k: nat)
    requires k < |a|
    ensures t + a[..k] + [a[k]] == t + a[..k + 1]
  {
    assert a[..k + 1] == a[..k] + [a[k]];
  }

  /** `Model`: a program, an index buffer with its type and count, and vertex buffers. */
  class Model {
    /** `_valid`: the program last set linked */
    var valid: bool
    /** `_ib`; `None` is the placeholder built on the model's own vertex array */
    var ib: Option<BufferHandle>
    /** `_ibType`, which the constructor leaves uninitialised */
    var ibType: uint32
    var ibCount: uint32
    var vbs: seq<BufferHandle>
    /** `_program`, a value of its own */
    var program: Program

    /**
      `Model()`: the members are built in declaration order. The vertex
      array `_vao` makes a `glGenVertexArrays` (named `vertexArrayId` by the
      driver), the index buffer `_ib` a `glGenBuffers` (named
      `indexBufferId`), and the default-constructed program a
      `glCreateProgram` (named `programId`). The model is not valid, has no
      index count and no vertex buffer.
    */
    constructor (gl: Context, vertexArrayId: Id, indexBufferId: Id, programId: Id)
      modifies gl`trace
      ensures !valid && ib == None && ibCount == 0 && vbs == []
      ensures fresh(program) && program.id == programId && !program.valid
      ensures gl.trace == old(gl.trace) + [GenVertexArrays(vertexArrayId), GenBuffers(indexBufferId), CreateProgram(programId)]
      ensures old(gl.Coherent()) ==> gl.Coherent()
    {
      gl.Issue(GenVertexArrays(vertexArrayId));
      valid := false;
      gl.Issue(GenBuffers(indexBufferId));
      ib := None;
      ibCount := 0;
      vbs := [];
      program := new Program(gl, programId);
    }

    /**
      `Model::SetProgram(prg)`: copies `prg`, binds the six attribute names,
      links the copy (the driver reports `status`), and is valid exactly
      when the link succeeded; a failed link prints the driver's `log`. The
      caller's program keeps its own flag.
    */
    method SetProgram(gl: Context, prg: Program, status: int32, log: string) returns (printed: seq<string>)
      modifies this`program, this`valid, gl`trace
      ensures fresh(program) && program.id == prg.id
      ensures valid <==> status != GL_FALSE
      ensures program.valid == valid
      ensures prg.valid == old(prg.valid)
      ensures gl.trace == old(gl.trace) + AttributeCalls(prg.id) + [LinkProgram(prg.id), GetProgramiv(prg.id, GL_LINK_STATUS)]
      ensures !valid ==> printed == ["Shader link failed: " + log + "\n"]
      ensures valid ==> printed == []
      ensures old(gl.Coherent()) ==> gl.Coherent()
    {
      var p := new Program.CopyOf(prg);
      BindAttributes(gl, p);
      valid := p.Link(gl, status);
      program := p;
      printed := [];
      if !valid {
        printed := printed + ["Shader link failed: " + log + "\n"];
      }
    }

    /** `Model::SetIndexBuffer`: stores the buffer, its index type and its count. */
    method SetIndexBuffer(ib: BufferHandle, indexType: uint32, count: uint32)
      modifies this`ib, this`ibType, this`ibCount
      ensures this.ib == Some(ib) && ibType == indexType && ibCount == count
    {
      this.ib := Some(ib);
      ibType := indexType;
      ibCount := count;
    }

    /** `Model::AddVertexBuffer`: appends one buffer, keeping the earlier ones. */
    method AddVertexBuffer(vb: BufferHandle)
      modifies this`vbs
      ensures |vbs| == |old(vbs)| + 1
      ensures vbs[..|old(vbs)|] == old(vbs) && vbs[|vbs| - 1] == vb
    {
      vbs := vbs + [vb];
    }

    /**
      `Model::Draw(mode)`: makes the program current (`Bind`, that is
      `Use`), then draws `ibCount` indices of type `ibType`. Unless the
      caches had drifted from the trace, the model's program is the last
      one issued to `glUseProgram` at the draw.
    */
    method Draw(gl: Context, mode: uint32)
      modifies gl`boundProgram, gl`trace
      ensures gl.trace == old(gl.trace) + BindIfChanged(gl.preventMultipleBind, old(gl.boundProgram), program.id, UseProgram(program.id))
                + [DrawElements(mode, ibCount, ibType)]
      ensures !gl.preventMultipleBind || old(gl.Coherent()) ==> LastIssued(gl.trace[..|gl.trace| - 1], ProgramSlot) == program.id
      ensures gl.preventMultipleBind && old(gl.Coherent()) ==> gl.Coherent()
    {
      ghost var tr0 := gl.trace;
      program.Use(gl);
      ghost var tr1 := gl.trace;
      if tr1 == tr0 {
        assert gl.preventMultipleBind && old(gl.Coherent()) ==> CachedIn(gl.Caches(), ProgramSlot) == LastIssued(tr1, ProgramSlot);
      } else {
        assert tr1 == tr0 + [UseProgram(program.id)];
        LastIssuedAppend(tr0, UseProgram(program.id), ProgramSlot);
      }
      gl.Issue(DrawElements(mode, ibCount, ibType));
      assert gl.trace[..|gl.trace| - 1] == tr1;
    }
  }

  /**
    The rest of a `PlaneModel` or `BoxModel` constructor once the mesh is
    built: one vertex buffer holding the vertices, an index buffer of
    `GL_UNSIGNED_INT` with the index count, and the program.
  */
  method FinishModel(gl: Context, m: Model, mesh: MeshArrays, vb: BufferHandle, ibh: BufferHandle,
                     prg: Program, status: int32, log: string) returns (printed: seq<string>)
    modifies m, gl`trace
    ensures m.vbs == old(m.vbs) + [vb] && m.ib == Some(ibh)
    ensures m.ibType == GL_UNSIGNED_INT && m.ibCount == Wrap(|mesh.indices|)
    ensures m.valid <==> status != GL_FALSE
    ensures fresh(m.program) && m.program.id == prg.id
    ensures old(gl.Coherent()) ==> gl.Coherent()
  {
    m.AddVertexBuffer(vb);
    m.SetIndexBuffer(ibh, GL_UNSIGNED_INT, Wrap(|mesh.indices|));
    printed := m.SetProgram(gl, prg, status, log);
  }

  /** `PlaneModel(width, height)`: one face in the XY plane, centred on the origin. */
  method PlaneModel(gl: Context, width: real, height: real, vertexArrayId: Id, indexBufferId: Id, programId: Id, vb: BufferHandle, ibh: BufferHandle,
                    prg: Program, status: int32, log: string) returns (m: Model, mesh: MeshArrays)
    modifies gl`trace
    ensures fresh(m) && fresh(mesh)
    ensures |mesh.vertices| == 4 && mesh.indices == FaceIndices(0)
    ensures mesh.IndicesInRange()
    ensures m.vbs == [vb] && m.ib == Some(ibh) && m.ibType == GL_UNSIGNED_INT && m.ibCount == 6
    ensures m.valid <==> status != GL_FALSE
    ensures old(gl.Coherent()) ==> gl.Coherent()
  {
    m := new Model(gl, vertexArrayId, indexBufferId, programId);
    mesh := new MeshArrays();
    mesh.AddFace(Vec3(-width / 2.0, -height / 2.0, 0.0), Vec3(width, 0.0, 0.0), Vec3(0.0, height, 0.0));
    var printed := FinishModel(gl, m, mesh, vb, ibh, prg, status, log);
  }

  /** The corners of the box, numbered as in the source's sketch (0-3 front, 4-7 back). */
  function BoxCorners(width: real, height: real, depth: real): (v: seq<Vec3>)
    ensures |v| == 8
  {
    [Vec3(-width / 2.0, -height / 2.0, depth / 2.0),
     Vec3(width / 2.0, -height / 2.0, depth / 2.0),
     Vec3(width / 2.0, height / 2.0, depth / 2.0),
     Vec3(-width / 2.0, height / 2.0, depth / 2.0),
     Vec3(-width / 2.0, -height / 2.0, -depth / 2.0),
     Vec3(width / 2.0, -height / 2.0, -depth / 2.0),
     Vec3(width / 2.0, height / 2.0, -depth / 2.0),
     Vec3(-width / 2.0, height / 2.0, -depth / 2.0)]
  }

  /** The index array of `count` faces laid one after another. */
  function FacesIndices(count: nat): (r: seq<uint32>)
    ensures |r| == 6 * count
  {
    if count == 0 then [] else FacesIndices(count - 1) + FaceIndices(4 * (count - 1))
  }

  /**
    `BoxModel(width, height, depth)`: the front, right, top, bottom, left
    and back faces, 24 vertices and 36 indices, each index naming one of
    the vertices.
  */
  method BoxModel(gl: Context, width: real, height: real, depth: real, vertexArrayId: Id, indexBufferId: Id, programId: Id, vb: BufferHandle, ibh: BufferHandle,
                  prg: Program, status: int32, log: string) returns (m: Model, mesh: MeshArrays)
    modifies gl`trace
    ensures fresh(m) && fresh(mesh)
    ensures |mesh.vertices| == 24 && mesh.indices == FacesIndices(6)
    ensures mesh.IndicesInRange()
    ensures m.vbs == [vb] && m.ib == Some(ibh) && m.ibType == GL_UNSIGNED_INT && m.ibCount == 36
    ensures m.valid <==> status != GL_FALSE
    ensures old(gl.Coherent()) ==> gl.Coherent()
  {
    m := new Model(gl, vertexArrayId, indexBufferId, programId);
    mesh := BoxMesh(width, height, depth);
    var printed := FinishModel(gl, m, mesh, vb, ibh, prg, status, log);
  }

  /** The six faces `BoxModel` adds, in its order, each an `AddFace` over the corners of the sketch. */
  method BoxMesh(width: real, height: real, depth: real) returns (mesh: MeshArrays)
    ensures fresh(mesh)
    ensures |mesh.vertices| == 24 && mesh.indices == FacesIndices(6)
    ensures mesh.IndicesInRange()
  {
    var v := BoxCorners(width, height, depth);
    mesh := new MeshArrays();
    mesh.AddFace(v[0], Minus(v[1], v[0]), Minus(v[3], v[0]));
    assert |mesh.vertices| == 4 && mesh.indices == FacesIndices(1);
    mesh.AddFace(v[2], Minus(v[1], v[2]), Minus(v[6], v[2]));
    assert |mesh.vertices| == 8 && mesh.indices == FacesIndices(2);
    mesh.AddFace(v[3], Minus(v[2], v[3]), Minus(v[7], v[3]));
    assert |mesh.vertices| == 12 && mesh.indices == FacesIndices(3);
    mesh.AddFace(v[1], Minus(v[0], v[1]), Minus(v[5], v[1]));
    assert |mesh.vertices| == 16 && mesh.indices == FacesIndices(4);
    mesh.AddFace(v[0], Minus(v[3], v[0]), Minus(v[4], v[0]));
    assert |mesh.vertices| == 20 && mesh.indices == FacesIndices(5);
    mesh.AddFace(v[5], Minus(v[4], v[5]), Minus(v[6], v[5]));
  }

  /**
    The front face of a box runs over corners 0, 1, 2, 3 of the sketch,
    with the texture's corners in the same order.
  */
  method BoxFrontFace(width: real, height: real, depth: real) returns (corners: seq<Vec3>, texcoords: seq<TexCoord>)
    ensures corners == BoxCorners(width, height, depth)[..4]
    ensures texcoords == [TexCoord(0, 0), TexCoord(1, 0), TexCoord(1, 1), TexCoord(0, 1)]
  {
    var v := BoxCorners(width, height, depth);
    var mesh := new MeshArrays();
    mesh.AddFace(v[0], Minus(v[1], v[0]), Minus(v[3], v[0]));
    var w := mesh.vertices;
    corners := [w[0].position, w[1].position, w[2].position, w[3].position];
    texcoords := [w[0].texcoord, w[1].texcoord, w[2].texcoord, w[3].texcoord];
  }

  /** A plane model counts 4 vertices and passes an index count of 6, with a fresh context. */
  method PlaneCounts(width: real, height: real, status: int32) returns (vertexCount: nat, indexCount: uint32, valid: bool)
    ensures vertexCount == 4 && indexCount == 6
    ensures valid <==> status != GL_FALSE
  {
    var gl := new Context(true, false, false);
    var prg := new Program(gl, 7);
    var m, mesh := PlaneModel(gl, width, height, 3, 4, 8, BufferHandle(1), BufferHandle(2), prg, status, "");
    vertexCount := |mesh.vertices|;
    indexCount := m.ibCount;
    valid := m.valid;
  }

  /** A box model counts 24 vertices and passes an index count of 36, with every index below 24. */
  method BoxCounts(width: real, height: real, depth: real) returns (vertexCount: nat, indices: seq<uint32>, indexCount: uint32)
    ensures vertexCount == 24 && indexCount == 36 && |indices| == 36
    ensures forall i :: 0 <= i < |indices| ==> indices[i] < 24
  {
    var gl := new Context(true, false, false);
    var prg := new Program(gl, 7);
    var m, mesh := BoxModel(gl, width, height, depth, 3, 4, 8, BufferHandle(1), BufferHandle(2), prg, 1, "");
    vertexCount := |mesh.vertices|;
    indices := mesh.indices;
    indexCount := m.ibCount;
  }
}
