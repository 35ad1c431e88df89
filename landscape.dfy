/**
 * The static world mesh of game/graphics/mesh/landscape.cpp: the constructor keeps the drawable
 * sub-meshes of a packed mesh as blocks, each with its own index list and the identity object
 * matrix, and with ray query on also joins their index lists into one buffer for the BLAS.
 * Material loading, the vertex upload and the bucket registration of visual.get are outside
 * this model: the loaded material and the index lists are inputs.
 */
module Landscape {
  import opened Wrappers
  import opened Gpu

  /** Material::alpha; only AdditiveLight matters to the landscape. */
  datatype AlphaFunc = Solid | AlphaTest | Transparent | AdditiveLight | Multiply | Multiply2

  /** A loaded texture; empty when it holds no image. */
  datatype Texture = Texture(empty: bool)

  /** A loaded material: its blending mode and its texture, which may be missing. */
  datatype Material = Material(alpha: AlphaFunc, tex: Option<Texture>)

  /** One sub-mesh of the packed mesh: its material, already loaded, and its index list. */
  datatype SubMesh = SubMesh(material: Material, indices: seq<U32>)

  /** The packed mesh: the number of vertices shared by all sub-meshes, and the sub-meshes. */
  datatype PackedMesh = PackedMesh(vertexCount: nat, subMeshes: seq<SubMesh>)

  type Matrix = seq<seq<real>>

  /** A block: the index buffer of one kept sub-mesh, its material and its object matrix. */
  datatype Block = Block(ibo: seq<U32>, material: Material, objMatrix: Matrix)

  /** The bottom-level acceleration structure over the shared vertices and the joined indices. */
  datatype Blas = Blas(vertexCount: nat, indices: seq<U32>)

  predicate IsIdentity(m: Matrix) {
    |m| == 4 &&
    (forall i :: 0 <= i < 4 ==> |m[i]| == 4) &&
    (forall i, j :: 0 <= i < 4 && 0 <= j < 4 ==> m[i][j] == if i == j then 1.0 else 0.0)
  }

  /** Matrix4x4::identity (landscape.cpp:18-19). */
  function Identity(): (m: Matrix)
    ensures IsIdentity(m)
  {
    [[1.0, 0.0, 0.0, 0.0], [0.0, 1.0, 0.0, 0.0], [0.0, 0.0, 1.0, 0.0], [0.0, 0.0, 0.0, 1.0]]
  }

  /**
   * The filter of the constructor (landscape.cpp:24-28): additive-light materials, empty index
   * lists and missing or empty textures are skipped.
   */
  predicate Kept(sm: SubMesh) {
    sm.material.alpha != AdditiveLight && |sm.indices| != 0 &&
    sm.material.tex.Some? && !sm.material.tex.value.empty
  }

  /** The block a kept sub-mesh becomes (landscape.cpp:31-35). */
  function BlockOf(sm: SubMesh): Block {
    Block(sm.indices, sm.material, Identity())
  }

  /** The blocks of a sequence of sub-meshes: one per kept sub-mesh, in sub-mesh order. */
  function BlocksOf(sms: seq<SubMesh>): seq<Block> {
    if sms == [] then []
    else BlocksOf(sms[..|sms| - 1]) + (if Kept(sms[|sms| - 1]) then [BlockOf(sms[|sms| - 1])] else [])
  }

  /** The index lists of the blocks joined in block order. */
  function JoinedIbo(blocks: seq<Block>): seq<U32> {
    if blocks == [] then [] else JoinedIbo(blocks[..|blocks| - 1]) + blocks[|blocks| - 1].ibo
  }

  /** The total number of indices of the blocks. */
  function IndexCount(blocks: seq<Block>): nat {
    if blocks == [] then 0 else IndexCount(blocks[..|blocks| - 1]) + |blocks[|blocks| - 1].ibo|
  }

  /** Blocks are built from left to right: the blocks of a + b are those of a, then those of b. */
  lemma {:induction false} BlocksOfAppend(a: seq<SubMesh>, b: seq<SubMesh>)
    ensures BlocksOf(a + b) == BlocksOf(a) + BlocksOf(b)
    decreases |b|
  {
    if b == [] {
      assert a + b == a;
    } else {
      var b' := b[..|b| - 1];
      assert (a + b)[..|a + b| - 1] == a + b';
      assert (a + b)[|a + b| - 1] == b[|b| - 1];
      BlocksOfAppend(a, b');
    }
  }

  /** A sub-mesh yields a block exactly when it is in the mesh and passes the filter. */
  lemma {:induction false} BlockIffKept(sms: seq<SubMesh>, sm: SubMesh)
    ensures BlockOf(sm) in BlocksOf(sms) <==> sm in sms && Kept(sm)
  {
    if sms != [] {
      var init := sms[..|sms| - 1];
      var last := sms[|sms| - 1];
      BlockIffKept(init, sm);
      assert sms == init + [last];
      assert sm in sms <==> sm in init || sm == last;
      if BlockOf(sm) in BlocksOf(sms) && BlockOf(sm) !in BlocksOf(init) {
        assert Kept(last) && BlockOf(sm) == BlockOf(last);
      }
    }
  }

  /** There are never more blocks than sub-meshes, and every block is non-empty with the identity matrix. */
  lemma {:induction false} BlocksWellFormed(sms: seq<SubMesh>)
    ensures |BlocksOf(sms)| <= |sms|
    ensures forall k :: 0 <= k < |BlocksOf(sms)| ==>
      IsIdentity(BlocksOf(sms)[k].objMatrix) && |BlocksOf(sms)[k].ibo| > 0
  {
    if sms != [] {
      BlocksWellFormed(sms[..|sms| - 1]);
    }
  }

  /** Joining is done block by block: the joined list of a + b is that of a, then that of b. */
  lemma {:induction false} JoinedAppend(a: seq<Block>, b: seq<Block>)
    ensures JoinedIbo(a + b) == JoinedIbo(a) + JoinedIbo(b)
    decreases |b|
  {
    if b == [] {
      assert a + b == a;
    } else {
      var b' := b[..|b| - 1];
      assert (a + b)[..|a + b| - 1] == a + b';
      JoinedAppend(a, b');
    }
  }

  /** The joined list has one entry per index of every block. */
  lemma {:induction false} JoinedLength(blocks: seq<Block>)
    ensures |JoinedIbo(blocks)| == IndexCount(blocks)
  {
    if blocks != [] {
      JoinedLength(blocks[..|blocks| - 1]);
    }
  }

  /** Block k's indices sit in the joined list right after those of the blocks before it. */
  lemma {:induction false} JoinedHoldsBlock(blocks: seq<Block>, k: nat)
    requires k < |blocks|
    ensures IndexCount(blocks[..k]) + |blocks[k].ibo| <= |JoinedIbo(blocks)|
    ensures JoinedIbo(blocks)[IndexCount(blocks[..k])..IndexCount(blocks[..k]) + |blocks[k].ibo|] == blocks[k].ibo
  {
    var pre, post := blocks[..k], blocks[k + 1..];
    assert blocks == pre + [blocks[k]] + post;
    JoinedAppend(pre + [blocks[k]], post);
    JoinedAppend(pre, [blocks[k]]);
    assert [blocks[k]][..0] == [];
    JoinedLength(pre);
  }

  class Landscape {
    /** The vertex buffer, shared by every block (its vertex count). */
    var vbo: nat
    var blocks: seq<Block>
    /** The joined index buffer, built only with ray query. */
    var iboAll: Option<seq<U32>>
    var blas: Option<Blas>

    /**
     * Every block is a non-empty index list drawn with the identity matrix; the joined buffer,
     * when present, is the blocks' index lists in block order, and the BLAS exists exactly
     * with it and is built over the shared vertices and that buffer.
     */
    predicate Valid()
      reads this
    {
      (forall k :: 0 <= k < |blocks| ==> IsIdentity(blocks[k].objMatrix) && |blocks[k].ibo| > 0) &&
      (iboAll.Some? ==> iboAll.value == JoinedIbo(blocks)) &&
      (blas.Some? <==> iboAll.Some?) &&
      (blas.Some? ==> blas.value == Blas(vbo, iboAll.value))
    }

    /**
     * Landscape::Landscape (landscape.cpp:10-45): one block per kept sub-mesh, in order; with
     * ray query (Gothic::doRayQuery, an input here) the joined index buffer and the BLAS.
     */
    constructor (mesh: PackedMesh, rayQuery: bool)
      ensures Valid()
      ensures vbo == mesh.vertexCount
      ensures blocks == BlocksOf(mesh.subMeshes)
      ensures iboAll == if rayQuery then Some(JoinedIbo(BlocksOf(mesh.subMeshes))) else None
      ensures blas == if rayQuery then Some(Blas(mesh.vertexCount, JoinedIbo(BlocksOf(mesh.subMeshes)))) else None
    {
      var sms := mesh.subMeshes;
      var bs: seq<Block> := [];
      var ibo: seq<U32> := [];
      for i := 0 to |sms|
        invariant bs == BlocksOf(sms[..i])
        invariant ibo == if rayQuery then JoinedIbo(bs) else []
      {
        assert sms[..i + 1][..i] == sms[..i];
        var sm := sms[i];
        if sm.material.alpha == AdditiveLight || |sm.indices| == 0 {
          continue;
        }
        if sm.material.tex.None? || sm.material.tex.value.empty {
          continue;
        }
        assert (bs + [BlockOf(sm)])[..|bs|] == bs;
        bs := bs + [BlockOf(sm)];
        if rayQuery {
          ibo := ibo + sm.indices;
        }
      }
      assert sms[..|sms|] == sms;
      BlocksWellFormed(sms);
      vbo := mesh.vertexCount;
      blocks := bs;
      if rayQuery {
        iboAll := Some(ibo);
        blas := Some(Blas(mesh.vertexCount, ibo));
      } else {
        iboAll := None;
        blas := None;
      }
    }
  }
}
