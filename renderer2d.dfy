/** The backend-independent 2D renderer header (src/Morrigu/Renderer/Renderer2D.h):
    the quad vertex and its attribute layout, the draw statistics with their
    derived counts, and the capacity constants and initial batch state every
    backend inherits from `Generic2DRenderer`. */
module Renderer2D {
  import opened Wrappers
  import Buffers

  datatype Vec2 = Vec2(x: real, y: real)
  datatype Vec3 = Vec3(x: real, y: real, z: real)
  datatype Vec4 = Vec4(x: real, y: real, z: real, w: real)

  /** `QuadVertex::getLayout`: the six attributes in the order of the struct's
      fields. The object id is declared UInt, which the size table of
      Buffers.h sends to its default arm, so that element has size 0. */
  function QuadVertexElements(): (es: seq<Buffers.BufferElement>)
    ensures |es| == 6
    ensures es[0].dataType == Buffers.Float3 && es[1].dataType == Buffers.Float4 && es[2].dataType == Buffers.Float2
    ensures es[3].dataType == Buffers.Float && es[4].dataType == Buffers.Float && es[5].dataType == Buffers.UInt
    ensures es[0].name == "a_position" && es[1].name == "a_color" && es[2].name == "a_texCoord"
    ensures es[3].name == "a_texIndex" && es[4].name == "a_tilingFactor" && es[5].name == "a_objectID"
    ensures es[0].size == 12 && es[1].size == 16 && es[2].size == 8
    ensures es[3].size == 4 && es[4].size == 4 && es[5].size == 0
    ensures forall i :: 0 <= i < 6 ==> es[i].offset == 0 && !es[i].isNormalized
  {
    [ Buffers.NewElement(Buffers.Float3, "a_position"),
      Buffers.NewElement(Buffers.Float4, "a_color"),
      Buffers.NewElement(Buffers.Float2, "a_texCoord"),
      Buffers.NewElement(Buffers.Float, "a_texIndex"),
      Buffers.NewElement(Buffers.Float, "a_tilingFactor"),
      Buffers.NewElement(Buffers.UInt, "a_objectID") ]
  }

  /** Bytes of one packed `QuadVertex`: vec3 + vec4 + vec2 + float + float of
      four-byte floats, then a four-byte unsigned object id. */
  const QuadVertexBytes: nat := 4 * (3 + 4 + 2 + 1 + 1) + 4

  /** Laying out the quad vertex places each attribute right after the one
      before it, in field order. The float attributes cover exactly the bytes
      of the struct's float fields; the object id gets offset 44 but no size,
      so the stride is 44 where the struct is 48 bytes long. */
  lemma QuadVertexLayoutOffsets()
    ensures var es := Buffers.LaidOut(QuadVertexElements());
      && |es| == 6
      && es[0].name == "a_position" && es[1].name == "a_color" && es[2].name == "a_texCoord"
      && es[3].name == "a_texIndex" && es[4].name == "a_tilingFactor" && es[5].name == "a_objectID"
      && es[0].offset == 0 && es[1].offset == 12 && es[2].offset == 28
      && es[3].offset == 36 && es[4].offset == 40 && es[5].offset == 44
      && es[5].size == 0
      && Buffers.SizeSum(QuadVertexElements()) == 44 == QuadVertexBytes - 4
  {
    var es := QuadVertexElements();
    assert es[..0] == [];
    assert es[..1] == es[..0] + [es[0]];
    assert es[..2] == es[..1] + [es[1]];
    assert es[..3] == es[..2] + [es[2]];
    assert es[..4] == es[..3] + [es[3]];
    assert es[..5] == es[..4] + [es[4]];
    assert es == es[..5] + [es[5]];
  }

  /** `RenderingStatistics`: draw calls issued and quads requested since the
      last reset, both `uint32_t`. */
  datatype RenderingStatistics = RenderingStatistics(drawCalls: u32, quadCount: u32)

  /** A value-initialised `RenderingStatistics`. */
  function FreshStats(): (s: RenderingStatistics)
    ensures s.drawCalls == 0 && s.quadCount == 0
    ensures VertexCount(s) == 0 && IndexCount(s) == 0
  {
    RenderingStatistics(0, 0)
  }

  /** `getVertexCount`: four vertices per quad, in `uint32_t` arithmetic. */
  function VertexCount(s: RenderingStatistics): (r: u32)
    ensures 4 * s.quadCount < U32Limit ==> r == 4 * s.quadCount
  {
    (s.quadCount * 4) % U32Limit
  }

  /** `getIndexCount`: six indices (two triangles) per quad, in `uint32_t`
      arithmetic. */
  function IndexCount(s: RenderingStatistics): (r: u32)
    ensures 6 * s.quadCount < U32Limit ==> r == 6 * s.quadCount
  {
    (s.quadCount * 6) % U32Limit
  }

  /** Past the point where they wrap, the derived counts are the products
      reduced modulo 2^32: the vertex count is four times the quad count
      modulo 2^30 (so 2^30 quads report 0 vertices), and an index count
      between 2^32 and 2^33 loses exactly 2^32. */
  lemma DerivedCountsWrap(s: RenderingStatistics)
    ensures VertexCount(s) == 4 * (s.quadCount % 0x4000_0000)
    ensures U32Limit <= 6 * s.quadCount < 2 * U32Limit ==> IndexCount(s) == 6 * s.quadCount - U32Limit
    ensures s.quadCount == 0x4000_0000 ==> VertexCount(s) == 0 && IndexCount(s) == 0x8000_0000
  {
    var q := s.quadCount;
    var k := q / 0x4000_0000;
    assert q == 0x4000_0000 * k + q % 0x4000_0000;
    assert 4 * q == U32Limit * k + 4 * (q % 0x4000_0000);
    ModShift(4 * q, k);
    if U32Limit <= 6 * q < 2 * U32Limit {
      ModShift(6 * q, 1);
    }
  }

  /** The derived counts never wrap while the quad count stays within what
      a batch holds, and then they stay within the batch capacities. */
  lemma DerivedCountsWithinCapacity(s: RenderingStatistics)
    requires s.quadCount <= MaxQuads
    ensures VertexCount(s) == 4 * s.quadCount <= MaxVertices
    ensures IndexCount(s) == 6 * s.quadCount <= MaxIndices
    ensures 2 * IndexCount(s) == 3 * VertexCount(s)
    ensures MaxVertices == QuadVertexCount * MaxQuads == 40000 && MaxIndices == 60000
  {
  }

  /** `Generic2DRenderer` capacity constants. */
  const MaxQuads: nat := 10000
  const MaxVertices: nat := 4 * MaxQuads
  const MaxIndices: nat := 6 * MaxQuads
  const MaxTextureSlots: nat := 32

  /** Vertices per quad (`m_quadVertexCount`). */
  const QuadVertexCount: nat := 4

  /** The unit quad's corners, counter-clockwise from bottom left
      (`m_quadVertexPositions`). */
  const QuadVertexPositions: seq<Vec4> :=
    [Vec4(-0.5, -0.5, 0.0, 1.0), Vec4(0.5, -0.5, 0.0, 1.0), Vec4(0.5, 0.5, 0.0, 1.0), Vec4(-0.5, 0.5, 0.0, 1.0)]

  /** The texture coordinate of each corner (`m_textureCoordinates`). */
  const TextureCoordinates: seq<Vec2> :=
    [Vec2(0.0, 0.0), Vec2(1.0, 0.0), Vec2(1.0, 1.0), Vec2(0.0, 1.0)]

  /** The quad template has one position and one texture coordinate per
      vertex, and each texture coordinate is its corner shifted from the
      centred unit square onto [0, 1] x [0, 1]. */
  lemma QuadTemplateMatchesTexture()
    ensures |QuadVertexPositions| == |TextureCoordinates| == QuadVertexCount
    ensures forall i :: 0 <= i < QuadVertexCount ==>
      && TextureCoordinates[i].x == QuadVertexPositions[i].x + 0.5
      && TextureCoordinates[i].y == QuadVertexPositions[i].y + 0.5
      && QuadVertexPositions[i].z == 0.0 && QuadVertexPositions[i].w == 1.0
  {
  }

  /** The batching fields of `Generic2DRenderer` as they start out: no index
      queued, no vertex storage yet (both pointers null), a texture-slot table
      of `MaxTextureSlots` empty entries, and the next free slot at 1 because
      slot 0 is kept for the white texture. The Vulkan backend does not use
      them yet. */
  datatype BatchState = BatchState(
    quadIndexCount: u32,
    vertexBase: Option<nat>,
    vertexCursor: Option<nat>,
    textureSlots: seq<Option<nat>>,
    textureSlotIndex: nat)

  function InitialBatchState(): (b: BatchState)
    ensures b.quadIndexCount == 0 && b.vertexBase.None? && b.vertexCursor.None?
    ensures |b.textureSlots| == MaxTextureSlots
    ensures forall i :: 0 <= i < |b.textureSlots| ==> b.textureSlots[i].None?
    ensures b.textureSlotIndex == 1 && b.textureSlotIndex < |b.textureSlots|
  {
    BatchState(0, None, None, seq(MaxTextureSlots, _ => None), 1)
  }
}
