/** The OpenGL vertex array (src/Morrigu/Renderer/APIs/OpenGL/VertexArray.cpp):
    how a vertex buffer's layout becomes numbered vertex attributes, and the
    list of buffers the array keeps. The GL calls are modelled by the state
    they leave behind: one attribute pointer per enabled attribute index. */
module OpenGLVertexArray {
  import opened Wrappers
  import opened Buffers

  /** GL enumerants returned by the base-type table. */
  const GlInt: int := 0x1404
  const GlUnsignedInt: int := 0x1405
  const GlFloat: int := 0x1406
  const GlBool: int := 0x8B56
  const GlInvalidEnum: int := 0x0500

  /** `ShaderDataTypeToOpenGLBaseType`: the GL scalar type the components of
      an attribute are read as. Unlike the size table of Buffers.h this
      switch has arms for the UInt family; only None reaches the asserting
      default arm. */
  function BaseType(t: ShaderDataType): (r: int)
    ensures r == GlFloat <==> IsFloatVector(t) || IsMatrix(t)
    ensures r == GlInt <==> IsIntVector(t)
    ensures r == GlUnsignedInt <==> IsUIntVector(t)
    ensures r == GlBool <==> t.Bool?
    ensures r == GlInvalidEnum <==> t.None?
  {
    match t
    case Float | Float2 | Float3 | Float4 | Mat3 | Mat4 => GlFloat
    case Int | Int2 | Int3 | Int4 => GlInt
    case UInt | UInt2 | UInt3 | UInt4 => GlUnsignedInt
    case Bool => GlBool
    case None => GlInvalidEnum
  }

  /** The two tables disagree exactly on the UInt family: a GL base type is
      known for it, but Buffers.h gives it neither a size nor a component
      count, so its attribute would be bound with 0 components. */
  lemma BaseTypeKnownButSizeless(t: ShaderDataType)
    ensures (BaseType(t) != GlInvalidEnum && ShaderDataTypeSize(t) == 0) <==> IsUIntVector(t)
    ensures BaseType(t) == GlInvalidEnum ==> ShaderDataTypeSize(t) == 0 && ComponentCount(t) == 0
  {
  }

  datatype VertexBuffer = VertexBuffer(id: nat, layout: BufferLayout)

  datatype IndexBuffer = IndexBuffer(id: nat, count: u32)

  /** The arguments of one `glVertexAttribPointer` call, together with the
      buffer bound to GL_ARRAY_BUFFER when it was made. */
  datatype AttribPointer = AttribPointer(
    buffer: nat, componentCount: nat, baseType: int, normalized: bool, stride: nat, offset: nat)

  /** The pointer `addVertexBuffer` sets up for the i-th element of a buffer's
      layout. */
  function PointerFor(vb: VertexBuffer, i: nat): AttribPointer
    requires i < |vb.layout.elements|
  {
    var e := vb.layout.elements[i];
    AttribPointer(vb.id, ComponentCount(e.dataType), BaseType(e.dataType), e.isNormalized, vb.layout.stride, e.offset)
  }

  class VertexArray {
    /** The GL name from `glCreateVertexArrays`. */
    const rendererID: nat
    /** `m_vertexBuffers`, in the order they were added. */
    var vertexBuffers: seq<VertexBuffer>
    /** `m_indexBuffer`; None until `setIndexBuffer` is called. */
    var indexBuffer: Option<IndexBuffer>
    /** Enabled attribute indices of the vertex array object and their pointers. */
    var attributes: map<nat, AttribPointer>

    constructor (name: nat)
      ensures rendererID == name
      ensures vertexBuffers == [] && indexBuffer.None? && attributes == map[]
    {
      rendererID := name;
      vertexBuffers := [];
      indexBuffer := Option.None;
      attributes := map[];
    }

    /** `addVertexBuffer`: the layout must not be empty (asserted by the
      source). Element i of the layout is enabled and described at attribute
      index i, counting from 0 without gaps, with its component count, base
      type, normalisation flag and offset and the layout's stride; the buffer
      is then appended to the list. */
    method AddVertexBuffer(vb: VertexBuffer)
      requires |vb.layout.elements| > 0
      modifies this
      ensures vertexBuffers == old(vertexBuffers) + [vb]
      ensures indexBuffer == old(indexBuffer)
      ensures forall i: nat :: i < |vb.layout.elements| ==> i in attributes && attributes[i] == PointerFor(vb, i)
      ensures forall i :: i in old(attributes) && i >= |vb.layout.elements| ==> i in attributes && attributes[i] == old(attributes)[i]
      ensures forall i :: i in attributes ==> i in old(attributes) || i < |vb.layout.elements|
    {
      var index := 0;
      var elements := vb.layout.elements;
      while index < |elements|
        invariant 0 <= index <= |elements|
        invariant vertexBuffers == old(vertexBuffers) && indexBuffer == old(indexBuffer)
        invariant forall i: nat :: i < index ==> i in attributes && attributes[i] == PointerFor(vb, i)
        invariant forall i :: i in old(attributes) && i >= index ==> i in attributes && attributes[i] == old(attributes)[i]
        invariant forall i :: i in attributes ==> i in old(attributes) || i < index
      {
        var element := elements[index];
        attributes := attributes[index := AttribPointer(vb.id, ComponentCount(element.dataType), BaseType(element.dataType),
                                                       element.isNormalized, vb.layout.stride, element.offset)];
        index := index + 1;
      }
      vertexBuffers := vertexBuffers + [vb];
    }

    /** `setIndexBuffer`: replaces the stored index buffer and touches nothing
      else. */
    method SetIndexBuffer(ib: IndexBuffer)
      modifies this
      ensures indexBuffer == Some(ib)
      ensures vertexBuffers == old(vertexBuffers) && attributes == old(attributes)
    {
      indexBuffer := Some(ib);
    }
  }

  /** A buffer whose layout came from the layout constructor gets, at
      attribute i, the prefix-sum offset of element i and a stride that covers
      every attribute, so each attribute lies inside one vertex. */
  lemma AttributesInsideVertex(vb: VertexBuffer, i: nat)
    requires WellFormed(vb.layout)
    requires i < |vb.layout.elements|
    ensures PointerFor(vb, i).offset == SizeSum(vb.layout.elements[..i])
    ensures PointerFor(vb, i).offset + vb.layout.elements[i].size <= PointerFor(vb, i).stride
  {
    ElementsFitInStride(vb.layout, i);
  }
}
