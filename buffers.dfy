/** Vertex-buffer layout arithmetic of the renderer (src/Morrigu/Renderer/Buffers.h):
    the table of shader data types, the description of one vertex attribute
    (`BufferElement`) and the layout that packs attributes one after another
    (`BufferLayout`). */
module Buffers {

  /** The shader data types. Buffers.h declares None, the Float, Mat, Int and
      Bool families; the OpenGL vertex array and the quad vertex layout also
      use UInt..UInt4, so the model takes the union of both. */
  datatype ShaderDataType =
    | None
    | Float | Float2 | Float3 | Float4
    | Mat3 | Mat4
    | Int | Int2 | Int3 | Int4
    | UInt | UInt2 | UInt3 | UInt4
    | Bool

  predicate IsFloatVector(t: ShaderDataType) { t.Float? || t.Float2? || t.Float3? || t.Float4? }

  predicate IsMatrix(t: ShaderDataType) { t.Mat3? || t.Mat4? }

  predicate IsIntVector(t: ShaderDataType) { t.Int? || t.Int2? || t.Int3? || t.Int4? }

  predicate IsUIntVector(t: ShaderDataType) { t.UInt? || t.UInt2? || t.UInt3? || t.UInt4? }

  /** The types the two switches of Buffers.h have an arm for. None and the
      UInt family reach the `default` arm: it asserts and yields 0. Under this
      revision of Buffers.h the UInt family is therefore sizeless, although
      the quad vertex layout declares its object id as UInt. */
  predicate HasLayoutArm(t: ShaderDataType) { IsFloatVector(t) || IsMatrix(t) || IsIntVector(t) || t.Bool? }

  /** Number of components the GPU reads for one attribute of type `t`
      (a matrix is read as 3 or 4 column vectors). */
  function ComponentCount(t: ShaderDataType): (r: nat)
    ensures r == 0 <==> !HasLayoutArm(t)
    ensures r <= 4
    ensures IsMatrix(t) ==> r == 3 || r == 4
  {
    match t
    case Float => 1
    case Float2 => 2
    case Float3 => 3
    case Float4 => 4
    case Mat3 => 3
    case Mat4 => 4
    case Int => 1
    case Int2 => 2
    case Int3 => 3
    case Int4 => 4
    case Bool => 1
    case _ => 0
  }

  /** Size in bytes of one attribute of type `t`: four bytes per component for
      the float and int vectors, four bytes per cell of a square matrix, one
      byte for Bool, and 0 (after an assertion) for None and the UInt family. */
  function ShaderDataTypeSize(t: ShaderDataType): (r: nat)
    ensures IsFloatVector(t) || IsIntVector(t) ==> r == 4 * ComponentCount(t)
    ensures IsMatrix(t) ==> r == 4 * ComponentCount(t) * ComponentCount(t)
    ensures t.Bool? ==> r == ComponentCount(t)
    ensures r == 0 <==> ComponentCount(t) == 0
  {
    match t
    case Float => 4 * 1
    case Float2 => 4 * 2
    case Float3 => 4 * 3
    case Float4 => 4 * 4
    case Mat3 => 4 * 3 * 3
    case Mat4 => 4 * 4 * 4
    case Int => 4 * 1
    case Int2 => 4 * 2
    case Int3 => 4 * 3
    case Int4 => 4 * 4
    case Bool => 1
    case _ => 0
  }

  /** One vertex attribute: its shader name, type, byte size, byte offset in
      the vertex and whether integer data is normalised when read. */
  datatype BufferElement = BufferElement(name: string, dataType: ShaderDataType, size: nat, offset: nat, isNormalized: bool)

  /** The `BufferElement(type, name, normalized = false)` constructor: the size
      comes from the type table and the offset starts at 0 until a layout
      places the element. */
  function NewElement(t: ShaderDataType, name: string, normalized: bool := false): (e: BufferElement)
    ensures e.name == name && e.dataType == t && e.isNormalized == normalized
    ensures e.size == ShaderDataTypeSize(t) && e.offset == 0
    ensures e.size == 0 <==> !HasLayoutArm(t)
  {
    BufferElement(name, t, ShaderDataTypeSize(t), 0, normalized)
  }

  /** Total byte size of a list of elements. */
  function SizeSum(es: seq<BufferElement>): nat
  {
    if es == [] then 0 else SizeSum(es[..|es| - 1]) + es[|es| - 1].size
  }

  /** A layout: the elements in declaration order and the vertex stride. The
      C++ class is a value type that is only ever built, copied and read, so
      it is a datatype here; `getElements` and `getStride` are its fields. */
  datatype BufferLayout = BufferLayout(elements: seq<BufferElement>, stride: nat)

  /** A layout is well formed when every element starts where the elements
      before it end and the stride covers all of them. */
  ghost predicate WellFormed(l: BufferLayout)
  {
    && (forall i :: 0 <= i < |l.elements| ==> l.elements[i].offset == SizeSum(l.elements[..i]))
    && l.stride == SizeSum(l.elements)
  }

  /** The element list `es` as the layout constructor leaves it: everything
      kept except the offsets, which become prefix sums of the sizes. */
  function LaidOut(es: seq<BufferElement>): (r: seq<BufferElement>)
    ensures |r| == |es|
  {
    seq(|es|, i requires 0 <= i < |es| => es[i].(offset := SizeSum(es[..i])))
  }

  /** The default-constructed layout: no elements, stride 0. */
  function DefaultLayout(): (l: BufferLayout)
    ensures WellFormed(l) && l.elements == [] && l.stride == 0
  {
    BufferLayout([], 0)
  }

  /** The `BufferLayout(initializer_list)` constructor: copies the elements,
      then walks them once, writing each element's offset in place and
      accumulating the running offset and the stride. */
  method NewLayout(es: seq<BufferElement>) returns (layout: BufferLayout)
    ensures layout.elements == LaidOut(es)
    ensures layout.stride == SizeSum(es)
    ensures WellFormed(layout)
  {
    var elements := es;
    var offset := 0;
    var stride := 0;
    var i := 0;
    while i < |elements|
      invariant 0 <= i <= |es| == |elements|
      invariant offset == stride == SizeSum(es[..i])
      invariant forall k :: 0 <= k < i ==> elements[k] == es[k].(offset := SizeSum(es[..k]))
      invariant forall k :: i <= k < |es| ==> elements[k] == es[k]
    {
      assert es[..i + 1][..i] == es[..i];
      elements := elements[i := elements[i].(offset := offset)];
      stride := stride + elements[i].size;
      offset := offset + elements[i].size;
      i := i + 1;
    }
    assert es[..i] == es;
    layout := BufferLayout(elements, stride);
    LaidOutIsWellFormed(es);
  }

  /** SizeSum only looks at the sizes. */
  lemma {:induction false} SizeSumOnlySizes(a: seq<BufferElement>, b: seq<BufferElement>)
    requires |a| == |b|
    requires forall i :: 0 <= i < |a| ==> a[i].size == b[i].size
    ensures SizeSum(a) == SizeSum(b)
  {
    if a != [] {
      SizeSumOnlySizes(a[..|a| - 1], b[..|b| - 1]);
    }
  }

  /** Every layout the constructor builds is well formed, and it keeps each
      element's name, type, size and normalisation flag in the given order. */
  lemma LaidOutIsWellFormed(es: seq<BufferElement>)
    ensures WellFormed(BufferLayout(LaidOut(es), SizeSum(es)))
    ensures forall i :: 0 <= i < |es| ==>
      && LaidOut(es)[i].name == es[i].name
      && LaidOut(es)[i].dataType == es[i].dataType
      && LaidOut(es)[i].size == es[i].size
      && LaidOut(es)[i].isNormalized == es[i].isNormalized
  {
    var r := LaidOut(es);
    forall i | 0 <= i < |r|
      ensures r[i].offset == SizeSum(r[..i])
    {
      SizeSumOnlySizes(r[..i], es[..i]);
    }
    SizeSumOnlySizes(r, es);
  }

  /** A prefix never weighs more than a longer prefix. */
  lemma {:induction false} SizeSumPrefixMonotone(es: seq<BufferElement>, i: nat, j: nat)
    requires i <= j <= |es|
    ensures SizeSum(es[..i]) <= SizeSum(es[..j])
    ensures (forall k :: 0 <= k < |es| ==> es[k].size > 0) && i < j ==> SizeSum(es[..i]) < SizeSum(es[..j])
    decreases j - i
  {
    if i < j {
      SizeSumPrefixMonotone(es, i, j - 1);
      assert es[..j][..j - 1] == es[..j - 1];
    }
  }

  /** Offsets in a well-formed layout never decrease, and strictly increase
      when every element has a positive size. */
  lemma OffsetsIncrease(l: BufferLayout, i: nat, j: nat)
    requires WellFormed(l)
    requires i <= j < |l.elements|
    ensures l.elements[i].offset <= l.elements[j].offset
    ensures (forall k :: 0 <= k < |l.elements| ==> l.elements[k].size > 0) && i < j ==>
      l.elements[i].offset < l.elements[j].offset
  {
    SizeSumPrefixMonotone(l.elements, i, j);
  }

  /** In a non-empty well-formed layout the last element ends exactly at the
      stride, and no element reaches past it. */
  lemma ElementsFitInStride(l: BufferLayout, i: nat)
    requires WellFormed(l)
    requires i < |l.elements|
    ensures l.elements[i].offset + l.elements[i].size <= l.stride
    ensures i == |l.elements| - 1 ==> l.elements[i].offset + l.elements[i].size == l.stride
  {
    var n := |l.elements|;
    SizeSumPrefixMonotone(l.elements, i + 1, n);
    assert l.elements[..i + 1][..i] == l.elements[..i];
    assert l.elements[..n] == l.elements;
  }
}
