/**
 * The renderer's vertex-buffer bookkeeping: the element types a vertex
 * attribute can have, the layout that lists a vertex's attributes, and the
 * byte size of a vertex buffer.
 *
 * OpenGL type names are their enum values from the OpenGL specification
 * (`GL_INT` is 0x1404, `GL_UNSIGNED_INT` 0x1405, `GL_FLOAT` 0x1406).
 */
module Renderer {

  const GL_INT: nat := 0x1404
  const GL_UNSIGNED_INT: nat := 0x1405
  const GL_FLOAT: nat := 0x1406

  /** Whether a GL type name is one of the integer types. */
  predicate IsIntegerGl(t: nat) {
    t == GL_INT || t == GL_UNSIGNED_INT
  }

  datatype ElementType = I32 | U32 | F32

  /** `BufferElementType::size`: every element type is four bytes wide. */
  function ElementSize(t: ElementType): (r: nat)
  {
    match t
    case I32 => 4
    case U32 => 4
    case F32 => 4
  }

  /** `BufferElementType::is_integral`. */
  predicate IsIntegral(t: ElementType)
  {
    t == I32 || t == U32
  }

  /** `BufferElementType::gl_type` as written: `U32` maps to `GL_FLOAT` and `F32` to
    * `GL_UNSIGNED_INT`. */
  function GlTypeAsWritten(t: ElementType): nat
  {
    match t
    case I32 => GL_INT
    case U32 => GL_FLOAT
    case F32 => GL_UNSIGNED_INT
  }

  /** As written, `gl_type` names a float type for the integral `U32` and an integer
    * type for `F32`. */
  lemma GlTypeAsWrittenSwapped()
    ensures IsIntegral(U32) && !IsIntegerGl(GlTypeAsWritten(U32))
    ensures !IsIntegral(F32) && IsIntegerGl(GlTypeAsWritten(F32))
  {
  }

  /** `gl_type` with each element type sent to its own GL type. */
  function GlType(t: ElementType): nat
  {
    match t
    case I32 => GL_INT
    case U32 => GL_UNSIGNED_INT
    case F32 => GL_FLOAT
  }

  /** The GL type is an integer type exactly for the integral element types, so
    * `is_integral` picks the integer attribute path for those and no others; and
    * distinct element types get distinct GL types. */
  lemma GlTypeAgrees(t: ElementType, u: ElementType)
    ensures IsIntegerGl(GlType(t)) <==> IsIntegral(t)
    ensures GlType(t) == GlType(u) ==> t == u
  {
  }

  /** Every element type is four bytes wide and only `F32` is not integral. */
  lemma ElementTypes(t: ElementType)
    ensures ElementSize(t) == 4
    ensures IsIntegral(t) <==> t != F32
  {
  }

  datatype BufferElement = BufferElement(elementType: ElementType, quantity: nat, normalized: bool)

  /** The bytes of a vertex laid out as `es`: the sum of `quantity * size` over its
    * elements. */
  function LayoutBytes(es: seq<BufferElement>): nat
    decreases |es|
  {
    if es == [] then 0
    else LayoutBytes(es[..|es| - 1]) + es[|es| - 1].quantity * ElementSize(es[|es| - 1].elementType)
  }

  /** Each element adds its own quantity of four-byte values. */
  lemma {:induction false} LayoutBytesAppend(es: seq<BufferElement>, e: BufferElement)
    ensures LayoutBytes(es + [e]) == LayoutBytes(es) + e.quantity * 4
  {
    assert (es + [e])[..|es|] == es;
  }

  /** A layout occupies four bytes per value of every element. */
  lemma {:induction false} LayoutBytesQuantities(es: seq<BufferElement>)
    ensures LayoutBytes(es) == 4 * Quantities(es)
    decreases |es|
  {
    if es != [] {
      LayoutBytesQuantities(es[..|es| - 1]);
    }
  }

  /** The number of values in all elements. */
  function Quantities(es: seq<BufferElement>): nat
    decreases |es|
  {
    if es == [] then 0 else Quantities(es[..|es| - 1]) + es[|es| - 1].quantity
  }

  class BufferLayout {
    var elements: seq<BufferElement>

    /** `BufferLayout::default()`: no elements. */
    constructor ()
      ensures elements == []
    {
      elements := [];
    }

    /** `BufferLayout::add`: the element goes at the end. */
    method Add(e: BufferElement)
      modifies this
      ensures elements == old(elements) + [e]
    {
      elements := elements + [e];
    }

    /** `BufferLayout::size`: the bytes of one vertex. */
    method Size() returns (size: nat)
      ensures size == LayoutBytes(elements)
    {
      size := 0;
      for k := 0 to |elements|
        invariant size == LayoutBytes(elements[..k])
      {
        var e := elements[k];
        assert elements[..k + 1][..k] == elements[..k];
        size := size + e.quantity * ElementSize(e.elementType);
      }
      assert elements[..|elements|] == elements;
    }
  }

  /** A default layout has size 0; each `add` grows the size by four bytes per value
    * of the new element and keeps the earlier elements. */
  lemma LayoutGrowth(es: seq<BufferElement>, e: BufferElement)
    ensures LayoutBytes([]) == 0
    ensures LayoutBytes(es + [e]) == LayoutBytes(es) + e.quantity * 4
    ensures (es + [e])[..|es|] == es && (es + [e])[|es|] == e
  {
    LayoutBytesAppend(es, e);
  }

  /** `VertexBuffer<T>`: the vertices; the size of `T` is a parameter. */
  datatype VertexBuffer<T> = VertexBuffer(items: seq<T>)

  /** `VertexBuffer::len`. */
  function Len<T>(b: VertexBuffer<T>): nat {
    |b.items|
  }

  /** `VertexBuffer::size`: the bytes of the buffer for vertices of `width` bytes. */
  function BufferBytes<T>(b: VertexBuffer<T>, width: nat): nat {
    |b.items| * width
  }

  /** The bytes of a buffer grow by one vertex's width per vertex, and a buffer of
    * packed `u32` vertices takes four bytes per vertex. */
  lemma BufferBytesPerVertex<T>(b: VertexBuffer<T>, v: T, width: nat)
    ensures BufferBytes(VertexBuffer(b.items + [v]), width) == BufferBytes(b, width) + width
    ensures Len(VertexBuffer(b.items + [v])) == Len(b) + 1
    ensures BufferBytes(b, 4) == 4 * Len(b)
  {
  }
}
