/** The vertex type and the vertex-buffer layout the pipeline is given for it
    (engine/src/utility.rs). */
module Utility {

  /** `#[repr(C)] struct Vertex { position: [f32; 3], tex_coords: [f32; 2] }`;
      the `f32` values are stored, never computed with, so they are reals here. */
  datatype Vertex = Vertex(position: (real, real, real), texCoords: (real, real)) {
    static function New(pos: (real, real, real), texPos: (real, real)): (v: Vertex)
      ensures v.position == pos && v.texCoords == texPos
    {
      Vertex(position := pos, texCoords := texPos)
    }
  }

  /** Size and alignment, in bytes, of one field type. */
  datatype FieldLayout = FieldLayout(size: nat, align: nat)

  const F32_SIZE: nat := 4

  /** `[f32; n]`: `n` four-byte floats, aligned like one. */
  function F32Array(n: nat): (f: FieldLayout)
    ensures f.size == F32_SIZE * n && f.align == F32_SIZE
  {
    FieldLayout(F32_SIZE * n, F32_SIZE)
  }

  /** The fields of `Vertex`, in declaration order. */
  const VERTEX_FIELDS: seq<FieldLayout> := [F32Array(3), F32Array(2)]

  /** The number of `align`-sized steps needed to reach `n`. */
  function CeilDiv(n: nat, align: nat): (q: nat)
    requires align > 0
    ensures q * align >= n && q * align < n + align
    decreases n
  {
    if n == 0 then 0
    else if n <= align then 1
    else
      var rest := CeilDiv(n - align, align);
      assert (rest + 1) * align == rest * align + align;
      rest + 1
  }

  /** The least multiple of `align` that is at least `n`. */
  function AlignUp(n: nat, align: nat): (r: nat)
    requires align > 0
    ensures r >= n && r < n + align
    ensures exists k: nat :: r == k * align
  {
    var q := CeilDiv(n, align);
    q * align
  }

  /** An offset that is already a multiple of the alignment needs no padding. */
  lemma {:induction false} AlignUpMultiple(k: nat, align: nat)
    requires align > 0
    ensures AlignUp(k * align, align) == k * align
  {
    var q := CeilDiv(k * align, align);
    if q < k {
      MulLess(q, k, align);
    } else if q > k {
      MulLess(k + 1, q + 1, align);
      assert (k + 1) * align == k * align + align;
    }
  }

  lemma MulLess(a: nat, b: nat, k: nat)
    requires a < b && k > 0
    ensures a * k + k <= b * k
  {
    var d := b - a - 1;
    assert b * k == a * k + k + d * k;
  }

  predicate Aligned(fields: seq<FieldLayout>) {
    forall i :: 0 <= i < |fields| ==> fields[i].align > 0
  }

  /** `repr(C)` placement: each field at the first offset after the previous field that
      suits its alignment. `offsets[i]` is where field `i` starts. */
  function ReprCOffsets(fields: seq<FieldLayout>, start: nat): (offsets: seq<nat>)
    requires Aligned(fields)
    ensures |offsets| == |fields|
    decreases |fields|
  {
    if fields == [] then []
    else
      var here := AlignUp(start, fields[0].align);
      [here] + ReprCOffsets(fields[1..], here + fields[0].size)
  }

  /** Where the last field ends, before trailing padding. */
  function ReprCEnd(fields: seq<FieldLayout>, start: nat): nat
    requires Aligned(fields)
    decreases |fields|
  {
    if fields == [] then start
    else ReprCEnd(fields[1..], AlignUp(start, fields[0].align) + fields[0].size)
  }

  function MaxAlign(fields: seq<FieldLayout>): (a: nat)
    requires Aligned(fields)
    ensures a > 0
  {
    if fields == [] then 1
    else var rest := MaxAlign(fields[1..]); if fields[0].align > rest then fields[0].align else rest
  }

  /** `size_of` a `repr(C)` struct: the end of its last field rounded up to its alignment. */
  function ReprCSize(fields: seq<FieldLayout>): nat
    requires Aligned(fields)
  {
    AlignUp(ReprCEnd(fields, 0), MaxAlign(fields))
  }

  /** The element types a vertex attribute can have here. */
  datatype VertexFormat = Float32x2 | Float32x3

  /** Bytes one attribute of the format occupies. */
  function FormatSize(format: VertexFormat): nat {
    match format
    case Float32x2 => 2 * F32_SIZE
    case Float32x3 => 3 * F32_SIZE
  }

  datatype VertexStepMode = PerVertex | PerInstance

  datatype VertexAttribute = VertexAttribute(offset: nat, shaderLocation: nat, format: VertexFormat)

  datatype VertexBufferLayout = VertexBufferLayout(arrayStride: nat, stepMode: VertexStepMode, attributes: seq<VertexAttribute>)

  /** A layout whose attributes fit in one element, overlap nowhere and feed distinct
      shader locations. */
  predicate WellFormed(layout: VertexBufferLayout) {
    && (forall i :: 0 <= i < |layout.attributes| ==>
          layout.attributes[i].offset + FormatSize(layout.attributes[i].format) <= layout.arrayStride)
    && (forall i, j :: 0 <= i < j < |layout.attributes| ==>
          layout.attributes[i].offset + FormatSize(layout.attributes[i].format) <= layout.attributes[j].offset)
    && (forall i, j :: 0 <= i < j < |layout.attributes| ==>
          layout.attributes[i].shaderLocation != layout.attributes[j].shaderLocation)
  }

  /** A layout that describes a `repr(C)` struct field for field: the stride is the size
      of the struct, and attribute `i` starts where field `i` starts and is as wide. */
  predicate Describes(layout: VertexBufferLayout, fields: seq<FieldLayout>)
    requires Aligned(fields)
  {
    && layout.arrayStride == ReprCSize(fields)
    && |layout.attributes| == |fields|
    && forall i :: 0 <= i < |fields| ==>
         layout.attributes[i].offset == ReprCOffsets(fields, 0)[i] &&
         FormatSize(layout.attributes[i].format) == fields[i].size
  }

  /** `Vertex::desc`: stride `size_of::<Vertex>()`, per-vertex stepping, position at offset 0
      for location 0, texture coordinates at `size_of::<[f32; 3]>()` for location 1. */
  function Desc(): (layout: VertexBufferLayout)
    ensures layout.stepMode == PerVertex
    ensures Describes(layout, VERTEX_FIELDS)
    ensures WellFormed(layout)
  {
    var layout := VertexBufferLayout(
      ReprCSize(VERTEX_FIELDS),
      PerVertex,
      [VertexAttribute(0, 0, Float32x3), VertexAttribute(F32Array(3).size, 1, Float32x2)]);
    VertexLayoutFacts();
    layout
  }

  /** The `repr(C)` layout of `Vertex`: position at 0, texture coordinates at 12, 20 bytes
      in all, no padding. */
  lemma VertexLayoutFacts()
    ensures ReprCOffsets(VERTEX_FIELDS, 0) == [0, 12]
    ensures ReprCEnd(VERTEX_FIELDS, 0) == 20
    ensures ReprCSize(VERTEX_FIELDS) == 20
  {
    var f := VERTEX_FIELDS;
    assert f[1..][1..] == [];
    AlignUpMultiple(0, 4);
    AlignUpMultiple(3, 4);
    AlignUpMultiple(5, 4);
    assert MaxAlign(f[1..]) == 4;
  }

  /** The concrete numbers of the layout. */
  lemma DescValues()
    ensures Desc().arrayStride == 20
    ensures |Desc().attributes| == 2
    ensures Desc().attributes[0] == VertexAttribute(0, 0, Float32x3)
    ensures Desc().attributes[1] == VertexAttribute(12, 1, Float32x2)
    ensures Desc().attributes[1].offset + FormatSize(Float32x2) == Desc().arrayStride
  {
    VertexLayoutFacts();
  }
}
