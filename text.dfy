/** Glyph rasterization into a row-major coverage bitmap (engine/src/text.rs).
    Font reading and outlining belong to the font library; here the outline is given
    as its pixel bounds and the sequence of per-pixel callbacks it makes, each with its
    coverage already scaled to a byte. */
module Text {
  import opened Wrappers
  import opened Numeric

  /** One call of the outline's draw callback: pixel `(x, y)` gets coverage `c`. */
  datatype Coverage = Coverage(x: nat, y: nat, c: byte)

  /** An outlined glyph: its pixel bounds, rounded up, and its draw callbacks in order. */
  datatype Outline = Outline(width: nat, height: nat, coverage: seq<Coverage>)

  /** What loading the font and outlining the requested character gives. */
  datatype GlyphSource =
    | Unreadable       // the font file could not be read
    | Malformed        // the bytes are not a font
    | Loaded(outline: Option<Outline>)  // `None`: the font has no outline for the character

  datatype RasterError = ReadFailed | ParseFailed | NoOutline(ch: char)

  /** The returned triple: bitmap, width, height. */
  datatype Raster = Raster(bitmap: seq<byte>, width: nat, height: nat)

  /** Row-major addressing: cell `(x, y)` of a `width`-wide bitmap is at `y * width + x`,
      which lies inside a `width * height` bitmap whenever `x < width` and `y < height`. */
  lemma CellIndexInBounds(width: nat, height: nat, x: nat, y: nat)
    requires x < width && y < height
    ensures y * width + x < width * height
  {
    calc {
      y * width + x;
    <
      y * width + width;
    ==
      (y + 1) * width;
    <=
      { MulMonotone(y + 1, height, width); }
      height * width;
    }
  }

  lemma MulMonotone(a: nat, b: nat, k: nat)
    requires a <= b
    ensures a * k <= b * k
  {
    var d := b - a;
    assert b * k == a * k + d * k;
  }

  /** The cell a draw callback writes, if its coordinates are inside the bounds. */
  function Target(width: nat, height: nat, p: Coverage): (r: Option<nat>)
    ensures r.Some? <==> p.x < width && p.y < height
    ensures r.Some? ==> r.value == p.y * width + p.x && r.value < width * height
  {
    if p.x < width && p.y < height then
      CellIndexInBounds(width, height, p.x, p.y);
      Some(p.y * width + p.x)
    else None
  }

  /** Two in-bounds pixels never share a cell. */
  lemma TargetInjective(width: nat, height: nat, p: Coverage, q: Coverage)
    requires Target(width, height, p).Some? && Target(width, height, p) == Target(width, height, q)
    ensures p.x == q.x && p.y == q.y
  {
    if p.y < q.y {
      RowsApart(width, p, q);
    } else if q.y < p.y {
      RowsApart(width, q, p);
    }
  }

  /** A pixel in an earlier row has a smaller index than any pixel in a later row. */
  lemma RowsApart(width: nat, p: Coverage, q: Coverage)
    requires p.x < width && p.y < q.y
    ensures p.y * width + p.x < q.y * width + q.x
  {
    assert (p.y + 1) * width == p.y * width + width;
    MulMonotone(p.y + 1, q.y, width);
  }

  /** Every cell of the bitmap is addressed: cell `i` is pixel `(i % width, i / width)`. */
  lemma TargetCovers(width: nat, height: nat, i: nat, c: byte)
    requires i < width * height
    ensures width > 0 && Target(width, height, Coverage(i % width, i / width, c)) == Some(i)
  {
    assert width > 0;
    var y := i / width;
    if y >= height {
      MulMonotone(height, y, width);
      assert false;
    }
  }

  /** The effect of one draw callback on the cells: one cell written, or none. */
  function PlotCell(cells: seq<byte>, width: nat, height: nat, p: Coverage): (r: seq<byte>)
    requires |cells| == width * height
    ensures |r| == |cells|
    ensures Target(width, height, p).None? ==> r == cells
    ensures forall i :: 0 <= i < |r| ==> r[i] == (if Target(width, height, p) == Some(i) then p.c else cells[i])
  {
    match Target(width, height, p)
    case None => cells
    case Some(i) => cells[i := p.c]
  }

  /** The bitmap after the draw callbacks `coverage`, starting from all zeros. */
  function Rasterized(width: nat, height: nat, coverage: seq<Coverage>): (r: seq<byte>)
    ensures |r| == width * height
  {
    if coverage == [] then seq(width * height, _ => 0)
    else PlotCell(Rasterized(width, height, coverage[..|coverage| - 1]), width, height, coverage[|coverage| - 1])
  }

  /** A callback that writes cell `i`. */
  predicate Writes(width: nat, height: nat, p: Coverage, i: nat) {
    Target(width, height, p) == Some(i)
  }

  /** A cell no callback writes stays zero. */
  lemma {:induction false} RasterizedUnwritten(width: nat, height: nat, coverage: seq<Coverage>, i: nat)
    requires i < width * height
    requires forall k :: 0 <= k < |coverage| ==> !Writes(width, height, coverage[k], i)
    ensures Rasterized(width, height, coverage)[i] == 0
  {
    if coverage != [] {
      var front := coverage[..|coverage| - 1];
      assert forall k :: 0 <= k < |front| ==> front[k] == coverage[k];
      RasterizedUnwritten(width, height, front, i);
    }
  }

  /** A written cell holds the coverage of the last callback that wrote it. */
  lemma {:induction false} RasterizedLastWrite(width: nat, height: nat, coverage: seq<Coverage>, i: nat, k: nat)
    requires i < width * height && k < |coverage| && Writes(width, height, coverage[k], i)
    requires forall j :: k < j < |coverage| ==> !Writes(width, height, coverage[j], i)
    ensures Rasterized(width, height, coverage)[i] == coverage[k].c
  {
    if k < |coverage| - 1 {
      var front := coverage[..|coverage| - 1];
      assert forall j :: k < j < |front| ==> front[j] == coverage[j];
      RasterizedLastWrite(width, height, front, i, k);
    }
  }

  /** The draw callback: a bounds-checked write of one coverage byte. */
  method Plot(bitmap: array<byte>, width: nat, height: nat, p: Coverage)
    requires bitmap.Length == width * height
    modifies bitmap
    ensures bitmap[..] == PlotCell(old(bitmap[..]), width, height, p)
  {
    if p.x < width && p.y < height {
      CellIndexInBounds(width, height, p.x, p.y);
      bitmap[p.y * width + p.x] := p.c;
    }
  }

  /** Rasterizes one character: an error when the font cannot be loaded or the glyph has
      no outline, otherwise a zeroed `width * height` bitmap with every callback plotted. */
  method RasterizeChar(ch: char, source: GlyphSource) returns (r: Result<Raster, RasterError>)
    ensures source.Unreadable? ==> r == Err(ReadFailed)
    ensures source.Malformed? ==> r == Err(ParseFailed)
    ensures source == Loaded(None) ==> r == Err(NoOutline(ch))
    ensures source.Loaded? && source.outline.Some? ==>
              var o := source.outline.value;
              r == Ok(Raster(Rasterized(o.width, o.height, o.coverage), o.width, o.height))
    ensures r.Ok? ==> |r.value.bitmap| == r.value.width * r.value.height
  {
    match source
    case Unreadable => return Err(ReadFailed);
    case Malformed => return Err(ParseFailed);
    case Loaded(None) => return Err(NoOutline(ch));
    case Loaded(Some(outline)) =>
      var width, height := outline.width, outline.height;
      var bitmap := new byte[width * height](_ => 0);
      assert bitmap[..] == Rasterized(width, height, []);
      for k := 0 to |outline.coverage|
        invariant bitmap[..] == Rasterized(width, height, outline.coverage[..k])
      {
        assert outline.coverage[..k + 1][..k] == outline.coverage[..k];
        Plot(bitmap, width, height, outline.coverage[k]);
      }
      assert outline.coverage[..|outline.coverage|] == outline.coverage;
      r := Ok(Raster(bitmap[..], width, height));
  }
}
