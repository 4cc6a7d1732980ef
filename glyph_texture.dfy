/** How the two halves of glyph loading fit together: the coverage bitmap the
    rasterizer returns (engine/src/text.rs) is expanded into RGBA and described to the
    GPU by the alpha-bitmap constructor (engine/src/texture.rs). */
module GlyphTexture {
  import opened Wrappers
  import opened Numeric
  import Text
  import Texture

  /** For glyphs narrower than 2^30 pixels, the expanded bitmap holds exactly
      `bytes_per_row * rows_per_image` bytes, so the upload covers its extent. */
  lemma {:induction false} GlyphUploadFillsExtent(width: nat, height: nat, coverage: seq<Text.Coverage>)
    requires width < U32_MODULUS / 4 && height < U32_MODULUS
    ensures var layout := Texture.RowLayout(TruncateU32(width), TruncateU32(height));
            var rgba := Texture.ExpandAlpha(Text.Rasterized(width, height, coverage));
            layout.bytesPerRow.Some? && layout.rowsPerImage.Some? &&
            |rgba| == layout.bytesPerRow.value as int * layout.rowsPerImage.value as int
  {
    var cells := Text.Rasterized(width, height, coverage);
    assert |cells| == width * height;
    assert 4 * (width * height) == (4 * width) * height;
  }
}
