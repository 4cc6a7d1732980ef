/** Texture construction (engine/src/texture.rs): the RGBA8 bytes handed to the GPU and
    the extent and row layout of the upload. The GPU calls themselves are represented
    by the record `TextureUpload` of what is passed to them. */
module Texture {
  import opened Wrappers
  import opened Numeric

  /** Every texture is created as 8-bit RGBA in sRGB space. */
  datatype TextureFormat = Rgba8UnormSrgb

  datatype Extent3d = Extent3d(width: u32, height: u32, depthOrArrayLayers: u32)

  /** How the bytes of `data` are laid out row by row in the upload. */
  datatype TexelCopyBufferLayout = TexelCopyBufferLayout(offset: nat, bytesPerRow: Option<u32>, rowsPerImage: Option<u32>)

  /** What is passed to texture creation and to the queue's texture write. */
  datatype TextureUpload = TextureUpload(
    debugLabel: Option<string>,
    size: Extent3d,
    format: TextureFormat,
    data: seq<byte>,
    layout: TexelCopyBufferLayout)

  /** Bind groups are GPU objects; here a bind group is known only by an identifier. */
  type BindGroupId = nat

  datatype TextureHandler = TextureHandler(upload: TextureUpload, bindGroup: Option<BindGroupId>)

  /** An RGBA8 image buffer: four bytes per pixel, rows top to bottom, over a container
      that may hold more bytes than the pixels need. */
  datatype ImageBuffer = ImageBuffer(width: u32, height: u32, pixels: seq<byte>)

  /** The number of bytes the pixels of a `width` by `height` RGBA8 image take. */
  function PixelBytes(width: u32, height: u32): nat {
    4 * width as int * height as int
  }

  /** An image converted by `to_rgba8`: exactly the bytes its pixels take. */
  type RgbaImage = img: ImageBuffer | |img.pixels| == PixelBytes(img.width, img.height)
    witness ImageBuffer(0, 0, [])

  /** `ImageBuffer::from_raw`: accepts a buffer only if it is big enough for the
      dimensions, and keeps the whole container. */
  function FromRaw(width: u32, height: u32, buffer: seq<byte>): (r: Option<ImageBuffer>)
    ensures r.Some? <==> |buffer| >= PixelBytes(width, height)
    ensures r.Some? ==> r.value == ImageBuffer(width, height, buffer)
  {
    if |buffer| >= PixelBytes(width, height) then Some(ImageBuffer(width, height, buffer)) else None
  }

  /** `to_rgba8` on an RGBA8 buffer: a copy of its pixels, without any bytes of the
      container beyond them. */
  function ToRgba8(img: ImageBuffer): (r: RgbaImage)
    requires |img.pixels| >= PixelBytes(img.width, img.height)
    ensures r.width == img.width && r.height == img.height
    ensures r.pixels == img.pixels[..PixelBytes(img.width, img.height)]
  {
    ImageBuffer(img.width, img.height, img.pixels[..PixelBytes(img.width, img.height)])
  }

  /** The row layout both constructors give the upload: tightly packed rows of four bytes
      per pixel, `height` rows per image. `4 * width` is a `u32` product. */
  function RowLayout(width: u32, height: u32): (l: TexelCopyBufferLayout)
    ensures l.offset == 0 && l.rowsPerImage == Some(height)
    ensures width as int < U32_MODULUS / 4 ==> l.bytesPerRow == Some((4 * width as int) as u32)
  {
    TexelCopyBufferLayout(0, Some(WrappingMul4(width)), Some(height))
  }

  /** Upload of an already RGBA8 image, with the image's dimensions as the extent. For
      images narrower than 2^30 pixels the data fills the extent exactly:
      `bytes_per_row * rows_per_image` bytes. */
  function FromImage(img: RgbaImage, debugLabel: Option<string>): (t: TextureHandler)
    ensures t.upload.size == Extent3d(img.width, img.height, 1)
    ensures t.upload.data == img.pixels && t.upload.format == Rgba8UnormSrgb && t.upload.debugLabel == debugLabel
    ensures t.upload.layout == RowLayout(img.width, img.height)
    ensures t.bindGroup == None
    ensures img.width as int < U32_MODULUS / 4 ==>
              && t.upload.layout.bytesPerRow.Some? && t.upload.layout.rowsPerImage.Some?
              && |t.upload.data| == t.upload.layout.bytesPerRow.value as int * t.upload.layout.rowsPerImage.value as int
  {
    var size := Extent3d(img.width, img.height, 1);
    TextureHandler(TextureUpload(debugLabel, size, Rgba8UnormSrgb, img.pixels, RowLayout(img.width, img.height)), None)
  }

  /** Image decoding is the image library's; only whether it failed matters here. */
  datatype ImageError = ImageError(reason: string)

  /** `TextureHandler::new`: a decoding failure is returned as is, otherwise the decoded
      image is uploaded without a debug label. */
  function New(decoded: Result<RgbaImage, ImageError>): (r: Result<TextureHandler, ImageError>)
    ensures decoded.Err? ==> r == Err(decoded.error)
    ensures decoded.Ok? ==> r.Ok? && r.value.upload.data == decoded.value.pixels && r.value.upload.debugLabel == None
    ensures r.Ok? ==> r.value == FromImage(decoded.value, None) && r.value.bindGroup == None
  {
    var img :- decoded;
    Ok(FromImage(img, None))
  }

  /** `TextureHandler::from_bytes`: as `New`, with the caller's debug label. */
  function FromBytes(decoded: Result<RgbaImage, ImageError>, debugLabel: string): (r: Result<TextureHandler, ImageError>)
    ensures decoded.Err? ==> r == Err(decoded.error)
    ensures decoded.Ok? ==> r.Ok? && r.value.upload.data == decoded.value.pixels && r.value.upload.debugLabel == Some(debugLabel)
    ensures r.Ok? ==> r.value == FromImage(decoded.value, Some(debugLabel)) && r.value.bindGroup == None
  {
    var img :- decoded;
    Ok(FromImage(img, Some(debugLabel)))
  }

  /** The 1x1 opaque white texture. Wrapping the four bytes as a 1x1 image always succeeds. */
  function White(): (t: TextureHandler)
    ensures t.upload.size == Extent3d(1, 1, 1)
    ensures t.upload.data == [255, 255, 255, 255]
    ensures t.upload.layout == TexelCopyBufferLayout(0, Some(4), Some(1))
    ensures t.upload.debugLabel == Some("White") && t.bindGroup == None
  {
    var pixel: seq<byte> := [255, 255, 255, 255];
    var img := FromRaw(1, 1, pixel);
    FromImage(ToRgba8(img.value), Some("White"))
  }

  /** The RGBA bytes for a coverage bitmap: each coverage byte `a` becomes the white pixel
      `[255, 255, 255, a]`, in the bitmap's order. */
  function ExpandAlpha(bitmap: seq<byte>): (rgba: seq<byte>)
    ensures |rgba| == 4 * |bitmap|
  {
    if bitmap == [] then []
    else ExpandAlpha(bitmap[..|bitmap| - 1]) + [255, 255, 255, bitmap[|bitmap| - 1]]
  }

  /** The alpha channel of tightly packed RGBA bytes. */
  function AlphaChannel(rgba: seq<byte>): (alpha: seq<byte>)
    requires |rgba| % 4 == 0
    ensures |alpha| == |rgba| / 4
    ensures forall i :: 0 <= i < |alpha| ==> alpha[i] == rgba[4 * i + 3]
  {
    seq(|rgba| / 4, i requires 0 <= i < |rgba| / 4 => rgba[4 * i + 3])
  }

  /** Pixel `i` of the expansion is white with the coverage of bitmap cell `i`. */
  lemma {:induction false} ExpandAlphaAt(bitmap: seq<byte>, i: nat)
    requires i < |bitmap|
    ensures ExpandAlpha(bitmap)[4 * i] == 255
    ensures ExpandAlpha(bitmap)[4 * i + 1] == 255
    ensures ExpandAlpha(bitmap)[4 * i + 2] == 255
    ensures ExpandAlpha(bitmap)[4 * i + 3] == bitmap[i]
  {
    var n := |bitmap| - 1;
    if i < n {
      ExpandAlphaAt(bitmap[..n], i);
      assert bitmap[..n][i] == bitmap[i];
    }
  }

  /** Expansion works pixel by pixel, so it commutes with concatenation. */
  lemma {:induction false} ExpandAlphaConcat(a: seq<byte>, b: seq<byte>)
    ensures ExpandAlpha(a + b) == ExpandAlpha(a) + ExpandAlpha(b)
  {
    if b == [] {
      assert a + b == a;
    } else {
      var n := |b| - 1;
      assert (a + b)[..|a + b| - 1] == a + b[..n];
      ExpandAlphaConcat(a, b[..n]);
    }
  }

  /** The coverage bitmap can be read back from the alpha channel of its expansion. */
  lemma AlphaOfExpand(bitmap: seq<byte>)
    ensures AlphaChannel(ExpandAlpha(bitmap)) == bitmap
  {
    var alpha := AlphaChannel(ExpandAlpha(bitmap));
    forall i | 0 <= i < |bitmap| ensures alpha[i] == bitmap[i] {
      ExpandAlphaAt(bitmap, i);
    }
  }

  /** The white texture's pixel is the expansion of full coverage. */
  lemma WhiteIsFullCoverage()
    ensures White().upload.data == ExpandAlpha([255])
  {
    assert [255 as byte][..0] == [];
  }

  /** A glyph texture from a coverage bitmap. The bytes depend on the bitmap alone; `width`
      and `height` (truncated to `u32`) give only the extent and the row layout, and
      nothing checks that the bitmap has `width * height` cells. */
  method FromAlphaBitmap(bitmap: seq<byte>, width: nat, height: nat, debugLabel: Option<string>) returns (t: TextureHandler)
    ensures t.upload.data == ExpandAlpha(bitmap)
    ensures |t.upload.data| == 4 * |bitmap|
    ensures forall i :: 0 <= i < |bitmap| ==>
              t.upload.data[4 * i] == 255 && t.upload.data[4 * i + 1] == 255 &&
              t.upload.data[4 * i + 2] == 255 && t.upload.data[4 * i + 3] == bitmap[i]
    ensures t.upload.size == Extent3d(TruncateU32(width), TruncateU32(height), 1)
    ensures t.upload.layout == RowLayout(TruncateU32(width), TruncateU32(height))
    ensures t.upload.format == Rgba8UnormSrgb && t.upload.debugLabel == debugLabel
    ensures t.bindGroup == None
  {
    var rgba: seq<byte> := [];
    for k := 0 to |bitmap|
      invariant rgba == ExpandAlpha(bitmap[..k])
    {
      assert bitmap[..k + 1][..k] == bitmap[..k];
      rgba := rgba + [255, 255, 255, bitmap[k]];
    }
    assert bitmap[..|bitmap|] == bitmap;
    forall i | 0 <= i < |bitmap|
      ensures rgba[4 * i] == 255 && rgba[4 * i + 1] == 255 && rgba[4 * i + 2] == 255 && rgba[4 * i + 3] == bitmap[i]
    {
      ExpandAlphaAt(bitmap, i);
    }
    var w := TruncateU32(width);
    var h := TruncateU32(height);
    var size := Extent3d(w, h, 1);
    t := TextureHandler(TextureUpload(debugLabel, size, Rgba8UnormSrgb, rgba, RowLayout(w, h)), None);
  }
}
