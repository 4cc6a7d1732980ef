# Animate engine core, modelled in Dafny

A model of the small pieces of logic inside the engine crate of Animate, a 2D
rendering layer over wgpu and winit, with proofs of what each piece promises:

- **Input state** (`input.dfy`, class `Input.Input`): the sets of held keys and mouse
  buttons, their copies from the previous frame, the last cursor position and the
  window/virtual sizes. Press and release events update the sets. A snapshot at frame
  end copies current into previous. "Pressed" means held now and not held at the end
  of the previous frame.
- **Texture construction** (`texture.dfy`): the RGBA8 bytes and the extent and row
  layout handed to the GPU by `from_image`, `from_alpha_bitmap`, `white`, `new` and
  `from_bytes`. The GPU calls are represented by a `TextureUpload` record.
  `from_alpha_bitmap` builds its buffer in a loop. Each coverage byte `a` becomes
  `[255, 255, 255, a]`.
- **Glyph rasterization** (`text.rs` → `text.dfy`): a zeroed row-major
  `width * height` array written cell by cell by a bounds-checked `Plot`.
- **Frame state** (`state.dfy`): `State.Resize` ignores sizes with a zero dimension.
  `State.Render` runs the draw callback, instance upload and render pass in that
  order, then clears the command list. `?` on surface acquisition exits early.
  Texture loading is delegated to the renderer.
- **Vertex layout** (`utility.dfy`): `Vertex::new` and `Vertex::desc`. `Desc` is
  checked against a `repr(C)` layout computation for the struct's fields.
- `glyph_texture.dfy` connects the rasterizer's output to the alpha-bitmap upload.
  `numeric.dfy` holds `u8`/`u32` and the explicit truncation and wrap-around.
  `wrappers.dfy` holds `Option` and `Result`.

Inputs from outside the core are parameters:

- the window events;
- the result of acquiring the surface texture;
- the draw calls the application's callback makes;
- the decoded image, or the decoding error;
- the font's outline for a character, given as its pixel bounds and its draw
  callbacks, with coverage already scaled to a byte.

Points where the code's behaviour is easy to misread:

- The draw-command list is cleared only on the success path (`state.rs:133`). When
  acquiring the surface texture fails, `render` returns at `state.rs:112`, before the
  callback runs, and leaves the list unchanged. `State.Render` models this.
- `State::new` reads the window's inner size twice (`state.rs:21` and `state.rs:72`).
  The surface configuration takes the first reading; the state's size and the
  renderer's window size take the second. The three copies agree only when the two
  readings do, and `State.State.constructor` states exactly that.
- The renderer in `engine/src/renderer.rs` has neither a window size nor draw
  commands. The `Renderer` class here holds only what `state.rs` uses of it:
  `window_size`, `draw_commands` and a texture registry.
- `Renderer::load_texture` is not among the source files. It is modelled as appending
  the path to a registry and returning its index.

## Model

| member | source | states |
|---|---|---|
| `Input.Input.constructor` | engine/src/input.rs:18-29 | all four sets are empty, there is no cursor position, and the virtual size equals the window size |
| `Input.Input.UpdateInputs` | engine/src/input.rs:32-70 | the key set, button set and cursor each take one `Step`; previous sets, window size and virtual size are unchanged |
| `Input.KeyChange` | engine/src/input.rs:34-49 | an event changes a key exactly when it is keyboard input with a known key code, and the change is that event's state and key |
| `Input.MouseChange` | engine/src/input.rs:52-63 | an event changes a button exactly when it is mouse input, and the change is that event's state and button |
| `Input.Apply` | engine/src/input.rs:45-49 | after a press the item is in the set; after a release it is not; every other item keeps its membership |
| `Input.ApplyIdempotent` | engine/src/input.rs:47-48 | repeating the same press or release changes nothing more |
| `Input.ReplayUntouched` | engine/src/input.rs:32-64 | after a sequence of events none of which presses or releases an item, the item is held exactly when it was held before |
| `Input.ReplayLastChange` | engine/src/input.rs:32-64 | after any sequence of events, an item is held exactly when the last press/release concerning it was a press |
| `Input.CursorStep` | engine/src/input.rs:66-69 | a `CursorMoved` event replaces the position; any other event keeps it |
| `Input.CursorAfterNoMove` | engine/src/input.rs:66-69 | without `CursorMoved` events the remembered position is unchanged |
| `Input.CursorAfterLastMove` | engine/src/input.rs:66-69 | after a sequence of events the remembered position is that of the last `CursorMoved` event |
| `Input.Input.PrevUpdate` | engine/src/input.rs:72-76 | previous sets equal current sets, so no key and no button is "pressed" |
| `Input.Input.UpdateScreen` | engine/src/input.rs:78-81 | only the window size changes; the virtual size stays |
| `Input.Input.IsKeyHold` | engine/src/input.rs:83-86 | definition: held iff in the current key set; with `ReplayLastChange`, a key is held after a run of events iff its last press/release was a press |
| `Input.Input.IsKeyPressed` | engine/src/input.rs:88-91 | pressed iff held and not held in the previous frame; pressed implies held |
| `Input.Input.IsMouseHold` | engine/src/input.rs:93-96 | definition: held iff in the current button set, so it follows the last press/release of the button |
| `Input.Input.IsMousePressed` | engine/src/input.rs:98-101 | the same edge detection for mouse buttons |
| `Input.Input.ActualMousePosition` | engine/src/input.rs:103-110 | `(0, 0)` before any cursor event, the remembered position afterwards |
| `Numeric.TruncateU32` | engine/src/texture.rs:104-105 | `usize as u32` keeps values below 2^32 unchanged |
| `Numeric.WrappingMul4` | engine/src/texture.rs:133 | the `u32` product `4 * w` is exact for `w < 2^30` |
| `Texture.FromRaw` | engine/src/texture.rs:19 | wrapping a buffer as an image succeeds exactly when it holds at least `4 * width * height` bytes; the whole container is kept |
| `Texture.ToRgba8` | engine/src/texture.rs:37 | the converted image has the same dimensions and exactly the first `4 * width * height` bytes, so an `RgbaImage` always holds exactly its pixels |
| `Texture.RowLayout` | engine/src/texture.rs:130-135 | offset 0, `rows_per_image = height`, `bytes_per_row = 4 * width` when that fits in `u32` |
| `Texture.FromImage` | engine/src/texture.rs:35-91 | extent `(width, height, 1)` from the image, data the image's RGBA bytes, row layout as above, no bind group; for widths below 2^30 the data is exactly `bytes_per_row * rows_per_image` bytes |
| `Texture.New` | engine/src/texture.rs:23-27 | a decoding error is returned unchanged; otherwise the image is uploaded with no label |
| `Texture.FromBytes` | engine/src/texture.rs:29-33 | the same, with the caller's label |
| `Texture.White` | engine/src/texture.rs:16-21 | through `from_raw` and the RGBA8 conversion, a 1x1 image whose one pixel is `[255, 255, 255, 255]`, 4 bytes per row, 1 row, label "White"; the `unwrap` cannot fail |
| `Texture.ExpandAlpha` | engine/src/texture.rs:96-100 | the expansion has exactly four bytes per coverage byte |
| `Texture.ExpandAlphaAt` | engine/src/texture.rs:97-99 | bytes `4i..4i+2` are 255 and byte `4i+3` is coverage byte `i` |
| `Texture.ExpandAlphaConcat` | engine/src/texture.rs:97-100 | expansion preserves pixel order: expanding a concatenation concatenates the expansions |
| `Texture.AlphaOfExpand` | engine/src/texture.rs:97-99 | the coverage bitmap is recovered from the alpha channel of its expansion |
| `Texture.WhiteIsFullCoverage` | engine/src/texture.rs:18-19 | the white pixel is the expansion of full coverage `[255]` |
| `Texture.FromAlphaBitmap` | engine/src/texture.rs:94-153 | data is `ExpandAlpha(bitmap)`: four bytes per coverage byte, per-pixel as above; `width` and `height` give only the extent `(w as u32, h as u32, 1)` and row layout; no bind group |
| `Text.CellIndexInBounds` | engine/src/text.rs:26-28 | an in-bounds write index `yy * width + xx` is below `width * height` |
| `Text.Target` | engine/src/text.rs:26-28 | a callback writes a cell exactly when `xx < width && yy < height`, and that cell is `yy * width + xx` |
| `Text.TargetInjective` | engine/src/text.rs:28 | two different in-bounds pixels never write the same cell |
| `Text.TargetCovers` | engine/src/text.rs:20-28 | every cell `i` of the bitmap is the target of pixel `(i % width, i / width)` |
| `Text.PlotCell` | engine/src/text.rs:26-29 | an out-of-bounds write leaves the bitmap unchanged; an in-bounds one changes its target cell and no other |
| `Text.Rasterized` | engine/src/text.rs:20-30 | the bitmap always has `width * height` cells |
| `Text.RasterizedUnwritten` | engine/src/text.rs:20 | a cell no callback writes keeps its initial zero |
| `Text.RasterizedLastWrite` | engine/src/text.rs:21-30 | a written cell holds the coverage of the last callback that wrote it |
| `Text.Plot` | engine/src/text.rs:21-30 | the array after one callback equals `PlotCell` of its old contents |
| `Text.RasterizeChar` | engine/src/text.rs:4-33 | a read or parse failure, or a missing outline, gives an error; otherwise the zeroed bitmap with every callback plotted, whose length is the returned `width * height` |
| `GlyphTexture.GlyphUploadFillsExtent` | engine/src/text.rs:20 | the RGBA bytes of a rasterized glyph number exactly `bytes_per_row * rows_per_image` |
| `State.Renderer.constructor` | engine/src/state.rs:73 | the renderer starts with the given window size, no draw commands and no textures |
| `State.Renderer.LoadTexture` | engine/src/state.rs:140 | the path is appended to the registry and its index is the returned handle |
| `State.WindowSizeOf` | engine/src/state.rs:73 | definition: the `(width as f32, height as f32)` pair, here exact |
| `State.State.constructor` | engine/src/state.rs:19-85 | the surface configuration takes the first inner-size reading (latency 2) and is applied once; size and renderer window size take the second; no commands or textures; the three size copies agree iff the readings are equal |
| `State.State.Resize` | engine/src/state.rs:92-102 | if either dimension is zero, nothing changes. Otherwise size, config width/height and renderer window size take the new dimensions, and the surface is reconfigured. The three copies then agree; agreement is preserved either way |
| `State.State.Render` | engine/src/state.rs:110-136 | if acquisition fails: that error, no steps, commands untouched. Otherwise callback, upload (given the list with the callback's commands appended), pass, submit and present, in that order; afterwards the command list is empty |
| `State.State.LoadTexture` | engine/src/state.rs:138-141 | returns exactly the handle the renderer's `load_texture` returns |
| `State.LoadingContext.constructor` | engine/src/state.rs:159-162 | the context holds the given renderer |
| `State.LoadingContext.LoadTexture` | engine/src/state.rs:167-170 | returns exactly the handle the renderer's `load_texture` returns |
| `Utility.Vertex.New` | engine/src/utility.rs:11-18 | definition: position and texture coordinates are stored unchanged |
| `Utility.F32Array` | engine/src/utility.rs:5-6 | definition: `[f32; n]` occupies `4n` bytes with 4-byte alignment |
| `Utility.AlignUp` | engine/src/utility.rs:1 | the `repr(C)` padding step: a multiple of the alignment, at least the offset and less than one alignment further |
| `Utility.Desc` | engine/src/utility.rs:20-42 | per-vertex stepping; the stride is `size_of::<Vertex>()` and each attribute starts where its `repr(C)` field does and is as wide; attributes fit within the stride, do not overlap, and have distinct shader locations |
| `Utility.VertexLayoutFacts` | engine/src/utility.rs:1-7 | the `repr(C)` Vertex has fields at 0 and 12 and is 20 bytes, with no padding |
| `Utility.DescValues` | engine/src/utility.rs:24-39 | stride 20; attribute 0 at offset 0, location 0, `Float32x3`; attribute 1 at offset 12, location 1, `Float32x2`, ending exactly at the stride |

## Left out

- GPU work: texture, sampler, bind-group and bind-group-layout creation, the queue's
  texture write, surface configuration beyond its recorded sizes, encoder creation,
  the render pass itself, queue submission and presentation. These are foreign calls.
  The model records what they are given.
- Image decoding (`image::open`, `load_from_memory`, `to_rgba8`) is foreign. A
  decoded image is given already as RGBA8 bytes, or as a decoding error.
- `Texture.FromRaw`: models `ImageBuffer::from_raw` by its documented size check only.
  `Texture.ToRgba8` models `to_rgba8` only for images that are already RGBA8.
- `Texture.FromImage`, `Texture.FromAlphaBitmap` and `Texture.White`: the source
  returns `Result`, but these paths always return `Ok`. They are modelled as
  returning the handler.
- `Texture.RowLayout`: `4 * width` is modelled with release-build wrap-around. A
  debug build panics instead when the width is 2^30 or more.
- Font reading, font parsing, glyph outlining, pixel bounds and the float coverage
  cast `(c * 255.0) as u8` belong to the font library. The outline is given as its
  bounds and its sequence of draw callbacks, and coverage as a byte. For the file and
  parse steps only whether they failed is modelled.
- `usize` is an unbounded `nat`, so an overflow of `width * height` is not modelled.
- `f64` positions and sizes are reals, never computed with. `Input::mouse_position`
  rescales by the virtual size with `f64` division and is not modelled.
- `State.State.constructor`: the `u32` to `f32` conversion of the window size is exact
  here. Widths above 2^24 would round in the source. The same holds for `Resize`.
- `State.State.Render`: the draw callback is modelled only by the draw commands it
  appends. A callback could do anything to the renderer.
- `State.Renderer.LoadTexture`: `Renderer::load_texture` is not among the source files.
  It is assumed to append the path to a registry and return its index.
- `State.Renderer.constructor`: `Renderer::new` is not among the source files. It is
  assumed to start with no draw commands and an empty texture registry.
- `State.State.Render`: `upload_instances` and `begin_pass` are not among the source
  files. The model records the command list the upload is handed, in insertion
  order. It does not record the order the pass draws in, nor whether the upload
  reorders the list.
- Transform matrices, z-index sorting, instance upload and the pass's draw calls
  (`upload_instances`, `begin_pass`) are not part of this model. They appear
  only as steps of a frame.
- The event loop (`event_loop.rs`), the pipeline descriptor (`renderer.rs`), shader
  loading (`shader.rs`) and the example binary are not part of this model. They
  are windowing, GPU and file I/O glue.
