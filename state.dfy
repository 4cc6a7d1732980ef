/** The per-window engine state (engine/src/state.rs): the size guard on resize, the
    fixed order of one rendered frame, and texture loading handed on to the renderer.
    The GPU surface, device and queue are not modelled beyond what these need: the
    configurations given to the surface, and whether a frame could be acquired. */
module State {
  import opened Wrappers
  import opened Numeric

  datatype PhysicalSize = PhysicalSize(width: u32, height: u32)

  /** The surface configuration; usage, format, present and alpha modes are fixed at
      creation and not represented. */
  datatype SurfaceConfiguration = SurfaceConfiguration(width: u32, height: u32, desiredMaximumFrameLatency: nat)

  datatype SurfaceError = Timeout | Outdated | Lost | OutOfMemory | Other

  /** A draw request as far as frame bookkeeping needs it; transform and material
      are not part of this model. */
  datatype DrawCommand = DrawCommand(meshId: nat, zIndex: nat)

  /** The observable steps of one frame. The callback is given the commands it issues and
      the upload the command list it finds; what order the pass draws in is the upload's
      business and is not recorded. */
  datatype FrameStep =
    | DrawCallback(issued: seq<DrawCommand>)
    | UploadInstances(commands: seq<DrawCommand>)
    | BeginPass
    | Submit
    | Present

  /** The renderer's `(f32, f32)` window size for a physical size. */
  function WindowSizeOf(size: PhysicalSize): (r: (real, real))
    ensures r.0 == size.width as real && r.1 == size.height as real
  {
    (size.width as real, size.height as real)
  }

  /** The part of the renderer the state touches: its window size, the frame's draw
      commands, and the texture registry (the path each handle was loaded from). */
  class Renderer {
    var windowSize: (real, real)
    var drawCommands: seq<DrawCommand>
    var textures: seq<string>

    constructor (windowSize: (real, real))
      ensures this.windowSize == windowSize && drawCommands == [] && textures == []
    {
      this.windowSize := windowSize;
      drawCommands := [];
      textures := [];
    }

    /** Registers a texture and hands out its handle: the index it was stored at. */
    method LoadTexture(path: string) returns (id: nat)
      modifies this`textures
      ensures textures == old(textures) + [path]
      ensures id == |old(textures)| && id < |textures| && textures[id] == path
    {
      textures := textures + [path];
      id := |textures| - 1;
    }
  }

  class State {
    var size: PhysicalSize
    var config: SurfaceConfiguration
    /** Every configuration given to the surface, oldest first. */
    var configured: seq<SurfaceConfiguration>
    const renderer: Renderer

    /** The three copies of the window size agree. */
    predicate SizesAgree()
      reads this, renderer
    {
      config.width == size.width && config.height == size.height && renderer.windowSize == WindowSizeOf(size)
    }

    /** A state for a window, surface configured once. The window's inner size is read
        twice, with the adapter and device requests in between: `initialSize` is the first
        reading, which the surface configuration takes, and `innerSize` the second, which
        the state's size and the renderer take. The copies agree when the two readings do. */
    constructor (initialSize: PhysicalSize, innerSize: PhysicalSize)
      ensures config == SurfaceConfiguration(initialSize.width, initialSize.height, 2)
      ensures size == innerSize && configured == [config]
      ensures fresh(renderer) && renderer.windowSize == WindowSizeOf(innerSize)
      ensures renderer.drawCommands == [] && renderer.textures == []
      ensures SizesAgree() <==> initialSize == innerSize
    {
      config := SurfaceConfiguration(initialSize.width, initialSize.height, 2);
      configured := [config];
      size := innerSize;
      renderer := new Renderer(WindowSizeOf(innerSize));
    }

    /** A resize to a size with a zero dimension is ignored; any other updates the size,
        the surface configuration (and reconfigures the surface) and the renderer's
        window size. */
    method Resize(newSize: PhysicalSize)
      modifies this`size, this`config, this`configured, renderer`windowSize
      ensures newSize.width > 0 && newSize.height > 0 ==>
                && size == newSize
                && config == old(config).(width := newSize.width, height := newSize.height)
                && configured == old(configured) + [config]
                && renderer.windowSize == WindowSizeOf(newSize)
      ensures !(newSize.width > 0 && newSize.height > 0) ==>
                && size == old(size) && config == old(config) && configured == old(configured)
                && renderer.windowSize == old(renderer.windowSize)
      ensures newSize.width > 0 && newSize.height > 0 ==> SizesAgree()
      ensures old(SizesAgree()) ==> SizesAgree()
    {
      if newSize.width > 0 && newSize.height > 0 {
        size := newSize;
        config := config.(width := newSize.width);
        config := config.(height := newSize.height);
        configured := configured + [config];
        renderer.windowSize := WindowSizeOf(newSize);
      }
    }

    /** One frame. `frame` is what acquiring the surface texture gives; `issued` are the
        draw calls the application's draw callback makes. On failure nothing else
        happens; on success the callback runs, the upload is handed the command list with
        the callback's commands appended, the pass runs, the frame is submitted and
        presented, and the command list is cleared. */
    method Render(frame: Result<(), SurfaceError>, issued: seq<DrawCommand>)
      returns (result: Result<(), SurfaceError>, steps: seq<FrameStep>)
      modifies renderer`drawCommands
      ensures frame.Err? ==> result == frame && steps == [] && renderer.drawCommands == old(renderer.drawCommands)
      ensures frame.Ok? ==>
                && result == Ok(())
                && renderer.drawCommands == []
                && var commands := old(renderer.drawCommands) + issued;
                   steps == [DrawCallback(issued), UploadInstances(commands), BeginPass, Submit, Present]
    {
      steps := [];
      var output :- frame;
      renderer.drawCommands := renderer.drawCommands + issued;
      steps := steps + [DrawCallback(issued)];
      steps := steps + [UploadInstances(renderer.drawCommands)];
      steps := steps + [BeginPass];
      steps := steps + [Submit, Present];
      renderer.drawCommands := [];
      result := Ok(());
    }

    /** Texture loading is the renderer's; the handle is passed back unchanged. */
    method LoadTexture(path: string) returns (id: nat)
      modifies renderer`textures
      ensures renderer.textures == old(renderer.textures) + [path]
      ensures id == |old(renderer.textures)| && renderer.textures[id] == path
    {
      id := renderer.LoadTexture(path);
    }
  }

  /** What the application's setup step is given to load its assets with. */
  class LoadingContext {
    const renderer: Renderer

    constructor (renderer: Renderer)
      ensures this.renderer == renderer
    {
      this.renderer := renderer;
    }

    method LoadTexture(path: string) returns (id: nat)
      modifies renderer`textures
      ensures renderer.textures == old(renderer.textures) + [path]
      ensures id == |old(renderer.textures)| && renderer.textures[id] == path
    {
      id := renderer.LoadTexture(path);
    }
  }
}
