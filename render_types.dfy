/** The values the deferred renderer works with: queue selectors, integer
    rectangles, the draw items the submission API builds, the backend calls a
    blit issues, and the camera/window context a frame is drawn in. */
module RenderTypes {
  import opened Wrappers
  import opened TexturesModule

  /** The RenderQueue enumeration; RENDER_MAX is the number of queues. */
  const RENDER_GAME: int := 0
  const RENDER_UI: int := 1
  const RENDER_DEBUG: int := 2
  const RENDER_MAX: int := 3

  /** A selector GetQueue answers for (its switch has no result otherwise). */
  predicate IsQueueSelector(q: int)
  {
    0 <= q < RENDER_MAX
  }

  datatype Rect = Rect(x: int, y: int, w: int, h: int)
  datatype Point = Point(x: int, y: int)

  /** C++'s conversion of a floating-point value to int: truncation toward zero. */
  function TruncateToInt(r: real): int
  {
    if r >= 0.0 then r.Floor else -((-r).Floor)
  }

  /** The truncated value is the whole number next to `r` on the side of
      zero, and a whole number converts to itself. */
  lemma TruncateToIntTowardZero(r: real)
    ensures r >= 0.0 ==> 0 <= TruncateToInt(r) && TruncateToInt(r) as real <= r < TruncateToInt(r) as real + 1.0
    ensures r < 0.0 ==> TruncateToInt(r) <= 0 && TruncateToInt(r) as real - 1.0 < r <= TruncateToInt(r) as real
    ensures r == r.Floor as real ==> TruncateToInt(r) == r.Floor
  {
  }

  /** `point.x += dx; point.y += dy` with float offsets: each sum is
      truncated back to the int coordinate. */
  function ShiftPoint(p: Point, dx: real, dy: real): Point
  {
    Point(TruncateToInt(p.x as real + dx), TruncateToInt(p.y as real + dy))
  }
  /** An RXColor; the channels are the 8-bit values handed to the backend. */
  datatype Color = Color(r: int, g: int, b: int, a: int)

  /** A tileset: the texture id of its image, the tile size and how many tiles
      one row of the image holds. */
  datatype Tileset = Tileset(texture: TextureID, tileWidth: int, tileHeight: int, columns: int)

  /** A map layer: a width x height grid of tile ids stored row by row. */
  datatype Layer = Layer(width: nat, height: nat, data: seq<int>, tileset: Tileset,
                         depth: int, parallaxX: real, parallaxY: real)

  /** A font: its size, the glyph rectangles of the bytes it maps, and the
      texture id holding the glyphs. */
  datatype Font = Font(size: nat, mapping: map<char, Rect>, fontTexture: TextureID)

  /** What the renderer reads of a particle emitter: which emitter, the
      texture id of its preset and its depth. */
  datatype Emitter = Emitter(emitterId: nat, textureId: TextureID, depth: int)

  /** What a blit reads of one live particle: its source rectangle and angle. */
  datatype Particle = Particle(areaInTexture: Rect, angle: real)

  /** An Animation as RenderAnimation sees it: its texture id and the source
      rectangle of its current frame. */
  datatype Animation = Animation(texture: TextureID, currentFrame: Rect)

  /** The seven kinds of BlitItem, each with what its constructor stores. */
  datatype Kind =
    | TextureBlit(tex: TexHandle, onImage: Rect, x: int, y: int, centerX: int, centerY: int,
                  angle: real, parallaxX: real, parallaxY: real)
    | LayerBlit(tex: TexHandle, layer: Layer)
    | BackgroundBlit(tex: TexHandle, repeatY: bool, parallaxX: real, parallaxY: real)
    | ParticlesBlit(tex: TexHandle, emitter: Emitter)
    | RectBlit(area: Rect, filled: bool, color: Color)
    | TrailBlit(points: seq<Point>, color: Color)
    | TextBlit(text: string, font: Font, fontTexture: TexHandle, x: int, y: int, color: Color)

  /** A queued draw request: the fields every BlitItem has, and its kind. */
  datatype BlitItem = BlitItem(depth: int, ignoreCamera: bool, kind: Kind)

  /** A layer the tile walk can read: the tileset has at least one column and
      the grid has a tile id for every cell. */
  predicate LayerWellFormed(layer: Layer)
  {
    layer.tileset.columns > 0 && |layer.data| >= layer.width * layer.height
  }

  predicate WellFormed(item: BlitItem)
  {
    item.kind.LayerBlit? ==> LayerWellFormed(item.kind.layer)
  }

  predicate AllWellFormed(items: seq<BlitItem>)
  {
    forall k :: 0 <= k < |items| ==> WellFormed(items[k])
  }

  lemma AllWellFormedAppend(a: seq<BlitItem>, b: seq<BlitItem>)
    requires AllWellFormed(a) && AllWellFormed(b)
    ensures AllWellFormed(a + b)
  {
    forall k | 0 <= k < |a + b| ensures WellFormed((a + b)[k]) {
      if k < |a| { assert (a + b)[k] == a[k]; } else { assert (a + b)[k] == b[k - |a|]; }
    }
  }

  /** A call into the graphics backend, as recorded in the renderer's trace. */
  datatype Event =
    | Clear                                              // SDL_RenderClear
    | Present                                            // SDL_RenderPresent
    | SetBlendMode                                       // SDL_SetRenderDrawBlendMode(BLEND)
    | SetDrawColor(r: int, g: int, b: int, a: int)       // SDL_SetRenderDrawColor
    | Copy(tex: TexHandle, src: Option<Rect>, dst: Rect, angle: real)  // SDL_RenderCopyEx
    | FillRect(dst: Rect)                                // SDL_RenderFillRect
    | OutlineRect(dst: Rect)                             // SDL_RenderDrawRect
    | Lines(points: seq<Point>)                          // SDL_RenderDrawLines

  /** The outside world a frame is drawn in.
      - isOnScreen: the camera's visibility test for a screen rectangle;
      - place(item, i, j): the destination rectangle of the item's (i, j)-th
        draw, as the floating-point camera, parallax and window-scale transform
        computes it (cell (x, y) of a layer, tile (i, j) of a background,
        slot i of an emitter, (0, 0) for a single draw);
      - cameraOffsetX/Y: the camera's floating-point offset, as added to
        trail points;
      - particles(e): the slots of emitter e at drain time (None: empty slot);
      - backgroundTiles(item): how many tile columns and rows the background's
        floating-point viewport computation asks for. */
  datatype Env = Env(
    isOnScreen: Rect -> bool,
    place: (BlitItem, int, int) -> Rect,
    cameraOffsetX: real,
    cameraOffsetY: real,
    particles: nat -> seq<Option<Particle>>,
    backgroundTiles: BlitItem -> (nat, nat))
}
