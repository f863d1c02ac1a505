/** The Render module: three render queues that the engine's subsystems fill
    during a frame, and the frame loop that empties them, in queue order and
    by rank within a queue, blitting every item once. The graphics backend is a
    trace of the calls made to it; the camera, the window and the particle
    emitters are the Env a frame is drawn in; the texture registry is the
    Textures object of the texture module. */
module RenderModule {
  import opened Wrappers
  import opened Seqs
  import opened TexturesModule
  import opened RenderTypes
  import opened Tiles
  import opened TextLayout
  import opened BlitSpec
  import opened BlitQueues

  /** `yLevel += font_used->size * 1.5` stays on integers for a non-negative
      yLevel: it adds size + size / 2. */
  lemma LineStepIsExact(yLevel: int, size: nat)
    requires yLevel >= 0
    ensures TruncateToInt(yLevel as real + (size as real) * 1.5) == yLevel + LineHeight(size)
  {
    var m := size / 2;
    var r := size % 2;
    assert size == 2 * m + r;
    var v := yLevel as real + (size as real) * 1.5;
    assert v == (yLevel + 3 * m + r) as real + (r as real) * 0.5;
    assert v >= 0.0;
    assert (yLevel + 3 * m + r) as real <= v < (yLevel + 3 * m + r + 1) as real;
  }

  /** The backend calls of the queues' drains, one queue after another. */
  function QueueTraces(drained: seq<seq<BlitItem>>, env: Env): seq<Event>
    requires forall j :: 0 <= j < |drained| ==> AllWellFormed(drained[j])
  {
    if drained == [] then []
    else
      assert AllWellFormed(drained[|drained| - 1]);
      QueueTraces(drained[..|drained| - 1], env) + FrameTrace(drained[|drained| - 1], env)
  }

  lemma QueueTracesSnoc(drained: seq<seq<BlitItem>>, order: seq<BlitItem>, env: Env)
    requires forall j :: 0 <= j < |drained| ==> AllWellFormed(drained[j])
    requires AllWellFormed(order)
    ensures forall j :: 0 <= j < |drained + [order]| ==> AllWellFormed((drained + [order])[j])
    ensures QueueTraces(drained + [order], env) == QueueTraces(drained, env) + FrameTrace(order, env)
  {
    assert (drained + [order])[..|drained|] == drained;
  }

  /** The three queues' traces, one after another. */
  lemma QueueTracesOfThree(drained: seq<seq<BlitItem>>, env: Env)
    requires |drained| == 3
    requires forall j :: 0 <= j < 3 ==> AllWellFormed(drained[j])
    ensures QueueTraces(drained, env) == FrameTrace(drained[0], env) + FrameTrace(drained[1], env) + FrameTrace(drained[2], env)
  {
    var two := drained[..2];
    assert drained[..|drained| - 1] == two;
    assert two[..1] == drained[..1];
    assert drained[..1][..0] == [];
    assert [] + FrameTrace(drained[0], env) == FrameTrace(drained[0], env);
    assert QueueTraces(drained[..1], env) == FrameTrace(drained[0], env);
    assert QueueTraces(two, env) == FrameTrace(drained[0], env) + FrameTrace(drained[1], env);
  }

  /** The contents of the three queues, by selector. */
  datatype Queues = Queues(game: seq<BlitItem>, ui: seq<BlitItem>, debug: seq<BlitItem>)

  function Selected(q: Queues, i: int): seq<BlitItem>
    requires IsQueueSelector(i)
  {
    if i == RENDER_GAME then q.game else if i == RENDER_UI then q.ui else q.debug
  }

  /** `q` with queue i emptied. */
  function Emptied(q: Queues, i: int): (r: Queues)
    requires IsQueueSelector(i)
    ensures Selected(r, i) == []
    ensures forall j :: IsQueueSelector(j) && j != i ==> Selected(r, j) == Selected(q, j)
  {
    if i == RENDER_GAME then q.(game := []) else if i == RENDER_UI then q.(ui := []) else q.(debug := [])
  }

  /** Queue j after the selector loop has drained queues 0 .. i-1: emptied in
      the order drained[j] if j < i, untouched otherwise. */
  ghost predicate QueueAfter(i: int, j: int, drained: seq<seq<BlitItem>>, now: seq<BlitItem>,
                             start: seq<BlitItem>, priority: int -> int)
    requires 0 <= j && |drained| == i
  {
    if j < i then now == [] && Drains(multiset(start), drained[j], multiset{}, priority) else now == start
  }

  /** The state of Render::Loop's selector loop before selector i: the queues
      below i are drained in the orders of `drained`, the others are as they
      were, and the backend has seen the drains' calls in selector order. */
  ghost predicate DrainedUpTo(i: int, drained: seq<seq<BlitItem>>, now: Queues, start: Queues,
                              trace: seq<Event>, t0: seq<Event>, count: int, c0: int,
                              priority: int -> int, env: Env)
  {
    |drained| == i &&
    (forall j :: 0 <= j < i ==> AllWellFormed(drained[j])) &&
    QueueAfter(i, RENDER_GAME, drained, now.game, start.game, priority) &&
    QueueAfter(i, RENDER_UI, drained, now.ui, start.ui, priority) &&
    QueueAfter(i, RENDER_DEBUG, drained, now.debug, start.debug, priority) &&
    trace == t0 + QueueTraces(drained, env) &&
    count == c0 + DrawCallsIn(QueueTraces(drained, env))
  }

  /** Draining queue i in the order `order` moves the selector loop's state
      from i to i + 1. */
  lemma DrainedStep(i: int, drained: seq<seq<BlitItem>>, order: seq<BlitItem>, now: Queues, start: Queues,
                    trace: seq<Event>, t0: seq<Event>, count: int, c0: int, priority: int -> int, env: Env)
    requires IsQueueSelector(i)
    requires DrainedUpTo(i, drained, now, start, trace, t0, count, c0, priority, env)
    requires AllWellFormed(order)
    requires Drains(multiset(Selected(now, i)), order, multiset{}, priority)
    ensures DrainedUpTo(i + 1, drained + [order], Emptied(now, i), start,
                        trace + FrameTrace(order, env), t0, count + DrawCallsIn(FrameTrace(order, env)), c0,
                        priority, env)
  {
    var next := drained + [order];
    assert next[i] == order;
    assert forall j :: 0 <= j < i ==> next[j] == drained[j];
    QueueTracesSnoc(drained, order, env);
    DrawCallsInAppend(QueueTraces(drained, env), FrameTrace(order, env));
    ConcatAssoc(t0, QueueTraces(drained, env), FrameTrace(order, env));
  }

  class Render {
    /** The Comparer shared by the three queues, as a key on depths. */
    const priority: int -> int
    const allQueue: BlitQueue
    const uiQueue: BlitQueue
    const debugQueue: BlitQueue
    /** mDrawCallsLastFrame */
    var drawCallsLastFrame: int
    /** Every call made to the graphics backend so far. */
    var trace: seq<Event>
    /** The configured background color, already converted to channel values. */
    var background: Color

    /** Three distinct queues ordered alike, holding items the blits can draw. */
    ghost predicate Valid()
      reads this, allQueue, uiQueue, debugQueue
    {
      allQueue != uiQueue && allQueue != debugQueue && uiQueue != debugQueue &&
      allQueue.priority == priority && uiQueue.priority == priority && debugQueue.priority == priority &&
      AllWellFormed(allQueue.items) && AllWellFormed(uiQueue.items) && AllWellFormed(debugQueue.items)
    }

    constructor (priority: int -> int, background: Color)
      ensures Valid()
      ensures this.priority == priority && this.background == background
      ensures allQueue.items == [] && uiQueue.items == [] && debugQueue.items == []
      ensures trace == [] && drawCallsLastFrame == 0
    {
      this.priority := priority;
      allQueue := new BlitQueue(priority);
      uiQueue := new BlitQueue(priority);
      debugQueue := new BlitQueue(priority);
      drawCallsLastFrame := 0;
      trace := [];
      this.background := background;
    }

    /** GetQueue: the queue a selector names. */
    function GetQueue(q: int): (queue: BlitQueue)
      requires IsQueueSelector(q)
      ensures queue == allQueue || queue == uiQueue || queue == debugQueue
    {
      if q == RENDER_GAME then allQueue
      else if q == RENDER_UI then uiQueue
      else debugQueue
    }

    /** Different selectors name different queues, so an item pushed to one
        queue is never in another. */
    lemma GetQueueDistinct(q1: int, q2: int)
      requires Valid() && IsQueueSelector(q1) && IsQueueSelector(q2) && q1 != q2
      ensures GetQueue(q1) != GetQueue(q2)
      ensures GetQueue(q1).priority == priority
    {
    }

    /** The item was pushed to queue q and no queue changed otherwise. */
    twostate predicate PushedOnto(q: int, item: BlitItem)
      requires IsQueueSelector(q)
      reads allQueue, uiQueue, debugQueue
    {
      GetQueue(q).items == old(GetQueue(q).items) + [item] &&
      forall q2 :: IsQueueSelector(q2) && q2 != q ==> GetQueue(q2).items == old(GetQueue(q2).items)
    }

    /** No queue changed. */
    twostate predicate NothingQueued()
      reads allQueue, uiQueue, debugQueue
    {
      forall q :: IsQueueSelector(q) ==> GetQueue(q).items == old(GetQueue(q).items)
    }

    /** The backend received `events` and the counter grew by their draw calls. */
    twostate predicate Emitted(events: seq<Event>)
      reads this
    {
      trace == old(trace) + events &&
      drawCallsLastFrame == old(drawCallsLastFrame) + DrawCallsIn(events)
    }

    // ---- draw-call counter

    method CountDrawCall()
      modifies this`drawCallsLastFrame
      ensures drawCallsLastFrame == old(drawCallsLastFrame) + 1
    {
      drawCallsLastFrame := drawCallsLastFrame + 1;
    }

    /** The counter as the last Loop left it: the draw calls of that frame. */
    function GetDrawCallsLastFrame(): (n: int)
      reads this
      ensures n == drawCallsLastFrame
    {
      drawCallsLastFrame
    }

    /** Appends one backend call, counting it first when it is a draw call. */
    method Issue(e: Event)
      modifies this`trace, this`drawCallsLastFrame
      ensures trace == old(trace) + [e]
      ensures drawCallsLastFrame == old(drawCallsLastFrame) + if IsCountedDraw(e) then 1 else 0
    {
      if IsCountedDraw(e) {
        CountDrawCall();
      }
      trace := trace + [e];
    }

    // ---- submission

    /** RenderTexture: resolve the texture id; on null do nothing, otherwise
        queue a texture blit, screen-space exactly when the queue is the UI one. */
    method RenderTexture(textures: Textures, texId: TextureID, x: int, y: int, rectOnImage: Rect,
                         depth: int, queue: int, angle: real, parallaxX: real, parallaxY: real,
                         centerX: int, centerY: int)
      requires Valid() && IsQueueSelector(queue)
      modifies GetQueue(queue)
      ensures Valid()
      ensures Lookup(textures.textureList, texId) == NullTexture ==> NothingQueued()
      ensures Lookup(textures.textureList, texId) != NullTexture ==>
        PushedOnto(queue, BlitItem(depth, queue == RENDER_UI,
          TextureBlit(Lookup(textures.textureList, texId), rectOnImage, x, y, centerX, centerY,
                      angle, parallaxX, parallaxY)))
    {
      var tex := textures.GetTexture(texId);
      if tex == NullTexture {
        return;
      }
      var item := BlitItem(depth, queue == RENDER_UI,
        TextureBlit(tex, rectOnImage, x, y, centerX, centerY, angle, parallaxX, parallaxY));
      GetQueue(queue).Push(item);
    }

    /** RenderAnimation: RenderTexture with the animation's texture and the
        source rectangle of its current frame. */
    method RenderAnimation(textures: Textures, animation: Animation, x: int, y: int, depth: int,
                           queue: int, angle: real, parallaxX: real, parallaxY: real,
                           centerX: int, centerY: int)
      requires Valid() && IsQueueSelector(queue)
      modifies GetQueue(queue)
      ensures Valid()
      ensures Lookup(textures.textureList, animation.texture) == NullTexture ==> NothingQueued()
      ensures Lookup(textures.textureList, animation.texture) != NullTexture ==>
        PushedOnto(queue, BlitItem(depth, queue == RENDER_UI,
          TextureBlit(Lookup(textures.textureList, animation.texture), animation.currentFrame,
                      x, y, centerX, centerY, angle, parallaxX, parallaxY)))
    {
      RenderTexture(textures, animation.texture, x, y, animation.currentFrame, depth, queue,
                    angle, parallaxX, parallaxY, centerX, centerY);
    }

    /** RenderText: resolve the font, then the font's texture; either missing
        queues nothing. The item ignores the camera on the UI queue or when
        the caller asks. */
    method RenderText(textures: Textures, getFont: int -> Option<Font>, text: string, fontId: int,
                      x: int, y: int, depth: int, color: Color, queue: int, ignoreCamera: bool)
      requires Valid() && IsQueueSelector(queue)
      modifies GetQueue(queue)
      ensures Valid()
      ensures getFont(fontId).None? ==> NothingQueued()
      ensures getFont(fontId).Some? && Lookup(textures.textureList, getFont(fontId).value.fontTexture) == NullTexture ==>
        NothingQueued()
      ensures getFont(fontId).Some? && Lookup(textures.textureList, getFont(fontId).value.fontTexture) != NullTexture ==>
        PushedOnto(queue, BlitItem(depth, queue == RENDER_UI || ignoreCamera,
          TextBlit(text, getFont(fontId).value, Lookup(textures.textureList, getFont(fontId).value.fontTexture),
                   x, y, color)))
    {
      var font := getFont(fontId);
      if font.None? {
        return;
      }
      var tex := textures.GetTexture(font.value.fontTexture);
      if tex == NullTexture {
        return;
      }
      var item := BlitItem(depth, queue == RENDER_UI || ignoreCamera, TextBlit(text, font.value, tex, x, y, color));
      GetQueue(queue).Push(item);
    }

    /** RenderRect: nothing to resolve, so the rectangle is always queued. */
    method RenderRect(area: Rect, color: Color, filled: bool, queue: int, depth: int, ignoreCamera: bool)
      requires Valid() && IsQueueSelector(queue)
      modifies GetQueue(queue)
      ensures Valid()
      ensures PushedOnto(queue, BlitItem(depth, queue == RENDER_UI || ignoreCamera, RectBlit(area, filled, color)))
    {
      var item := BlitItem(depth, queue == RENDER_UI || ignoreCamera, RectBlit(area, filled, color));
      GetQueue(queue).Push(item);
    }

    /** RenderTrail: copy exactly `amount` points into a new buffer owned by
        the queued item, drawn opaque in the given color. */
    method RenderTrail(pointArray: array<Point>, amount: int, queue: int, ignoreCamera: bool, depth: int,
                       r: int, g: int, b: int)
      requires Valid() && IsQueueSelector(queue)
      requires 0 <= amount <= pointArray.Length
      modifies GetQueue(queue)
      ensures Valid()
      ensures PushedOnto(queue, BlitItem(depth, queue == RENDER_UI || ignoreCamera,
                                         TrailBlit(pointArray[..amount], Color(r, g, b, 255))))
    {
      var points := new Point[amount];
      for i := 0 to amount
        modifies points
        invariant forall k :: 0 <= k < i ==> points[k] == pointArray[k]
      {
        points[i] := Point(pointArray[i].x, pointArray[i].y);
      }
      assert points[..] == pointArray[..amount];
      var item := BlitItem(depth, queue == RENDER_UI || ignoreCamera, TrailBlit(points[..], Color(r, g, b, 255)));
      GetQueue(queue).Push(item);
    }

    /** RenderMapLayer: a layer always goes to the game queue, at the layer's depth. */
    method RenderMapLayer(textures: Textures, layer: Layer)
      requires Valid()
      requires Lookup(textures.textureList, layer.tileset.texture) != NullTexture ==> LayerWellFormed(layer)
      modifies allQueue
      ensures Valid()
      ensures Lookup(textures.textureList, layer.tileset.texture) == NullTexture ==> NothingQueued()
      ensures Lookup(textures.textureList, layer.tileset.texture) != NullTexture ==>
        PushedOnto(RENDER_GAME, BlitItem(layer.depth, false,
                                         LayerBlit(Lookup(textures.textureList, layer.tileset.texture), layer)))
    {
      var tex := textures.GetTexture(layer.tileset.texture);
      if tex == NullTexture {
        return;
      }
      var item := BlitItem(layer.depth, false, LayerBlit(tex, layer));
      allQueue.Push(item);
    }

    /** RenderParticleEmitter: queue the emitter, at its depth, on the chosen queue. */
    method RenderParticleEmitter(textures: Textures, emitter: Emitter, queue: int)
      requires Valid() && IsQueueSelector(queue)
      modifies GetQueue(queue)
      ensures Valid()
      ensures Lookup(textures.textureList, emitter.textureId) == NullTexture ==> NothingQueued()
      ensures Lookup(textures.textureList, emitter.textureId) != NullTexture ==>
        PushedOnto(queue, BlitItem(emitter.depth, false,
                                   ParticlesBlit(Lookup(textures.textureList, emitter.textureId), emitter)))
    {
      var tex := textures.GetTexture(emitter.textureId);
      if tex == NullTexture {
        return;
      }
      var item := BlitItem(emitter.depth, false, ParticlesBlit(tex, emitter));
      GetQueue(queue).Push(item);
    }

    /** RenderMapBackground: a background always goes to the game queue. */
    method RenderMapBackground(textures: Textures, texId: TextureID, depth: int, repeatY: bool,
                               parallaxX: real, parallaxY: real)
      requires Valid()
      modifies allQueue
      ensures Valid()
      ensures Lookup(textures.textureList, texId) == NullTexture ==> NothingQueued()
      ensures Lookup(textures.textureList, texId) != NullTexture ==>
        PushedOnto(RENDER_GAME, BlitItem(depth, false,
          BackgroundBlit(Lookup(textures.textureList, texId), repeatY, parallaxX, parallaxY)))
    {
      var tex := textures.GetTexture(texId);
      if tex == NullTexture {
        return;
      }
      var item := BlitItem(depth, false, BackgroundBlit(tex, repeatY, parallaxX, parallaxY));
      allQueue.Push(item);
    }

    // ---- blits

    /** BlitTexture::Blit */
    method BlitTexture(item: BlitItem, env: Env)
      requires item.kind.TextureBlit?
      modifies this`trace, this`drawCallsLastFrame
      ensures Emitted(TextureTrace(item, env))
    {
      var dst := env.place(item, 0, 0);
      if !env.isOnScreen(dst) {
        return;
      }
      var e := Copy(item.kind.tex, Some(item.kind.onImage), dst, item.kind.angle);
      Issue(e);
      DrawCallsInSnoc([], e);
      assert [] + [e] == [e];
    }

    /** The body of BlitLayer::Blit's inner loop for cell (x, y): look up the
        tile id, copy its tileset rectangle unless the camera rejects it. */
    method BlitCell(item: BlitItem, env: Env, c: Cell)
      requires item.kind.LayerBlit? && WellFormed(item) && InGrid(item.kind.layer, c)
      modifies this`trace, this`drawCallsLastFrame
      ensures Emitted(CellTrace(item, env, c))
    {
      var layer := item.kind.layer;
      CellIndexInRange(layer, c);
      var i := c.y * layer.width + c.x;
      var dst := env.place(item, c.x, c.y);
      if !env.isOnScreen(dst) {
        return;
      }
      var e := Copy(item.kind.tex, Some(GetImageRectFromId(layer.tileset, layer.data[i])), dst, 0.0);
      Issue(e);
      DrawCallsInSnoc([], e);
      assert [] + [e] == [e];
    }

    /** The inner loop of BlitLayer::Blit for row y: cells x = 0 .. width-1. */
    method BlitRow(item: BlitItem, env: Env, y: int)
      requires item.kind.LayerBlit? && WellFormed(item) && 0 <= y < item.kind.layer.height
      modifies this`trace, this`drawCallsLastFrame
      ensures Emitted(CellsTrace(item, env, RowCells(y, item.kind.layer.width)))
    {
      for x := 0 to item.kind.layer.width
        invariant Emitted(CellsTrace(item, env, RowCells(y, x)))
      {
        BlitCell(item, env, Cell(x, y));
        CellsSnoc(item, env, RowCells(y, x), Cell(x, y));
        ConcatAssoc(old(trace), CellsTrace(item, env, RowCells(y, x)), CellTrace(item, env, Cell(x, y)));
        DrawCallsInAppend(CellsTrace(item, env, RowCells(y, x)), CellTrace(item, env, Cell(x, y)));
      }
    }

    /** BlitLayer::Blit: every cell of the grid, row by row. */
    method BlitLayer(item: BlitItem, env: Env)
      requires item.kind.LayerBlit? && WellFormed(item)
      modifies this`trace, this`drawCallsLastFrame
      ensures Emitted(LayerTrace(item, env))
    {
      var layer := item.kind.layer;
      for y := 0 to layer.height
        invariant Emitted(CellsTrace(item, env, RowMajor(layer.width, y)))
      {
        BlitRow(item, env, y);
        ghost var row := RowCells(y, layer.width);
        CellsTraceAppend(item, env, RowMajor(layer.width, y), row);
        ConcatAssoc(old(trace), CellsTrace(item, env, RowMajor(layer.width, y)), CellsTrace(item, env, row));
        DrawCallsInAppend(CellsTrace(item, env, RowMajor(layer.width, y)), CellsTrace(item, env, row));
      }
    }

    /** The inner loop of BlitBackground::Blit for tile column i: one counted
        copy per row, breaking after the first when the background does not
        repeat vertically. */
    method BlitBackgroundColumn(item: BlitItem, env: Env, i: int, rows: nat)
      requires item.kind.BackgroundBlit? && rows == env.backgroundTiles(item).1
      modifies this`trace, this`drawCallsLastFrame
      ensures Emitted(BackgroundColumn(item, env, i, BackgroundRows(item, env)))
    {
      ghost var drawn := 0;
      for j := 0 to rows
        invariant !item.kind.repeatY ==> j == 0
        invariant drawn == j
        invariant Emitted(BackgroundColumn(item, env, i, j))
      {
        var e := Copy(item.kind.tex, None, env.place(item, i, j), 0.0);
        Issue(e);
        DrawCallsInSnoc(BackgroundColumn(item, env, i, j), e);
        ConcatAssoc(old(trace), BackgroundColumn(item, env, i, j), [e]);
        drawn := j + 1;
        if !item.kind.repeatY {
          break;
        }
      }
      assert drawn == BackgroundRows(item, env);
    }

    /** BlitBackground::Blit: the tile columns and rows the viewport needs. */
    method BlitBackground(item: BlitItem, env: Env)
      requires item.kind.BackgroundBlit?
      modifies this`trace, this`drawCallsLastFrame
      ensures Emitted(BackgroundTrace(item, env))
    {
      var (columns, rows) := env.backgroundTiles(item);
      for i := 0 to columns
        invariant Emitted(BackgroundColumns(item, env, i))
      {
        BlitBackgroundColumn(item, env, i, rows);
        ghost var col := BackgroundColumn(item, env, i, BackgroundRows(item, env));
        DrawCallsInAppend(BackgroundColumns(item, env, i), col);
        ConcatAssoc(old(trace), BackgroundColumns(item, env, i), col);
      }
    }

    /** BlitRect::Blit */
    method BlitRect(item: BlitItem, env: Env)
      requires item.kind.RectBlit?
      modifies this`trace, this`drawCallsLastFrame
      ensures Emitted(RectTrace(item, env))
    {
      var dst := env.place(item, 0, 0);
      var c := item.kind.color;
      ghost var head: seq<Event> := [];
      if !env.isOnScreen(dst) {
        Issue(SetBlendMode);
        head := [SetBlendMode];
      }
      var color := SetDrawColor(c.r, c.g, c.b, c.a);
      Issue(color);
      var shape := if item.kind.filled then FillRect(dst) else OutlineRect(dst);
      Issue(shape);
      RectAlwaysCounted(item, env);
      assert trace == old(trace) + (head + [color, shape]);
    }

    /** BlitTrail::Blit: move the item's points by the camera offset in place
        (unless it ignores the camera) and draw them as one polyline. */
    method BlitTrail(item: BlitItem, env: Env)
      requires item.kind.TrailBlit?
      modifies this`trace, this`drawCallsLastFrame
      ensures Emitted(TrailTrace(item, env))
    {
      var source := item.kind.points;
      var points := new Point[|source|](k requires 0 <= k < |source| => source[k]);
      if !item.ignoreCamera {
        for i := 0 to points.Length
          modifies points
          invariant forall k :: 0 <= k < i ==> points[k] == ShiftPoint(source[k], env.cameraOffsetX, env.cameraOffsetY)
          invariant forall k :: i <= k < points.Length ==> points[k] == source[k]
        {
          points[i] := Point(TruncateToInt(points[i].x as real + env.cameraOffsetX),
                             TruncateToInt(points[i].y as real + env.cameraOffsetY));
        }
        assert points[..] == Shifted(source, env.cameraOffsetX, env.cameraOffsetY);
      } else {
        assert points[..] == source;
      }
      var c := item.kind.color;
      Issue(SetBlendMode);
      Issue(SetDrawColor(c.r, c.g, c.b, 255));
      Issue(Lines(points[..]));
      TrailNeverCounted(item, env);
      assert TrailTrace(item, env) == [SetBlendMode, SetDrawColor(c.r, c.g, c.b, 255), Lines(points[..])];
    }

    /** The body of BlitParticles::Blit's loop for slot i: skip an empty
        slot, place the particle, and draw it if the camera accepts it. */
    method BlitParticle(item: BlitItem, env: Env, slot: Option<Particle>, i: int)
      requires item.kind.ParticlesBlit?
      modifies this`trace, this`drawCallsLastFrame
      ensures Emitted(ParticleTrace(item, env, slot, i))
    {
      if slot.None? {
        return;
      }
      var particle := slot.value;
      var dst := env.place(item, i, 0);
      if !env.isOnScreen(dst) {
        return;
      }
      var e := Copy(item.kind.tex, Some(particle.areaInTexture), dst, particle.angle);
      Issue(e);
      DrawCallsInSnoc([], e);
      assert [] + [e] == [e];
    }

    /** BlitParticles::Blit: every particle slot of the emitter; empty slots
        and particles the camera rejects draw nothing. */
    method BlitParticles(item: BlitItem, env: Env)
      requires item.kind.ParticlesBlit?
      modifies this`trace, this`drawCallsLastFrame
      ensures Emitted(ParticlesTrace(item, env))
    {
      var slots := env.particles(item.kind.emitter.emitterId);
      for i := 0 to |slots|
        invariant Emitted(ParticlesUpTo(item, env, i))
      {
        BlitParticle(item, env, slots[i], i);
        DrawCallsInAppend(ParticlesUpTo(item, env, i), ParticleTrace(item, env, slots[i], i));
        ConcatAssoc(old(trace), ParticlesUpTo(item, env, i), ParticleTrace(item, env, slots[i], i));
      }
    }

    /** The end of BlitItemText::Blit's glyph branch: the camera test, then
        a counted copy of the glyph. */
    method BlitGlyph(tex: TexHandle, mapped: Rect, onScreen: Rect, env: Env)
      modifies this`trace, this`drawCallsLastFrame
      ensures Emitted(GlyphCopy(tex, mapped, onScreen, env))
    {
      if !env.isOnScreen(onScreen) {
        return;
      }
      var e := Copy(tex, Some(mapped), onScreen, 0.0);
      Issue(e);
      DrawCallsInSnoc([], e);
      assert [] + [e] == [e];
    }

    /** One pass of the loop of BlitItemText::Blit on byte `c` with the cursor
        at (lengthSoFar, yLevel): the cursor takes one Step, and a glyph is
        drawn at the old cursor if the camera accepts it. */
    method BlitByte(tex: TexHandle, font: Font, x: int, y: int, c: char, lengthSoFar: int, yLevel: int, env: Env)
      returns (lengthSoFar': int, yLevel': int)
      requires yLevel >= 0
      modifies this`trace, this`drawCallsLastFrame
      ensures Cursor(lengthSoFar', yLevel') == Step(font, c, Cursor(lengthSoFar, yLevel)) && yLevel' >= 0
      ensures Emitted(ByteCopies(tex, font, x, y, c, Cursor(lengthSoFar, yLevel), env))
    {
      lengthSoFar', yLevel' := lengthSoFar, yLevel;
      if c == '\n' {
        LineStepIsExact(yLevel, font.size);
        yLevel' := TruncateToInt(yLevel as real + (font.size as real) * 1.5);
        lengthSoFar' := 0;
      } else if c == ' ' {
        lengthSoFar' := lengthSoFar + font.size / 2;
      } else if c in font.mapping {
        var mapped := font.mapping[c];
        var onScreen := Rect(x + lengthSoFar, y + yLevel, mapped.w, mapped.h);
        lengthSoFar' := lengthSoFar + onScreen.w;
        BlitGlyph(tex, mapped, onScreen, env);
      }
    }

    /** BlitItemText::Blit: walk the bytes with the cursor (length_so_far,
        yLevel), drawing each mapped glyph the camera accepts. */
    method BlitText(item: BlitItem, env: Env)
      requires item.kind.TextBlit?
      modifies this`trace, this`drawCallsLastFrame
      ensures Emitted(TextTrace(item, env))
    {
      var k := item.kind;
      var font := k.font;
      var lengthSoFar := 0;
      var yLevel := 0;
      ghost var read: string := [];
      for i := 0 to |k.text|
        invariant read == k.text[..i]
        invariant Cursor(lengthSoFar, yLevel) == CursorAfter(font, read)
        invariant yLevel >= 0
        invariant Emitted(TextCopies(k.fontTexture, font, k.x, k.y, read, env))
      {
        var c := k.text[i];
        TextCopiesSnoc(k.fontTexture, font, k.x, k.y, read, c, env);
        ghost var before := TextCopies(k.fontTexture, font, k.x, k.y, read, env);
        ghost var added := ByteCopies(k.fontTexture, font, k.x, k.y, c, Cursor(lengthSoFar, yLevel), env);
        lengthSoFar, yLevel := BlitByte(k.fontTexture, font, k.x, k.y, c, lengthSoFar, yLevel, env);
        DrawCallsInAppend(before, added);
        ConcatAssoc(old(trace), before, added);
        read := read + [c];
      }
      assert read == k.text;
      TextCopiesAreVisibleLayout(k.fontTexture, font, k.x, k.y, k.text, env);
    }

    /** BlitItem::Blit, dispatched on the kind of item. */
    method Blit(item: BlitItem, env: Env)
      requires WellFormed(item)
      modifies this`trace, this`drawCallsLastFrame
      ensures Emitted(ItemTrace(item, env))
    {
      match item.kind {
        case TextureBlit(_, _, _, _, _, _, _, _, _) => BlitTexture(item, env);
        case LayerBlit(_, _) => BlitLayer(item, env);
        case BackgroundBlit(_, _, _, _) => BlitBackground(item, env);
        case ParticlesBlit(_, _) => BlitParticles(item, env);
        case RectBlit(_, _, _) => BlitRect(item, env);
        case TrailBlit(_, _) => BlitTrail(item, env);
        case TextBlit(_, _, _, _, _, _) => BlitText(item, env);
      }
    }

    // ---- frame

    /** The inner loop of Loop for one queue: take top(), pop it, blit it,
        until the queue is empty. `order` is the order the items came out in. */
    method DrainQueue(queue: BlitQueue, env: Env) returns (ghost order: seq<BlitItem>)
      requires AllWellFormed(queue.items)
      modifies this`trace, this`drawCallsLastFrame, queue
      ensures queue.items == []
      ensures Drains(multiset(old(queue.items)), order, multiset{}, queue.priority)
      ensures AllWellFormed(order)
      ensures Emitted(FrameTrace(order, env))
    {
      order := [];
      while queue.items != []
        invariant AllWellFormed(queue.items) && AllWellFormed(order)
        invariant Drains(multiset(old(queue.items)), order, multiset(queue.items), queue.priority)
        invariant Emitted(FrameTrace(order, env))
        decreases |queue.items|
      {
        var next := queue.Top();
        ghost var before := queue.items;
        queue.Pop();
        DrainsExtend(multiset(old(queue.items)), order, multiset(before), next, queue.priority);
        RemoveKeepsWellFormed(before, TopIndex(before, queue.priority));
        Blit(next, env);
        DrawCallsInAppend(FrameTrace(order, env), ItemTrace(next, env));
        ConcatAssoc(old(trace), FrameTrace(order, env), ItemTrace(next, env));
        FrameTraceSnoc(order, next, env);
        order := order + [next];
      }
    }

    /** The contents of the three queues. */
    function Contents(): Queues
      reads allQueue, uiQueue, debugQueue
    {
      Queues(allQueue.items, uiQueue.items, debugQueue.items)
    }

    /** One pass of Loop's selector loop: GetQueue(i), then drain it. Only
        that queue changes, and the loop's state moves on to selector i + 1. */
    method DrainSelector(i: int, env: Env, ghost drained: seq<seq<BlitItem>>, ghost start: Queues,
                         ghost t0: seq<Event>, ghost c0: int)
      returns (ghost order: seq<BlitItem>)
      requires Valid() && IsQueueSelector(i)
      requires DrainedUpTo(i, drained, Contents(), start, trace, t0, drawCallsLastFrame, c0, priority, env)
      modifies this`trace, this`drawCallsLastFrame, GetQueue(i)
      ensures Valid()
      ensures DrainedUpTo(i + 1, drained + [order], Contents(), start, trace, t0, drawCallsLastFrame, c0,
                          priority, env)
    {
      ghost var now := Contents();
      var queue := GetQueue(i);
      assert queue.items == Selected(now, i) && queue.priority == priority;
      order := DrainQueue(queue, env);
      assert Contents() == Emptied(now, i);
      DrainedStep(i, drained, order, now, start, old(trace), t0, old(drawCallsLastFrame), c0, priority, env);
    }

    /** The loop of Render::Loop over the selectors 0 .. RENDER_MAX-1: drain
        each queue in turn. drained[i] is the order queue i came out in. */
    method DrainAll(env: Env) returns (ghost drained: seq<seq<BlitItem>>)
      requires Valid()
      modifies this`trace, this`drawCallsLastFrame, allQueue, uiQueue, debugQueue
      ensures Valid()
      ensures DrainedUpTo(RENDER_MAX, drained, Contents(), old(Contents()), trace, old(trace),
                          drawCallsLastFrame, old(drawCallsLastFrame), priority, env)
    {
      drained := [];
      assert QueueTraces(drained, env) == [] && trace + [] == trace;
      for i := 0 to RENDER_MAX
        invariant Valid()
        invariant DrainedUpTo(i, drained, Contents(), old(Contents()), trace, old(trace),
                              drawCallsLastFrame, old(drawCallsLastFrame), priority, env)
      {
        ghost var order := DrainSelector(i, env, drained, old(Contents()), old(trace), old(drawCallsLastFrame));
        drained := drained + [order];
      }
    }

    /** Loop: clear the screen, reset the counter, drain the queues in
        selector order, set the draw color from the background and present.
        The blue channel is given the background's green value. */
    method Loop(env: Env) returns (ghost game: seq<BlitItem>, ghost ui: seq<BlitItem>, ghost debug: seq<BlitItem>)
      requires Valid()
      modifies this`trace, this`drawCallsLastFrame, allQueue, uiQueue, debugQueue
      ensures Valid()
      ensures allQueue.items == [] && uiQueue.items == [] && debugQueue.items == []
      ensures Drains(multiset(old(allQueue.items)), game, multiset{}, priority)
      ensures Drains(multiset(old(uiQueue.items)), ui, multiset{}, priority)
      ensures Drains(multiset(old(debugQueue.items)), debug, multiset{}, priority)
      ensures AllWellFormed(game) && AllWellFormed(ui) && AllWellFormed(debug)
      ensures trace == old(trace) + [Clear] + FrameTrace(game, env) + FrameTrace(ui, env) + FrameTrace(debug, env)
                       + [SetDrawColor(background.r, background.g, background.g, background.a), Present]
      ensures drawCallsLastFrame == DrawCallsIn(FrameTrace(game, env) + FrameTrace(ui, env) + FrameTrace(debug, env))
    {
      trace := trace + [Clear];
      drawCallsLastFrame := 0;
      ghost var cleared := trace;
      ghost var drained := DrainAll(env);
      game, ui, debug := drained[0], drained[1], drained[2];
      QueueTracesOfThree(drained, env);
      ConcatAssoc(cleared, FrameTrace(game, env), FrameTrace(ui, env));
      ConcatAssoc(cleared, FrameTrace(game, env) + FrameTrace(ui, env), FrameTrace(debug, env));
      trace := trace + [SetDrawColor(background.r, background.g, background.g, background.a), Present];
    }
  }
}
