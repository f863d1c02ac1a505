/** What each kind of draw item sends to the backend when it is blitted, as a
    list of backend calls, and how many of them the renderer counts as draw
    calls. The Render methods that blit are proved to produce exactly these. */
module BlitSpec {
  import opened Wrappers
  import opened Seqs
  import opened TexturesModule
  import opened RenderTypes
  import opened Tiles
  import opened TextLayout

  /** A backend call that a blit announces with CountDrawCall just before
      issuing it: a texture copy, a rectangle fill or a rectangle outline. */
  predicate IsCountedDraw(e: Event)
  {
    e.Copy? || e.FillRect? || e.OutlineRect?
  }

  /** Number of counted draw calls in a trace. */
  function DrawCallsIn(t: seq<Event>): nat
  {
    if t == [] then 0
    else DrawCallsIn(t[..|t| - 1]) + if IsCountedDraw(t[|t| - 1]) then 1 else 0
  }

  /** One more backend call adds one to the count exactly when it is a counted draw. */
  lemma DrawCallsInSnoc(t: seq<Event>, e: Event)
    ensures DrawCallsIn(t + [e]) == DrawCallsIn(t) + if IsCountedDraw(e) then 1 else 0
  {
    assert (t + [e])[..|t|] == t;
  }

  lemma {:induction false} DrawCallsInAppend(a: seq<Event>, b: seq<Event>)
    ensures DrawCallsIn(a + b) == DrawCallsIn(a) + DrawCallsIn(b)
  {
    if b != [] {
      var b' := b[..|b| - 1];
      assert (a + b)[..|a + b| - 1] == a + b';
      DrawCallsInAppend(a, b');
    } else {
      assert a + b == a;
    }
  }

  // ---- BlitTexture::Blit

  /** One copy of the image rectangle to the transformed position, unless the
      camera says the destination is off screen. */
  function TextureTrace(item: BlitItem, env: Env): seq<Event>
    requires item.kind.TextureBlit?
  {
    var dst := env.place(item, 0, 0);
    if env.isOnScreen(dst) then [Copy(item.kind.tex, Some(item.kind.onImage), dst, item.kind.angle)] else []
  }

  // ---- BlitLayer::Blit

  predicate InGrid(layer: Layer, c: Cell)
  {
    0 <= c.x < layer.width && 0 <= c.y < layer.height
  }

  /** The cell (x, y): tile data[y * width + x] of the tileset, copied unless
      its destination is off screen. */
  function CellTrace(item: BlitItem, env: Env, c: Cell): seq<Event>
    requires item.kind.LayerBlit? && WellFormed(item) && InGrid(item.kind.layer, c)
  {
    var layer := item.kind.layer;
    CellIndexInRange(layer, c);
    var src := GetImageRectFromId(layer.tileset, layer.data[CellIndex(layer.width, c)]);
    var dst := env.place(item, c.x, c.y);
    if env.isOnScreen(dst) then [Copy(item.kind.tex, Some(src), dst, 0.0)] else []
  }

  /** The cells of `cells` in order; a cell outside the grid is never visited
      by the walk, and draws nothing here. */
  function CellsTrace(item: BlitItem, env: Env, cells: seq<Cell>): seq<Event>
    requires item.kind.LayerBlit? && WellFormed(item)
  {
    if cells == [] then []
    else
      var c := cells[|cells| - 1];
      CellsTrace(item, env, cells[..|cells| - 1]) + if InGrid(item.kind.layer, c) then CellTrace(item, env, c) else []
  }

  /** Blitting one more cell of the grid appends that cell's calls. */
  lemma CellsSnoc(item: BlitItem, env: Env, cells: seq<Cell>, c: Cell)
    requires item.kind.LayerBlit? && WellFormed(item) && InGrid(item.kind.layer, c)
    ensures CellsTrace(item, env, cells + [c]) == CellsTrace(item, env, cells) + CellTrace(item, env, c)
  {
    assert (cells + [c])[..|cells|] == cells;
  }

  /** Walking two runs of cells one after the other issues the calls of the
      first run, then those of the second. */
  lemma {:induction false} CellsTraceAppend(item: BlitItem, env: Env, a: seq<Cell>, b: seq<Cell>)
    requires item.kind.LayerBlit? && WellFormed(item)
    ensures CellsTrace(item, env, a + b) == CellsTrace(item, env, a) + CellsTrace(item, env, b)
  {
    if b != [] {
      var b', c := b[..|b| - 1], b[|b| - 1];
      assert (a + b)[..|a + b| - 1] == a + b';
      CellsTraceAppend(item, env, a, b');
      ConcatAssoc(CellsTrace(item, env, a), CellsTrace(item, env, b'),
                  if InGrid(item.kind.layer, c) then CellTrace(item, env, c) else []);
    } else {
      assert a + b == a;
    }
  }

  /** All cells of the layer, row by row. */
  function LayerTrace(item: BlitItem, env: Env): seq<Event>
    requires item.kind.LayerBlit? && WellFormed(item)
  {
    CellsTrace(item, env, RowMajor(item.kind.layer.width, item.kind.layer.height))
  }

  /** A layer issues at most one counted draw per cell. */
  lemma {:induction false} CellsDrawCallsBound(item: BlitItem, env: Env, cells: seq<Cell>)
    requires item.kind.LayerBlit? && WellFormed(item)
    ensures DrawCallsIn(CellsTrace(item, env, cells)) <= |cells|
    ensures |CellsTrace(item, env, cells)| == DrawCallsIn(CellsTrace(item, env, cells))
  {
    if cells != [] {
      var pre, c := cells[..|cells| - 1], cells[|cells| - 1];
      CellsDrawCallsBound(item, env, pre);
      DrawCallsInAppend(CellsTrace(item, env, pre), if InGrid(item.kind.layer, c) then CellTrace(item, env, c) else []);
    }
  }

  // ---- BlitBackground::Blit

  /** Rows drawn per column: the inner loop breaks after its first draw when
      the background does not repeat vertically. */
  function BackgroundRows(item: BlitItem, env: Env): nat
    requires item.kind.BackgroundBlit?
  {
    var rows := env.backgroundTiles(item).1;
    if item.kind.repeatY then rows else if rows > 0 then 1 else 0
  }

  /** Column i of the background: tiles j = 0 .. n-1, each copied whole and
      counted, with no camera test. */
  function BackgroundColumn(item: BlitItem, env: Env, i: int, n: nat): seq<Event>
    requires item.kind.BackgroundBlit?
  {
    if n == 0 then []
    else BackgroundColumn(item, env, i, n - 1) + [Copy(item.kind.tex, None, env.place(item, i, n - 1), 0.0)]
  }

  /** Columns i = 0 .. n-1 of the background. */
  function BackgroundColumns(item: BlitItem, env: Env, n: nat): seq<Event>
    requires item.kind.BackgroundBlit?
  {
    if n == 0 then []
    else BackgroundColumns(item, env, n - 1) + BackgroundColumn(item, env, n - 1, BackgroundRows(item, env))
  }

  function BackgroundTrace(item: BlitItem, env: Env): seq<Event>
    requires item.kind.BackgroundBlit?
  {
    BackgroundColumns(item, env, env.backgroundTiles(item).0)
  }

  lemma {:induction false} BackgroundColumnCount(item: BlitItem, env: Env, i: int, n: nat)
    requires item.kind.BackgroundBlit?
    ensures DrawCallsIn(BackgroundColumn(item, env, i, n)) == n
  {
    if n > 0 {
      BackgroundColumnCount(item, env, i, n - 1);
      DrawCallsInAppend(BackgroundColumn(item, env, i, n - 1), [Copy(item.kind.tex, None, env.place(item, i, n - 1), 0.0)]);
    }
  }

  lemma MulPred(n: nat, r: nat)
    requires n > 0
    ensures (n - 1) * r + r == n * r
  {
  }

  /** A background is never culled: it counts one draw per tile, columns times
      rows, and only one row when it does not repeat vertically. */
  lemma {:induction false} BackgroundDrawCalls(item: BlitItem, env: Env, n: nat)
    requires item.kind.BackgroundBlit?
    ensures DrawCallsIn(BackgroundColumns(item, env, n)) == n * BackgroundRows(item, env)
  {
    if n > 0 {
      var r := BackgroundRows(item, env);
      var prev, col := BackgroundColumns(item, env, n - 1), BackgroundColumn(item, env, n - 1, r);
      BackgroundDrawCalls(item, env, n - 1);
      BackgroundColumnCount(item, env, n - 1, r);
      DrawCallsInAppend(prev, col);
      MulPred(n, r);
      assert DrawCallsIn(prev + col) == (n - 1) * r + r;
    }
  }

  // ---- BlitParticles::Blit

  /** Slot i of the emitter: a live particle is copied from its texture area
      unless its destination is off screen; an empty slot draws nothing. */
  function ParticleTrace(item: BlitItem, env: Env, p: Option<Particle>, i: int): seq<Event>
    requires item.kind.ParticlesBlit?
  {
    match p
    case None => []
    case Some(particle) =>
      var dst := env.place(item, i, 0);
      if env.isOnScreen(dst) then [Copy(item.kind.tex, Some(particle.areaInTexture), dst, particle.angle)] else []
  }

  /** Slots 0 .. n-1 of the emitter's particles at drain time. */
  function ParticlesUpTo(item: BlitItem, env: Env, n: nat): seq<Event>
    requires item.kind.ParticlesBlit?
    requires n <= |env.particles(item.kind.emitter.emitterId)|
  {
    if n == 0 then []
    else ParticlesUpTo(item, env, n - 1) +
         ParticleTrace(item, env, env.particles(item.kind.emitter.emitterId)[n - 1], n - 1)
  }

  function ParticlesTrace(item: BlitItem, env: Env): seq<Event>
    requires item.kind.ParticlesBlit?
  {
    ParticlesUpTo(item, env, |env.particles(item.kind.emitter.emitterId)|)
  }

  /** Slot i holds a particle whose placement the camera accepts. */
  predicate LiveOnScreen(item: BlitItem, env: Env, slot: Option<Particle>, i: int)
  {
    slot.Some? && env.isOnScreen(env.place(item, i, 0))
  }

  /** How many of slots 0 .. n-1 hold a particle the camera accepts. */
  function LiveOnScreenCount(item: BlitItem, env: Env, slots: seq<Option<Particle>>, n: nat): nat
    requires n <= |slots|
  {
    if n == 0 then 0
    else LiveOnScreenCount(item, env, slots, n - 1) + if LiveOnScreen(item, env, slots[n - 1], n - 1) then 1 else 0
  }

  /** An emitter draws one counted copy per slot that holds a particle the
      camera accepts, and nothing else: empty slots and culled particles
      cost no backend call. */
  lemma {:induction false} ParticlesCountLiveOnScreen(item: BlitItem, env: Env, n: nat)
    requires item.kind.ParticlesBlit?
    requires n <= |env.particles(item.kind.emitter.emitterId)|
    ensures DrawCallsIn(ParticlesUpTo(item, env, n)) ==
            LiveOnScreenCount(item, env, env.particles(item.kind.emitter.emitterId), n)
    ensures |ParticlesUpTo(item, env, n)| == DrawCallsIn(ParticlesUpTo(item, env, n))
  {
    if n > 0 {
      var slots := env.particles(item.kind.emitter.emitterId);
      ParticlesCountLiveOnScreen(item, env, n - 1);
      var last := ParticleTrace(item, env, slots[n - 1], n - 1);
      DrawCallsInAppend(ParticlesUpTo(item, env, n - 1), last);
      if last != [] {
        assert last == [] + [last[0]];
        DrawCallsInSnoc([], last[0]);
      }
    }
  }

  // ---- BlitRect::Blit

  /** The blend mode is set only when the camera test FAILS (the `if` guards
      only that call); the color is set, the rectangle is counted and drawn
      whatever the test says. */
  function RectTrace(item: BlitItem, env: Env): seq<Event>
    requires item.kind.RectBlit?
  {
    var dst := env.place(item, 0, 0);
    var c := item.kind.color;
    (if !env.isOnScreen(dst) then [SetBlendMode] else []) +
    [SetDrawColor(c.r, c.g, c.b, c.a), if item.kind.filled then FillRect(dst) else OutlineRect(dst)]
  }

  // ---- BlitTrail::Blit

  /** The points moved by the camera offset, one by one. */
  function Shifted(points: seq<Point>, dx: real, dy: real): seq<Point>
  {
    seq(|points|, i requires 0 <= i < |points| => ShiftPoint(points[i], dx, dy))
  }

  /** `t` lies between zero and `exact`. */
  predicate TowardZero(exact: real, t: int)
  {
    if exact >= 0.0 then 0.0 <= t as real <= exact else exact <= t as real <= 0.0
  }

  /** The shift keeps every point and moves each coordinate to within one
      unit of its exact sum with the offset, on the side of zero; a whole
      offset moves every point by exactly that much. */
  lemma {:induction false} ShiftedTruncatesEachPoint(points: seq<Point>, dx: real, dy: real)
    ensures |Shifted(points, dx, dy)| == |points|
    ensures forall i :: 0 <= i < |points| ==>
      -1.0 < Shifted(points, dx, dy)[i].x as real - (points[i].x as real + dx) < 1.0 &&
      -1.0 < Shifted(points, dx, dy)[i].y as real - (points[i].y as real + dy) < 1.0
    ensures forall i :: 0 <= i < |points| ==>
      TowardZero(points[i].x as real + dx, Shifted(points, dx, dy)[i].x) &&
      TowardZero(points[i].y as real + dy, Shifted(points, dx, dy)[i].y)
    ensures dx == dx.Floor as real && dy == dy.Floor as real ==>
      forall i :: 0 <= i < |points| ==>
        Shifted(points, dx, dy)[i] == Point(points[i].x + dx.Floor, points[i].y + dy.Floor)
  {
    forall i | 0 <= i < |points|
      ensures -1.0 < Shifted(points, dx, dy)[i].x as real - (points[i].x as real + dx) < 1.0
      ensures -1.0 < Shifted(points, dx, dy)[i].y as real - (points[i].y as real + dy) < 1.0
      ensures TowardZero(points[i].x as real + dx, Shifted(points, dx, dy)[i].x)
      ensures TowardZero(points[i].y as real + dy, Shifted(points, dx, dy)[i].y)
      ensures dx == dx.Floor as real && dy == dy.Floor as real ==>
        Shifted(points, dx, dy)[i] == Point(points[i].x + dx.Floor, points[i].y + dy.Floor)
    {
      TruncateToIntTowardZero(points[i].x as real + dx);
      TruncateToIntTowardZero(points[i].y as real + dy);
    }
  }

  /** Because each point is truncated on its own, no whole-number offset does
      what a half-unit offset does: it moves x = -3 to -2 but leaves x = 3. */
  lemma HalfOffsetIsNoTranslation()
    ensures Shifted([Point(-3, 0), Point(3, 0)], 0.5, 0.0) == [Point(-2, 0), Point(3, 0)]
    ensures forall off: real :: off == off.Floor as real ==>
      Shifted([Point(-3, 0), Point(3, 0)], 0.5, 0.0) != Shifted([Point(-3, 0), Point(3, 0)], off, 0.0)
  {
    var pts := [Point(-3, 0), Point(3, 0)];
    assert Shifted(pts, 0.5, 0.0) == [Point(-2, 0), Point(3, 0)];
    forall off: real | off == off.Floor as real
      ensures Shifted(pts, 0.5, 0.0) != Shifted(pts, off, 0.0)
    {
      ShiftedTruncatesEachPoint(pts, off, 0.0);
      assert Shifted(pts, off, 0.0)[0].x == -3 + off.Floor && Shifted(pts, off, 0.0)[1].x == 3 + off.Floor;
    }
  }

  /** The trail's points, moved by the camera offset unless the item ignores
      the camera, drawn as one polyline in opaque color; no draw call is counted. */
  function TrailTrace(item: BlitItem, env: Env): seq<Event>
    requires item.kind.TrailBlit?
  {
    var c := item.kind.color;
    var pts := if item.ignoreCamera then item.kind.points
               else Shifted(item.kind.points, env.cameraOffsetX, env.cameraOffsetY);
    [SetBlendMode, SetDrawColor(c.r, c.g, c.b, 255), Lines(pts)]
  }

  // ---- BlitItemText::Blit

  /** The copies of the placements whose destination the camera accepts. */
  function VisibleCopies(tex: TexHandle, ps: seq<Placement>, env: Env): seq<Event>
  {
    if ps == [] then []
    else
      var p := ps[|ps| - 1];
      VisibleCopies(tex, ps[..|ps| - 1], env) + GlyphCopy(tex, p.src, p.dst, env)
  }

  /** One more placement appends its copy exactly when the camera accepts it. */
  lemma VisibleCopiesSnoc(tex: TexHandle, ps: seq<Placement>, p: Placement, env: Env)
    ensures env.isOnScreen(p.dst) ==>
      VisibleCopies(tex, ps + [p], env) == VisibleCopies(tex, ps, env) + [Copy(tex, Some(p.src), p.dst, 0.0)]
    ensures !env.isOnScreen(p.dst) ==> VisibleCopies(tex, ps + [p], env) == VisibleCopies(tex, ps, env)
  {
    assert (ps + [p])[..|ps|] == ps;
    assert VisibleCopies(tex, ps, env) + [] == VisibleCopies(tex, ps, env);
  }

  /** One glyph drawn at `dst`: a copy from `src` unless the camera rejects `dst`. */
  function GlyphCopy(tex: TexHandle, src: Rect, dst: Rect, env: Env): seq<Event>
  {
    if env.isOnScreen(dst) then [Copy(tex, Some(src), dst, 0.0)] else []
  }

  /** What one byte `c` draws with the cursor at `cur`: its glyph at the
      cursor if it is a glyph the camera accepts, nothing otherwise. */
  function ByteCopies(tex: TexHandle, font: Font, x: int, y: int, c: char, cur: Cursor, env: Env): seq<Event>
  {
    if IsGlyph(font, c) then
      GlyphCopy(tex, font.mapping[c], Rect(x + cur.advance, y + cur.line, font.mapping[c].w, font.mapping[c].h), env)
    else []
  }

  /** The copies of the glyphs of `s` in the order the loop of
      BlitItemText::Blit reaches them, each at the cursor reached before it. */
  function TextCopies(tex: TexHandle, font: Font, x: int, y: int, s: string, env: Env): seq<Event>
  {
    if s == [] then []
    else
      var pre := s[..|s| - 1];
      TextCopies(tex, font, x, y, pre, env) + ByteCopies(tex, font, x, y, s[|s| - 1], CursorAfter(font, pre), env)
  }

  /** One more byte: the cursor takes one Step and the byte's copies are added. */
  lemma TextCopiesSnoc(tex: TexHandle, font: Font, x: int, y: int, s: string, c: char, env: Env)
    ensures CursorAfter(font, s + [c]) == Step(font, c, CursorAfter(font, s))
    ensures TextCopies(tex, font, x, y, s + [c], env) ==
      TextCopies(tex, font, x, y, s, env) + ByteCopies(tex, font, x, y, c, CursorAfter(font, s), env)
  {
    assert (s + [c])[..|s|] == s;
  }

  /** Drawing glyph by glyph is filtering the layout: the loop issues exactly
      the copies of the laid-out glyphs that the camera accepts, in order. */
  lemma {:induction false} TextCopiesAreVisibleLayout(tex: TexHandle, font: Font, x: int, y: int, s: string, env: Env)
    ensures TextCopies(tex, font, x, y, s, env) == VisibleCopies(tex, Layout(font, x, y, s), env)
  {
    if s != [] {
      var pre, c := s[..|s| - 1], s[|s| - 1];
      assert s == pre + [c];
      TextCopiesAreVisibleLayout(tex, font, x, y, pre, env);
      TextCopiesSnoc(tex, font, x, y, pre, c, env);
      LayoutSnoc(font, x, y, pre, c);
      if IsGlyph(font, c) {
        var cur := CursorAfter(font, pre);
        var p := Placement(font.mapping[c], Rect(x + cur.advance, y + cur.line, font.mapping[c].w, font.mapping[c].h));
        VisibleCopiesSnoc(tex, Layout(font, x, y, pre), p, env);
      }
    }
  }

  function TextTrace(item: BlitItem, env: Env): seq<Event>
    requires item.kind.TextBlit?
  {
    var k := item.kind;
    VisibleCopies(k.fontTexture, Layout(k.font, k.x, k.y, k.text), env)
  }

  /** Culling only drops glyphs: the copies drawn are the laid-out glyphs the
      camera accepts, at their laid-out places, one counted draw each. */
  lemma {:induction false} VisibleCopiesAreFiltered(tex: TexHandle, ps: seq<Placement>, env: Env)
    ensures DrawCallsIn(VisibleCopies(tex, ps, env)) == |VisibleCopies(tex, ps, env)| <= |ps|
    ensures forall e :: e in VisibleCopies(tex, ps, env) ==>
      e.Copy? && e.tex == tex && e.src.Some? && Placement(e.src.value, e.dst) in ps && env.isOnScreen(e.dst)
  {
    if ps != [] {
      var pre := ps[..|ps| - 1];
      var p := ps[|ps| - 1];
      VisibleCopiesAreFiltered(tex, pre, env);
      var last := if env.isOnScreen(p.dst) then [Copy(tex, Some(p.src), p.dst, 0.0)] else [];
      DrawCallsInAppend(VisibleCopies(tex, pre, env), last);
      forall e | e in VisibleCopies(tex, ps, env)
        ensures e.Copy? && e.tex == tex && e.src.Some? && Placement(e.src.value, e.dst) in ps && env.isOnScreen(e.dst)
      {
        if e in VisibleCopies(tex, pre, env) {
          assert Placement(e.src.value, e.dst) in pre;
        } else {
          assert e in last;
        }
      }
    }
  }

  // ---- dispatch

  /** The backend calls of one item's Blit. */
  function ItemTrace(item: BlitItem, env: Env): seq<Event>
    requires WellFormed(item)
  {
    match item.kind
    case TextureBlit(_, _, _, _, _, _, _, _, _) => TextureTrace(item, env)
    case LayerBlit(_, _) => LayerTrace(item, env)
    case BackgroundBlit(_, _, _, _) => BackgroundTrace(item, env)
    case ParticlesBlit(_, _) => ParticlesTrace(item, env)
    case RectBlit(_, _, _) => RectTrace(item, env)
    case TrailBlit(_, _) => TrailTrace(item, env)
    case TextBlit(_, _, _, _, _, _) => TextTrace(item, env)
  }

  /** The backend calls of blitting the items of `order` one after another. */
  function FrameTrace(order: seq<BlitItem>, env: Env): seq<Event>
    requires AllWellFormed(order)
  {
    if order == [] then []
    else FrameTrace(order[..|order| - 1], env) + ItemTrace(order[|order| - 1], env)
  }

  /** Blitting one more item appends its calls. */
  lemma FrameTraceSnoc(order: seq<BlitItem>, item: BlitItem, env: Env)
    requires AllWellFormed(order) && WellFormed(item)
    ensures AllWellFormed(order + [item])
    ensures FrameTrace(order + [item], env) == FrameTrace(order, env) + ItemTrace(item, env)
  {
    assert (order + [item])[..|order|] == order;
  }

  /** Blitting two runs of items one after the other gives the two traces one
      after the other. */
  lemma {:induction false} FrameTraceAppend(a: seq<BlitItem>, b: seq<BlitItem>, env: Env)
    requires AllWellFormed(a) && AllWellFormed(b)
    ensures AllWellFormed(a + b)
    ensures FrameTrace(a + b, env) == FrameTrace(a, env) + FrameTrace(b, env)
  {
    AllWellFormedAppend(a, b);
    if b != [] {
      var b' := b[..|b| - 1];
      assert (a + b)[..|a + b| - 1] == a + b';
      assert AllWellFormed(b');
      FrameTraceAppend(a, b', env);
      ConcatAssoc(FrameTrace(a, env), FrameTrace(b', env), ItemTrace(b[|b| - 1], env));
    } else {
      assert a + b == a;
    }
  }

  /** A trail is never counted as a draw call, although it always draws its
      polyline, even one of zero points. */
  lemma TrailNeverCounted(item: BlitItem, env: Env)
    requires item.kind.TrailBlit?
    ensures DrawCallsIn(ItemTrace(item, env)) == 0
    ensures ItemTrace(item, env)[2].Lines?
    ensures |ItemTrace(item, env)[2].points| == |item.kind.points|
  {
    var t := ItemTrace(item, env);
    assert t[..2][..1] == [SetBlendMode] && [SetBlendMode][..0] == [];
    assert DrawCallsIn(t[..2][..1]) == 0;
    assert DrawCallsIn(t[..2]) == 0;
  }

  /** A rectangle is counted and drawn exactly once whatever the camera says;
      only the blend-mode call depends on the camera test. */
  lemma RectAlwaysCounted(item: BlitItem, env: Env)
    requires item.kind.RectBlit?
    ensures DrawCallsIn(ItemTrace(item, env)) == 1
    ensures SetBlendMode in ItemTrace(item, env) <==> !env.isOnScreen(env.place(item, 0, 0))
  {
    var dst := env.place(item, 0, 0);
    var c := item.kind.color;
    var head: seq<Event> := if !env.isOnScreen(dst) then [SetBlendMode] else [];
    var tail := [SetDrawColor(c.r, c.g, c.b, c.a), if item.kind.filled then FillRect(dst) else OutlineRect(dst)];
    DrawCallsInAppend(head, tail);
    assert tail[..1] == [SetDrawColor(c.r, c.g, c.b, c.a)];
  }

  /** A texture is counted exactly when the camera accepts its destination. */
  lemma TextureCountedIffOnScreen(item: BlitItem, env: Env)
    requires item.kind.TextureBlit?
    ensures DrawCallsIn(ItemTrace(item, env)) == if env.isOnScreen(env.place(item, 0, 0)) then 1 else 0
  {
  }
}
