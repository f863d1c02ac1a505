# RexEngine render queue and texture registry, modelled in Dafny

This project models two stateful parts of the RexEngine 2D engine.

**The deferred render queue of the Render module.** During a frame, subsystems submit draw items. Each submission that names a texture or font resolves it and returns silently when the lookup yields null. Otherwise, and always for rectangles and trails, it pushes one item onto one of three priority queues: game, UI or debug. Once per frame, `Loop` does the following:

- clears the screen;
- resets the draw-call counter;
- drains the queues in selector order, taking `top()`, popping it and blitting it until the queue is empty;
- sets the draw color from the configured background;
- presents.

**The texture registry of the Textures module.** It is a list of (id, name, texture) entries plus a counter that issues ids:

- `Get_Texture` finds an entry by id;
- `AddTexture` issues the next id and appends;
- `Load_Texture` de-duplicates by path and reports a failed image read as id 0;
- `Destroy_Texture` (by name or by id) erases the first match;
- `CleanUp` empties the list.

Both are imperative in the source, so they are Dafny classes whose methods update fields in place. `Render` holds three `BlitQueue` objects, the draw-call counter and a trace of backend calls. `Textures` holds the entry list and the counter.

## How the model is put together

**Specification functions.** Each blit method is proved to emit exactly a trace given by a specification function over values (`BlitSpec`). The properties the source promises are lemmas about those functions.

**Backend calls.** Each graphics backend call (clear, present, blend mode, draw color, copy, rectangle fill or outline, polyline) is appended to `Render.trace`. Every `CountDrawCall` made just before a draw is accounted for by `DrawCallsIn`.

**The frame's environment.** The camera, the window and the particle emitters form the `Env` of a frame:

- an `isOnScreen` test;
- a `place` function giving each draw's destination rectangle, which the floating-point camera/parallax/scale transform computes;
- the camera's floating-point offsets, as reals, added to trail points;
- the particle slots of each emitter;
- the number of tile columns and rows a background needs.

**The queues' ordering.** The queues' `Comparer` is not part of the model. A key function `priority` over depths stands for it, and `top()` is an item of greatest key. Drains are stated through `Drains`: every pop takes an item no remaining item ranks above. Which direction of depth comes first, and the order among equal keys, are left open.

**Text layout.** The text blit's cursor logic is a value-level layout, `TextLayout.Layout`. The text blit is proved to issue the layout's glyphs that the camera accepts, in text order.

**Tile-layer walk.** The walk visits the cells row-major with data index `y * width + x` (`Tiles`). The tile source rectangle uses C++ truncating `/` and `%`.

**Behaviour reproduced as written.** Three details of the code are reproduced rather than corrected:

- `Loop` passes the background's green value as the blue channel (src/Modules/Render.cpp:117).
- `BlitRect`'s camera test has no body of its own, so it guards only the blend-mode call (src/Modules/Render.cpp:492-495). A rectangle is therefore always counted and drawn.
- `BlitTrail` never counts a draw call.

## Model

| member | source | states |
|---|---|---|
| RenderModule.Render.constructor | src/Modules/Render.cpp:17-20 | A new renderer has three distinct empty queues ordered by the same key, an empty trace and a zero counter. |
| RenderModule.Render.GetQueue | src/Modules/Render.cpp:70-87 | A valid selector (game, UI, debug) names one of the three queues; the default branch, which returns nothing, is excluded by the precondition. |
| RenderModule.Render.GetQueueDistinct | src/Modules/Render.cpp:70-87 | Different selectors name different queues, all ordered by the renderer's key, so a push onto one queue never shows up in another. |
| RenderModule.Render.Loop | src/Modules/Render.cpp:96-120 | Afterwards all three queues are empty. Each queue was drained pop by pop, always taking a top-ranked item. The trace gains Clear, then the blits of the whole game queue, then the UI queue, then the debug queue, then SetDrawColor(r, g, g, a) and Present, so every item of an earlier queue is drawn before any item of a later one. The counter equals the number of counted draws of that frame's blits. |
| RenderModule.Render.DrainAll | src/Modules/Render.cpp:103-115 | The selector loop drains GetQueue(0), GetQueue(1), GetQueue(2) in that order. Each ends empty, and the trace is their drain traces one after another. |
| RenderModule.Render.DrainSelector | src/Modules/Render.cpp:105-114 | One pass of the selector loop moves its state from selector i to i + 1. The selected queue is emptied in a top-first order, and no other queue changes. |
| RenderModule.DrainedStep | src/Modules/Render.cpp:105-114 | Emptying queue i in a top-first order and appending its drain trace takes the selector loop's state from i to i + 1. Queues drained before stay drained, and later queues stay untouched. |
| RenderModule.Emptied | src/Modules/Render.cpp:107-114 | Draining a queue empties that queue and leaves the other two as they were. |
| RenderModule.Render.DrainQueue | src/Modules/Render.cpp:107-114 | While the queue is non-empty: take top(), pop it, blit it. The queue ends empty. The items come out in an order where each was top-ranked among those remaining, and the trace is their blits in that order. |
| RenderModule.QueueTracesSnoc | src/Modules/Render.cpp:103-115 | Draining one more queue appends its drain trace to the frame's trace. |
| RenderModule.QueueTracesOfThree | src/Modules/Render.cpp:103-115 | The frame's trace over the three selectors is the three drain traces concatenated in selector order. |
| RenderModule.Render.CountDrawCall | src/Modules/Render.cpp:187-195 | Adds exactly one to the counter. |
| RenderModule.Render.GetDrawCallsLastFrame | src/Modules/Render.cpp:177-185 | Returns the counter, which after Loop holds the draws of that frame. |
| RenderModule.Render.Issue | src/Modules/Render.cpp:321-322 | A backend call is appended to the trace, and the counter grows by one exactly when it is a counted draw (CountDrawCall precedes every copy and rectangle). |
| RenderModule.Render.RenderTexture | src/Modules/Render.cpp:197-220 | If the texture id resolves to null, no queue changes. Otherwise exactly one texture item is pushed onto the chosen queue, with the resolved texture, rectangle, position, centre, angle, parallax and depth. It ignores the camera exactly when the queue is the UI queue, and the other queues are unchanged. |
| RenderModule.Render.RenderAnimation | src/Modules/Render.cpp:222-225 | The same as RenderTexture with the animation's texture and its current frame's rectangle. |
| RenderModule.Render.RenderText | src/Modules/Render.cpp:227-253 | A missing font, or a font whose texture resolves to null, leaves every queue unchanged. Otherwise one text item is pushed onto the chosen queue. It ignores the camera when the queue is the UI queue or the caller asks. |
| RenderModule.Render.RenderRect | src/Modules/Render.cpp:255-270 | Always pushes exactly one rectangle item onto the chosen queue. It ignores the camera when the queue is UI or the caller asks, and the other queues are unchanged. |
| RenderModule.Render.RenderTrail | src/Modules/Render.cpp:272-293 | Copies exactly the first `amount` points into a new buffer. It pushes one trail item with those points and colour (r, g, b, 255) onto the chosen queue. It ignores the camera when the queue is UI or the caller asks. |
| RenderModule.Render.RenderMapLayer | src/Modules/Render.cpp:123-134 | If the tileset's texture resolves to null, nothing is queued. Otherwise one layer item at the layer's depth is pushed onto the game queue, always that one, and the other queues are unchanged. |
| RenderModule.Render.RenderParticleEmitter | src/Modules/Render.cpp:136-147 | If the emitter's texture resolves to null, nothing is queued. Otherwise one particles item at the emitter's depth is pushed onto the chosen queue. |
| RenderModule.Render.RenderMapBackground | src/Modules/Render.cpp:150-161 | If the texture resolves to null, nothing is queued. Otherwise one background item is pushed onto the game queue. |
| RenderModule.Render.Blit | src/Modules/Render.cpp:112 | Blitting an item appends exactly that item's specified backend calls and counts its counted draws. |
| RenderModule.Render.BlitTexture | src/Modules/Render.cpp:295-329 | One counted copy of the image rectangle to its destination, or nothing when the camera rejects the destination. |
| BlitSpec.TextureCountedIffOnScreen | src/Modules/Render.cpp:318-321 | A texture item counts one draw exactly when its destination is on screen. |
| RenderModule.Render.BlitLayer | src/Modules/Render.cpp:331-372 | The trace gains the calls of every cell of the grid, in row-major order. |
| RenderModule.Render.BlitRow | src/Modules/Render.cpp:343-369 | The inner loop emits the calls of cells (0, y) .. (width-1, y) in order. |
| RenderModule.Render.BlitCell | src/Modules/Render.cpp:345-368 | Cell (x, y) is copied from the tileset rectangle of tile data[y*width + x], counted, unless the camera rejects its destination. |
| Tiles.CellIndexInRange | src/Modules/Render.cpp:345 | For a cell inside the grid, the index y*width + x lies within the layer's tile data. |
| Tiles.RowMajorVisitsEachIndexInOrder | src/Modules/Render.cpp:341-345 | The nested loop visits width*height cells, each inside the grid, and the k-th visited cell has data index k. |
| BlitSpec.CellsTraceAppend | src/Modules/Render.cpp:341-370 | Walking one run of cells after another issues the first run's calls, then the second's. |
| BlitSpec.CellsSnoc | src/Modules/Render.cpp:343-369 | Visiting one more in-grid cell appends exactly that cell's calls. |
| BlitSpec.CellsDrawCallsBound | src/Modules/Render.cpp:359-362 | A layer issues only counted draws, at most one per visited cell. |
| Tiles.GetImageRectFromId | src/Modules/Render.cpp:374-384 | The tile rectangle has the tileset's tile width and height; its corner is (tile_width * (id % columns), tile_height * (id / columns)) with C++ truncating division. |
| Tiles.CDivMod | src/Modules/Render.cpp:380-381 | C++ `/` and `%` reassemble the dividend. The remainder has the dividend's sign and is smaller than the divisor, and both agree with Euclidean division on non-negative ids. |
| Tiles.TileRectRecoversId | src/Modules/Render.cpp:374-384 | For a non-negative id, the rectangle lies in column id % columns and row id / columns, so the id can be read back from it. |
| Tiles.TileRectsDistinct | src/Modules/Render.cpp:374-384 | Distinct non-negative tile ids get distinct source rectangles. |
| RenderModule.Render.BlitBackground | src/Modules/Render.cpp:386-469 | The trace gains the copies of all tile columns, each with its rows, with no camera test. |
| RenderModule.Render.BlitBackgroundColumn | src/Modules/Render.cpp:434-467 | One column draws one counted copy per row. When the background does not repeat vertically, it breaks after the first row. |
| BlitSpec.BackgroundColumnCount | src/Modules/Render.cpp:434-467 | A column of n tiles counts n draws. |
| BlitSpec.BackgroundDrawCalls | src/Modules/Render.cpp:432-468 | A background counts columns times rows draws, with a single row when it does not repeat vertically. |
| RenderModule.Render.BlitRect | src/Modules/Render.cpp:471-508 | Sets the blend mode only when the camera test fails, then always sets the colour and draws the filled or outlined rectangle, counted. |
| BlitSpec.RectAlwaysCounted | src/Modules/Render.cpp:491-500 | A rectangle counts exactly one draw whatever the camera says. The blend-mode call appears exactly when the camera test fails. |
| RenderModule.Render.BlitTrail | src/Modules/Render.cpp:510-535 | Unless the item ignores the camera, each point is shifted in place by the floating-point camera offset and truncated back to int. Then the blend mode, the colour with alpha 255 and one polyline of all the points are issued. |
| BlitSpec.ShiftedTruncatesEachPoint | src/Modules/Render.cpp:516-520 | Shifting keeps every point. Each coordinate ends within one unit of its exact sum with the floating-point offset, between that sum and zero, because `int += float` truncates each point separately. A whole-number offset moves every point by exactly that much. |
| BlitSpec.HalfOffsetIsNoTranslation | src/Modules/Render.cpp:516-520 | An offset of 0.5 moves x = -3 to -2 but leaves x = 3 where it is, so the shift is not a translation by any whole number. |
| RenderTypes.TruncateToIntTowardZero | src/Modules/Render.cpp:518-519 | Converting a float to int gives the whole number next to it on the side of zero, and a whole number converts to itself. |
| BlitSpec.TrailNeverCounted | src/Modules/Render.cpp:523-525 | A trail counts no draw call, yet always draws a polyline of as many points as it holds. |
| RenderModule.Render.BlitParticles | src/Modules/Render.cpp:537-574 | The trace gains the calls of every particle slot in slot order. |
| BlitSpec.ParticlesCountLiveOnScreen | src/Modules/Render.cpp:543-566 | An emitter issues one counted copy per slot that holds a particle the camera accepts, and no other call. Empty slots and culled particles cost nothing. |
| RenderModule.Render.BlitParticle | src/Modules/Render.cpp:543-572 | An empty slot draws nothing. A live particle is copied from its texture area at its angle, counted, unless the camera rejects it. |
| RenderModule.Render.BlitText | src/Modules/Render.cpp:587-627 | The trace gains one counted copy for each laid-out glyph of the text that the camera accepts, in text order, each at its laid-out place. |
| RenderModule.Render.BlitByte | src/Modules/Render.cpp:598-625 | One loop pass moves the cursor by Step and draws the byte's glyph at the old cursor if it is a glyph the camera accepts. |
| RenderModule.Render.BlitGlyph | src/Modules/Render.cpp:614-619 | A glyph is copied and counted exactly when its destination is on screen. |
| RenderModule.LineStepIsExact | src/Modules/Render.cpp:600 | `yLevel += size * 1.5` truncated back to an int adds exactly size + size / 2 for a non-negative yLevel. |
| BlitSpec.TextCopiesSnoc | src/Modules/Render.cpp:596-626 | One more byte moves the cursor by one Step and appends only that byte's copies. |
| BlitSpec.TextCopiesAreVisibleLayout | src/Modules/Render.cpp:596-626 | Drawing byte by byte is the same as laying the whole text out and keeping the glyphs the camera accepts. |
| BlitSpec.VisibleCopiesSnoc | src/Modules/Render.cpp:614-619 | One more placement adds its copy exactly when its destination is on screen. |
| BlitSpec.VisibleCopiesAreFiltered | src/Modules/Render.cpp:614-619 | Culling only drops glyphs. Every copy drawn is a laid-out placement on screen, each counts one draw, and there are no more copies than placements. |
| TextLayout.LayoutSnoc | src/Modules/Render.cpp:596-612 | One more byte appends at most its own glyph, placed at the cursor reached before it, and moves the cursor by one Step. |
| TextLayout.LayoutPlacesEachGlyph | src/Modules/Render.cpp:607-612 | Glyph byte k is placed at (x + advance, y + line) of the cursor after the first k bytes, with its own rectangle from the font. Culled glyphs still advance later ones. |
| TextLayout.LayoutLength | src/Modules/Render.cpp:607-612 | The layout has one placement per glyph byte. |
| TextLayout.LineOffsetCountsNewlines | src/Modules/Render.cpp:598-602 | The line offset is the number of newlines so far times size + size / 2. |
| TextLayout.AdvanceIsLastLineWidth | src/Modules/Render.cpp:598-612 | The advance is the width of the bytes since the last newline: size / 2 per space and the glyph width per glyph. |
| TextLayout.UnmappedBytesChangeNothing | src/Modules/Render.cpp:607 | Dropping every unmapped byte changes neither the cursor nor the layout. |
| BlitSpec.DrawCallsInSnoc | src/Modules/Render.cpp:187-195 | One more backend call raises the count by one exactly when it is a counted draw. |
| BlitSpec.DrawCallsInAppend | src/Modules/Render.cpp:187-195 | The count of two traces one after the other is the sum of their counts. |
| BlitSpec.FrameTraceSnoc | src/Modules/Render.cpp:107-114 | Blitting one more item appends that item's calls. |
| BlitSpec.FrameTraceAppend | src/Modules/Render.cpp:107-114 | Blitting two runs of items one after the other gives their traces one after the other. |
| BlitQueues.BlitQueue.constructor | src/Modules/Render.cpp:17-20 | A new queue is empty and ordered by the given key. |
| BlitQueues.BlitQueue.Push | src/Modules/Render.cpp:133 | push adds exactly the item and keeps the rest. |
| BlitQueues.BlitQueue.Top | src/Modules/Render.cpp:109 | top() is an item of the queue that no queued item ranks above. |
| BlitQueues.TopIndex | src/Modules/Render.cpp:109 | The index of an item of greatest rank. |
| BlitQueues.BlitQueue.Pop | src/Modules/Render.cpp:110 | pop() removes exactly one occurrence of the item top() returned and nothing else. |
| Seqs.RemoveAtMultiset | src/Modules/Render.cpp:110 | Erasing one position removes exactly one occurrence of that element. |
| BlitQueues.DrainsExtend | src/Modules/Render.cpp:107-110 | Popping a top-ranked item of what is left extends a drain by that item. |
| BlitQueues.DrainsTakesEachOnce | src/Modules/Render.cpp:107-114 | The items drained and the items left make up the original contents, so each queued item is blitted exactly once. |
| BlitQueues.DrainsRanked | src/Modules/Render.cpp:107-110 | No item drained later, nor any item left, ranks above an item drained earlier. |
| BlitQueues.HigherRankDrainsFirst | src/Modules/Render.cpp:107-110 | Of two items of one queue, the one of strictly higher rank is blitted first, whatever order they were submitted in. |
| BlitQueues.RemoveKeepsWellFormed | src/Modules/Render.cpp:110 | Popping keeps a queue of drawable items drawable. |
| TexturesModule.Textures.constructor | src/Modules/Textures.cpp:13-16 | A new registry is empty, with the counter at 0. |
| TexturesModule.Textures.GetTexture | src/Modules/Textures.cpp:69-79 | The linear search returns the texture of the first entry with the id, or null when there is none. |
| TexturesModule.Lookup | src/Modules/Textures.cpp:69-79 | The answer is null when no entry has the id, and otherwise the texture of the first entry that has it. |
| TexturesModule.FindId | src/Modules/Textures.cpp:186-195 | The index of the first entry with the id, or the list length when there is none. |
| TexturesModule.FindName | src/Modules/Textures.cpp:117-123 | The index of the first entry with the name, or the list length when there is none. |
| TexturesModule.LookupUnique | src/Modules/Textures.cpp:69-79 | With unique ids, looking up an entry's id returns that entry's texture. |
| TexturesModule.Textures.AddTexture | src/Modules/Textures.cpp:81-88 | The counter grows by one. Exactly one entry is appended, whose id is the new counter value and which is larger than every id already present, and that id is returned. Earlier entries are unchanged, and looking the id up returns the added texture. |
| TexturesModule.FindIdAppend | src/Modules/Textures.cpp:81-88 | Appending an entry does not move an earlier match, and the new entry is found only when nothing earlier matches. |
| TexturesModule.FindNameAppend | src/Modules/Textures.cpp:117-123 | The same for lookups by name. |
| TexturesModule.LookupAppendFresh | src/Modules/Textures.cpp:81-88 | After appending an entry with a fresh id, that id answers the new texture, null included, and every other id answers as before. |
| TexturesModule.Textures.LoadTexture | src/Modules/Textures.cpp:108-154 | A path already registered returns its id and changes neither list nor counter, so loading twice is idempotent. A failed image read returns 0 and changes nothing. A successful read registers a new entry, with a null texture when texture creation failed, and returns its id. The result is 0 exactly on a failed read of a new path, and a non-zero result is the id of the first entry with that path. The counter never decreases. |
| TexturesModule.Textures.DestroyTextureByName | src/Modules/Textures.cpp:156-175 | Erases the first entry with the name and keeps the others in order. With no match the list is unchanged, and the counter is never decremented. |
| TexturesModule.Textures.DestroyTextureById | src/Modules/Textures.cpp:177-196 | Erases the first entry with the id and keeps the others in order, and the counter is unchanged. Afterwards the id looks up as null and every other id looks up as before. |
| TexturesModule.DestroyIdLookup | src/Modules/Textures.cpp:186-195 | With unique ids, erasing the entry of an id makes that id answer null and leaves every other answer unchanged. |
| TexturesModule.FindIdIsFirst | src/Modules/Textures.cpp:186-193 | A search that stops at a match, or at the end after passing only non-matches, stops where FindId says. |
| TexturesModule.RemoveKeepsIncreasing | src/Modules/Textures.cpp:170 | Erasing an entry keeps ids strictly increasing along the list, so ids stay unique. |
| TexturesModule.RemoveKeepsIssued | src/Modules/Textures.cpp:170 | Erasing an entry keeps every id one the counter has issued. |
| Seqs.RemoveAt | src/Modules/Textures.cpp:170 | vector::erase at one position: the elements before it stay, the ones after it shift down by one, and an index past the end erases nothing. |
| TexturesModule.Textures.CleanUp | src/Modules/Textures.cpp:91-102 | The list is empty afterwards, the counter keeps its value (so later ids stay fresh), and the result is true. |

## Left out

- SDL and SDL_image themselves (renderer creation, the actual drawing, `IMG_Load`, `SDL_CreateTextureFromSurface`, `SDL_QueryTexture`): foreign calls. Drawing is a trace of calls, and an image read is an `ImageLoad` outcome supplied by the caller.
- Error logging after a failed backend call, and the `dynamic_cast` lookups with their logging branches: the model's backend calls do not fail, and the implementation object is always present.
- `delete` of each blitted item and of the trail's point buffer: memory management with no observable effect in the model.
- The floating-point placement of every draw except the trail's points and the text's glyphs (window scale, camera offsets, parallax, the particle scale and centring): floating point. A glyph's destination is computed exactly, as `x + length_so_far, y + yLevel` with the glyph's size. `Env.place` supplies every other destination rectangle, so the model fixes which draws happen, in what order and from which source rectangle, but not where they land.
- The background's tile search (the two `while` loops over floating-point camera positions) and the floating-point count of tiles that fit in the camera: `Env.backgroundTiles` supplies the number of columns and rows. Those loops need not terminate for some camera positions, and that is not modelled.
- The queues' `Comparer`: its definition is not part of this model. A key function over depth stands for it, and the heap's order among items of equal key is not modelled.
- RenderModule.Render.BlitTexture: the `Copy` event does not record the rotation centre (`center_x`, `center_y`) passed to `SDL_RenderCopyEx`.
- Layers, particle emitters and text fonts are held by value in the items, where the source keeps pointers and reads through them at drain time. Changes an emitter makes to its particles between submission and drain are visible only through `Env.particles` at drain time. A change to a font between submission and drain is not modelled.
- `BlitItemText::Blit`'s null-font check: `RenderText` never queues an item without a font, so an item always carries one.
- Fonts and `Text::GetFont` are not part of this model: the font lookup is a function from font ids to an optional font.
- The conversion of the configured background colour (read as floats by `LoadConfig`) to channel values: `Render.background` holds the converted channels.
- `LoadConfig`, `CreateConfig`, `Init`, `CleanUp` of the Render module, `GetSDL_Renderer`, and the recursive PNG scan of the Textures module: configuration, I/O and plumbing. src/Modules/WindowImpl.h holds only declarations.
- The counter's starting value and `ignore_camera`'s default are declared in headers that are not part of this model. The model starts `number_of_textures` at 0 and gives layer, particle and background items `ignore_camera == false`.
- The counter counts every `CountDrawCall` made just before a copy or a rectangle, whether or not the backend call then fails. The model's backend calls do not fail, so each counted call is also drawn.
- A rectangle is counted and drawn whatever the camera says; the camera test only decides whether the blend mode is set first (src/Modules/Render.cpp:492-499).
- A background that does not repeat vertically draws the first row of each column and then leaves the inner loop (src/Modules/Render.cpp:463-466).
- RenderModule.Render.RenderMapLayer: a layer whose texture resolves must be well formed (positive `columns`, tile data covering the grid), because its blit divides by `columns` and reads `data[y * width + x]` for every cell the camera accepts. A layer whose texture does not resolve is accepted as it is, since nothing is queued.
- RenderModule.Render.RenderTrail: a negative `amount` is excluded. The source's `new SDL_Point[amount]` throws `std::bad_array_new_length` for it, and exceptions are not modelled. An `amount` above the array's length reads past the caller's buffer in the source and is excluded too.
- TexturesModule.Textures.AddTexture: `number_of_textures` is an unbounded integer in the model, so the counter never wraps around. In the source it is a fixed-width C++ integer, and after a wrap an issued id could be 0 or could repeat an id still present. The promises that a new id is fresh, larger than every present id and never 0 hold only until then.
- RenderModule.Render.BlitTrail: the camera offsets are exact reals, where the source adds single-precision floats. Each coordinate is truncated toward zero, as `int += float` does, but float rounding of the sum is not modelled.
- RenderModule.Render.GetDrawCallsLastFrame: returns the field. What it means for a frame is stated by `Loop`'s contract.
