# Real-time 3D text renderer: a Dafny model

This project models the core of a React + Three.js demo that renders a
stream of text as extruded 3D glyphs, one mesh per non-space character, lifts them in a
travelling wave, reports the text's rotation after the user drags it, and
feeds it text from a WebSocket or from a timer-driven mock.

Modules:

- `GlyphLayout` (`glyph_layout.dfy`): the two loops of the text-update effect
  as functions. `Stage` is the staging list (one placeholder per space, one
  extrusion per measured glyph), `TotalWidth` the summed advances, `Place`
  the meshes the second loop creates, `Layout` the whole update. Lemmas
  prove the centring, the one-mesh-per-glyph correspondence, the space
  advance and what a missing bounding box does.
- `Wave` (`wave.dfy`): the per-frame wave displacement and its profile.
- `SceneLog` (`scene_log.dfy`): the scene's glyph meshes as a log of add and
  release events, with the multiset of live meshes it leaves.
- `TextRenderer` (`text_renderer.dfy`): the component's refs and state as the
  class `Renderer`: the set-up effect, the font-load callback, the
  text-update effect, one animation frame, and the orbit controller's
  `start`/`end` handlers. Its invariant `Valid` says the scene holds exactly
  the current meshes, each once: an update never leaves old meshes behind.
- `RealtimeConnection` (`realtime_connection.dfy`): the WebSocket message
  decoder, error reporter and cleanup (class `TextStream`), and the mock
  stream (class `MockTextStream`).
- `Arith` and `Wrappers`: remainder facts and the `Option` type.

Modelling choices:

- Numbers are Dafny `real`s, not IEEE doubles. Rounding is not modelled.
- `Date.now()` is an input, `nowMs`, a whole number of milliseconds. The
  cycle position `(nowMs * 0.001) % (n * 0.1)` is computed as
  `(nowMs % (n * 100)) / 1000`, which is the same value for a non-negative
  clock.
- Glyph extrusion belongs to the geometry library. Its only result the layout
  reads is the bounding box, so the text-update effect takes one optional box
  per character. A missing box is `None`.
- A mesh carries an `id` standing for its object identity. Adding a mesh to
  the scene and removing and disposing it are `Added(id)` and `Released(id)`
  events in `Renderer.sceneLog`.
- `JSON.parse` is a parameter of the decoder, a function from the frame text
  to a JSON value or a parse error. A binary frame is never handed to the
  callback: its string form (`[object Blob]`) never parses, and it is not a
  string.
- The mock's `index` is `Option<nat>`, with `None` standing for the NaN that
  `(index + 1) % 0` produces when the message list is empty.
- A frame that parses but has no string `text` field delivers nothing
  (`realtimeConnection.ts`, lines 29-32); only a parse error falls back to
  the raw frame (`ParsedWithoutTextDeliversNothing`).

## Model

| member | source | states |
|---|---|---|
| `GlyphLayout.Stage` | src/components/three/TextRenderer.tsx:240-269 | the staging list has at most one entry per character |
| `GlyphLayout.TotalWidth` | src/components/three/TextRenderer.tsx:235-269 | the sum of the advances of the characters: fontSize*0.5 for a space, box width + fontSize*0.05 for a measured glyph, nothing for a glyph without a box |
| `GlyphLayout.Step` | src/components/three/TextRenderer.tsx:275-297 | the cursor advance past staged entry i: its width, plus fontSize*0.05 unless the character at position i of the text is a space |
| `GlyphLayout.Cursor` | src/components/three/TextRenderer.tsx:272-297 | the cursor offset after the first n staged entries: the sum of their steps |
| `GlyphLayout.Place` | src/components/three/TextRenderer.tsx:274-301 | the second loop creates at most one mesh per staged entry |
| `GlyphLayout.Layout` | src/components/three/TextRenderer.tsx:235-301 | the meshes of one update: the second loop run over the staging list from -totalWidth/2 |
| `GlyphLayout.PlaceShape` | src/components/three/TextRenderer.tsx:274-301 | every placed mesh has the style's y, z, colour and rotation, rests at the style's y, points at a non-space character, identities are handed out consecutively, and indices increase strictly |
| `GlyphLayout.LayoutShape` | src/components/three/TextRenderer.tsx:212-301 | for any bounding boxes, the meshes of an update have the shape above over the whole text |
| `GlyphLayout.StageAligned` | src/components/three/TextRenderer.tsx:242-269 | with every box present, staging entry i is the half-size placeholder for a space and the extrusion with its box width otherwise |
| `GlyphLayout.CursorIsPrefixWidth` | src/components/three/TextRenderer.tsx:272-299 | with every box present, the cursor after n entries has moved by the total width of the first n characters |
| `GlyphLayout.LayoutCentred` | src/components/three/TextRenderer.tsx:272 | with every box present, the cursor starts at -totalWidth/2 and ends at +totalWidth/2: the line is centred on the style's x |
| `GlyphLayout.PlaceFollowsGlyphs` | src/components/three/TextRenderer.tsx:274-301 | with every box present, the meshes over the first n entries are one per non-space character among the first n characters, in order, each with its glyph and its x position |
| `GlyphLayout.LayoutOnePerGlyph` | src/components/three/TextRenderer.tsx:222-301 | with every box present, an update makes exactly one mesh per non-space character, in text order, with its text position as index, its glyph, and x = -total/2 + width of the preceding text + style x |
| `GlyphLayout.SpaceAdvancesHalfSize` | src/components/three/TextRenderer.tsx:244-248 | with every box present, a space adds fontSize*0.5 to the total width and to the cursor, and gets no mesh |
| `GlyphLayout.NoSpacesOneMeshPerChar` | src/components/three/TextRenderer.tsx:240-301 | a fully measured text without spaces gets exactly one mesh per character |
| `GlyphLayout.MissingBoxMisaligns` | src/components/three/TextRenderer.tsx:260-269 | when a glyph has no box, staging entries and text positions fall out of step: for "a b" with no box for 'a', the space's placeholder becomes a mesh and 'b' gets none |
| `Wave.CycleTime` | src/components/three/TextRenderer.tsx:164-166 | the cycle position lies in [0, n*0.1) |
| `Wave.CycleRepeats` | src/components/three/TextRenderer.tsx:164-166 | the cycle position repeats every n*0.1 seconds |
| `Wave.Triangle` | src/components/three/TextRenderer.tsx:183-189 | the profile maps [0, 1] into [0, 1], reaches 1 exactly at 0.5, and is 2p on the rising half |
| `Wave.WaveY` | src/components/three/TextRenderer.tsx:172-197 | a mesh's height: originalY + fontSize*2*Triangle(progress) inside its window, originalY outside |
| `Wave.Lift` | src/components/three/TextRenderer.tsx:193-197 | the mesh with only its y position set to its wave height |
| `Wave.InsideWindow` | src/components/three/TextRenderer.tsx:172-193 | inside its window a mesh sits at originalY + fontSize*2*p with p in [0, 1] |
| `Wave.PeakAtMidpoint` | src/components/three/TextRenderer.tsx:180-193 | at the middle of its window a mesh is fontSize*2 above rest |
| `Wave.RestsOutsideWindow` | src/components/three/TextRenderer.tsx:194-197 | outside its window a mesh is at its resting height |
| `Wave.WindowsOverlapOnlyNeighbours` | src/components/three/TextRenderer.tsx:172-178 | two meshes raised at the same time are neighbours |
| `Wave.LastMeshOnlyRises` | src/components/three/TextRenderer.tsx:165-189 | the last mesh's window is cut by the end of the cycle: it never gets past the rising half nor reaches its peak |
| `SceneLog.Live` | src/components/three/TextRenderer.tsx:223-300 | the glyph meshes in the scene after a log: each add puts an identity in, each remove-and-dispose takes it out |
| `SceneLog.LiveAfterAdditions` | src/components/three/TextRenderer.tsx:299-300 | adding meshes adds their identities to the live multiset |
| `SceneLog.LiveAfterReleases` | src/components/three/TextRenderer.tsx:223-232 | releasing meshes removes their identities from the live multiset |
| `SceneLog.ReplaceLeavesOnlyNew` | src/components/three/TextRenderer.tsx:223-301 | releasing every old mesh and adding the new ones leaves exactly the new meshes in the scene |
| `TextRenderer.Renderer.constructor` | src/components/three/TextRenderer.tsx:29-41 | first render: no scene, loading, no meshes, the rotation ref holds the rotation prop |
| `TextRenderer.Renderer.SetUp` | src/components/three/TextRenderer.tsx:44-144 | the set-up effect creates the scene and controller once and does nothing afterwards |
| `TextRenderer.Renderer.FontLoaded` | src/components/three/TextRenderer.tsx:83-86 | the font-load callback stores the font and ends loading |
| `TextRenderer.Renderer.UpdateText` | src/components/three/TextRenderer.tsx:212-307 | not ready: nothing changes; ready: the meshes become `Layout` of the text, the log records every old mesh released then every new one added, the controller targets the style position, and the scene holds exactly the new meshes |
| `TextRenderer.Renderer.Rebuild` | src/components/three/TextRenderer.tsx:222-307 | the body of the update once its guards pass, with the same new state |
| `TextRenderer.Renderer.ReleaseMeshes` | src/components/three/TextRenderer.tsx:223-233 | every old mesh is released in order and the list is emptied |
| `TextRenderer.ReleaseEach` | src/components/three/TextRenderer.tsx:223-231 | the release loop releases every old mesh once, in list order |
| `TextRenderer.Renderer.AddMeshes` | src/components/three/TextRenderer.tsx:272-301 | the meshes become `Place` of the staging list and each is added to the scene once |
| `TextRenderer.PlaceMeshes` | src/components/three/TextRenderer.tsx:272-301 | the loop's meshes equal `Place` over the whole staging list, and its add events name them in order |
| `TextRenderer.StageText` | src/components/three/TextRenderer.tsx:235-269 | the loop's staging list and total width equal `Stage` and `TotalWidth` |
| `TextRenderer.Renderer.Animate` | src/components/three/TextRenderer.tsx:163-199 | with the wave on, mesh i moves to its wave height for this frame's cycle position and nothing else changes; with it off, nothing moves |
| `TextRenderer.Renderer.DragStart` | src/components/three/TextRenderer.tsx:115 | dragging starts |
| `TextRenderer.Renderer.DragEnd` | src/components/three/TextRenderer.tsx:118-142 | dragging stops; the report `RotationReport` decides is made and remembered, and nothing else is reported |
| `TextRenderer.RotationReport` | src/components/three/TextRenderer.tsx:122-141 | the report a drag end makes: the first mesh's rotation when there is a mesh, a callback and some component differs from the last report, otherwise none |
| `TextRenderer.ReportNotRepeated` | src/components/three/TextRenderer.tsx:122-141 | a report is made only for a rotation that differs from the last one, and the same rotation is never reported twice in a row; no report means no mesh, no callback, or an equal rotation |
| `TextRenderer.ReportIsStyleRotation` | src/components/three/TextRenderer.tsx:122-141 | after a text update, whatever the bounding boxes, a drag end reports the rotation given with that update, exactly when there is a mesh, a callback, and that rotation differs from the last report |
| `RealtimeConnection.OnMessage` | src/components/three/utils/realtimeConnection.ts:26-40 | at most one text per frame; one exactly when the frame is text that fails to parse or parses to a value with a string `text`; what is delivered is that field or the raw frame |
| `RealtimeConnection.TextField` | src/components/three/utils/realtimeConnection.ts:30 | the parsed value's `text` property when the value is truthy and the property is a string, otherwise nothing |
| `RealtimeConnection.GuardOnlyExcludesFalsy` | src/components/three/utils/realtimeConnection.ts:30 | the truthiness guard never changes which text is read |
| `RealtimeConnection.TextFieldDelivered` | src/components/three/utils/realtimeConnection.ts:29-31 | an object with a string `text` delivers that text |
| `RealtimeConnection.ParsedWithoutTextDeliversNothing` | src/components/three/utils/realtimeConnection.ts:29-32 | valid JSON without a string `text` delivers nothing |
| `RealtimeConnection.UnparsableTextDeliveredRaw` | src/components/three/utils/realtimeConnection.ts:33-38 | a text frame that does not parse is delivered verbatim |
| `RealtimeConnection.StringLiteralDeliversNothing` | src/components/three/utils/realtimeConnection.ts:29-32 | a frame that is a JSON string literal delivers nothing |
| `RealtimeConnection.AfterCleanup` | src/components/three/utils/realtimeConnection.ts:56-60 | the cleanup closes the socket exactly when it is open, and never leaves it open |
| `RealtimeConnection.CleanupIdempotent` | src/components/three/utils/realtimeConnection.ts:56-60 | a second cleanup changes nothing |
| `RealtimeConnection.CleanupWhileConnectingKeepsSocket` | src/components/three/utils/realtimeConnection.ts:57 | a socket still connecting is not closed by the cleanup |
| `RealtimeConnection.TextStream.constructor` | src/components/three/utils/realtimeConnection.ts:18 | a new socket is connecting and nothing was received |
| `RealtimeConnection.TextStream.HandleOpen` | src/components/three/utils/realtimeConnection.ts:21-23 | the open event makes a connecting socket open |
| `RealtimeConnection.TextStream.HandleClose` | src/components/three/utils/realtimeConnection.ts:51-53 | the close event leaves the socket closed |
| `RealtimeConnection.TextStream.HandleMessage` | src/components/three/utils/realtimeConnection.ts:26-40 | the message callback receives exactly what `OnMessage` delivers |
| `RealtimeConnection.TextStream.HandleError` | src/components/three/utils/realtimeConnection.ts:43-47 | the error callback receives the error if and only if it was supplied |
| `RealtimeConnection.TextStream.Cleanup` | src/components/three/utils/realtimeConnection.ts:56-60 | the socket state becomes `AfterCleanup` of the old one |
| `RealtimeConnection.Delivery` | src/components/three/utils/realtimeConnection.ts:78-82 | the k-th tick delivers a member of the list, and `undefined` exactly when the list is empty |
| `RealtimeConnection.NextIndex` | src/components/three/utils/realtimeConnection.ts:81 | the index stays in range for a non-empty list and becomes NaN for an empty one |
| `RealtimeConnection.IndexTracksTicks` | src/components/three/utils/realtimeConnection.ts:80-81 | stepping the index from k mod n gives (k + 1) mod n |
| `RealtimeConnection.DeliveryPeriodic` | src/components/three/utils/realtimeConnection.ts:78-82 | deliveries repeat with the length of the list |
| `RealtimeConnection.DefaultMessagesCycle` | src/components/three/utils/realtimeConnection.ts:67-85 | a mock stream started with the default list and ticked six times delivers the five messages in order and then the first one again |
| `RealtimeConnection.MockTextStream.constructor` | src/components/three/utils/realtimeConnection.ts:67-79 | the mock starts with index 0 and the interval running |
| `RealtimeConnection.MockTextStream.Tick` | src/components/three/utils/realtimeConnection.ts:79-82 | a running tick appends the k-th delivery and keeps the index pointing at the next one; a cleared interval does not tick |
| `RealtimeConnection.MockTextStream.Stop` | src/components/three/utils/realtimeConnection.ts:84 | the cleanup clears the interval |

## Left out

- Scene, camera, renderer, lights and controller construction (field of
  view, sizes, colours, damping): they configure the graphics library.
- The set-up effect's teardown (`TextRenderer.tsx`, lines 146-159) is not
  modelled: the model covers one mounted lifetime. That teardown calls
  `scene.clear()`, which takes every glyph mesh out of the scene while the
  mesh list still holds them, and disposes the controller and the renderer
  while the scene and controller refs stay set. A second run of the set-up
  effect (a remount, or a new background colour) then returns at the guard
  on line 45 and rebuilds nothing.
- The resize handler: it only resizes the camera and the canvas.
- Text extrusion itself (`TextGeometry`): its bounding box is an input.
- `maxHeight`: computed by the staging loop and never read.
- Materials and their disposal: a release event stands for removing the mesh
  and disposing its geometry and material.
- Rendering, `controls.update()`, and the scheduling and cancelling of
  animation frames: they draw, they do not change the modelled state.
- Damped camera motion: the orbit controller rotates the camera, not the
  meshes, so the first mesh's rotation only changes through a text update.
- Floating point: rounding and NaN are not modelled, except the mock's NaN
  index. With no meshes the animation frame does nothing, as with the NaN
  cycle time of the source.
- `Renderer.Animate`: the clock is taken in whole milliseconds, as
  `Date.now()` returns it.
- `Array.from` splits a string into code points; the model's text is a
  sequence of characters.
- Exceptions thrown by the callbacks (a message callback that throws inside
  the `try` would make the handler deliver the raw frame as well).
- Console logging in the socket handlers.
- The interval period (3000 ms by default) and the timing of ticks;
  `MockTextStream.interval` is kept but time is not modelled.
- The demo page and the composition components that use the renderer.
