# day-13: a verified model of the tunnel demo's logic

The demo is a three.js scene. A cube, a small sphere and a particle field
travel down a corridor of decoration rings, followed by the camera. Clicking
cycles through a palette of themes. A webcam side detects hands and faces on
each new video frame. This project models the logic behind that and proves
its properties. Five pieces are covered:

- **Per-frame travel step** (`Travel`, `Geometry`, `Scene.Scene.Tick`).
  - The step is `max(magnitude / 20, 0.01)`.
  - Camera, cube, sphere and particles all advance by the step along
    (0, 0, -1).
  - The sphere's x and y follow the pointer, clamped to ±0.17.
- **Ring corridor** (`Corridor`, `Scene.BuildRings`,
  `Scene.Scene.RecycleLeadRing`).
  - The corridor has ten rings, built at z = -1, -3, …, -19.
  - Each frame, once the lead ring is behind the camera, it moves to the
    back of the queue. Its new position is one spacing beyond the old last
    ring.
  - The ring objects are a `seq<Ring>` field. The recycle step rotates that
    sequence and writes only the moved ring's position.
- **Pointer normalisation** (`Pointer`, `Scene.Scene.OnPointerMove`).
  - The mouse position, or the first touch point, is mapped into [-1, 1]
    normalized device coordinates.
- **Theme switcher** (`Themes`, `Scene.Scene.OnMouseClick`,
  `Scene.Scene.ChangeTexture`).
  - The four-entry palette is `textureData`. `changeTexture` rewrites the
    cube's maps and the sphere from one entry.
  - The click handler applies the entry at the current index, then advances
    the index cyclically.
- **Webcam side** (`Tracking`).
  - The `lastVideoTime` gate runs the detectors at most once per video time.
  - The "contain" fit of `makeVideoFullScreen` sizes the live view to the
    window.

The mutable module-level state of `src/script.js` is the class
`Scene.Scene`. Its invariant `Valid()` holds three things:

- ten distinct rings, evenly spaced;
- cube, sphere and particles three units ahead of the camera;
- a palette index in range.

Every handler is proved against a value-level function. The lemmas are
proved about those functions:

- `Travel.Displacement` and `Travel.Clamp`;
- `Corridor.Recycle`;
- `Pointer.Normalize`;
- `Themes.ChangeTexture`, `Themes.ApplyTheme` and `Themes.Click`;
- `Tracking.Poll`.

Positions and sizes are `real`.

Three points on how the code is read:

- **The click applies the current entry, then advances the index.** The
  click handler reads `textureData[currentTextureIndex]` before incrementing
  the index (src/script.js:335-336). So the first click applies entry 0,
  not entry 1. The model follows the code. `Themes.NthClickApplies` states
  the consequence: click n applies entry (n - 1) mod 4.
- **An empty `alphaPath` counts as absent.** The entry test
  `if (texture.alphaPath)` treats an empty string as false.
- **A touch event without touch points leaves the pointer unchanged.** The
  handler throws at `event.touches[0].clientX`, before it writes anything.

## Model

| member | source | states |
|---|---|---|
| Geometry.Advance | src/script.js:87 | moving a point by s along the travel direction (0, 0, -1) keeps x and y and lowers z by exactly s |
| Travel.Displacement | src/script.js:417 | the step is at least 0.01 and at least magnitude / 20, and it equals one of the two (so it is their maximum) |
| Travel.DisplacementMonotone | src/script.js:417 | a larger pointer magnitude never gives a smaller step |
| Travel.DisplacementPositive | src/script.js:417 | the step is always strictly positive, so the camera always moves forward |
| Travel.DisplacementAtRestAndAtUnit | src/script.js:396-417 | with the pointer at (0, 0) the step is 0.01; at (1, 0) it is 0.05 |
| Travel.DisplacementBoundedOnScreen | src/script.js:396-417 | for a pointer in [-1, 1]², the magnitude is below 1.5 and the step is at most 0.075 |
| Travel.Clamp | src/script.js:401-403 | the sphere offset always lies in [-0.17, 0.17]; inside the band it equals the pointer coordinate, and outside it is the nearer edge |
| Corridor.StartPositions | src/script.js:147-181 | exactly ten ring positions; ring i is at (0, 0, -1 - 2i) |
| Corridor.StartPositionsSpaced | src/script.js:156-181 | the built layout is evenly spaced with step 2 along the direction, starting at the direction vector, with no duplicates |
| Corridor.SpacedConsecutive | src/script.js:178 | in an evenly spaced layout, each ring is the previous one advanced by one spacing |
| Corridor.SpacedHasNoDuplicates | src/script.js:156-181 | an evenly spaced layout has no two rings at the same position |
| Corridor.Recycle | src/script.js:423-430 | when the lead ring's z exceeds the camera's z, the lead leaves the front and is placed one spacing beyond the old last ring; otherwise the layout is unchanged; the number of rings is kept |
| Corridor.RecyclePreservesSpacing | src/script.js:423-430 | a recycle keeps the layout evenly spaced with no duplicates; when it fires, the new front is the old front advanced one spacing, and the moved ring is the farthest |
| Corridor.SingleRecycleSuffices | src/script.js:417-430 | if at most the lead ring was behind the camera (by at most a spacing) and the camera moves by at most a spacing, then after one recycle the same holds and every other ring is ahead of the camera |
| Pointer.ClientPoint | src/script.js:277-283 | a mouse event yields its client position; a touch event yields its first touch point, and nothing when it has no touches |
| Pointer.Normalize | src/script.js:278-283 | client x in [0, width] iff x in [-1, 1], and the same for y; left edge → -1, right → 1, top → +1, bottom → -1 |
| Pointer.NormalizeRoundTrip | src/script.js:278-283 | normalisation and its inverse undo each other in both directions |
| Pointer.MouseAndTouchAgree | src/script.js:277-283 | a mouse event and a touch event whose first touch is at the same position give the same pointer |
| Themes.ChangeTexture | src/script.js:348-361 | the alpha map is cleared and the sphere hidden first; the sphere ends visible with the entry's colour and alpha map exactly for an image with an alpha path (`HasAlpha`: the path is present and not the empty string, the truthiness test of line 353); an image sets the image map; a video sets the video map with no alpha map; other kinds keep the map; scene colours and bananas are untouched |
| Themes.ApplyTheme | src/script.js:337-341 | one applied entry sets background, fog and ring colour from the entry, shows bananas exactly when `showBananas` is set, and shows the sphere exactly for an image with an alpha path |
| Themes.ApplyThemeIdempotent | src/script.js:337-341 | applying the same entry twice is the same as applying it once |
| Themes.ApplyThemeForgets | src/script.js:337-361 | an image or video entry overwrites every visual field except the sphere colour, and overwrites that too when it shows the sphere |
| Themes.PaletteFacts | src/script.js:300-332 | the palette has four well-formed entries, each an image or a video, and only entry 1 (dice with alpha) shows the sphere |
| Themes.Click | src/script.js:334-342 | a click keeps the index in range and sets the background from the entry at the current index |
| Themes.Clicks | src/script.js:334-346 | any number of clicks keeps the index in range |
| Themes.ClicksIndex | src/script.js:336 | after n clicks the index is (start + n) modulo the palette length |
| Themes.NthClickApplies | src/script.js:334-342 | click n applies the entry n - 1 places after the start, with that entry's background, fog, ring colour, bananas and sphere visibility |
| Themes.FullCycleRoundTrip | src/script.js:336 | a full cycle (as many clicks as the palette has entries) returns the index to its start |
| Themes.ClicksCompose | src/script.js:334-342 | clicking a + b times is clicking a times, then b times |
| Themes.ClickForgets | src/script.js:334-361 | a click that applies an entry showing the sphere gives the same state whatever the visual state before it |
| Themes.ClicksConverge | src/script.js:334-361 | two click runs from the same index agree once an entry showing the sphere has been applied |
| Themes.FullCycleForgetsHistory | src/script.js:300-361 | after a full cycle the state depends only on the starting index, not on the earlier visual state |
| Themes.ClicksPeriodic | src/script.js:300-361 | from the first full cycle on, the whole theme state repeats every palette-length clicks |
| Themes.PaletteCycle | src/script.js:300-346 | for the real palette: four clicks return the index, and from the fourth click on the state repeats every four clicks |
| Scene.BuildRings | src/script.js:156-181 | the building loop creates ten distinct new rings at exactly the start positions |
| Scene.Scene.constructor | src/script.js:43-181 | the initial scene: rings built and valid, pointer (0, 1), camera at (0, 0, 3), cube, sphere and particles at the origin, theme index 0 with the video map, a visible yellow sphere, black fog and green rings |
| Scene.Scene.OnPointerMove | src/script.js:274-288 | the pointer becomes the normalized client point of the event; a touch event without touches leaves it unchanged |
| Scene.Scene.ChangeTexture | src/script.js:348-361 | the material and sphere fields become exactly `Themes.ChangeTexture` of the old ones |
| Scene.Scene.OnMouseClick | src/script.js:334-342 | the theme state becomes exactly `Themes.Click` of the old one, and the scene invariant is kept |
| Scene.Scene.RecycleLeadRing | src/script.js:423-430 | ring positions become `Corridor.Recycle` of the old ones; the ring sequence is rotated by one when the lead is behind the camera and unchanged otherwise; it stays a permutation of the same rings; the invariant is kept |
| Scene.Scene.MoveBodies | src/script.js:405-421 | camera, cube and particles advance by the step; the sphere takes the given x/y offset and then advances; the invariant is kept |
| Scene.Scene.Tick | src/script.js:385-430 | one frame advances camera, cube, sphere (at the clamped pointer) and particles by `Displacement(magnitude)`; camera z strictly decreases; the rings follow `Corridor.Recycle` against the moved camera as a permutation; the invariant is kept, and so is "only the lead ring is behind the camera" while the step is at most a spacing |
| Tracking.Poll | src/tracking.js:129-130 | a poll runs the detectors exactly when the video time differs from the last one seen, and afterwards the last time seen is the current time |
| Tracking.Tracker.constructor | src/tracking.js:57 | the gate starts with last video time -1 |
| Tracking.Tracker.DetectLandmarksInWebcam | src/tracking.js:126-133 | reports and records exactly what `Poll` says for the old last time and the current time |
| Tracking.FirstPollDetects | src/tracking.js:57-129 | starting from -1, the first poll on any video time ≥ 0 runs the detectors |
| Tracking.SecondPollIdle | src/tracking.js:129-130 | a second poll on the same video time does nothing |
| Tracking.EachFrameProcessedOnce | src/tracking.js:126-147 | over a non-decreasing sequence of video times, the processed times are strictly increasing, each is one of the polled times, and they are exactly the distinct times other than the starting one |
| Tracking.ContainSize | src/tracking.js:97-112 | the fitted box has the video's aspect ratio, fits inside the window, and touches the window on at least one axis |
| Tracking.ContainIsLargest | src/tracking.js:97-112 | every box with the video's aspect ratio that fits in the window is no larger than the fitted box on both axes |

## Left out

- Rendering, material construction and material settings other than the maps and colours, lights, the renderer and resize handlers (src/script.js:17-79) are left out. They are engine plumbing with no logic of their own.
- The `rotateOnWorldAxis` rotations of the cube and ring boxes, and the `normalize()` and perpendicular-vector computations, are left out. They only turn objects in place and never change any position the model tracks.
- Scene.Scene.Tick: the `Math.sqrt` of the pointer magnitude is not computed. The magnitude is a parameter, and the precondition `Travel.IsMagnitude` ties it to the pointer: it is non-negative and its square is x² + y².
- Texture, video and GLTF loading (`getImageTexture`, `getVideoTexture`, `gltfLoader.load`) are left out. Textures are opaque handles named by their path. The asynchronous loads and their callbacks are not modelled.
- The random placement of particles and bananas (`Math.random`) is left out. Only the group positions are modelled.
- Scene.Scene.constructor: the banana group's visibility starts false. The group is empty and unattached until the model load sets it hidden.
- `onMove` (src/script.js:446-481) is not modelled. Its face branch does nothing, and its only call site is commented out.
- The MediaPipe detector set-up and `detectForVideo` calls, `getUserMedia`, the DOM style writes of `makeVideoFullScreen`, the landmark drawing, `performance.now`, `requestAnimationFrame` and Stats are left out. They are foreign, asynchronous I/O. A poll only reports whether the detectors would run.
- Tracking.Tracker.DetectLandmarksInWebcam: the source has no "detector ready" check before polling. The hand and face detectors are created asynchronously and are not awaited (src/tracking.js:19-20, 50-51), so they stay undefined until set-up finishes, and for good if it fails. A poll on a new video time in that window first stores the time (line 130) and then throws at `handLandmarker.detectForVideo` (line 132). Because the function is `async`, the throw skips `requestAnimationFrame` (line 147), and polling stops for good. The model reports `detected` for such a poll and does not model the stop. `Tracking.EachFrameProcessedOnce` assumes polling goes on.
- Themes.ApplyThemeIdempotent: this lemma, and `Themes.ApplyThemeForgets`, `Themes.ClickForgets`, `Themes.ClicksConverge`, `Themes.FullCycleForgetsHistory`, `Themes.ClicksPeriodic` and `Themes.PaletteCycle`, are equalities that hold because two loads of the same path count as the same texture value. In the source every `changeTexture` creates a new texture object (src/script.js:363-367). Each video entry also creates, loads and plays a new looping `<video>` element (src/script.js:369-378). Earlier elements are never paused, so repeated clicks leave more and more videos playing. The model does not capture that build-up.
- `main.js` is not part of this model. It is template scene boilerplate with no logic of the demo.
- Scene.Scene.OnPointerMove: the window size is a parameter and must be positive. A zero-sized window would give JavaScript's Infinity or NaN, which the model does not represent.
- Tracking.ContainSize: the window and video sizes must be positive, for the same reason.
- JavaScript's IEEE-754 double arithmetic is replaced by exact reals. Rounding in the positions and the 0.01 and 0.17 constants is not modelled.
- Themes.ChangeTexture: an image entry with an alpha path but no sphere colour (`new THREE.Color(undefined)`) is excluded by `WellFormed`. Every palette entry satisfies `WellFormed`.
