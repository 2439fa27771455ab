# Isometric scene: swarm, name sign and headings, in Dafny

This project models the logic of a small three.js scene made of three parts.

- **The butterfly swarm** (`js/butterflies.js`).
  - The `Butterflies` constructor fills the four vertex attribute arrays of a `count × count` grid of agents: `position`, `vidx`, `uv` and `posn`.
  - Each agent gets a six-vertex wing template. The vertex shader flaps vertices 1–2 and 4–5 by opposite angles.
  - Two GPU kernels advance every cell of the simulation textures. The velocity kernel nudges a butterfly back into its box (x and z bounds from uniforms, y between 0 and 10) and then caps its speed at 1. The position kernel moves the butterfly along its previous velocity by `dt · 15`.
  - `setBounds` and `tick` update the uniforms.
- **The name sign** (`index.js`).
  - The letters of "simon raynor" are upper-cased.
  - They are laid out left to right by a running sum of glyph widths, where a blank adds 3, and the group is centred.
  - Each frame only the head of the queue of letter meshes falls, and it may fall below 0. On the first frame that finds it at or below 0, it is set to height 0 and dequeued instead of falling.
- **Heading parameters** (`headings.js`). The heading level is read from the tag name. It gives the font size (25, 20 or 15), and the size gives the extrusion depth and the bevel.

Floats (JavaScript numbers, 32-bit attribute arrays, GLSL floats) are exact reals here.

The files are:

- `vectors.dfy`: 3-vectors.
- `text.dfy`: the JavaScript string built-ins used.
- `butterfly_geometry.dfy`: the attribute arrays and the wing policy.
- `swarm_kernels.dfy`: the two kernels and a whole compute pass.
- `butterflies.dfy`: the `Butterflies` class.
- `sign.dfy`: the name sign.
- `headings.dfy`: the heading parameters.

The boundary rule of the velocity kernel is modelled as coded, and it is not a pure per-axis push. Beyond the lower x bound, for example, x does not always grow by exactly 0.05: the y and z rules can add ±0.01 to x in the same pass. `NudgeRepelsSideFaces` states the strict increase that does hold. In the same way, a floor push on y is cancelled whenever the near x face does not fire and the far z face, not the near one, fires: the z rules are an if/else-if, so a point below the lower z bound takes the near branch even when bounds set with min > max also put it above the upper one (`FloorNudgeCancelled`).

## Model

| member | source | states |
|---|---|---|
| `ButterflyGeometry.PosnPair` | js/butterflies.js:35-37 | vertex j of agent (x, y) gets posn y/count in its even slot and x/count in its odd slot |
| `ButterflyGeometry.Block` | js/butterflies.js:32-41 | one agent adds 18 position numbers, 6 vertex indices, 12 uv numbers and 12 posn numbers |
| `ButterflyGeometry.BlockInRange` | js/butterflies.js:30-43 | every number of an agent's block is in its attribute's range: template coordinates within ±4, vidx an integer 0..5, uv 0 or 1, posn in [0, 1) |
| `ButterflyGeometry.RowLength` | js/butterflies.js:31-42 | the inner loop over y adds cols blocks |
| `ButterflyGeometry.GridLength` | js/butterflies.js:30-43 | the nested loops produce count·count blocks per attribute |
| `ButterflyGeometry.RowPrefix` | js/butterflies.js:31-42 | what the inner loop has pushed so far is a prefix of what the full row pushes |
| `ButterflyGeometry.GridPrefix` | js/butterflies.js:30-43 | what the outer loop has pushed so far is a prefix of the whole array |
| `ButterflyGeometry.RowBlockAt` | js/butterflies.js:31-42 | agent (x, y)'s block sits in its row right after the blocks of y' < y |
| `ButterflyGeometry.GridRowAt` | js/butterflies.js:30-43 | row x sits in the array right after rows x' < x |
| `ButterflyGeometry.GridBlock` | js/butterflies.js:30-43 | agent (x, y)'s block starts after all earlier rows and all earlier agents of its row |
| `ButterflyGeometry.GridAt` | js/butterflies.js:30-43 | number i of agent (x, y)'s block is at index (x·count + y)·blockSize + i |
| `ButterflyGeometry.AgentBlock` | js/butterflies.js:30-43 | each array has count·count·blockSize numbers, and the slice at (x·count + y)·blockSize is exactly agent (x, y)'s block |
| `ButterflyGeometry.AttributeValuesInRange` | js/butterflies.js:30-43 | every number of every attribute array is in its attribute's range |
| `ButterflyGeometry.VertexIndexOf` | js/butterflies.js:39-41 | geometry vertex (x·count + y)·6 + j has vidx j |
| `ButterflyGeometry.VertexPosnOf` | js/butterflies.js:35-37 | geometry vertex (x·count + y)·6 + j has posn (y/count, x/count) |
| `ButterflyGeometry.VertexUvOf` | js/butterflies.js:34 | geometry vertex (x·count + y)·6 + j has template uv j |
| `ButterflyGeometry.VertexPositionOf` | js/butterflies.js:32 | geometry vertex (x·count + y)·6 + j has template position j |
| `ButterflyGeometry.PushAgent` | js/butterflies.js:32-41 | one inner-loop pass appends exactly agent (x, y)'s block to each of the four arrays; its vidx loop pushes 0..5 |
| `ButterflyGeometry.PushRow` | js/butterflies.js:31-42 | the inner loop appends exactly row x to each array |
| `ButterflyGeometry.BuildAttributes` | js/butterflies.js:25-43 | the constructor's loops produce exactly the four attribute arrays of the grid |
| `ButterflyGeometry.NeighbourColumnsOutOfPhase` | js/butterflies.js:110 | at any time, agents in neighbouring grid columns (posn.x of y/count and (y+1)/count) flap 15/count apart |
| `ButterflyGeometry.WingPolicy` | js/butterflies.js:128-138 | a vertex is left unrotated if and only if vidx is not 1, 2, 4 or 5; 1 and 2 are rotated by the flap angle, 4 and 5 by its opposite |
| `ButterflyGeometry.WingRotationOfVertex` | js/butterflies.js:110-138 | at time t, vertices 1 and 2 of agent (x, y) are rotated by (t + y/count)·15, vertices 4 and 5 by its opposite, and 0 and 3 are left alone |
| `ButterflyGeometry.UntouchedAtWingRoot` | js/butterflies.js:128-138 | the shader leaves a template vertex unrotated exactly when it is at the origin, the wing root |
| `ButterflyGeometry.MirroredWingsFlapOpposite` | js/butterflies.js:8-11 | vertex 6 - j mirrors vertex j across x = 0 and flaps by the opposite angle |
| `SwarmKernels.NudgeX` | js/butterflies.js:262-268 | the x rule leaves the velocity alone if and only if x is within its bounds; below the lower bound vx grows, above the upper bound it shrinks |
| `SwarmKernels.NudgeY` | js/butterflies.js:270-276 | the y rule leaves the velocity alone if and only if 0 <= y <= 10; below the floor vy grows, above the ceiling it shrinks |
| `SwarmKernels.NudgeZ` | js/butterflies.js:278-284 | the z rule leaves the velocity alone if and only if z is within its bounds; below the lower bound vz grows, above the upper bound it shrinks |
| `SwarmKernels.Nudge` | js/butterflies.js:262-284 | a butterfly inside its box keeps its velocity |
| `SwarmKernels.NudgeByComponent` | js/butterflies.js:262-284 | the three if/else-if pairs add, per component, the sum of what each face contributes |
| `SwarmKernels.DeltasZeroIffInside` | js/butterflies.js:262-284 | no face adds anything exactly when the position is inside the box |
| `SwarmKernels.NudgeFixedIffInside` | js/butterflies.js:262-284 | the boundary rule leaves the velocity unchanged if and only if the position is inside the box |
| `SwarmKernels.NudgeRepelsSideFaces` | js/butterflies.js:262-284 | beyond an x or z face the velocity component along that axis strictly turns back towards the box |
| `SwarmKernels.NudgeRepelsFloorAndCeiling` | js/butterflies.js:270-276 | below the floor vy never decreases, above the ceiling it never increases, and it strictly turns back unless a z or x face cancels it |
| `SwarmKernels.FloorNudgeCancelled` | js/butterflies.js:262-284 | under the floor, the vertical speed is kept if and only if x is not below its lower bound, z is not below its lower bound and z is beyond its upper bound; (0, -1, 11) with the default bounds is such a point |
| `SwarmKernels.LengthAtMostOne` | js/butterflies.js:286 | a velocity's length exceeds 1 exactly when its squared length does |
| `SwarmKernels.Clamp` | js/butterflies.js:286-288 | the result is at most unit length, a velocity no longer than 1 is kept, and a longer one becomes a unit vector with the same direction |
| `SwarmKernels.VelocityKernel` | js/butterflies.js:256-290 | the new velocity is never longer than 1 |
| `SwarmKernels.VelocityUnchangedInside` | js/butterflies.js:256-290 | inside the box, a velocity of length at most 1 passes through unchanged |
| `SwarmKernels.VelocityCappedKeepsDirection` | js/butterflies.js:286-288 | a nudged velocity longer than 1 comes out as the unit vector in its direction |
| `SwarmKernels.PositionKernel` | js/butterflies.js:239 | the squared displacement of a step is (dt·15)² times the squared speed |
| `SwarmKernels.DisplacementBounded` | js/butterflies.js:239 | with a velocity of at most unit length a step moves at most dt·15 |
| `SwarmKernels.Step` | js/butterflies.js:226-290 | one pass moves the cell along its old velocity, and the new velocity is at most unit length |
| `SwarmKernels.Pass` | js/butterflies.js:296-297 | a compute pass steps every cell from the previous grid with the same uniforms |
| `SwarmKernels.PassIsLocal` | js/butterflies.js:257-260 | a cell's next state depends only on that cell's previous state |
| `SwarmKernels.StepPositionIgnoresBounds` | js/butterflies.js:226-239 | where a cell moves does not depend on the bounds |
| `SwarmKernels.SecondStepDisplacementBounded` | js/butterflies.js:239 | after the first pass every later pass moves a butterfly at most dt·15 |
| `SwarmKernels.RestingBeyondXFace` | js/butterflies.js:262-268 | a resting butterfly at (25, 5, 0) with the default bounds gets velocity (-0.05, 0, -0.01) and does not move in that pass |
| `Swarm.Elapsed` | js/butterflies.js:317 | with no negative step the time uniform is never negative |
| `Swarm.LastStep` | js/butterflies.js:318 | the dt uniform is 0 before any tick and otherwise one of the steps ticked |
| `Swarm.ElapsedOfAppend` | js/butterflies.js:317 | the time uniform after two runs of ticks is the sum of their times |
| `Swarm.ElapsedMonotone` | js/butterflies.js:317 | with no negative step the time uniform never goes back |
| `Swarm.Butterflies.constructor` | js/butterflies.js:22-85 | count defaults to 32, the four attribute arrays are those of the count×count grid, t = dt = 0, bounds x in [-20, 20] and z in [-10, 10] |
| `Swarm.Butterflies.SetBounds` | js/butterflies.js:311-314 | the bounds become the given ranges; t and dt are unchanged |
| `Swarm.Butterflies.Tick` | js/butterflies.js:316-318 | t grows by the step and dt becomes it; the bounds are unchanged; t stays the sum of all steps |
| `Text.Upper` | index.js:119 | same length, each lower-case letter raised, every other character kept |
| `Text.UpperIdempotent` | headings.js:18 | an upper-cased string has no lower-case letter left |
| `Text.Lower` | headings.js:12 | same length, each upper-case letter lowered, every other character kept |
| `Text.LowerOfUpper` | headings.js:12 | lower-casing an upper-cased string gives the lower-cased original |
| `Text.Trim` | index.js:137 | trim never lengthens a string, and what it returns neither starts nor ends with white space |
| `Text.TrimStartCutsBlank` | index.js:137 | everything trimStart removes from the front is white space |
| `Text.TrimEndCutsBlank` | index.js:137 | everything trimEnd removes from the back is white space |
| `Text.TrimOfPadded` | index.js:137 | for any string padded with white space on both sides, where the string neither starts nor ends with white space, trim gives back exactly that string |
| `Text.TrimEmptyIff` | index.js:137 | trim gives the empty string exactly when the string is all white space |
| `Text.RemoveFirst` | headings.js:12 | replace(c, '') removes one character when c occurs and nothing otherwise |
| `Text.RemoveFirstAt` | headings.js:12 | the character removed is the first occurrence |
| `Text.ParseNumber` | headings.js:12 | Number() gives a value exactly when the trimmed string is all digits, and 0 for a blank string |
| `Headings.HeadingLevel` | headings.js:12 | the level exists exactly when the lower-cased tag name, less its first 'h', trims to digits |
| `Headings.HeadingLevelOfTagName` | headings.js:12 | tag name "H" followed by digit n gives level n |
| `Headings.HeadingLevelIgnoresCase` | headings.js:12 | upper-casing the tag name does not change the level |
| `Headings.FontSize` | headings.js:5-9 | font sizes 25, 20, 15, positive, 5 apart per level |
| `Headings.FontSizeDecreasing` | headings.js:5-14 | a deeper level has a strictly smaller size |
| `Headings.HeadingGeometry` | headings.js:11-32 | parameters exist exactly for levels 1 to 3, with the text upper-cased and the level's font size |
| `Headings.HeadingProportions` | headings.js:15-27 | depth is 20 bevel sizes, size is 50 bevel sizes, bevel thickness equals bevel size, offset 0, one segment, bevel enabled |
| `Headings.FirstLevelHeading` | headings.js:14-27 | an h1 heading gets size 25, depth 10 and bevel 0.5 |
| `Headings.HeadingSizes` | headings.js:5-14 | h1, h2 and h3 headings get sizes 25, 20 and 15 |
| `Headings.NoGeometryOutsideLevels` | headings.js:14 | h0 and h4 to h9 get no parameters |
| `Sign.SignLetters` | index.js:118-120 | one letter per character of the name |
| `Sign.SignSpellsName` | index.js:118-120 | the letters are S I M O N, a space, R A Y N O R |
| `Sign.SignBlank` | index.js:118-120 | the sixth letter is the only blank one |
| `Sign.BlankIffTrimEmpty` | index.js:137 | a letter is skipped exactly when letter.trim() is empty, that is when it is white space |
| `Sign.Advance` | index.js:163-169 | a letter moves the left edge by either 3 or its glyph width, so by a positive amount when widths are positive |
| `Sign.LeftAfter` | index.js:133-170 | with no negative width the running left edge is never negative |
| `Sign.Placed` | index.js:135-171 | at most one mesh per letter, and none for a blank letter |
| `Sign.Visible` | index.js:137 | the letters kept are never blank |
| `Sign.LayOut` | index.js:133-174 | the loop's meshes and final left are the lay-out of all the letters, and the group x is -left/2 so the sign is centred |
| `Sign.PlacedLetters` | index.js:135-171 | one mesh per non-blank letter, in letter order, none for blanks |
| `Sign.PlacedAtDropHeight` | index.js:161 | every mesh starts at height 100 |
| `Sign.PlacedAtLeftEdge` | index.js:163-164 | the mesh of letter i is at x = the left edge reached by letters 0..i-1 |
| `Sign.PlacedLeftOfEdge` | index.js:133-170 | with positive widths every mesh lies in [0, left) |
| `Sign.PlacedIncreasing` | index.js:133-170 | with positive widths the meshes run strictly left to right |
| `Sign.SignVisible` | index.js:118-137 | skipping the blank leaves SIMONRAYNOR |
| `Sign.SignMeshes` | index.js:118-171 | the sign's meshes spell SIMONRAYNOR, eleven of them |
| `Sign.Frame` | index.js:192-197 | an empty queue is left alone; the landed list gains at most the head, pinned at height 0 |
| `Sign.FrameLandsGroundedHead` | index.js:192-194 | a head at or below 0 is dequeued and appended to the landed meshes at height 0, and nothing else changes |
| `Sign.FrameTouchesOnlyHead` | index.js:192-197 | the queue shrinks by at most one and never grows; the rest of the queue is untouched; it shrinks if and only if the head was at or below 0, and then by exactly the head |
| `Sign.FrameHeadFalls` | index.js:196 | a head above the floor keeps its letter and x and falls by exactly dt |
| `Sign.FrameKeepsFootprint` | index.js:192-198 | landed meshes followed by queued ones keep their letters, x and order |
| `Sign.FrameKeepsGrounded` | index.js:193-194 | landed meshes are all at height 0 |
| `Sign.RunKeepsLanded` | index.js:193-194 | over any run of frames, landed meshes stay landed in order |
| `Sign.HeadLandsWithin` | index.js:192-198 | if every step is at least d > 0 and the head is at most k·d high, it has landed after k + 1 frames |
| `Sign.StampStepOvershoots` | index.js:182-183 | the step as written is the time since the previous frame plus that frame's own time since page load, so it is larger than the true step once the page has been open for any time |
| `Sign.TimestampTakenAsStep` | index.js:182-183 | at 60 s after load, one frame drops the head 60 units and the frame 16 ms later drops it 60.016 more, below the floor |
| `Sign.FallTracksElapsedTime` | index.js:182-198 | with the step taken between timestamps, the head falls by exactly the seconds elapsed |
| `Sign.LetterDrop.constructor` | index.js:122 | the queue starts empty, and no mesh has landed |
| `Sign.LetterDrop.FontLoaded` | index.js:127-176 | the laid-out meshes are appended to the queue and the group is centred; every landed mesh stays at height 0 |
| `Sign.LetterDrop.Fall` | index.js:192-198 | the queue and landed meshes become one frame of the drop; every landed mesh stays at height 0 |
| `Sign.LetterDrop.Animate` | index.js:182-198 | as written: the frame's step is the timestamp over 1000; every landed mesh stays at height 0 |
| `Sign.LetterDrop.AnimateSince` | index.js:182-198 | corrected: the frame's step is the time since the previous frame; every landed mesh stays at height 0 |

## Left out

- GPU computation library: the textures, the render targets, the ping-pong swap and the texture wrapping (`initComputeRenderer`, `compute`, `getCurrentRenderTarget`). A compute pass is modelled as `SwarmKernels.Pass`, where every cell takes `SwarmKernels.Step` from the previous grid.
- The random initial positions and velocities are not modelled.
- The position kernel's `phase` channel (`mod`, `length`, `max`) is not modelled. Nothing in the model reads it.
- The vertex shader's orientation matrices, `normalize`, `sqrt`, `sin` and `cos` are not modelled. Only which rotation each vertex gets (`WingPolicy`) is modelled.
- The constructor's `rotateY` and `scale` of the geometry are not modelled.
- The materials, the fragment shader, the renderer, the camera, the composer and its passes, the lights, the floor, stats and the DOM are not modelled.
- `SwarmKernels.Clamp`: GLSL `length` is a square root. It is passed in as `len`, together with the fact `len·len = |v|²`, instead of being computed.
- Floating-point rounding and 32-bit float storage: every number is an exact real.
- `TextGeometry`, `FontLoader` and glyph bounding boxes are not modelled. Glyph widths are inputs to `Sign.LayOut`.
- Mesh objects are modelled as values. `lettermeshes` is `Sign.LetterDrop.queue`. The group's children are the ghost list `landed` followed by `queue`: a mesh that lands leaves `lettermeshes` but stays in the group.
- The first `animate()` call, made without an argument, is not modelled. It computes NaN, but the queue is still empty at that point.
- `requestAnimationFrame` is not modelled. Its timestamp is the argument of `Animate`.
- `Headings.HeadingGeometry` returns None for a level outside 1..3. The source would use an undefined size there.
- `Sign.Advance`: its contract says only that the advance is 3 or the glyph width, not which of the two applies. The case split (3 for a blank letter, the width otherwise) is pinned down by the definition of `Sign.LeftAfter`, which the loop of `Sign.LayOut` is proved to compute.
- `Text.Upper` and `Text.Lower` map only ASCII letters. Full Unicode case mapping is not modelled.
- `Text.ParseNumber` reads only blank strings and decimal digit strings. Other `Number()` syntaxes (signs, decimals, exponents, hex, Infinity) are read as NaN.

## Findings

| source | as written | input that shows it | evidently intended | confidence | as-written member | corrected member |
|---|---|---|---|---|---|---|
| index.js:182-183 | `animate` divides its argument by 1000 and uses that as the frame step. Its argument is the requestAnimationFrame timestamp, i.e. the time since page load. | Frames at 60000 ms and 60016 ms drop the head letter by 60 and then by 60.016, ending below the floor at -20.016. | The step is the time since the previous frame, so a letter falls one unit per second. | medium, not executed | `Sign.TimestampTakenAsStep` | `Sign.FallTracksElapsedTime` |
