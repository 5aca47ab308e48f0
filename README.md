# Procedural ASCII portrait — a verified model

This project models the three pieces of logic behind an animated ASCII-art portrait:

- **The region classifier** (`js/portrait.js`, module `Portrait` in `portrait.dfy`).
  - A 50 × 65 grid cell is classified by a first-match chain of geometric tests into one of nine region codes:
    - a hair ellipse whose horizontal radius tapers above row 8;
    - a face ellipse containing its eyes, nose, mouth and beard sub-regions;
    - a neck band;
    - a shirt trapezoid with a V-shaped collar notch;
    - EMPTY as the fallback.
  - `GetChar` turns a region code into a glyph from that region's alphabet.
  - `RegionGrid.Init` fills the region grid row by row.
- **The character-grid engine** (`js/ascii.js`, module `Ascii` in `ascii.dfy`).
  - `InitCharGrid` seeds the glyph grid with one glyph per cell.
  - `UpdateChars` redraws about a fifth of the cells per pass, following the shared animation flags:
    - a closed eye goes blank;
    - a smiling mouth shows a smile glyph;
    - every other redrawn cell gets a fresh glyph.
  - `Render` runs a pass at most once per 100 ms of frame timestamps.
- **The animation scheduler** (`js/animations.js`, module `Animations` in `animations.dfy`).
  - A timer-driven state machine that plays one expression at a time: a blink, a wink or a smile.
  - Each expression is undone by its own completion timer, which then arms the next trigger.

How the model stands in for the program's environment:

- **Math.random()** is replaced by injected draws in [0, 1):
  - `select[y][x]` decides whether a cell is redrawn; it is redrawn when the draw is below 0.2;
  - `rand[y][x]` picks the character, as `floor(rand * n)`;
  - `kindRand`, `eyeRand` and `delayRand` drive the scheduler.
- **setTimeout** becomes data: the scheduler's `pending` sequence holds every armed `Timeout` (its callback and its delay). The environment runs one with `Scheduler.Fire(i, …)`.
- **The shared `animState` record** is one `AnimState` object, held by both the engine and the scheduler; `Animations.Startup` builds that pair.
- **Coordinates and radii** are exact reals.

Main results:

- **Classifier.** It is total with codes 0..8, and each region stays in its row band:
  - HAIR only in rows 3..18;
  - BEARD only in rows 40..50;
  - SHIRT only in rows 52..62.

  Further facts about it:
  - rows 0..2 are empty;
  - the trapezoid's last two rows are outline;
  - the portrait is mirror-symmetric about column 25, with the two eyes swapped;
  - the listed sample cells have the stated codes.
- **Glyphs.** `GetChar` gives `""` exactly for EMPTY and LINE, and otherwise one character of the code's alphabet. Every character is reachable.
- **Engine.** A glyph-alphabet invariant (`GlyphFits`) is established by `InitCharGrid` and preserved by every pass. Each pass equals the per-cell rule `CellUpdate` on every cell, and it leaves the animation flags alone.
- **Scheduler.** Its invariant `Valid` is preserved by firing any pending timer:
  - exactly one timeout is pending;
  - the pending timeout agrees with `isAnimating` and the flags;
  - as a consequence, idle means neutral flags, and busy means exactly one expression.

## Model

| member | source | states |
|---|---|---|
| Portrait.EdgeRing | js/portrait.js:60-71 | a point the edge test (`OnEllipseEdge`) accepts also passes the inside test (`InEllipse`), and a ring thinner than the horizontal radius never contains the centre |
| Portrait.EllipseBox | js/portrait.js:60-64 | every point inside an ellipse lies within its bounding box [cx−rx, cx+rx] × [cy−ry, cy+ry] |
| Portrait.EllipseMirror | js/portrait.js:60-71 | reflecting a point's horizontal offset from the centre changes neither the inside test nor the edge test |
| Portrait.HairRx | js/portrait.js:75 | the hair's horizontal radius lies in [15.5, 18] and equals 18 from row 8 down |
| Portrait.FaceCellType | js/portrait.js:93-147 | inside the face oval a cell is LINE, FACE, an eye, MOUTH or BEARD, and BEARD only in rows 40..50 |
| Portrait.BodyCellType | js/portrait.js:151-188 | a neck/shirt-band cell is EMPTY, LINE, FACE or SHIRT, and SHIRT only in rows 52..62 |
| Portrait.GetCellType | js/portrait.js:56-191 | every cell gets one of the codes 0..8; HAIR only in rows 3..18, BEARD only in rows 40..50, SHIRT only in rows 52..62 |
| Portrait.FaceOvalRows | js/portrait.js:89-93 | a cell inside the face oval lies in rows 6..50 |
| Portrait.TopRowsEmpty | js/portrait.js:74-190 | every cell above row 3 is EMPTY, in every column |
| Portrait.HemIsLine | js/portrait.js:161-185 | every trapezoid cell in rows 63..64 is LINE |
| Portrait.EyesDisjoint | js/portrait.js:100-120 | no cell lies inside both eye ellipses |
| Portrait.FaceMirror | js/portrait.js:93-147 | the face sub-classification at 25−k equals that at 25+k with the eyes swapped |
| Portrait.BodyMirror | js/portrait.js:151-188 | the neck, collar and shirt tests give the same code at 25−k and 25+k |
| Portrait.Mirror | js/portrait.js:56-191 | for every k and y, the code at (25−k, y) is the code at (25+k, y) with LEFT_EYE and RIGHT_EYE swapped |
| Portrait.SampleCells | js/portrait.js:74-128 | (25,10) is HAIR, (25,28) is FACE, (19,24) is LEFT_EYE and (31,24) is RIGHT_EYE |
| Portrait.CharSet | js/portrait.js:29-37 | every code has a non-empty alphabet, with the `['*']` fallback for codes without a set |
| Portrait.PickIndex | js/portrait.js:199 | `floor(rand * n)` is a valid index in [0, n) for every draw in [0, 1) |
| Portrait.PickIndexOnto | js/portrait.js:199 | every index i < n is picked, by the draw i/n |
| Portrait.GetChar | js/portrait.js:194-200 | the glyph is `""` exactly for EMPTY and LINE; otherwise it is one character of the code's alphabet |
| Portrait.GetCharOnto | js/portrait.js:194-200 | every character of a drawable region's alphabet is produced by some draw |
| Portrait.RegionGrid.constructor | js/portrait.js:40 | the grid starts empty |
| Portrait.RegionGrid.Init | js/portrait.js:42-54 | the grid becomes 65 × 50 with `grid[y][x] == GetCellType(x, y)`, and is returned |
| Ascii.AnimState.constructor | js/ascii.js:15-19 | the flags start neutral: both eyes open, not smiling |
| Ascii.GetCharFits | js/ascii.js:43-44 | a freshly drawn glyph fits its region's alphabet |
| Ascii.CellUpdate | js/ascii.js:82-101 | one cell's step in a pass keeps the glyph-alphabet invariant |
| Ascii.CellUpdateCases | js/ascii.js:82-101 | unselected cells keep their glyph; a selected closed eye becomes `""`; a selected mouth shows a smile glyph while smiling; selected EMPTY/LINE cells become `""`; every other selected cell, including an open eye and the mouth while not smiling, is redrawn by `GetChar` |
| Ascii.SmileOnto | js/ascii.js:96-97 | every smile glyph is produced by some draw while smiling |
| Ascii.Engine.constructor | js/ascii.js:3-19 | the engine starts with neutral flags, an empty glyph grid and `lastUpdate` 0 |
| Ascii.Engine.InitCharGrid | js/ascii.js:38-48 | the glyph grid becomes 65 × 50 with each cell `GetChar` of its region code and draw, and the glyph-alphabet invariant holds |
| Ascii.Engine.FreshRow | js/ascii.js:41-45 | one seeded row has 50 cells, each `GetChar` of its region code, each fitting its region |
| Ascii.Engine.UpdateChars | js/ascii.js:77-105 | the pass keeps the grid's shape and the glyph-alphabet invariant, gives every cell `CellUpdate` of its old glyph, and leaves the animation flags unchanged |
| Ascii.Engine.UpdateRow | js/ascii.js:80-103 | a pass over one row applies `CellUpdate` to each of its cells and leaves every other row unchanged |
| Ascii.Engine.RedrawCell | js/ascii.js:83-101 | a selected cell takes its `CellUpdate` glyph and nothing else in the grid changes |
| Ascii.Engine.Render | js/ascii.js:107-112 | a pass runs and `lastUpdate` becomes the timestamp iff more than 100 ms have passed; otherwise neither the grid nor `lastUpdate` changes; the invariant holds either way |
| Animations.NextDelay | js/animations.js:17-18 | the re-arm delay lies in [2000, 6000) |
| Animations.NextDelayOnto | js/animations.js:18 | every delay in [2000, 6000) comes from exactly one draw |
| Animations.ChooseKind | js/animations.js:29-37 | blink iff the draw is < 0.5, wink iff it is in [0.5, 0.8), smile iff it is ≥ 0.8 |
| Animations.AgreesIsCoherent | js/animations.js:40-89 | a pending timeout that agrees with the state implies idle ⇒ neutral flags, and busy ⇒ exactly one of "an eye closed" and "smiling" |
| Animations.Scheduler.constructor | js/animations.js:11 | the scheduler starts idle with nothing pending |
| Animations.Scheduler.Init | js/animations.js:13-15 | one trigger is armed with a delay in range; from the initial state this establishes the invariant |
| Animations.Scheduler.ScheduleNext | js/animations.js:17-20 | exactly one trigger timeout is appended, with delay `NextDelay(rand)` |
| Animations.Scheduler.TriggerRandom | js/animations.js:22-38 | while busy it only re-arms a trigger and leaves the flags alone; otherwise it starts the expression `ChooseKind` selects |
| Animations.Scheduler.Blink | js/animations.js:40-54 | busy, both eyes closed, smile untouched, and a blink completion armed with delay 150 |
| Animations.Scheduler.FinishBlink | js/animations.js:48-53 | both eyes reopen, the scheduler goes idle and a trigger is re-armed |
| Animations.Scheduler.Wink | js/animations.js:56-75 | busy; exactly the eye the draw selects closes (left iff < 0.5); the other eye and the smile are untouched; a wink completion is armed with delay 300 |
| Animations.Scheduler.FinishWink | js/animations.js:69-74 | both eyes reopen, the scheduler goes idle and a trigger is re-armed |
| Animations.Scheduler.Smile | js/animations.js:77-89 | busy, smiling, eyes untouched, and a smile completion armed with delay 1500 |
| Animations.Scheduler.FinishSmile | js/animations.js:84-88 | the smile ends, the scheduler goes idle and a trigger is re-armed |
| Animations.Scheduler.Fire | js/animations.js:17-89 | running pending timeout i removes it and arms exactly one other, so the number pending never changes. A trigger while idle applies `ChooseKind(kindRand)`'s flag changes and arms that expression's completion with its duration. A trigger while busy changes no flag and re-arms a trigger with delay `NextDelay(delayRand)`. A completion resets its flags, goes idle and re-arms a trigger with delay `NextDelay(delayRand)`. The invariant (one pending timeout that agrees with the state) is preserved |
| Animations.Startup | js/portrait.js:42-54 | in start-up order, the region grid is classified (`grid[y][x] == GetCellType(x, y)`), the glyph grid is seeded with `GetChar` of each cell's code and satisfies the engine's invariant, the scheduler is built on the engine's own fresh `animState` record (the one `blink`, `wink` and `smile` write at js/animations.js:44-85), and after arming the first trigger the scheduler's invariant holds |
| Animations.SmileScenario | js/animations.js:29-37 | from any valid trigger state, firing with kind draw 0.9 starts a smile (flags: eyes open, smiling), sets `isAnimating`, and leaves exactly the smile completion (1500 ms) pending |
| Animations.RenderKeepsSchedule | js/ascii.js:77-112 | a frame of the engine leaves the shared flags, `isAnimating` and the pending timeouts unchanged, so the scheduler's invariant survives it |
| Animations.Scheduler.ValidIsCoherent | js/animations.js:40-89 | under the invariant, idle means both eyes open and not smiling, and busy means exactly one expression shows |

## Left out

- **DOM and canvas code**: `ASCII_ENGINE.init`, `resize` (canvas sizing from the wrapper's size) and the clear/`fillText` painting loop of `render`. They do no portrait logic; they only draw it.
- **The `requestAnimationFrame` recursion**: one throttle step is `Engine.Render`, given the frame timestamp.
- **Start-up wiring**: the `DOMContentLoaded` handlers and the 100 ms delay before `ANIMATIONS.init`. `Animations.Startup` performs the same steps in the same order: `PORTRAIT.init()`, the engine's `initCharGrid`, then `ANIMATIONS.init`. The canvas set-up of `ASCII_ENGINE.init` is left out with the rest of the DOM code.
- **Real time**: delays are recorded in each `Timeout` but not counted down. The environment chooses which pending timeout `Fire` runs, so no ordering of timers by delay is claimed.
- **Math.random statistics**: draws are parameters. The ~20% redraw rate and the uniformity of the picks are statistical, so they are not stated.
- **IEEE-754 rounding**: the geometric tests use exact reals. Cells on a boundary where a double rounds differently (for example with 1.2, 0.8, 0.7 and 1.3) are not claimed to agree with the browser.
- **Engine.Valid**: it requires only the region grid's shape, not that its codes are the classifier's. The pass is correct for any region grid, and `RegionGrid.Init` separately promises the classifier's codes.
