# MTA ridership murmuration — a verified model

The sketch animates three flocks of boids, one per subway line group
(1/2/3, 4/5/6, N/Q/R). Each flock is tinted by a time-of-day "ridership
brightness". The flocks chase lagged positions of a wandering point that
roams a box over the vertical middle band of the canvas, centred a third
of the way across. Beside the sketch, an art
catalog panel lists the artworks of the selected line and marks those
referenced in the piece.

This project models, in Dafny:

- `brightness.dfy` (module `Brightness`): the three 24-entry brightness tables
  and `getRidershipBrightness`. Hour and minute are parameters. The value is
  the hour's entry, interpolated linearly toward the next hour's entry (23
  wraps to 0), computed exactly over `real`.
- `settings.dfy` (module `Settings`): the tuning globals fixed at load time
  from the viewport width (agent size, history capacity, speed cap, boid
  count, card size).
- `vectors.dfy` (module `Vectors`): 2-D vectors over `real`, and the
  square-root-based p5.Vector operations (normalize, limit, mag) as a
  caller-supplied `VectorOps` value.
- `wanderer.dfy` (module `Wandering`):
  - the wanderer history as a class `History`: a `seq` field that `Push`
    appends to and evicts from, first in, first out. A ghost record of
    everything pushed shows that the history is always the last `capacity`
    positions.
  - the `Wanderer` class: its constructor, `stayInBox` with its per-axis
    containment force, `update`, and the warm-up loop of `setup` that fills
    the history.
- `boids.dfy` (module `Boids`):
  - `getColor` and `seek` as module-level functions (`LineColor`, `Seek`).
  - the `Boid` class: its constructor and random draws, the neighbour loops
    of `cohesion` and `separate` (imperative, each proved against a
    specification function), attractor selection in `center`, the force
    dispatch of `flock`, and `update` with its delay re-draw.
  - the `Flock` class with `addBoid`.
- `catalog.dfy` (module `Catalog`):
  - `isReference`, and the item list of `renderList`: the Dan Flavin
    reference is put in front for line '456', and a missing line has no items.
  - the HTML fragment of each entry and their concatenation. `escapeHtml` is
    an abstract function parameter.
  - a small reader for the emitted markup. It shows that each fragment reads
    back as its entry's tag, reference class, link target, escaped texts and
    badge, one item per entry, in order.

Two behaviours of the code worth noting, both modelled as written:

- `center` reads `wandererHistory[delay]`, counted from the OLDEST stored
  position, so a larger delay follows a more recent position. With a full history,
  delay `d` selects the position pushed `capacity - 1 - d` updates before the
  latest (`Boids.AttractorOfFullHistory`).
- `windowResized` updates only the canvas and `flyZoneBottom`. The
  wanderer's box and centre keep their values from construction.

## Model

| member | source | states |
|---|---|---|
| Settings.TuningFor | sketch.js:14-40 | the history capacity is positive, the force cap is 0.04, pctFree is 1, at most 90 boids per flock |
| Settings.TuningMonotone | sketch.js:26-40 | a wider viewport never gets a smaller agent, a shorter history, a lower speed cap or fewer boids |
| Settings.HistoryCountByWidth | sketch.js:22-36 | the history holds 140 exactly below width 600, 240 exactly above 1800, 200 in between; 54 boids below 600, else 90 |
| Brightness.LineTable | sketch.js:48 | '123' and '456' select their own table, any other id the N/Q/R table; every table has 24 entries in 0..255 (sketch.js:5-7), so indexing by hour is safe |
| Brightness.NextHour | sketch.js:51 | the next hour is within 0..23: h + 1 below 23, and 0 after 23 |
| Brightness.MinuteFraction | sketch.js:52 | m / 60 lies in [0, 1) and is 0 exactly at minute 0 |
| Brightness.BetweenEntries | sketch.js:49-52 | brightness lies between the hour's entry and the next hour's; it equals the hour's entry iff minute is 0 or the entries are equal; it never reaches a different next entry |
| Brightness.InterpolationBetween | sketch.js:52 | the same bounds for the interpolation over any 24-entry table |
| Brightness.RidershipBrightness | sketch.js:46-53 | getRidershipBrightness: the signal is always within 0..255, and at minute 0 it is exactly the hour's table entry |
| Brightness.HourlyInterpolation | sketch.js:49-52 | the interpolated value never leaves the range between the hour's entry and the next hour's entry, whichever is larger |
| Brightness.TowardNextHour | sketch.js:50-52 | within an hour the brightness moves monotonically toward the next entry as minutes pass |
| Brightness.InterpolationMonotone | sketch.js:52 | the same monotonicity over any 24-entry table |
| Brightness.PeakOf123 | sketch.js:5 | at 17:00 the 1/2/3 line is at full brightness 255 |
| Wandering.PushStep | sketch.js:350-351 | one push leaves a suffix of the old contents followed by the pushed position; it is at most one longer, stays within the capacity when it was within it, and ends with the pushed position when the capacity is positive |
| Wandering.PushKeepsWindow | sketch.js:350-351 | one push (append, then drop the oldest when over capacity) turns the last `capacity` of s into the last `capacity` of s + [p] |
| Wandering.PushAllKeepsWindow | sketch.js:350-351 | after any number of pushes the history is exactly the last `capacity` positions pushed |
| Wandering.FifoEviction | sketch.js:350-351 | k pushes onto a full history drop its k oldest entries, keep the rest in order and append the new ones |
| Wandering.History.constructor | sketch.js:11 | the history starts empty, with the given capacity |
| Wandering.History.Push | sketch.js:350-351 | the new length is at most the capacity and the last element is the pushed position; not full: plain append; full: first element dropped, the rest kept in order |
| Wandering.AxisEdgeForce | sketch.js:356-360 | the force on one axis takes only the values 0 and ±2·maxForce; for a box of non-negative extent and a positive cap it is non-zero exactly outside the box and points back toward the centre |
| Wandering.AxisEdgeForceCases | sketch.js:357-360 | per axis: +2·maxForce below the box, −2·maxForce above it, 0 inside |
| Wandering.EdgeForce | sketch.js:355-360 | with a box of non-negative size and a positive cap, the edge force is the zero vector exactly when the position is inside the box on both axes |
| Wandering.EdgeForceAxesIndependent | sketch.js:357-360 | the x force does not depend on y, and the y force not on x |
| Wandering.Wanderer.constructor | sketch.js:328-338 | start at (width/3, flyZoneBottom/2) at rest; speed cap 6, force cap 0.05; box 0.66·width by 0.4·flyZoneBottom around that start |
| Wandering.Wanderer.StayInBox | sketch.js:354-362 | the acceleration is increased by exactly the edge force at the current position |
| Wandering.Wanderer.Update | sketch.js:340-352 | the new motion is one `WanderStep` of the old: velocity is the limited sum of old velocity, old acceleration, noise force and the edge force at the old position; position advances by it; acceleration resets. The new position is pushed onto the history, which keeps its invariant |
| Wandering.WarmUp | sketch.js:74-77 | one update per history slot leaves the history full and equal to the wanderer's trail: the positions reached by those updates, oldest first, the newest being the wanderer's final position; the wanderer's motion is the end of that run of updates (Run, Trail) |
| Boids.InitialMode | sketch.js:144 | a boid starts 'free' iff its draw exceeds pctFree; with pctFree 1 every boid starts 'murm' |
| Boids.NextMode | sketch.js:177-179 | the mode flips iff the draw exceeds 0.995 |
| Boids.DelayDraw | sketch.js:150 | the drawn delay lies in [0, historyCount) |
| Boids.EveryDelayDrawable | sketch.js:150 | every index in [0, historyCount) is the delay of some draw |
| Boids.Attractor | sketch.js:298-302 | history[delay] when the history is longer than delay, the live wanderer position otherwise, so the index is never out of range |
| Boids.AttractorOfFullHistory | sketch.js:298-299 | with a full history, delay d selects the position pushed capacity − 1 − d updates before the latest |
| Boids.LineColor | sketch.js:203-208 | getColor is the line's full colour, red (255,60,53) for '123', green (67,160,71) for '456', yellow (249,168,37) otherwise, each channel scaled by brightness/255; for a brightness in [0, 255] every channel lies between 0 and the full colour's |
| Boids.ColorScalesLinearly | sketch.js:203-208 | getColor is the base colour scaled by brightness/255: black at 0, the base colour at 255, additive, within [0, base] for brightness in [0, 255] |
| Boids.FrameColorInRange | sketch.js:203-208 | at any time of day the tint stays between black and the line's colour; on the hour it is the colour of that hour's table entry |
| Boids.Seek | sketch.js:194-201 | seek: the limited difference between the full-speed velocity toward the target and the current velocity (a plain definition; its property is SeekTranslation) |
| Boids.SeekTranslation | sketch.js:194-197 | seeking depends only on the target's offset from the boid: shifting both by the same vector gives the same steering |
| Boids.CohesionForce | sketch.js:309-325 | cohesion: seek toward the centroid of the neighbours within 50, zero without neighbours (a definition; its properties are NoNeighbourNoForce and CohesionWithOnePeer) |
| Boids.SeparationForce | sketch.js:272-294 | separate: the averaged inverse-distance away-vector of the neighbours within 4·size, steered at full speed when non-zero (a definition; its property is NoNeighbourNoForce); a negative distance is excluded |
| Boids.CenterForce | sketch.js:296-307 | center: the negated normalized vector from the attractor to the boid (a definition; its property is CenterTranslation) |
| Boids.CenterTranslation | sketch.js:303-306 | the centering force depends only on the attractor's offset from the boid |
| Boids.WithinMembers | sketch.js:313-319 | a position counts as a neighbour iff it is in the flock and its squared distance lies in (0, r²), that is, its distance in (0, r) |
| Boids.NoneWithin | sketch.js:315 | no position in range gives no neighbours |
| Boids.WithinOnlyOne | sketch.js:313-319 | when exactly one peer is in range, it is the only neighbour |
| Boids.NoNeighbourNoForce | sketch.js:320-324 | with no peer strictly within (0, 50) cohesion is the zero vector; with none within (0, 4·size) separation is too |
| Boids.CohesionWithOnePeer | sketch.js:313-323 | in any flock where exactly one peer is within range, cohesion seeks exactly that peer; the boid's own entry, at distance 0, never counts |
| Boids.Boid.constructor | sketch.js:133-151 | fields as the constructor sets them, the mode from the draw against pctFree, and a delay within [0, historyCount) |
| Boids.Boid.Cohesion | sketch.js:309-325 | the loop computes the cohesion force over the flock's positions: seek toward the neighbours' centroid, or zero |
| Boids.Boid.Separate | sketch.js:272-294 | the loop computes the separation force: the averaged inverse-distance away-vector, steered at full speed when non-zero |
| Boids.Boid.Center | sketch.js:296-307 | the negated normalized offset from the attractor to the boid, the attractor chosen by the history guard |
| Boids.Boid.Flock | sketch.js:165-180 | separation always; cohesion and centering only in 'murm' mode, each weighted by its multiplier; then the mode flips by the draw |
| Boids.Boid.Update | sketch.js:182-190 | velocity is integrated and limited, the angle advances, position moves, acceleration resets; the delay is re-drawn iff the draw exceeds 0.9995 and stays within range |
| Boids.Flock.constructor | sketch.js:114-120 | a flock starts with no boids and the given line and multipliers |
| Boids.Flock.AddBoid | sketch.js:128-130 | the boid is appended at the end; earlier members keep their places and their state |
| Catalog.IsReference | mta-art-catalog.js:12-16 | isReference: the entry's flag, or the Sol LeWitt rule on line '123' (a definition; its property is ReferenceRule) |
| Catalog.ReferenceRule | mta-art-catalog.js:12-16 | a flagged entry is a reference on every line; an unflagged one is a reference iff the line is '123' and station and artist equal the Sol LeWitt values exactly |
| Catalog.Items | mta-art-catalog.js:19-22 | the item list of renderList (a definition; its properties are ItemsOfLine and EmptyCatalog) |
| Catalog.ItemsOfLine | mta-art-catalog.js:19-22 | line '456' shows the Dan Flavin reference first, then its own entries in order; any other line shows its entries, or none when missing |
| Catalog.EmptyCatalog | mta-art-catalog.js:19-22 | with an empty catalog, line '456' shows exactly one item and it is a reference; other lines show none |
| Catalog.Fragment | mta-art-catalog.js:26-42 | the markup of one entry (a definition; its properties are FragmentFields and FragmentRoundTrip) |
| Catalog.Join | mta-art-catalog.js:25-43 | the entries' fragments concatenated in order (a definition; its properties are JoinAppend and JoinRoundTrip) |
| Catalog.RenderList | mta-art-catalog.js:18-44 | the markup renderList assigns (a definition; its properties are RenderEmptyIff and RenderListRoundTrip) |
| Catalog.JoinAppend | mta-art-catalog.js:25-43 | the markup of a concatenated item list is the concatenation of the two markups |
| Catalog.RenderEmptyIff | mta-art-catalog.js:25-43 | the markup is empty iff there are no items; with an empty catalog, iff the line is not '456' |
| Catalog.LinkRoundTrip | mta-art-catalog.js:30 | the href/target/rel attributes read back as the raw url, and their absence as no link |
| Catalog.OpenRoundTrip | mta-art-catalog.js:36 | the opening tag reads back as its tag name, whether the reference class is present, and its link |
| Catalog.TextsRoundTrip | mta-art-catalog.js:37-39 | the station, artist and title spans read back as the texts they contain |
| Catalog.CloseRoundTrip | mta-art-catalog.js:39-40 | the badge is read back iff it was emitted, followed by the matching closing tag |
| Catalog.FragmentRoundTrip | mta-art-catalog.js:26-42 | an entry's fragment reads back as its expected item and leaves the following markup untouched |
| Catalog.FragmentFields | mta-art-catalog.js:27-41 | `a` with the unescaped url as href iff the entry has a url, `span` otherwise; reference class and badge iff isReference; texts are the escaped fields |
| Catalog.JoinRoundTrip | mta-art-catalog.js:25-43 | the joined markup reads back as one expected item per entry, in order |
| Catalog.RenderListRoundTrip | mta-art-catalog.js:18-43 | the list markup reads back as one expected item per shown entry, in order |
| Catalog.EmptyCatalogBadge | mta-art-catalog.js:19-41 | for an empty catalog, the markup for line '456' reads back as exactly one entry: an `a` linking to the Dan Flavin post, with the reference class and the "Referenced in piece" badge |

## Left out

- p5 rendering is not modelled: `Boid.render`, tint, wing shapes, the card image, `preload`, `flap`. These are side effects on the drawing library.
- `draw` is not modelled as a whole. Besides rendering, each frame it computes the three brightness signals, calls the wanderer's `update` once, then runs the flocks in the order 123, 456, nqr. That per-frame order is not modelled; its parts (`RidershipBrightness`, `Wanderer.Update`, `Boid.Flock`, `Boid.Update`) are.
- `Boid.borders` is not in the modelled core. It rewrites the position from the canvas size: a horizontal wrap beyond a quarter width on either side, and a vertical re-entry with random draws. The next frame's forces read that position.
- `Flock.run` and `Boid.run` are not modelled. They chain the modelled `flock` and `update` over the array, a boid at a time. The model does not capture that later boids see earlier boids' positions already updated in the same frame.
- Perlin `noise`, `random` and trigonometry are not modelled. Each random draw is a parameter. `modeDraw` and `delayDraw` are required to lie in [0, 1); `vx`, `vy` (from random(-1, 1)), `angle` (from random(PI/18, PI/3)), `flipDraw` and `rerollDraw` are unconstrained. The wanderer's noise-chosen force is a parameter. Spawn positions are constructor arguments.
- normalize, limit, mag and dist are not modelled as floating-point operations. The first three are supplied as `VectorOps`. Distances are compared by their square, which is exact over `real`. `normalize(diff) / d` in `separate` is written as `diff / d²`. `steer.mag() > 0` is `steer != Zero`.
- All arithmetic is exact `real`, not IEEE double. The brightness interpolation and the colour scaling are exact there. Rounding is not modelled.
- `Date` and the wall clock are not modelled: hour and minute are parameters. The source reads the clock twice, once for the hour and once for the minute. At an hour boundary the two can come from different instants: hour 16 with minute 0 gives the entry for 16 instead of about the entry for 17. The model takes one consistent hour and minute. `window.innerWidth` is a parameter. `ResizeObserver`, `windowResized`, `createCanvas` and the container lookup are left out.
- `setup`'s flock creation is not modelled as a whole: spawn geometry from random angle and radius, and three flocks of `numBirds`. Its parts (the `Flock` constructor, `Boid` constructor, `addBoid`, warm-up) are modelled.
- `fetch`, the tab click handlers, `init`, the DOM container lookup and the `innerHTML` assignment are not modelled. `RenderList` returns the markup instead of assigning it.
- `escapeHtml` is an abstract parameter. Its DOM internals are out of scope. The read-back lemmas assume only that its output holds no '<', and that the url holds no '"'. An absent field is escaped as the empty text, which is what `textContent = undefined` gives.
- `Catalog.FragmentFields`, `Catalog.FragmentRoundTrip`, `Catalog.JoinRoundTrip`, `Catalog.RenderListRoundTrip`: stated for entries whose escaped texts hold no '<' and whose url holds no '"'. Beyond that the markup is ambiguous to read back.
