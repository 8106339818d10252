/** The viewport-dependent tuning globals of the sketch, fixed once when the
    script loads from `window.innerWidth`. */
module Settings {

  datatype Tuning = Tuning(
    size: real,            // visual agent size; separation distance is 4 * size
    historyCount: nat,     // capacity of the wanderer history
    birdMaxSpeed: real,
    birdMaxForce: real,
    birdStroke: real,
    numBirds: nat,         // boids per flock
    cardWidth: real,
    cardHeight: real,
    pctFree: real          // threshold of the free/murm draw at boid creation
  )

  /** The defaults, inspected and overridden for narrow and wide viewports.
      `Math.floor(90 * 0.6)` is 54 in JavaScript's double arithmetic too:
      the product of 90 with the double nearest 0.6 rounds back to 54. */
  function TuningFor(innerWidth: int): (t: Tuning)
    ensures t.historyCount > 0
    ensures t.birdMaxForce == 0.04 && t.pctFree == 1.0
    ensures t.numBirds <= 90 && t.size > 0.0 && t.birdMaxSpeed > 0.0
  {
    var base := Tuning(8.0, 200, 3.0, 0.04, 1.5, 90, 22.0, 14.0, 1.0);
    if innerWidth < 600 then
      base.(size := 6.0, historyCount := 140, birdMaxSpeed := 2.0, birdStroke := 1.0,
            numBirds := (90.0 * 0.6).Floor as nat, cardWidth := 16.0, cardHeight := 10.0)
    else if innerWidth > 1800 then
      base.(size := 10.0, historyCount := 240, birdStroke := 2.0,
            cardWidth := 28.0, cardHeight := 18.0)
    else
      base
  }

  /** A wider viewport never gets a smaller agent, a shorter history,
      a lower speed cap or fewer boids. */
  lemma TuningMonotone(w1: int, w2: int)
    requires w1 <= w2
    ensures TuningFor(w1).size <= TuningFor(w2).size
    ensures TuningFor(w1).historyCount <= TuningFor(w2).historyCount
    ensures TuningFor(w1).birdMaxSpeed <= TuningFor(w2).birdMaxSpeed
    ensures TuningFor(w1).numBirds <= TuningFor(w2).numBirds
  {
  }

  /** The three history capacities, by viewport width. */
  lemma HistoryCountByWidth(w: int)
    ensures TuningFor(w).historyCount == 140 <==> w < 600
    ensures TuningFor(w).historyCount == 240 <==> w > 1800
    ensures TuningFor(w).historyCount == 200 <==> 600 <= w <= 1800
    ensures TuningFor(w).numBirds == (if w < 600 then 54 else 90)
  {
  }
}
