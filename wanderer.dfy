/** The wanderer: one point roaming inside a box, whose recent positions are
    kept in a fixed-capacity history that the boids read as lagged
    attractors. */
module Wandering {
  import opened Vectors

  /** The last n elements of s, or all of s when it is shorter. */
  function Window<T>(s: seq<T>, n: nat): (w: seq<T>)
    ensures |w| == if |s| <= n then |s| else n
    ensures forall i :: 0 <= i < |w| ==> w[i] == s[|s| - |w| + i]
  {
    if |s| <= n then s else s[|s| - n..]
  }

  /** One push onto the history: append, then drop the first element if the
      capacity is exceeded. */
  function PushStep<T>(items: seq<T>, p: T, capacity: nat): (r: seq<T>)
    ensures |r| <= |items| + 1 && r == (items + [p])[|items| + 1 - |r|..]
    ensures |items| <= capacity ==> |r| <= capacity
    ensures capacity > 0 ==> |r| > 0 && r[|r| - 1] == p
  {
    var grown := items + [p];
    if |grown| > capacity then grown[1..] else grown
  }

  /** Pushing onto the window of everything pushed so far gives the window
      of everything pushed including p. */
  lemma PushKeepsWindow<T>(s: seq<T>, p: T, capacity: nat)
    ensures PushStep(Window(s, capacity), p, capacity) == Window(s + [p], capacity)
  {
    var w := Window(s, capacity);
    if |s| < capacity {
      assert PushStep(w, p, capacity) == s + [p];
    } else {
      assert |w| == capacity;
      var r := PushStep(w, p, capacity);
      var v := Window(s + [p], capacity);
      assert |r| == |v|;
      forall i | 0 <= i < |r| ensures r[i] == v[i] {
        if i < capacity - 1 {
          assert r[i] == w[i + 1];
        }
      }
    }
  }

  /** A run of pushes, one per frame. */
  function PushAll<T>(items: seq<T>, ps: seq<T>, capacity: nat): seq<T>
    decreases |ps|
  {
    if ps == [] then items else PushAll(PushStep(items, ps[0], capacity), ps[1..], capacity)
  }

  /** However many pushes are made, the history holds exactly the last
      `capacity` positions of everything pushed. */
  lemma {:induction false} PushAllKeepsWindow<T>(s: seq<T>, ps: seq<T>, capacity: nat)
    ensures PushAll(Window(s, capacity), ps, capacity) == Window(s + ps, capacity)
    decreases |ps|
  {
    if ps != [] {
      var s' := s + [ps[0]];
      calc {
        PushAll(Window(s, capacity), ps, capacity);
        PushAll(PushStep(Window(s, capacity), ps[0], capacity), ps[1..], capacity);
        { PushKeepsWindow(s, ps[0], capacity); }
        PushAll(Window(s', capacity), ps[1..], capacity);
        { PushAllKeepsWindow(s', ps[1..], capacity); }
        Window(s' + ps[1..], capacity);
        { assert s' + ps[1..] == s + ps; }
        Window(s + ps, capacity);
      }
    }
  }

  /** FIFO eviction: k pushes onto a full history drop its k oldest entries
      and keep the rest in order, followed by the new positions. */
  lemma FifoEviction<T>(items: seq<T>, ps: seq<T>, capacity: nat)
    requires |items| == capacity && |ps| <= capacity
    ensures PushAll(items, ps, capacity) == items[|ps|..] + ps
  {
    var s := items + ps;
    assert PushAll(items, ps, capacity) == Window(s, capacity) by {
      assert Window(items, capacity) == items;
      PushAllKeepsWindow(items, ps, capacity);
    }
    assert Window(s, capacity) == s[|ps|..];
    assert s[|ps|..] == items[|ps|..] + ps;
  }

  /** The module-level `wandererHistory` array together with its capacity
      `wandererHistoryCount`. */
  class History {
    var items: seq<Vec>
    const capacity: nat
    /** Every position pushed since the page loaded. */
    ghost var pushed: seq<Vec>

    ghost predicate Valid()
      reads this
    {
      items == Window(pushed, capacity)
    }

    constructor (capacity: nat)
      ensures Valid() && this.capacity == capacity
      ensures items == [] && pushed == []
    {
      this.capacity := capacity;
      items := [];
      pushed := [];
    }

    /** `wandererHistory.push(p)`, then `shift()` when over capacity. */
    method Push(p: Vec)
      requires Valid()
      modifies this
      ensures Valid() && pushed == old(pushed) + [p]
      ensures items == PushStep(old(items), p, capacity)
      ensures |items| <= capacity
      ensures capacity > 0 ==> items[|items| - 1] == p
      ensures |old(items)| < capacity ==> items == old(items) + [p]
      ensures 0 < capacity == |old(items)| ==> items == old(items)[1..] + [p]
    {
      PushKeepsWindow(pushed, p, capacity);
      items := items + [p];
      if |items| > capacity {
        items := items[1..];
      }
      pushed := pushed + [p];
    }
  }

  /** The containment force on one axis: twice the maximal force back into
      the box when the coordinate is outside [center - extent/2,
      center + extent/2], nothing inside it. */
  function AxisEdgeForce(p: real, center: real, extent: real, maxForce: real): (f: real)
    ensures f == 0.0 || f == 2.0 * maxForce || f == -2.0 * maxForce
    ensures extent >= 0.0 && maxForce > 0.0 ==>
              (f != 0.0 <==> (p < center - extent / 2.0 || p > center + extent / 2.0)) &&
              (f > 0.0 ==> p < center) && (f < 0.0 ==> p > center)
  {
    var efScale := 2.0;
    if p < center - extent / 2.0 then maxForce * efScale
    else if p > center + extent / 2.0 then -maxForce * efScale
    else 0.0
  }

  /** The three cases of the containment force, for a box of non-negative
      extent. */
  lemma AxisEdgeForceCases(p: real, center: real, extent: real, maxForce: real)
    requires extent >= 0.0
    ensures var f := AxisEdgeForce(p, center, extent, maxForce);
            (p < center - extent / 2.0 ==> f == 2.0 * maxForce) &&
            (p > center + extent / 2.0 ==> f == -2.0 * maxForce) &&
            (center - extent / 2.0 <= p <= center + extent / 2.0 ==> f == 0.0)
  {
  }

  /** stayInBox's edge force: each axis decided on its own. With a positive
      force cap it vanishes exactly inside the box. */
  function EdgeForce(pos: Vec, centerX: real, centerY: real, boxWidth: real, boxHeight: real,
                     maxForce: real): (f: Vec)
    ensures boxWidth >= 0.0 && boxHeight >= 0.0 && maxForce > 0.0 ==>
              (f == Zero <==>
                 centerX - boxWidth / 2.0 <= pos.x <= centerX + boxWidth / 2.0 &&
                 centerY - boxHeight / 2.0 <= pos.y <= centerY + boxHeight / 2.0)
  {
    Vec(AxisEdgeForce(pos.x, centerX, boxWidth, maxForce),
        AxisEdgeForce(pos.y, centerY, boxHeight, maxForce))
  }

  /** The horizontal edge force does not depend on the vertical position, and
      the vertical one not on the horizontal position. */
  lemma EdgeForceAxesIndependent(x1: real, y1: real, x2: real, y2: real,
                                 centerX: real, centerY: real, boxWidth: real, boxHeight: real,
                                 maxForce: real)
    ensures x1 == x2 ==> EdgeForce(Vec(x1, y1), centerX, centerY, boxWidth, boxHeight, maxForce).x
                         == EdgeForce(Vec(x2, y2), centerX, centerY, boxWidth, boxHeight, maxForce).x
    ensures y1 == y2 ==> EdgeForce(Vec(x1, y1), centerX, centerY, boxWidth, boxHeight, maxForce).y
                         == EdgeForce(Vec(x2, y2), centerX, centerY, boxWidth, boxHeight, maxForce).y
  {
  }

  class Wanderer {
    var position: Vec
    var velocity: Vec
    var acceleration: Vec
    const maxSpeed: real
    const maxForce: real
    const boxWidth: real
    const boxHeight: real
    const centerX: real
    const centerY: real

    /** `new Wanderer()` on a canvas `width` wide whose fly zone ends at
        `flyZoneBottom`. */
    constructor (width: real, flyZoneBottom: real)
      ensures position == Vec(width / 3.0, flyZoneBottom / 2.0)
      ensures velocity == Zero && acceleration == Zero
      ensures maxSpeed == 6.0 && maxForce == 0.05
      ensures boxWidth == 0.66 * width && boxHeight == 0.4 * flyZoneBottom
      ensures centerX == width / 3.0 && centerY == flyZoneBottom / 2.0
    {
      position := Vec(width / 3.0, flyZoneBottom / 2.0);
      velocity := Zero;
      acceleration := Zero;
      maxSpeed := 6.0;
      maxForce := 0.05;
      boxWidth := 0.66 * width;
      boxHeight := 0.4 * flyZoneBottom;
      centerX := width / 3.0;
      centerY := flyZoneBottom / 2.0;
    }

    method StayInBox()
      modifies this`acceleration
      ensures acceleration ==
              Add(old(acceleration), EdgeForce(position, centerX, centerY, boxWidth, boxHeight, maxForce))
    {
      var edgeForce := EdgeForce(position, centerX, centerY, boxWidth, boxHeight, maxForce);
      acceleration := Add(acceleration, edgeForce);
    }

    /** One frame. `noiseForce` is the unit vector at the noise-chosen angle
        scaled to `maxForce`; the new position is appended to `history`. */
    method Update(noiseForce: Vec, ops: VectorOps, history: History)
      requires history.Valid()
      modifies this, history
      ensures history.Valid()
      ensures Motion(position, velocity, acceleration) ==
              WanderStep(this, Motion(old(position), old(velocity), old(acceleration)), noiseForce, ops)
      ensures history.pushed == old(history.pushed) + [position]
      ensures history.items == PushStep(old(history.items), position, history.capacity)
    {
      ghost var edge := EdgeForce(position, centerX, centerY, boxWidth, boxHeight, maxForce);
      acceleration := Add(acceleration, noiseForce);
      StayInBox();
      assert acceleration == Add(Add(old(acceleration), noiseForce), edge);
      velocity := Add(velocity, acceleration);
      velocity := ops.limit(velocity, maxSpeed);
      position := Add(position, velocity);
      acceleration := Scale(acceleration, 0.0);
      history.Push(position);
    }
  }

  /** The moving state of the wanderer. */
  datatype Motion = Motion(position: Vec, velocity: Vec, acceleration: Vec)

  /** One `update` of the wanderer's motion, with the given noise force. */
  function WanderStep(w: Wanderer, m: Motion, noiseForce: Vec, ops: VectorOps): Motion {
    var edge := EdgeForce(m.position, w.centerX, w.centerY, w.boxWidth, w.boxHeight, w.maxForce);
    var v := ops.limit(Add(m.velocity, Add(Add(m.acceleration, noiseForce), edge)), w.maxSpeed);
    Motion(Add(m.position, v), v, Zero)
  }

  /** The motion after one update per noise force, in order. */
  function Run(w: Wanderer, m: Motion, noiseForces: seq<Vec>, ops: VectorOps): Motion
    decreases |noiseForces|
  {
    if noiseForces == [] then m
    else WanderStep(w, Run(w, m, noiseForces[..|noiseForces| - 1], ops), noiseForces[|noiseForces| - 1], ops)
  }

  /** The positions reached by those updates, one per update, oldest first;
      the last is where the run ends. */
  function Trail(w: Wanderer, m: Motion, noiseForces: seq<Vec>, ops: VectorOps): (t: seq<Vec>)
    ensures |t| == |noiseForces|
    ensures noiseForces != [] ==> t[|t| - 1] == Run(w, m, noiseForces, ops).position
    decreases |noiseForces|
  {
    if noiseForces == [] then []
    else Trail(w, m, noiseForces[..|noiseForces| - 1], ops) + [Run(w, m, noiseForces, ops).position]
  }

  /** The warm-up of `setup`: the wanderer is updated once per history slot
      before any boid exists, so the history starts full, holding the
      wanderer's successive positions with the newest last, and the wanderer
      ends where that run of updates takes it. */
  method WarmUp(wanderer: Wanderer, history: History, noiseForces: seq<Vec>, ops: VectorOps)
    requires history.Valid() && history.pushed == []
    requires |noiseForces| == history.capacity
    modifies wanderer, history
    ensures history.Valid() && |history.items| == history.capacity
    ensures history.items == history.pushed
    ensures var m0 := Motion(old(wanderer.position), old(wanderer.velocity), old(wanderer.acceleration));
            history.items == Trail(wanderer, m0, noiseForces, ops) &&
            Motion(wanderer.position, wanderer.velocity, wanderer.acceleration) == Run(wanderer, m0, noiseForces, ops)
    ensures history.capacity > 0 ==> history.items[history.capacity - 1] == wanderer.position
  {
    ghost var m0 := Motion(wanderer.position, wanderer.velocity, wanderer.acceleration);
    var i := 0;
    while i < |noiseForces|
      invariant 0 <= i <= |noiseForces|
      invariant history.Valid()
      invariant history.pushed == Trail(wanderer, m0, noiseForces[..i], ops)
      invariant Motion(wanderer.position, wanderer.velocity, wanderer.acceleration) == Run(wanderer, m0, noiseForces[..i], ops)
    {
      assert noiseForces[..i + 1][..i] == noiseForces[..i];
      wanderer.Update(noiseForces[i], ops, history);
      i := i + 1;
    }
    assert noiseForces[..i] == noiseForces;
  }
}
