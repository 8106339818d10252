/** Boids and flocks: the attractor a boid follows, its delay index, its
    colour, the neighbour scans of cohesion and separation, and the per-frame
    force dispatch and integration. */
module Boids {
  import opened Vectors
  import opened Wandering
  import Settings
  import Brightness

  /** A boid's `type`: 'murm' follows the flock, 'free' only keeps apart. */
  datatype Mode = Free | Murm

  /** The mode drawn at creation: `random() > pctFree ? 'free' : 'murm'`.
      With the sketch's pctFree of 1 every boid starts cohesive. */
  function InitialMode(draw: real, pctFree: real): (m: Mode)
    requires 0.0 <= draw < 1.0
    ensures pctFree >= 1.0 ==> m == Murm
    ensures pctFree < 0.0 ==> m == Free
    ensures m == Free <==> draw > pctFree
  {
    if draw > pctFree then Free else Murm
  }

  /** The mode after a frame's flip draw: it flips when the draw exceeds 0.995. */
  function NextMode(m: Mode, draw: real): (m': Mode)
    ensures m' != m <==> draw > 0.995
  {
    if draw > 0.995 then (if m == Murm then Free else Murm) else m
  }

  /** `Math.floor(random(historyCount))` with `random(n) = n * draw`,
      `draw` in [0, 1). */
  function DelayDraw(draw: real, historyCount: nat): (d: nat)
    requires 0.0 <= draw < 1.0 && historyCount > 0
    ensures d < historyCount
  {
    var r := draw * historyCount as real;
    assert 0.0 <= r < historyCount as real by {
      ScaleBelowCount(draw, historyCount as real);
    }
    r.Floor
  }

  lemma ScaleBelowCount(draw: real, n: real)
    requires 0.0 <= draw < 1.0 && n > 0.0
    ensures 0.0 <= draw * n < n
  {
    assert n - draw * n == n * (1.0 - draw);
    assert n * (1.0 - draw) > 0.0;
  }

  /** Every history slot can be drawn. */
  lemma EveryDelayDrawable(k: nat, historyCount: nat)
    requires k < historyCount
    ensures DelayDraw(k as real / historyCount as real, historyCount) == k
  {
    var n := historyCount as real;
    assert (k as real / n) * n == k as real;
  }

  /** The point a boid is drawn to: its slot of the history when that slot
      exists, the live wanderer position otherwise. */
  function Attractor(history: seq<Vec>, delay: nat, live: Vec): (c: Vec)
    ensures delay < |history| ==> c == history[delay]
    ensures |history| <= delay ==> c == live
  {
    if |history| > delay then history[delay] else live
  }

  /** Once the history has been filled, every delay drawn for a boid selects
      a recorded position: the one pushed `capacity - 1 - delay` updates
      before the latest. */
  lemma AttractorOfFullHistory(pushed: seq<Vec>, capacity: nat, delay: nat, live: Vec)
    requires |pushed| >= capacity && delay < capacity
    ensures Attractor(Window(pushed, capacity), delay, live)
            == pushed[|pushed| - 1 - (capacity - 1 - delay)]
  {
  }

  datatype Rgb = Rgb(r: real, g: real, b: real)

  /** The fixed full-brightness colour of each line. */
  function BaseColor(lineId: string): Rgb {
    if lineId == "123" then Rgb(255.0, 60.0, 53.0)
    else if lineId == "456" then Rgb(67.0, 160.0, 71.0)
    else Rgb(249.0, 168.0, 37.0)
  }

  /** Boid.getColor: each channel of the line's colour scaled by
      brightness / 255. For a brightness in [0, 255] every channel lies
      between 0 and the base colour's. */
  function LineColor(lineId: string, brightness: real): (c: Rgb)
    ensures 0.0 <= brightness <= 255.0 ==>
              var base := BaseColor(lineId);
              0.0 <= c.r <= base.r && 0.0 <= c.g <= base.g && 0.0 <= c.b <= base.b
  {
    var base, t := BaseColor(lineId), brightness / 255.0;
    Rgb(base.r * t, base.g * t, base.b * t)
  }

  /** The colour is the base colour scaled linearly: black at brightness 0,
      the base colour at 255, additive in the brightness, and within
      [0, base] channel by channel for a brightness in [0, 255]. */
  lemma ColorScalesLinearly(lineId: string, b1: real, b2: real)
    ensures LineColor(lineId, 0.0) == Rgb(0.0, 0.0, 0.0)
    ensures LineColor(lineId, 255.0) == BaseColor(lineId)
    ensures var c1, c2, c := LineColor(lineId, b1), LineColor(lineId, b2), LineColor(lineId, b1 + b2);
            c == Rgb(c1.r + c2.r, c1.g + c2.g, c1.b + c2.b)
    ensures 0.0 <= b1 <= 255.0 ==>
              var c, base := LineColor(lineId, b1), BaseColor(lineId);
              0.0 <= c.r <= base.r && 0.0 <= c.g <= base.g && 0.0 <= c.b <= base.b
  {
  }

  /** The colour a boid is drawn in at any time of day stays between black
      and its line's full colour, channel by channel, and on the hour it is
      the base colour scaled by that hour's table entry. */
  lemma FrameColorInRange(lineId: string, hour: int, minute: int)
    requires Brightness.IsHour(hour) && Brightness.IsMinute(minute)
    ensures var c, base := LineColor(lineId, Brightness.RidershipBrightness(lineId, hour, minute)), BaseColor(lineId);
            0.0 <= c.r <= base.r && 0.0 <= c.g <= base.g && 0.0 <= c.b <= base.b
    ensures LineColor(lineId, Brightness.RidershipBrightness(lineId, hour, 0)) ==
            LineColor(lineId, Brightness.LineTable(lineId)[hour] as real)
  {
    ColorScalesLinearly(lineId, Brightness.RidershipBrightness(lineId, hour, minute), 0.0);
  }

  /** p5's seek: steer toward `target` at full speed, the change of velocity
      limited to the force cap. */
  function Seek(ops: VectorOps, position: Vec, velocity: Vec, maxspeed: real, maxforce: real,
                target: Vec): Vec
  {
    var desired := Scale(ops.normalize(Sub(target, position)), maxspeed);
    ops.limit(Sub(desired, velocity), maxforce)
  }

  /** Seeking depends only on where the target lies relative to the boid:
      moving both by the same offset steers the same way. */
  lemma SeekTranslation(ops: VectorOps, position: Vec, velocity: Vec, maxspeed: real, maxforce: real,
                        target: Vec, offset: Vec)
    ensures Seek(ops, Add(position, offset), velocity, maxspeed, maxforce, Add(target, offset))
            == Seek(ops, position, velocity, maxspeed, maxforce, target)
  {
    assert Sub(Add(target, offset), Add(position, offset)) == Sub(target, position);
  }

  /** The square of a distance bound. */
  function Sq(r: real): real {
    r * r
  }

  /** The peers at a non-zero distance whose square is below `radiusSq`
      (for a radius r >= 0 and radiusSq = r * r: strictly closer than r), in
      flock order. */
  function Within(p: Vec, peers: seq<Vec>, radiusSq: real): (ns: seq<Vec>)
    ensures |ns| <= |peers|
  {
    if peers == [] then []
    else
      var q := peers[|peers| - 1];
      var rest := Within(p, peers[..|peers| - 1], radiusSq);
      if 0.0 < DistSq(p, q) < radiusSq then rest + [q] else rest
  }

  /** A peer is a neighbour exactly when it is in the flock at a squared
      distance in (0, radiusSq). */
  lemma {:induction false} WithinMembers(p: Vec, peers: seq<Vec>, radiusSq: real, q: Vec)
    ensures q in Within(p, peers, radiusSq) <==> q in peers && 0.0 < DistSq(p, q) < radiusSq
    decreases |peers|
  {
    if peers != [] {
      var init := peers[..|peers| - 1];
      WithinMembers(p, init, radiusSq, q);
      assert peers == init + [peers[|peers| - 1]];
    }
  }

  /** No peer in range: no neighbours. */
  lemma NoneWithin(p: Vec, peers: seq<Vec>, radiusSq: real)
    requires forall i :: 0 <= i < |peers| ==> !(0.0 < DistSq(p, peers[i]) < radiusSq)
    ensures Within(p, peers, radiusSq) == []
  {
    if Within(p, peers, radiusSq) != [] {
      var q := Within(p, peers, radiusSq)[0];
      WithinMembers(p, peers, radiusSq, q);
      assert false;
    }
  }

  function SumAll(ps: seq<Vec>): Vec {
    if ps == [] then Zero else Add(SumAll(ps[..|ps| - 1]), ps[|ps| - 1])
  }

  /** The separation contributions: for each neighbour the direction away
      from it, weighted by the inverse distance (normalize(diff) / d,
      which is diff / d^2). */
  function AwaySum(p: Vec, ns: seq<Vec>): Vec {
    if ns == [] then Zero
    else
      var q := ns[|ns| - 1];
      var d2 := DistSq(p, q);
      Add(AwaySum(p, ns[..|ns| - 1]), if d2 != 0.0 then Div(Sub(p, q), d2) else Zero)
  }

  lemma WithinStep(p: Vec, peers: seq<Vec>, q: Vec, radiusSq: real)
    ensures Within(p, peers + [q], radiusSq) ==
            if 0.0 < DistSq(p, q) < radiusSq then Within(p, peers, radiusSq) + [q]
            else Within(p, peers, radiusSq)
  {
    assert (peers + [q])[..|peers|] == peers;
  }

  lemma SumAllStep(ns: seq<Vec>, q: Vec)
    ensures SumAll(ns + [q]) == Add(SumAll(ns), q)
  {
    assert (ns + [q])[..|ns|] == ns;
  }

  lemma AwaySumStep(p: Vec, ns: seq<Vec>, q: Vec)
    requires DistSq(p, q) != 0.0
    ensures AwaySum(p, ns + [q]) == Add(AwaySum(p, ns), Div(Sub(p, q), DistSq(p, q)))
  {
    assert (ns + [q])[..|ns|] == ns;
  }

  const NeighbourDist: real := 50.0

  /** Boid.cohesion: seek the centroid of the neighbours within 50; no
      neighbour gives the zero vector. */
  function CohesionForce(ops: VectorOps, position: Vec, velocity: Vec, maxspeed: real,
                         maxforce: real, peers: seq<Vec>): Vec
  {
    var ns := Within(position, peers, Sq(NeighbourDist));
    if |ns| > 0 then Seek(ops, position, velocity, maxspeed, maxforce, Div(SumAll(ns), |ns| as real))
    else Zero
  }

  /** Boid.separate: the averaged away-vector of the neighbours within
      `desired`, turned into a full-speed steering force when it is not zero.
      No neighbour gives the zero vector. */
  function SeparationForce(ops: VectorOps, position: Vec, velocity: Vec, maxspeed: real,
                           maxforce: real, peers: seq<Vec>, desired: real): Vec
    requires desired >= 0.0
  {
    SeparationFrom(ops, position, velocity, maxspeed, maxforce, Within(position, peers, Sq(desired)))
  }

  /** The separation force given the neighbours in range. */
  function SeparationFrom(ops: VectorOps, position: Vec, velocity: Vec, maxspeed: real,
                          maxforce: real, ns: seq<Vec>): Vec
  {
    var steer := if |ns| > 0 then Div(AwaySum(position, ns), |ns| as real) else Zero;
    if steer != Zero then ops.limit(Sub(Scale(ops.normalize(steer), maxspeed), velocity), maxforce)
    else steer
  }

  /** With no peer strictly within (0, 50), cohesion is the zero vector; with
      no peer strictly within (0, desired), so is separation. */
  lemma NoNeighbourNoForce(ops: VectorOps, position: Vec, velocity: Vec, maxspeed: real,
                           maxforce: real, peers: seq<Vec>, desired: real)
    requires desired >= 0.0
    ensures (forall i :: 0 <= i < |peers| ==> !(0.0 < DistSq(position, peers[i]) < Sq(NeighbourDist)))
            ==> CohesionForce(ops, position, velocity, maxspeed, maxforce, peers) == Zero
    ensures (forall i :: 0 <= i < |peers| ==> !(0.0 < DistSq(position, peers[i]) < Sq(desired)))
            ==> SeparationForce(ops, position, velocity, maxspeed, maxforce, peers, desired) == Zero
  {
    if forall i :: 0 <= i < |peers| ==> !(0.0 < DistSq(position, peers[i]) < Sq(NeighbourDist)) {
      NoneWithin(position, peers, Sq(NeighbourDist));
    }
    if forall i :: 0 <= i < |peers| ==> !(0.0 < DistSq(position, peers[i]) < Sq(desired)) {
      NoneWithin(position, peers, Sq(desired));
    }
  }

  /** A boid that shares the flock with one peer in range steers toward that
      peer; its own entry never counts, being at distance 0. */
  lemma CohesionWithOnePeer(ops: VectorOps, position: Vec, velocity: Vec, maxspeed: real,
                            maxforce: real, peers: seq<Vec>, k: nat)
    requires k < |peers| && 0.0 < DistSq(position, peers[k]) < Sq(NeighbourDist)
    requires forall j :: 0 <= j < |peers| && j != k ==> !(0.0 < DistSq(position, peers[j]) < Sq(NeighbourDist))
    ensures CohesionForce(ops, position, velocity, maxspeed, maxforce, peers)
            == Seek(ops, position, velocity, maxspeed, maxforce, peers[k])
  {
    var q := peers[k];
    WithinOnlyOne(position, peers, Sq(NeighbourDist), k);
    assert SumAll([q]) == q by {
      assert [q][..0] == [];
    }
  }

  /** When exactly the k-th peer is in range, it is the only neighbour. */
  lemma {:induction false} WithinOnlyOne(p: Vec, peers: seq<Vec>, radiusSq: real, k: nat)
    requires k < |peers| && 0.0 < DistSq(p, peers[k]) < radiusSq
    requires forall j :: 0 <= j < |peers| && j != k ==> !(0.0 < DistSq(p, peers[j]) < radiusSq)
    ensures Within(p, peers, radiusSq) == [peers[k]]
    decreases |peers|
  {
    var init := peers[..|peers| - 1];
    assert forall j :: 0 <= j < |init| ==> init[j] == peers[j];
    if k == |peers| - 1 {
      NoneWithin(p, init, radiusSq);
    } else {
      WithinOnlyOne(p, init, radiusSq, k);
    }
  }

  class Boid {
    var position: Vec
    var velocity: Vec
    var acceleration: Vec
    const r: real
    var maxspeed: real
    var maxforce: real
    var angle: real
    const flapSpeed: real
    var mode: Mode
    const ctrMult: real
    const sepMult: real
    const cohMult: real
    const borderz: bool
    const lineId: string
    var delay: nat

    /** `new Boid(x, y, ...)`. The random draws are parameters: `vx`, `vy`
        from random(-1, 1), `angle` from random(PI/18, PI/3), `modeDraw` and
        `delayDraw` from random(). The speed and force caps and the history
        capacity are the load-time tuning. */
    constructor (x: real, y: real, ctrMult: real, sepMult: real, cohMult: real, lineId: string,
                 tuning: Settings.Tuning, vx: real, vy: real, angle: real, modeDraw: real, delayDraw: real)
      requires 0.0 <= modeDraw < 1.0 && 0.0 <= delayDraw < 1.0 && tuning.historyCount > 0
      ensures position == Vec(x, y) && velocity == Vec(vx, vy) && acceleration == Zero
      ensures r == 3.0 && maxspeed == tuning.birdMaxSpeed && maxforce == tuning.birdMaxForce
      ensures this.angle == angle && flapSpeed == 0.1
      ensures mode == InitialMode(modeDraw, tuning.pctFree)
      ensures this.ctrMult == ctrMult && this.sepMult == sepMult && this.cohMult == cohMult
      ensures borderz && this.lineId == lineId
      ensures delay == DelayDraw(delayDraw, tuning.historyCount) && delay < tuning.historyCount
    {
      acceleration := Zero;
      velocity := Vec(vx, vy);
      position := Vec(x, y);
      r := 3.0;
      maxspeed := tuning.birdMaxSpeed;
      maxforce := tuning.birdMaxForce;
      this.angle := angle;
      flapSpeed := 0.1;
      mode := InitialMode(modeDraw, tuning.pctFree);
      this.ctrMult := ctrMult;
      this.sepMult := sepMult;
      this.cohMult := cohMult;
      borderz := true;
      this.lineId := lineId;
      delay := DelayDraw(delayDraw, tuning.historyCount);
    }

    /** Boid.cohesion over the flock's current positions. */
    method Cohesion(boids: seq<Boid>, ops: VectorOps) returns (steer: Vec)
      ensures steer == CohesionForce(ops, position, velocity, maxspeed, maxforce, Positions(boids))
    {
      var neighbordist := NeighbourDist;
      var neighbordistSq := Sq(neighbordist);
      var sum := Zero;
      var count := 0;
      var i := 0;
      ghost var ps := Positions(boids);
      ghost var ns: seq<Vec> := [];
      while i < |boids|
        invariant 0 <= i <= |boids|
        invariant ns == Within(position, ps[..i], neighbordistSq)
        invariant sum == SumAll(ns) && count == |ns|
      {
        var q := boids[i].position;
        var d2 := DistSq(position, q);
        if 0.0 < d2 && d2 < neighbordistSq {
          assert ns + [q] == Within(position, ps[..i + 1], neighbordistSq) &&
                 Add(sum, q) == SumAll(ns + [q]) by {
            assert ps[..i + 1] == ps[..i] + [q];
            WithinStep(position, ps[..i], q, neighbordistSq);
            SumAllStep(ns, q);
          }
          sum := Add(sum, q);
          count := count + 1;
          ns := ns + [q];
        } else {
          assert ns == Within(position, ps[..i + 1], neighbordistSq) by {
            assert ps[..i + 1] == ps[..i] + [q];
            WithinStep(position, ps[..i], q, neighbordistSq);
          }
        }
        i := i + 1;
      }
      assert ns == Within(position, Positions(boids), Sq(NeighbourDist)) by {
        assert ps[..i] == ps;
      }
      if count > 0 {
        sum := Div(sum, count as real);
        steer := Seek(ops, position, velocity, maxspeed, maxforce, sum);
        return;
      }
      steer := Zero;
    }

    /** Boid.separate over the flock's current positions; `size` is the
        tuning's agent size and the separation distance is four times it. */
    method Separate(boids: seq<Boid>, ops: VectorOps, size: real) returns (steer: Vec)
      requires size >= 0.0
      ensures steer == SeparationForce(ops, position, velocity, maxspeed, maxforce, Positions(boids), size * 4.0)
    {
      var desiredseparation := size * 4.0;
      var separationSq := Sq(desiredseparation);
      steer := Zero;
      var count := 0;
      var i := 0;
      ghost var ps := Positions(boids);
      ghost var ns: seq<Vec> := [];
      while i < |boids|
        invariant 0 <= i <= |boids|
        invariant ns == Within(position, ps[..i], separationSq)
        invariant steer == AwaySum(position, ns) && count == |ns|
      {
        var q := boids[i].position;
        var d2 := DistSq(position, q);
        if 0.0 < d2 && d2 < separationSq {
          var diff := Div(Sub(position, q), d2);
          assert ns + [q] == Within(position, ps[..i + 1], separationSq) &&
                 Add(steer, diff) == AwaySum(position, ns + [q]) by {
            assert ps[..i + 1] == ps[..i] + [q];
            WithinStep(position, ps[..i], q, separationSq);
            AwaySumStep(position, ns, q);
          }
          steer := Add(steer, diff);
          count := count + 1;
          ns := ns + [q];
        } else {
          assert ns == Within(position, ps[..i + 1], separationSq) by {
            assert ps[..i + 1] == ps[..i] + [q];
            WithinStep(position, ps[..i], q, separationSq);
          }
        }
        i := i + 1;
      }
      assert ns == Within(position, Positions(boids), Sq(size * 4.0)) by {
        assert ps[..i] == ps;
      }
      if count > 0 {
        steer := Div(steer, count as real);
      }
      if steer != Zero {
        steer := Scale(ops.normalize(steer), maxspeed);
        steer := Sub(steer, velocity);
        steer := ops.limit(steer, maxforce);
      }
    }

    /** Boid.center: the normalized offset of this boid from its attractor,
        negated, so that it points toward the attractor. */
    method Center(history: History, wanderer: Wanderer, ops: VectorOps) returns (diff: Vec)
      ensures diff == CenterForce(ops, position, Attractor(history.items, delay, wanderer.position))
    {
      var center: Vec;
      if |history.items| > delay {
        center := history.items[delay];
      } else {
        center := wanderer.position;
      }
      diff := Sub(position, center);
      diff := ops.normalize(diff);
      diff := Scale(diff, -1.0);
    }

    /** Boid.flock: separation always, cohesion and centering only in 'murm'
        mode, each weighted by its multiplier; then the mode may flip. */
    method Flock(boids: seq<Boid>, history: History, wanderer: Wanderer, ops: VectorOps,
                 size: real, flipDraw: real)
      requires size >= 0.0
      modifies this`acceleration, this`mode
      ensures var ps := old(Positions(boids));
              var sep := Scale(SeparationForce(ops, position, velocity, maxspeed, maxforce, ps, size * 4.0), sepMult);
              var coh := Scale(CohesionForce(ops, position, velocity, maxspeed, maxforce, ps), cohMult);
              var ctr := Scale(CenterForce(ops, position, Attractor(history.items, delay, wanderer.position)), ctrMult);
              acceleration == if old(mode) == Murm then Add(Add(Add(old(acceleration), sep), coh), ctr)
                              else Add(old(acceleration), sep)
      ensures mode == NextMode(old(mode), flipDraw)
    {
      var sep := Separate(boids, ops, size);
      var coh := Cohesion(boids, ops);
      var ctr := Center(history, wanderer, ops);
      sep := Scale(sep, sepMult);
      coh := Scale(coh, cohMult);
      ctr := Scale(ctr, ctrMult);
      acceleration := Add(acceleration, sep);
      if mode == Murm {
        acceleration := Add(acceleration, coh);
        acceleration := Add(acceleration, ctr);
      }
      if flipDraw > 0.995 {
        mode := if mode == Murm then Free else Murm;
      }
    }

    /** Boid.update: integrate, advance the wing angle, reset the
        acceleration and, when `rerollDraw` exceeds 0.9995, redraw the delay
        from `delayDraw`. */
    method Update(ops: VectorOps, historyCount: nat, rerollDraw: real, delayDraw: real)
      requires historyCount > 0 && 0.0 <= delayDraw < 1.0
      modifies this`velocity, this`angle, this`position, this`acceleration, this`delay
      ensures var v := Add(old(velocity), old(acceleration));
              velocity == ops.limit(v, maxspeed) &&
              angle == old(angle) + ops.mag(old(acceleration))
                       - (if v.y < 0.0 then flapSpeed * (v.y * 0.2) else 0.0)
      ensures position == Add(old(position), velocity)
      ensures acceleration == Zero
      ensures delay == if rerollDraw > 0.9995 then DelayDraw(delayDraw, historyCount) else old(delay)
      ensures old(delay) < historyCount ==> delay < historyCount
    {
      velocity := Add(velocity, acceleration);
      angle := angle + ops.mag(acceleration);
      if velocity.y < 0.0 {
        angle := angle - flapSpeed * (velocity.y * 0.2);
      }
      velocity := ops.limit(velocity, maxspeed);
      position := Add(position, velocity);
      acceleration := Scale(acceleration, 0.0);
      if rerollDraw > 0.9995 {
        delay := DelayDraw(delayDraw, historyCount);
      }
    }
  }

  /** Boid.center's steering: the normalized vector from `position` toward the
      attractor. */
  function CenterForce(ops: VectorOps, position: Vec, attractor: Vec): Vec {
    Scale(ops.normalize(Sub(position, attractor)), -1.0)
  }

  /** The centering force depends only on where the attractor lies relative
      to the boid. */
  lemma CenterTranslation(ops: VectorOps, position: Vec, attractor: Vec, offset: Vec)
    ensures CenterForce(ops, Add(position, offset), Add(attractor, offset)) == CenterForce(ops, position, attractor)
  {
    assert Sub(Add(position, offset), Add(attractor, offset)) == Sub(position, attractor);
  }

  /** The positions of a sequence of boids, in order. */
  ghost function Positions(boids: seq<Boid>): (ps: seq<Vec>)
    reads boids`position
    ensures |ps| == |boids|
    ensures forall i :: 0 <= i < |boids| ==> ps[i] == boids[i].position
  {
    if boids == [] then [] else Positions(boids[..|boids| - 1]) + [boids[|boids| - 1].position]
  }

  /** A flock: an ordered list of boids of one line and the multipliers
      shared by its members. */
  class Flock {
    var boids: seq<Boid>
    const lineId: string
    const ctrMult: real
    const sepMult: real
    const cohMult: real

    constructor (lineId: string, ctrMult: real, sepMult: real, cohMult: real)
      ensures boids == [] && this.lineId == lineId
      ensures this.ctrMult == ctrMult && this.sepMult == sepMult && this.cohMult == cohMult
    {
      boids := [];
      this.lineId := lineId;
      this.ctrMult := ctrMult;
      this.sepMult := sepMult;
      this.cohMult := cohMult;
    }

    /** Flock.addBoid: append at the end; earlier members keep their places
        and their state. */
    method AddBoid(b: Boid)
      modifies this`boids
      ensures boids == old(boids) + [b]
      ensures |boids| == |old(boids)| + 1 && boids[|boids| - 1] == b
      ensures forall i :: 0 <= i < |old(boids)| ==> boids[i] == old(boids)[i]
      ensures unchanged(old(boids))
    {
      boids := boids + [b];
    }
  }
}
