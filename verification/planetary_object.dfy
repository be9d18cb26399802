/** A simulated body (`PlanetaryObject` in helpers/sprites.py): its state, the pairwise
    gravitational pull, the orbit trim done while drawing, and mouse dragging. The per-step
    integrator is in module `Integrator` and the saved record in module `Fields`. */
module PlanetaryObject {
  import opened Trig
  import opened Input
  import opened History

  /** Astronomical unit, in metres. */
  const AU: real := 149600000000.0
  /** Gravitational constant, 6.67428e-11. */
  const G: real := 0.0000000000667428
  /** Seconds per simulation step: 60 * 60 * 12, half a day. */
  const TIMESTEP: real := 43200.0
  /** Screen pixels per metre: 200 pixels per AU. */
  const SCALE: real := 200.0 / AU
  /** Orbit points kept by the trim in `DrawOrbit`. */
  const MAX_ORBIT_POINTS: nat := 200

  /** A position in metres. */
  type Point = (real, real)

  /** The state of one body. The first nineteen fields are the ones the saved record carries;
      `lastPos`, `dragging` and `focused` are interaction state that is never saved. */
  datatype Body = Body(
    name: string,
    x: real,
    y: real,
    radius: real,
    color: string,
    mass: real,
    width: int,
    height: int,
    orbit: seq<Point>,
    sun: bool,
    distanceToSun: real,
    xVel: real,
    yVel: real,
    totalFx: real,
    totalFy: real,
    velocity: real,
    ke: seq<real>,
    gpe: seq<real>,
    distance: seq<real>,
    lastPos: Pixel,
    dragging: bool,
    focused: bool)

  /** A body as the constructor leaves it: at rest, no history, not a sun, not dragged. */
  function NewPlanet(name: string, x: real, y: real, radius: real, color: string, mass: real,
                     width: int, height: int): (b: Body)
    ensures b.name == name && b.x == x && b.y == y && b.radius == radius && b.color == color
    ensures b.mass == mass && b.width == width && b.height == height
    ensures b.xVel == b.yVel == b.velocity == b.totalFx == b.totalFy == b.distanceToSun == 0.0
    ensures b.orbit == [] && b.ke == b.gpe == b.distance == []
    ensures !b.sun && !b.dragging && !b.focused && b.lastPos == Pixel(0, 0)
  {
    Body(name, x, y, radius, color, mass, width, height, [], false, 0.0, 0.0, 0.0, 0.0, 0.0, 0.0,
         [], [], [], Pixel(0, 0), false, false)
  }

  // ---------------------------------------------------------------------------------------
  // Pairwise attraction

  /** Squared distance from (x, y) to `o`. */
  function DistSq(x: real, y: real, o: Body): real {
    (o.x - x) * (o.x - x) + (o.y - y) * (o.y - y)
  }

  /** `o` is not at (x, y); otherwise the force divides by zero. */
  predicate Apart(x: real, y: real, o: Body) {
    o.x != x || o.y != y
  }

  /** The potential energy `g` and distance `d` recorded against the sun `o` by a body of mass
      `m` at (x, y) are the ones Newton's law gives: `d` is the positive Euclidean distance and
      `g` is -G m M / d. */
  ghost predicate SampleFits(x: real, y: real, m: real, o: Body, g: real, d: real) {
    && d > 0.0
    && d * d == DistSq(x, y, o)
    && g == -(G * m * o.mass) / d
  }

  /** A square is never negative, and positive for a non-zero number. */
  lemma SquareFacts(a: real)
    ensures a * a >= 0.0
    ensures a != 0.0 ==> a * a > 0.0
  {
    if a < 0.0 {
      assert a * a == (-a) * (-a);
    }
  }

  /** The squared distance between two distinct points is positive. */
  lemma SumOfSquaresPositive(a: real, b: real)
    requires a != 0.0 || b != 0.0
    ensures a * a + b * b > 0.0
  {
    SquareFacts(a);
    SquareFacts(b);
  }

  /** The distance between two distinct points is positive and squares back to the sum of the
      squared offsets. (Arithmetic is kept out of this lemma: with `Sound` in scope the solver
      gives up on products.) */
  lemma RootFacts(f: Functions, dx: real, dy: real)
    requires Sound(f) && (dx != 0.0 || dy != 0.0)
    ensures Root(f, dx * dx + dy * dy) > 0.0
    ensures Root(f, dx * dx + dy * dy) * Root(f, dx * dx + dy * dy) == dx * dx + dy * dy
  {
    SumOfSquaresPositive(dx, dy);
    assert Root(f, dx * dx + dy * dy) > 0.0;
  }

  /** The same facts stated on `DistSq`, whose products the solver's arithmetic does not match
      against the offsets once they are spelled out. */
  lemma DistanceFacts(f: Functions, x: real, y: real, o: Body)
    requires Sound(f) && Apart(x, y, o)
    ensures Root(f, DistSq(x, y, o)) > 0.0
    ensures Root(f, DistSq(x, y, o)) * Root(f, DistSq(x, y, o)) == DistSq(x, y, o)
  {
    var dx, dy := o.x - x, o.y - y;
    RootFacts(f, dx, dy);
    assert DistSq(x, y, o) == dx * dx + dy * dy;
  }

  /** The components `attraction` returns for a body of mass `m` at (x, y) pulled by `o`:
      `[fx, fy]`, or `[fx, fy, -force * distance, distance]` when `o` is a sun. */
  function Pull(f: Functions, x: real, y: real, m: real, o: Body): (c: seq<real>)
    requires Sound(f) && Apart(x, y, o)
    ensures |c| == if o.sun then 4 else 2
  {
    var dx := o.x - x;
    var dy := o.y - y;
    var d := Root(f, DistSq(x, y, o));
    DistanceFacts(f, x, y, o);
    var force := Force(m, o.mass, d);
    var theta := f.atan2(dy, dx);
    if !o.sun then [f.cos(theta) * force, f.sin(theta) * force]
    else [f.cos(theta) * force, f.sin(theta) * force, force * d * -1.0, d]
  }

  /** Newton's law of gravitation: the magnitude of the pull between masses `m` and `mo` at
      distance `d`. */
  function Force(m: real, mo: real, d: real): real
    requires d != 0.0
  {
    G * m * mo / (d * d)
  }

  /** The force times the distance, negated, is the potential energy -G m mo / d. */
  lemma PotentialArith(m: real, mo: real, d: real)
    requires d > 0.0
    ensures Force(m, mo, d) * d * -1.0 == -(G * m * mo) / d
  {
    var a := G * m * mo;
    var q := a / (d * d);
    assert Force(m, mo, d) == q;
    assert q * (d * d) == a;
    assert (q * d) * d == a;
    assert (a / d) * d == a;
    assert q * d == a / d;
  }

  /** For a sun, the potential-energy and distance components are the ones Newton's law gives. */
  lemma PullSample(f: Functions, x: real, y: real, m: real, o: Body)
    requires Sound(f) && Apart(x, y, o) && o.sun
    ensures var c := Pull(f, x, y, m, o); SampleFits(x, y, m, o, c[2], c[3])
  {
    DistanceFacts(f, x, y, o);
    PotentialArith(m, o.mass, Root(f, DistSq(x, y, o)));
  }

  /** The body after `attraction` together with the list it returns. */
  datatype Attracted = Attracted(body: Body, comps: seq<real>)

  /** `attraction`: the pull of `o` on `me`. Two components for an ordinary body; for a sun also
      the potential energy and the distance, and only then is `distanceToSun` written. */
  function Attraction(f: Functions, me: Body, o: Body): (r: Attracted)
    requires Sound(f) && Apart(me.x, me.y, o)
    ensures |r.comps| == if o.sun then 4 else 2
    ensures !o.sun ==> r.body == me
    ensures o.sun ==> r.body == me.(distanceToSun := r.comps[3])
  {
    var c := Pull(f, me.x, me.y, me.mass, o);
    if o.sun then Attracted(me.(distanceToSun := c[3]), c) else Attracted(me, c)
  }

  /** For a sun, `attraction` returns -G m M / distance as its third component and the positive
      distance as its fourth, stores that distance in `distanceToSun`, and the third component
      is negative when both masses are positive. */
  lemma AttractionSample(f: Functions, me: Body, o: Body)
    requires Sound(f) && Apart(me.x, me.y, o) && o.sun
    ensures var r := Attraction(f, me, o);
            && SampleFits(me.x, me.y, me.mass, o, r.comps[2], r.comps[3])
            && r.body.distanceToSun == r.comps[3] > 0.0
            && (me.mass > 0.0 && o.mass > 0.0 ==> r.comps[2] < 0.0)
  {
    var c := Attraction(f, me, o).comps;
    PullSample(f, me.x, me.y, me.mass, o);
    if me.mass > 0.0 && o.mass > 0.0 {
      SampleIsNegative(me.x, me.y, me.mass, o, c[2], c[3]);
    }
  }

  /** A potential-energy sample is negative whenever both masses are positive. */
  lemma SampleIsNegative(x: real, y: real, m: real, o: Body, g: real, d: real)
    requires SampleFits(x, y, m, o, g, d)
    requires m > 0.0 && o.mass > 0.0
    ensures g < 0.0
  {
    var p := G * m * o.mass;
    assert p > 0.0 by {
      assert G * m > 0.0;
    }
    assert p / d > 0.0;
  }

  // ---------------------------------------------------------------------------------------
  // The orbit trim inside `draw`

  /** The orbit cut to its last MAX_ORBIT_POINTS points, the state effect of `draw`. */
  function TrimOrbit(b: Body): Body {
    b.(orbit := KeepLast(b.orbit, MAX_ORBIT_POINTS))
  }

  /** The trim keeps the last min(n, MAX_ORBIT_POINTS) points of an orbit of n points, in order,
      and changes nothing else of the body. */
  lemma TrimOrbitKeepsLast(b: Body)
    ensures var r := TrimOrbit(b);
            && r == b.(orbit := r.orbit)
            && |r.orbit| == Min(|b.orbit|, MAX_ORBIT_POINTS)
            && r.orbit == b.orbit[|b.orbit| - |r.orbit|..]
  {
  }

  /** Where a point of the orbit is drawn: scaled to pixels, centred, and shifted by the camera. */
  function ToScreen(p: Point, width: int, height: int, camOffset: Pixel): Point {
    (p.0 * SCALE + width as real / 2.0 + camOffset.x as real,
     p.1 * SCALE + height as real / 2.0 + camOffset.y as real)
  }

  /** The screen positions of a run of orbit points, in order. */
  function ScreenTrail(ps: seq<Point>, width: int, height: int, camOffset: Pixel): (r: seq<Point>)
    ensures |r| == |ps|
    ensures forall k :: 0 <= k < |ps| ==> r[k] == ToScreen(ps[k], width, height, camOffset)
  {
    seq(|ps|, k requires 0 <= k < |ps| => ToScreen(ps[k], width, height, camOffset))
  }

  /** `trail` is the screen image of the |trail| points of `ps` that end just before index `hi`. */
  predicate Images(trail: seq<Point>, ps: seq<Point>, hi: nat, width: int, height: int, camOffset: Pixel) {
    && |trail| <= hi <= |ps|
    && forall j :: 0 <= j < |trail| ==> trail[j] == ToScreen(ps[hi - |trail| + j], width, height, camOffset)
  }

  /** One pass of the loop of `draw` over point `k`: its screen image is appended to the trail,
      and when the trail passes MAX_ORBIT_POINTS both the trail and the stored orbit keep their
      last MAX_ORBIT_POINTS entries (`[-max_orbit_points:]`). Returns the orbit and the trail. */
  function Pass(ps: seq<Point>, width: int, height: int, camOffset: Pixel, k: nat,
                kept: seq<Point>, trail: seq<Point>): (seq<Point>, seq<Point>)
    requires k < |ps|
  {
    var t := trail + [ToScreen(ps[k], width, height, camOffset)];
    if |t| > MAX_ORBIT_POINTS then (KeepLast(kept, MAX_ORBIT_POINTS), KeepLast(t, MAX_ORBIT_POINTS))
    else (kept, t)
  }

  /** What holds after `k` passes: the trail is the screen image of the last min(k,
      MAX_ORBIT_POINTS) points seen, and the orbit has been cut once more than MAX_ORBIT_POINTS
      points were seen. */
  predicate Drawn(ps: seq<Point>, width: int, height: int, camOffset: Pixel, k: nat,
                  kept: seq<Point>, trail: seq<Point>) {
    && k <= |ps|
    && |trail| == Min(k, MAX_ORBIT_POINTS)
    && Images(trail, ps, k, width, height, camOffset)
    && kept == if k > MAX_ORBIT_POINTS then KeepLast(ps, MAX_ORBIT_POINTS) else ps
  }

  /** Each pass keeps `Drawn`. */
  lemma PassKeepsDrawn(ps: seq<Point>, width: int, height: int, camOffset: Pixel, k: nat,
                       kept: seq<Point>, trail: seq<Point>)
    requires k < |ps| && Drawn(ps, width, height, camOffset, k, kept, trail)
    ensures var next := Pass(ps, width, height, camOffset, k, kept, trail);
            Drawn(ps, width, height, camOffset, k + 1, next.0, next.1)
  {
    TrailStep(ps, width, height, camOffset, k, trail);
    var t := trail + [ToScreen(ps[k], width, height, camOffset)];
    if |t| > MAX_ORBIT_POINTS {
      assert KeepLast(t, MAX_ORBIT_POINTS) == t[|t| - MAX_ORBIT_POINTS..];
      TrimAgain(ps, kept, k);
    }
  }

  /** The screen image of point `k` appended to the trail, cut back to MAX_ORBIT_POINTS, is the
      image of the last points seen. */
  lemma TrailStep(ps: seq<Point>, width: int, height: int, camOffset: Pixel, k: nat, trail: seq<Point>)
    requires k < |ps| && |trail| == Min(k, MAX_ORBIT_POINTS)
    requires Images(trail, ps, k, width, height, camOffset)
    ensures var t := trail + [ToScreen(ps[k], width, height, camOffset)];
            var t' := if |t| > MAX_ORBIT_POINTS then t[|t| - MAX_ORBIT_POINTS..] else t;
            |t'| == Min(k + 1, MAX_ORBIT_POINTS) && Images(t', ps, k + 1, width, height, camOffset)
  {
    var t := trail + [ToScreen(ps[k], width, height, camOffset)];
    assert Images(t, ps, k + 1, width, height, camOffset) by {
      forall j | 0 <= j < |t|
        ensures t[j] == ToScreen(ps[k + 1 - |t| + j], width, height, camOffset)
      {
        if j < |trail| {
          assert t[j] == trail[j];
        }
      }
    }
    if |t| > MAX_ORBIT_POINTS {
      var t' := t[1..];
      assert t' == t[|t| - MAX_ORBIT_POINTS..];
      forall j | 0 <= j < |t'|
        ensures t'[j] == ToScreen(ps[k + 1 - |t'| + j], width, height, camOffset)
      {
        assert t'[j] == t[j + 1];
      }
    }
  }

  /** The trail built from the whole orbit is the screen image of the kept points. */
  lemma TrailIsScreenTrail(trail: seq<Point>, ps: seq<Point>, width: int, height: int, camOffset: Pixel)
    requires Images(trail, ps, |ps|, width, height, camOffset)
    requires |trail| == Min(|ps|, MAX_ORBIT_POINTS)
    ensures trail == ScreenTrail(KeepLast(ps, MAX_ORBIT_POINTS), width, height, camOffset)
  {
    var kept := KeepLast(ps, MAX_ORBIT_POINTS);
    var st := ScreenTrail(kept, width, height, camOffset);
    forall j | 0 <= j < |trail|
      ensures trail[j] == st[j]
    {
      assert kept[j] == ps[|ps| - |trail| + j];
    }
  }

  /** The orbit trim of the drawing loop, which runs on every pass from point MAX_ORBIT_POINTS
      on: the first trim leaves the last MAX_ORBIT_POINTS points, and later ones change nothing. */
  lemma TrimAgain(orbit: seq<Point>, kept: seq<Point>, k: nat)
    requires MAX_ORBIT_POINTS <= k < |orbit|
    requires kept == if k > MAX_ORBIT_POINTS then KeepLast(orbit, MAX_ORBIT_POINTS) else orbit
    ensures KeepLast(kept, MAX_ORBIT_POINTS) == KeepLast(orbit, MAX_ORBIT_POINTS)
  {
  }

  /** The loop of `draw` over the orbit points, one `Pass` per point. The loop walks the orbit as
      it was on entry, so it ends with the last MAX_ORBIT_POINTS points and their screen images. */
  method DrawLoop(ps: seq<Point>, width: int, height: int, camOffset: Pixel)
    returns (kept: seq<Point>, trail: seq<Point>)
    ensures kept == KeepLast(ps, MAX_ORBIT_POINTS)
    ensures trail == ScreenTrail(kept, width, height, camOffset)
  {
    kept := ps;
    trail := [];
    var k := 0;
    while k < |ps|
      invariant k <= |ps|
      invariant Drawn(ps, width, height, camOffset, k, kept, trail)
    {
      PassKeepsDrawn(ps, width, height, camOffset, k, kept, trail);
      kept, trail := Pass(ps, width, height, camOffset, k, kept, trail).0,
                     Pass(ps, width, height, camOffset, k, kept, trail).1;
      k := k + 1;
    }
    TrailIsScreenTrail(trail, ps, width, height, camOffset);
  }

  /** The state effect of `draw`: once the orbit has more than ten points, the trail is drawn
      from the last MAX_ORBIT_POINTS of them, and the stored orbit is cut to those same points.
      An orbit of at most MAX_ORBIT_POINTS points is left as it is, and nothing else changes. */
  method DrawOrbit(b: Body, camOffset: Pixel) returns (r: Body, trail: seq<Point>)
    ensures r == TrimOrbit(b)
    ensures |b.orbit| <= MAX_ORBIT_POINTS ==> r == b
    ensures |b.orbit| > MAX_ORBIT_POINTS ==>
              |r.orbit| == MAX_ORBIT_POINTS && r.orbit == b.orbit[|b.orbit| - MAX_ORBIT_POINTS..]
    ensures |b.orbit| > 10 ==> trail == ScreenTrail(r.orbit, b.width, b.height, camOffset)
    ensures |b.orbit| <= 10 ==> trail == []
  {
    if |b.orbit| > 10 {
      var kept;
      kept, trail := DrawLoop(b.orbit, b.width, b.height, camOffset);
      r := b.(orbit := kept);
    } else {
      r, trail := b, [];
    }
    TrimOrbitKeepsLast(b);
  }

  // ---------------------------------------------------------------------------------------
  // Dragging with the mouse

  /** The body after `drag_planet` together with the value it returns. */
  datatype Dragged = Dragged(body: Body, handled: bool)

  /** `drag_planet`: a left press over the body starts a drag; a left release ends it; motion
      while dragging moves the body by the mouse movement converted to metres and discards all
      four histories. `overPlanet` says whether the mouse is over the body's drawn circle. */
  function DragPlanet(b: Body, ev: Event, overPlanet: bool): (r: Dragged)
    ensures overPlanet && ev.kind == ButtonDown(LEFT) ==>
              r == Dragged(b.(dragging := true, lastPos := ev.mouse), true)
    ensures ev.kind == ButtonUp(LEFT) ==> r == Dragged(b.(dragging := false), false)
    ensures ev.kind == MouseMotion && !b.dragging ==> r == Dragged(b, false)
    ensures ev.kind == MouseMotion && b.dragging ==>
              && r.handled
              && r.body.x == b.x + (ev.mouse.x - b.lastPos.x) as real / SCALE
              && r.body.y == b.y + (ev.mouse.y - b.lastPos.y) as real / SCALE
              && r.body == b.(x := r.body.x, y := r.body.y, lastPos := ev.mouse,
                              ke := [], gpe := [], distance := [], orbit := [])
    ensures (!(overPlanet && ev.kind == ButtonDown(LEFT)) && ev.kind != ButtonUp(LEFT)
             && ev.kind != MouseMotion) ==> r == Dragged(b, false)
    ensures r.body.xVel == b.xVel && r.body.yVel == b.yVel
  {
    if overPlanet && ev.kind == ButtonDown(LEFT) then
      Dragged(b.(dragging := true, lastPos := ev.mouse), true)
    else
      var b1 := if ev.kind == ButtonUp(LEFT) then b.(dragging := false) else b;
      if b1.dragging && ev.kind == MouseMotion then
        var x := b1.x + (ev.mouse.x - b1.lastPos.x) as real / SCALE;
        var y := b1.y + (ev.mouse.y - b1.lastPos.y) as real / SCALE;
        var moved := b1.(x := x, y := y, orbit := b1.orbit + [(x, y)]);
        Dragged(moved.(lastPos := ev.mouse, ke := [], gpe := [], distance := [], orbit := []), true)
      else
        Dragged(b1, false)
  }

  /** The body after a run of mouse motions, each handled by `DragPlanet`. */
  function DragAlong(b: Body, path: seq<Pixel>): Body
    decreases |path|
  {
    if |path| == 0 then b
    else DragAlong(DragPlanet(b, Event(MouseMotion, path[0]), false).body, path[1..])
  }

  /** Two successive mouse movements, each converted to metres, add up to the whole movement. */
  lemma MovesAdd(a: int, b: int, c: int)
    ensures (b - a) as real / SCALE + (c - b) as real / SCALE == (c - a) as real / SCALE
  {
    var p, q := (b - a) as real, (c - b) as real;
    assert p / SCALE + q / SCALE == (p + q) / SCALE;
  }

  /** A run of motions during a drag moves the body by the whole mouse movement since the last
      recorded position, converted to metres. */
  lemma {:induction false} DragAlongMoves(b: Body, path: seq<Pixel>)
    requires |path| > 0 && b.dragging
    ensures var e := DragAlong(b, path);
            var last := path[|path| - 1];
            && e.x == b.x + (last.x - b.lastPos.x) as real / SCALE
            && e.y == b.y + (last.y - b.lastPos.y) as real / SCALE
            && e == b.(x := e.x, y := e.y, lastPos := last,
                       ke := [], gpe := [], distance := [], orbit := [])
    decreases |path|
  {
    var b1 := DragPlanet(b, Event(MouseMotion, path[0]), false).body;
    assert DragAlong(b, path) == DragAlong(b1, path[1..]);
    if |path| == 1 {
      assert DragAlong(b1, path[1..]) == b1;
    } else {
      DragAlongMoves(b1, path[1..]);
      var last := path[|path| - 1];
      assert path[1..][|path[1..]| - 1] == last;
      MovedTwice(b, b1, DragAlong(b1, path[1..]));
      MovesAdd(b.lastPos.x, path[0].x, last.x);
      MovesAdd(b.lastPos.y, path[0].y, last.y);
    }
  }

  /** Two moves of a drag, each replacing the position and mouse position and emptying the
      histories, are one such move. */
  lemma MovedTwice(b: Body, b1: Body, e: Body)
    requires b1 == b.(x := b1.x, y := b1.y, lastPos := b1.lastPos,
                      ke := [], gpe := [], distance := [], orbit := [])
    requires e == b1.(x := e.x, y := e.y, lastPos := e.lastPos,
                      ke := [], gpe := [], distance := [], orbit := [])
    ensures e == b.(x := e.x, y := e.y, lastPos := e.lastPos,
                    ke := [], gpe := [], distance := [], orbit := [])
  {
  }

  /** A whole drag, a left press over the body at `press` followed by motions along `path`, moves
      the body by (last mouse position - press position) / SCALE, keeps its velocity, leaves it
      still dragging, and leaves all four histories empty. */
  lemma WholeDrag(b: Body, press: Pixel, path: seq<Pixel>)
    requires |path| > 0
    ensures var start := DragPlanet(b, Event(ButtonDown(LEFT), press), true).body;
            var e := DragAlong(start, path);
            var last := path[|path| - 1];
            && e.x == b.x + (last.x - press.x) as real / SCALE
            && e.y == b.y + (last.y - press.y) as real / SCALE
            && e == b.(x := e.x, y := e.y, dragging := true, lastPos := last,
                       ke := [], gpe := [], distance := [], orbit := [])
  {
    var start := DragPlanet(b, Event(ButtonDown(LEFT), press), true).body;
    assert start == b.(dragging := true, lastPos := press);
    DragAlongMoves(start, path);
  }
}
