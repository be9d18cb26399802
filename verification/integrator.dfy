/** One integration step of a body (`PlanetaryObject.update_position` in helpers/sprites.py):
    reset and sum the pulls of the other bodies, update the velocity and then the position with
    the new velocity (semi-implicit Euler), and record the energy, distance and orbit histories. */
module Integrator {
  import opened Trig
  import opened Results
  import opened History
  import opened PlanetaryObject

  /** Samples kept in each energy and distance history (`max_data`). */
  const MAX_DATA: nat := 5000

  /** The error Python raises when a step divides by zero. */
  datatype Crash = ZeroDivision

  /** No body of `others` sits at (x, y). */
  predicate ApartFromAll(x: real, y: real, others: seq<Body>) {
    forall k :: 0 <= k < |others| ==> Apart(x, y, others[k])
  }

  lemma RestApart(x: real, y: real, others: seq<Body>)
    requires |others| > 0 && ApartFromAll(x, y, others)
    ensures Apart(x, y, others[0]) && ApartFromAll(x, y, others[1..])
  {
    var rest := others[1..];
    forall k | 0 <= k < |rest| ensures Apart(x, y, rest[k]) {
      assert rest[k] == others[k + 1];
    }
  }

  /** Every body of the group except the one at index `i`, in group order: the bodies the force
      loop visits (it skips the body itself). */
  function Others(group: seq<Body>, i: nat): (r: seq<Body>)
    requires i < |group|
    ensures |r| == |group| - 1
  {
    group[..i] + group[i + 1..]
  }

  /** The bodies the force loop visits are those of the group, in group order, with the one at
      index `i` left out. */
  lemma OthersSkipsSelf(group: seq<Body>, i: nat)
    requires i < |group|
    ensures var r := Others(group, i);
            && (forall k :: 0 <= k < i ==> r[k] == group[k])
            && (forall k :: i < k < |group| ==> r[k - 1] == group[k])
  {
  }

  /** The sun bodies among `others`, in order. */
  function Suns(others: seq<Body>): (r: seq<Body>)
  {
    if |others| == 0 then []
    else (if others[0].sun then [others[0]] else []) + Suns(others[1..])
  }

  // ---------------------------------------------------------------------------------------
  // The force loop

  /** Every list is one that `attraction` can return: two or four components. */
  predicate Shaped(cs: seq<seq<real>>) {
    forall k :: 0 <= k < |cs| ==> |cs[k]| == 2 || |cs[k]| == 4
  }

  /** What `attraction` returns against each of `others`, in order. The force loop changes neither
      the position nor the mass of the body, so these are the lists the loop sees. */
  function Pulls(f: Functions, me: Body, others: seq<Body>): (cs: seq<seq<real>>)
    requires Sound(f) && ApartFromAll(me.x, me.y, others)
    ensures |cs| == |others|
    ensures forall k :: 0 <= k < |cs| ==> |cs[k]| == (if others[k].sun then 4 else 2)
    ensures forall k :: 0 <= k < |cs| ==> cs[k] == Pull(f, me.x, me.y, me.mass, others[k])
    decreases |others|
  {
    if |others| == 0 then []
    else
      RestApart(me.x, me.y, others);
      [Pull(f, me.x, me.y, me.mass, others[0])] + Pulls(f, me, others[1..])
  }

  /** One pass of the force loop: add the first two components to the running totals and, for a
      four-component list (a sun), store the distance in `distanceToSun` and append one
      potential-energy and one distance sample. */
  function Absorb(acc: Body, c: seq<real>): Body
    requires |c| == 2 || |c| == 4
  {
    var b := acc.(totalFx := acc.totalFx + c[0], totalFy := acc.totalFy + c[1]);
    if |c| == 4 then b.(distanceToSun := c[3], gpe := b.gpe + [c[2]], distance := b.distance + [c[3]])
    else b
  }

  /** One pass of the force loop adds the pull to the totals. A two-component list (an ordinary
      body) changes nothing else; a four-component one (a sun) adds one sample to each of the two
      histories, the potential energy and the distance, and leaves the distance as
      `distanceToSun`. */
  lemma AbsorbOne(acc: Body, c: seq<real>)
    requires |c| == 2 || |c| == 4
    ensures var r := Absorb(acc, c);
            && r.totalFx - acc.totalFx == c[0] && r.totalFy - acc.totalFy == c[1]
            && (|c| == 2 ==> r == acc.(totalFx := r.totalFx, totalFy := r.totalFy))
            && (|c| == 4 ==>
                  r == acc.(totalFx := r.totalFx, totalFy := r.totalFy, gpe := r.gpe,
                            distance := r.distance, distanceToSun := r.distanceToSun)
                  && |r.gpe| == |acc.gpe| + 1 && r.gpe[..|acc.gpe|] == acc.gpe
                  && r.gpe[|acc.gpe|] == c[2]
                  && |r.distance| == |acc.distance| + 1 && r.distance[..|acc.distance|] == acc.distance
                  && r.distanceToSun == r.distance[|acc.distance|] == c[3])
  {
  }

  /** A pass of the force loop agrees with `attraction`: it adds the components `attraction`
      returns, and writes `distanceToSun` exactly when `attraction` does (against a sun), to the
      same distance; against an ordinary body it is left alone. */
  lemma AbsorbIsAttraction(f: Functions, acc: Body, me: Body, o: Body)
    requires Sound(f) && Apart(me.x, me.y, o)
    ensures var c, a := Pull(f, me.x, me.y, me.mass, o), Attraction(f, me, o);
            && c == a.comps
            && Absorb(acc, c).distanceToSun ==
                 (if o.sun then a.body.distanceToSun else acc.distanceToSun)
  {
  }

  /** The force loop over the lists `cs`, in order, starting from `acc`. Only the force totals,
      the potential-energy and distance histories and `distanceToSun` change. */
  function Accumulate(acc: Body, cs: seq<seq<real>>): (r: Body)
    requires Shaped(cs)
    ensures r == acc.(totalFx := r.totalFx, totalFy := r.totalFy, gpe := r.gpe,
                      distance := r.distance, distanceToSun := r.distanceToSun)
    decreases |cs|
  {
    if |cs| == 0 then acc else Accumulate(Absorb(acc, cs[0]), cs[1..])
  }

  /** The sum of the first components. */
  function NetFx(cs: seq<seq<real>>): real
    requires Shaped(cs)
  {
    if |cs| == 0 then 0.0 else cs[0][0] + NetFx(cs[1..])
  }

  /** The sum of the second components. */
  function NetFy(cs: seq<seq<real>>): real
    requires Shaped(cs)
  {
    if |cs| == 0 then 0.0 else cs[0][1] + NetFy(cs[1..])
  }

  /** The third component of each four-component list, in order. */
  function SunGpes(cs: seq<seq<real>>): seq<real>
    requires Shaped(cs)
  {
    if |cs| == 0 then []
    else (if |cs[0]| == 4 then [cs[0][2]] else []) + SunGpes(cs[1..])
  }

  /** The fourth component of each four-component list, in order. */
  function SunDistances(cs: seq<seq<real>>): seq<real>
    requires Shaped(cs)
  {
    if |cs| == 0 then []
    else (if |cs[0]| == 4 then [cs[0][3]] else []) + SunDistances(cs[1..])
  }

  /** The last element of `s`, or `dflt` when `s` is empty. */
  function LastOr(s: seq<real>, dflt: real): real {
    if |s| == 0 then dflt else s[|s| - 1]
  }

  /** The force loop adds the summed first and second components to the running totals. */
  lemma {:induction false} AccumulateForce(acc: Body, cs: seq<seq<real>>)
    requires Shaped(cs)
    ensures Accumulate(acc, cs).totalFx == acc.totalFx + NetFx(cs)
    ensures Accumulate(acc, cs).totalFy == acc.totalFy + NetFy(cs)
    decreases |cs|
  {
    if |cs| > 0 {
      AccumulateForce(Absorb(acc, cs[0]), cs[1..]);
    }
  }

  /** The force loop appends the sun potential-energy samples to that history, in order. */
  lemma {:induction false} AccumulateGpe(acc: Body, cs: seq<seq<real>>)
    requires Shaped(cs)
    ensures Accumulate(acc, cs).gpe == acc.gpe + SunGpes(cs)
    decreases |cs|
  {
    if |cs| > 0 {
      var c, rest := cs[0], cs[1..];
      var next := Absorb(acc, c);
      AccumulateGpe(next, rest);
      var gs := if |c| == 4 then [c[2]] else [];
      assert next.gpe == acc.gpe + gs;
      assert SunGpes(cs) == gs + SunGpes(rest);
      AppendAssoc(acc.gpe, gs, SunGpes(rest));
    }
  }

  /** The force loop appends the sun distance samples to that history, in order. */
  lemma {:induction false} AccumulateDistances(acc: Body, cs: seq<seq<real>>)
    requires Shaped(cs)
    ensures Accumulate(acc, cs).distance == acc.distance + SunDistances(cs)
    decreases |cs|
  {
    if |cs| > 0 {
      var c, rest := cs[0], cs[1..];
      var next := Absorb(acc, c);
      AccumulateDistances(next, rest);
      var ds := if |c| == 4 then [c[3]] else [];
      assert next.distance == acc.distance + ds;
      assert SunDistances(cs) == ds + SunDistances(rest);
      AppendAssoc(acc.distance, ds, SunDistances(rest));
    }
  }

  /** After the force loop `distanceToSun` is the distance to the last sun, and is untouched when
      there is none. */
  lemma {:induction false} AccumulateLastDistance(acc: Body, cs: seq<seq<real>>)
    requires Shaped(cs)
    ensures Accumulate(acc, cs).distanceToSun == LastOr(SunDistances(cs), acc.distanceToSun)
    decreases |cs|
  {
    if |cs| > 0 {
      var c, rest := cs[0], cs[1..];
      var next := Absorb(acc, c);
      AccumulateLastDistance(next, rest);
      var ds := if |c| == 4 then [c[3]] else [];
      assert SunDistances(cs) == ds + SunDistances(rest);
    }
  }

  /** The force loop adds the summed components to the running totals, appends the sun samples
      in order, leaves `distanceToSun` at the distance to the last sun (untouched when there is
      none), and changes nothing else. */
  lemma AccumulateSums(acc: Body, cs: seq<seq<real>>)
    requires Shaped(cs)
    ensures Accumulate(acc, cs) ==
              acc.(totalFx := acc.totalFx + NetFx(cs), totalFy := acc.totalFy + NetFy(cs),
                   gpe := acc.gpe + SunGpes(cs), distance := acc.distance + SunDistances(cs),
                   distanceToSun := LastOr(SunDistances(cs), acc.distanceToSun))
  {
    AccumulateForce(acc, cs);
    AccumulateGpe(acc, cs);
    AccumulateDistances(acc, cs);
    AccumulateLastDistance(acc, cs);
  }

  /** The potential-energy samples `gs` and distance samples `ds` are one per body of `suns`, in
      order, each the one Newton's law gives for a body of mass `m` at (x, y). */
  ghost predicate SamplesFit(x: real, y: real, m: real, suns: seq<Body>, gs: seq<real>, ds: seq<real>) {
    && |gs| == |suns|
    && |ds| == |suns|
    && forall j :: 0 <= j < |suns| ==> SampleFits(x, y, m, suns[j], gs[j], ds[j])
  }

  /** A fitting sample for one more sun, put in front, keeps the samples fitting. */
  lemma SamplesFitCons(x: real, y: real, m: real, o: Body, g: real, d: real,
                       suns: seq<Body>, gs: seq<real>, ds: seq<real>)
    requires SampleFits(x, y, m, o, g, d) && SamplesFit(x, y, m, suns, gs, ds)
    ensures SamplesFit(x, y, m, [o] + suns, [g] + gs, [d] + ds)
  {
    var suns', gs', ds' := [o] + suns, [g] + gs, [d] + ds;
    forall j | 0 <= j < |suns'|
      ensures SampleFits(x, y, m, suns'[j], gs'[j], ds'[j])
    {
      if j > 0 {
        assert suns'[j] == suns[j - 1] && gs'[j] == gs[j - 1] && ds'[j] == ds[j - 1];
      }
    }
  }

  /** Against `others`, one potential-energy and one distance sample is taken per sun, in order,
      and each is the one Newton's law gives against that sun. */
  lemma {:induction false} PullsSamples(f: Functions, me: Body, others: seq<Body>)
    requires Sound(f) && ApartFromAll(me.x, me.y, others)
    ensures var cs := Pulls(f, me, others);
            SamplesFit(me.x, me.y, me.mass, Suns(others), SunGpes(cs), SunDistances(cs))
    decreases |others|
  {
    if |others| > 0 {
      RestApart(me.x, me.y, others);
      var o, rest := others[0], others[1..];
      var cs := Pulls(f, me, others);
      var rcs := Pulls(f, me, rest);
      PullsSplit(f, me, others);
      PullsSamples(f, me, rest);
      if o.sun {
        PullSample(f, me.x, me.y, me.mass, o);
        SamplesFitCons(me.x, me.y, me.mass, o, cs[0][2], cs[0][3],
                       Suns(rest), SunGpes(rcs), SunDistances(rcs));
      }
    }
  }

  /** Splitting off the first of `others`: its pull is the first list, and it contributes a sun
      sample exactly when it is a sun. */
  lemma PullsSplit(f: Functions, me: Body, others: seq<Body>)
    requires Sound(f) && ApartFromAll(me.x, me.y, others) && |others| > 0
    ensures ApartFromAll(me.x, me.y, others[1..])
    ensures var o, cs, rcs := others[0], Pulls(f, me, others), Pulls(f, me, others[1..]);
            && cs[0] == Pull(f, me.x, me.y, me.mass, o)
            && Suns(others) == (if o.sun then [o] else []) + Suns(others[1..])
            && SunGpes(cs) == (if o.sun then [cs[0][2]] else []) + SunGpes(rcs)
            && SunDistances(cs) == (if o.sun then [cs[0][3]] else []) + SunDistances(rcs)
  {
    RestApart(me.x, me.y, others);
    var cs := Pulls(f, me, others);
    assert cs[1..] == Pulls(f, me, others[1..]);
  }

  // ---------------------------------------------------------------------------------------
  // Velocity, position and histories

  /** The rest of `update_position` once the forces are summed: the velocity is updated first,
      the kinetic energy is taken from the new speed, the position moves by the new velocity,
      the new position is appended to the orbit, and each energy and distance history keeps its
      last MAX_DATA samples. */
  function Advance(f: Functions, a: Body): (s: Body)
    requires a.mass != 0.0
    ensures s == a.(x := s.x, y := s.y, xVel := s.xVel, yVel := s.yVel, velocity := s.velocity,
                    ke := s.ke, gpe := s.gpe, distance := s.distance, orbit := s.orbit)
    ensures |s.orbit| == |a.orbit| + 1 && s.orbit[..|a.orbit|] == a.orbit
  {
    var vx := a.xVel + a.totalFx / a.mass * TIMESTEP;
    var vy := a.yVel + a.totalFy / a.mass * TIMESTEP;
    var v := Speed(f, vx, vy);
    var x := a.x + vx * TIMESTEP;
    var y := a.y + vy * TIMESTEP;
    a.(xVel := vx, yVel := vy, velocity := v,
       ke := KeepLast(a.ke + [Kinetic(a.mass, v)], MAX_DATA),
       x := x, y := y, orbit := a.orbit + [(x, y)],
       gpe := KeepLast(a.gpe, MAX_DATA), distance := KeepLast(a.distance, MAX_DATA))
  }

  /** Over one step a body of mass `m` under `force` goes from velocity `v0` to `v1`: the
      momentum changes by the impulse force * TIMESTEP. */
  predicate Kicked(m: real, force: real, v0: real, v1: real) {
    m * (v1 - v0) == force * TIMESTEP
  }

  /** Over one step a coordinate goes from `p0` to `p1` at velocity `v`. */
  predicate Drifted(p0: real, v: real, p1: real) {
    p1 == p0 + v * TIMESTEP
  }

  /** m (v + F / m * dt - v) is F dt: the momentum changes by the impulse. */
  lemma Impulse(force: real, m: real, v: real)
    requires m != 0.0
    ensures Kicked(m, force, v, v + force / m * TIMESTEP)
  {
    assert (v + force / m * TIMESTEP) - v == force / m * TIMESTEP;
    assert m * (force / m) == force;
  }

  /** Semi-implicit Euler over TIMESTEP seconds: the momentum changes by force * TIMESTEP, and
      the position then moves by the NEW velocity * TIMESTEP; only the motion and the histories
      change. */
  lemma AdvanceMotion(f: Functions, a: Body)
    requires a.mass != 0.0
    ensures var s := Advance(f, a);
            && Kicked(a.mass, a.totalFx, a.xVel, s.xVel)
            && Kicked(a.mass, a.totalFy, a.yVel, s.yVel)
            && Drifted(a.x, s.xVel, s.x)
            && Drifted(a.y, s.yVel, s.y)
            && s == a.(x := s.x, y := s.y, xVel := s.xVel, yVel := s.yVel, velocity := s.velocity,
                       ke := s.ke, gpe := s.gpe, distance := s.distance, orbit := s.orbit)
  {
    Impulse(a.totalFx, a.mass, a.xVel);
    Impulse(a.totalFy, a.mass, a.yVel);
  }

  /** After the force loop, the new position is appended to the orbit, which is not trimmed;
      the potential-energy and distance histories are cut to their last MAX_DATA samples, and
      `distanceToSun` is left as the loop set it. */
  lemma AdvanceHistories(f: Functions, a: Body)
    requires a.mass != 0.0
    ensures var s := Advance(f, a);
            && s.orbit == a.orbit + [(s.x, s.y)]
            && s.gpe == KeepLast(a.gpe, MAX_DATA)
            && s.distance == KeepLast(a.distance, MAX_DATA)
            && s.distanceToSun == a.distanceToSun
  {
  }

  /** The speed `math.sqrt(vx ** 2 + vy ** 2)`. */
  function Speed(f: Functions, vx: real, vy: real): real {
    Root(f, vx * vx + vy * vy)
  }

  /** The speed is not negative and squares back to vx^2 + vy^2. */
  lemma SpeedFacts(f: Functions, vx: real, vy: real)
    requires Sound(f)
    ensures Speed(f, vx, vy) >= 0.0
    ensures Speed(f, vx, vy) * Speed(f, vx, vy) == vx * vx + vy * vy
  {
    SquareFacts(vx);
    SquareFacts(vy);
    assert Root(f, vx * vx + vy * vy) >= 0.0;
  }

  /** The kinetic energy `0.5 * mass * velocity ** 2`, as the simulator computes it from the
      speed. */
  function Kinetic(m: real, v: real): real {
    0.5 * m * (v * v)
  }

  /** The kinetic energy 1/2 m (vx^2 + vy^2) of a body of mass `m` moving at (vx, vy). */
  function KineticEnergy(m: real, vx: real, vy: real): real {
    0.5 * m * (vx * vx + vy * vy)
  }

  /** Computed from the speed, the kinetic energy is 1/2 m (vx^2 + vy^2), and it is not negative
      for a positive mass. */
  lemma KineticArith(m: real, v: real, vx: real, vy: real)
    requires v * v == vx * vx + vy * vy
    ensures Kinetic(m, v) == KineticEnergy(m, vx, vy)
    ensures m > 0.0 ==> KineticEnergy(m, vx, vy) >= 0.0
  {
    SquareFacts(v);
    if m > 0.0 {
      assert 0.5 * m > 0.0;
    }
  }

  /** The speed is the length of the new velocity, and the kinetic-energy sample appended last is
      1/2 m (vx^2 + vy^2) of the new velocity, never negative for a positive mass. */
  lemma AdvanceKineticEnergy(f: Functions, a: Body)
    requires Sound(f) && a.mass != 0.0
    ensures var s := Advance(f, a);
            var e := KineticEnergy(a.mass, s.xVel, s.yVel);
            && s.velocity >= 0.0
            && s.velocity * s.velocity == s.xVel * s.xVel + s.yVel * s.yVel
            && s.ke == KeepLast(a.ke + [e], MAX_DATA)
            && (a.mass > 0.0 ==> e >= 0.0)
  {
    var s := Advance(f, a);
    SpeedFacts(f, s.xVel, s.yVel);
    KineticArith(a.mass, s.velocity, s.xVel, s.yVel);
  }

  // ---------------------------------------------------------------------------------------
  // The whole step

  /** `update_position` for `me` against the other bodies of its group, once it is known not to
      divide by zero. Only the motion, the force totals, `distanceToSun` and the histories
      change; name, size, colour, mass, sun flag and interaction state stay as they were. */
  function Step(f: Functions, me: Body, others: seq<Body>): (s: Body)
    requires Sound(f) && ApartFromAll(me.x, me.y, others) && me.mass != 0.0
    ensures s == me.(x := s.x, y := s.y, xVel := s.xVel, yVel := s.yVel, velocity := s.velocity,
                     totalFx := s.totalFx, totalFy := s.totalFy, distanceToSun := s.distanceToSun,
                     ke := s.ke, gpe := s.gpe, distance := s.distance, orbit := s.orbit)
  {
    Advance(f, Accumulate(me.(totalFx := 0.0, totalFy := 0.0), Pulls(f, me, others)))
  }

  /** `update_position` for the body at index `i` of `group`. Python raises ZeroDivisionError
      when another body sits at the same spot (in `attraction`) or when the mass is zero (in
      the velocity update); otherwise the result is `Step`. */
  function UpdatePosition(f: Functions, group: seq<Body>, i: nat): (r: Result<Body, Crash>)
    requires Sound(f) && i < |group|
    ensures r.Failure? <==> !ApartFromAll(group[i].x, group[i].y, Others(group, i)) || group[i].mass == 0.0
    ensures r.Success? ==> r.value == Step(f, group[i], Others(group, i))
  {
    var me := group[i];
    var others := Others(group, i);
    if !ApartFromAll(me.x, me.y, others) then Failure(ZeroDivision)
    else if me.mass == 0.0 then Failure(ZeroDivision)
    else Success(Step(f, me, others))
  }

  /** The state right after the force loop of `Step`. */
  lemma StepAccumulated(f: Functions, me: Body, others: seq<Body>)
    requires Sound(f) && ApartFromAll(me.x, me.y, others) && me.mass != 0.0
    ensures var cs := Pulls(f, me, others);
            var a := Accumulate(me.(totalFx := 0.0, totalFy := 0.0), cs);
            && Step(f, me, others) == Advance(f, a)
            && a == me.(totalFx := NetFx(cs), totalFy := NetFy(cs),
                        gpe := me.gpe + SunGpes(cs), distance := me.distance + SunDistances(cs),
                        distanceToSun := LastOr(SunDistances(cs), me.distanceToSun))
  {
    AccumulateSums(me.(totalFx := 0.0, totalFy := 0.0), Pulls(f, me, others));
  }

  /** The totals are reset before summing, so they end as the sums of the first two components
      returned against every other body, whatever they held before; the momentum then changes by
      that force * TIMESTEP and the position moves by the new velocity * TIMESTEP. */
  lemma StepMotion(f: Functions, me: Body, others: seq<Body>)
    requires Sound(f) && ApartFromAll(me.x, me.y, others) && me.mass != 0.0
    ensures var s, cs := Step(f, me, others), Pulls(f, me, others);
            && s.totalFx == NetFx(cs)
            && s.totalFy == NetFy(cs)
            && Kicked(me.mass, NetFx(cs), me.xVel, s.xVel)
            && Kicked(me.mass, NetFy(cs), me.yVel, s.yVel)
            && Drifted(me.x, s.xVel, s.x)
            && Drifted(me.y, s.yVel, s.y)
  {
    var cs := Pulls(f, me, others);
    var a := Accumulate(me.(totalFx := 0.0, totalFy := 0.0), cs);
    StepAccumulated(f, me, others);
    AdvanceMotion(f, a);
    assert a.mass == me.mass && a.xVel == me.xVel && a.yVel == me.yVel && a.x == me.x && a.y == me.y;
    assert a.totalFx == NetFx(cs) && a.totalFy == NetFy(cs);
  }

  /** The speed and the appended kinetic energy come from the new velocity: KE is
      1/2 m (vx'^2 + vy'^2), not negative for a positive mass, and the history keeps the last
      MAX_DATA samples of the old history followed by it. */
  lemma StepKineticEnergy(f: Functions, me: Body, others: seq<Body>)
    requires Sound(f) && ApartFromAll(me.x, me.y, others) && me.mass != 0.0
    ensures var s := Step(f, me, others);
            var e := KineticEnergy(me.mass, s.xVel, s.yVel);
            && s.velocity >= 0.0
            && s.velocity * s.velocity == s.xVel * s.xVel + s.yVel * s.yVel
            && s.ke == KeepLast(me.ke + [e], MAX_DATA)
            && (me.mass > 0.0 ==> e >= 0.0)
  {
    var a := StepIsAdvance(f, me, others);
    AdvanceKineticEnergyOf(f, me, a);
  }

  /** `Step` advances a state that still carries `me`'s mass and histories. */
  lemma StepIsAdvance(f: Functions, me: Body, others: seq<Body>) returns (a: Body)
    requires Sound(f) && ApartFromAll(me.x, me.y, others) && me.mass != 0.0
    ensures a.mass == me.mass && a.ke == me.ke
    ensures Step(f, me, others) == Advance(f, a)
  {
    StepAccumulated(f, me, others);
    a := Accumulate(me.(totalFx := 0.0, totalFy := 0.0), Pulls(f, me, others));
  }

  /** `AdvanceKineticEnergy` for a state `a` that carries `me`'s mass and kinetic-energy
      history. */
  lemma AdvanceKineticEnergyOf(f: Functions, me: Body, a: Body)
    requires Sound(f) && a.mass == me.mass && a.ke == me.ke && me.mass != 0.0
    ensures var s := Advance(f, a);
            var e := KineticEnergy(me.mass, s.xVel, s.yVel);
            && s.velocity >= 0.0
            && s.velocity * s.velocity == s.xVel * s.xVel + s.yVel * s.yVel
            && s.ke == KeepLast(me.ke + [e], MAX_DATA)
            && (me.mass > 0.0 ==> e >= 0.0)
  {
    AdvanceKineticEnergy(f, a);
  }

  /** One orbit point (the new position) is appended and the orbit is not trimmed; the
      potential-energy and distance histories get one sample per sun among the other bodies, each
      the one Newton's law gives against that sun, and are then cut to their last MAX_DATA
      entries; `distanceToSun` is the distance to the last sun, or unchanged if there is none. */
  lemma StepHistories(f: Functions, me: Body, others: seq<Body>)
    requires Sound(f) && ApartFromAll(me.x, me.y, others) && me.mass != 0.0
    ensures var s, cs := Step(f, me, others), Pulls(f, me, others);
            var suns := Suns(others);
            && s.orbit == me.orbit + [(s.x, s.y)]
            && s.gpe == KeepLast(me.gpe + SunGpes(cs), MAX_DATA)
            && s.distance == KeepLast(me.distance + SunDistances(cs), MAX_DATA)
            && |SunGpes(cs)| == |SunDistances(cs)| == |suns|
            && (forall j :: 0 <= j < |suns| ==>
                  SampleFits(me.x, me.y, me.mass, suns[j], SunGpes(cs)[j], SunDistances(cs)[j]))
            && s.distanceToSun == LastOr(SunDistances(cs), me.distanceToSun)
  {
    var cs := Pulls(f, me, others);
    var a := Accumulate(me.(totalFx := 0.0, totalFy := 0.0), cs);
    StepAccumulated(f, me, others);
    AdvanceHistories(f, a);
    assert a.gpe == me.gpe + SunGpes(cs) && a.distance == me.distance + SunDistances(cs);
    assert a.orbit == me.orbit;
    PullsSamples(f, me, others);
  }

  /** Each step appends exactly one kinetic-energy sample and one orbit point, and one
      potential-energy and one distance sample per sun; no energy or distance history grows past
      MAX_DATA. */
  lemma StepHistoryCounts(f: Functions, me: Body, others: seq<Body>)
    requires Sound(f) && ApartFromAll(me.x, me.y, others) && me.mass != 0.0
    ensures var s, n := Step(f, me, others), |Suns(others)|;
            && |s.ke| == Min(|me.ke| + 1, MAX_DATA)
            && |s.gpe| == Min(|me.gpe| + n, MAX_DATA)
            && |s.distance| == Min(|me.distance| + n, MAX_DATA)
            && |s.orbit| == |me.orbit| + 1
  {
    StepHistories(f, me, others);
    StepKineticEnergy(f, me, others);
  }
}
