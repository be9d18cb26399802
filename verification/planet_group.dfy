/** The group of planets (`PlanetGroup` in helpers/planet_group.py): one simulation frame over
    every planet, the drag dispatch and the focus reset. */
module PlanetGroup {
  import opened Trig
  import opened Input
  import opened Results
  import opened History
  import opened PlanetaryObject
  import opened Integrator

  /** The planets in the order the group returns them, and whether the simulation is running. */
  datatype Group = Group(sprites: seq<Body>, updating: bool)

  /** `PlanetGroup(screen)`: empty and running. */
  function NewGroup(): (g: Group)
    ensures g.sprites == [] && g.updating
  {
    Group([], true)
  }

  /** A new planet adds itself to its group (pygame's `Sprite(group)`), after the planets already
      there. */
  function AddPlanet(g: Group, b: Body): (r: Group)
    ensures |r.sprites| == |g.sprites| + 1 && r.updating == g.updating
    ensures r.sprites[..|g.sprites|] == g.sprites && r.sprites[|g.sprites|] == b
  {
    g.(sprites := g.sprites + [b])
  }

  /** `set_updating`: pause or resume the simulation; the planets are untouched. */
  function SetUpdating(g: Group, updating: bool): (r: Group)
    ensures r.updating == updating && r.sprites == g.sprites
  {
    g.(updating := updating)
  }

  // The frame

  /** The planet at index `i` handled as `update` does: drawn, which trims its orbit, and then,
      while running, stepped against the group as it stands. Only that planet changes. */
  function HandleOne(f: Functions, s: seq<Body>, i: nat, updating: bool): (r: Result<seq<Body>, Crash>)
    requires Sound(f) && i < |s|
    ensures r.Success? ==> |r.value| == |s| && r.value == s[i := r.value[i]]
  {
    var drawn := s[i := TrimOrbit(s[i])];
    if updating then
      var moved :- UpdatePosition(f, drawn, i);
      Success(drawn[i := moved])
    else
      Success(drawn)
  }

  /** The planets from index `i` on, handled in order, so each sees the new state of the planets
      before it and the old state of those after it. */
  function UpdateFrom(f: Functions, s: seq<Body>, i: nat, updating: bool): Result<seq<Body>, Crash>
    requires Sound(f) && i <= |s|
    decreases |s| - i
  {
    if i == |s| then Success(s)
    else
      var next :- HandleOne(f, s, i, updating);
      UpdateFrom(f, next, i + 1, updating)
  }

  /** `update`: one frame. A planet that divides by zero stops the frame with the error. */
  function Update(f: Functions, g: Group): (r: Result<Group, Crash>)
    requires Sound(f)
    ensures r.Success? ==> r.value.updating == g.updating && |r.value.sprites| == |g.sprites|
  {
    var sprites :- UpdateFrom(f, g.sprites, 0, g.updating);
    UpdateFromFrame(f, g.sprites, 0, g.updating);
    Success(g.(sprites := sprites))
  }

  /** A frame keeps the number of planets and does not touch those before `i`. */
  lemma {:induction false} UpdateFromFrame(f: Functions, s: seq<Body>, i: nat, updating: bool)
    requires Sound(f) && i <= |s|
    requires UpdateFrom(f, s, i, updating).Success?
    ensures |UpdateFrom(f, s, i, updating).value| == |s|
    ensures UpdateFrom(f, s, i, updating).value[..i] == s[..i]
    decreases |s| - i
  {
    if i < |s| {
      var next := HandleOne(f, s, i, updating).value;
      assert UpdateFrom(f, s, i, updating) == UpdateFrom(f, next, i + 1, updating);
      UpdateFromFrame(f, next, i + 1, updating);
      PrefixKept(s, next, UpdateFrom(f, next, i + 1, updating).value, i);
    }
  }

  /** Changing only index `i`, and then only indices after it, leaves the prefix before `i`. */
  lemma PrefixKept(s: seq<Body>, next: seq<Body>, r: seq<Body>, i: nat)
    requires i < |s| == |next| && next == s[i := next[i]]
    requires |r| == |next| && r[..i + 1] == next[..i + 1]
    ensures r[..i] == s[..i]
  {
    assert r[..i] == r[..i + 1][..i];
  }

  /** While running, each planet from `i` on ends as one `Step` of its drawn self against the
      planets already moved before it and the ones not yet moved after it. */
  lemma {:induction false} UpdateFromSteps(f: Functions, s: seq<Body>, i: nat)
    requires Sound(f) && i <= |s|
    requires UpdateFrom(f, s, i, true).Success?
    ensures var r := UpdateFrom(f, s, i, true).value;
            && |r| == |s|
            && forall j :: i <= j < |s| ==>
                 && ApartFromAll(s[j].x, s[j].y, r[..j] + s[j + 1..])
                 && s[j].mass != 0.0
                 && r[j] == Step(f, TrimOrbit(s[j]), r[..j] + s[j + 1..])
    decreases |s| - i
  {
    UpdateFromFrame(f, s, i, true);
    if i < |s| {
      var drawn := s[i := TrimOrbit(s[i])];
      var moved := UpdatePosition(f, drawn, i).value;
      var next := drawn[i := moved];
      assert HandleOne(f, s, i, true) == Success(next);
      assert UpdateFrom(f, s, i, true) == UpdateFrom(f, next, i + 1, true);
      UpdateFromSteps(f, next, i + 1);
      UpdateFromFrame(f, next, i + 1, true);
      var r := UpdateFrom(f, s, i, true).value;
      ReplacedTwice(s, i, TrimOrbit(s[i]), moved);
      HandledPrefix(r, next, s, i);
      assert r[..i] + s[i + 1..] == Others(drawn, i);
    }
  }

  /** Replacing the planet at `i`, twice, leaves the others where they were: the bodies the
      planet at `i` is stepped against are the old ones, and everything after `i` is untouched. */
  lemma ReplacedTwice(s: seq<Body>, i: nat, a: Body, b: Body)
    requires i < |s|
    ensures Others(s[i := a], i) == s[..i] + s[i + 1..]
    ensures s[i := a][i := b][..i] == s[..i]
    ensures forall j | i + 1 <= j < |s| ::
              s[i := a][i := b][j] == s[j] && s[i := a][i := b][j + 1..] == s[j + 1..]
  {
  }

  /** A result that agrees with `next` up to and including `i`, where `next` agrees with `s` before
      `i`, agrees with `s` before `i` and holds `next[i]` at `i`. */
  lemma HandledPrefix(r: seq<Body>, next: seq<Body>, s: seq<Body>, i: nat)
    requires i < |s| == |next| == |r|
    requires r[..i + 1] == next[..i + 1] && next[..i] == s[..i]
    ensures r[..i] == s[..i] && r[i] == next[i]
  {
    assert r[i] == r[..i + 1][i];
    assert r[..i] == r[..i + 1][..i];
  }

  /** Paused, every planet from `i` on only has its orbit trimmed. */
  lemma {:induction false} UpdateFromPaused(f: Functions, s: seq<Body>, i: nat)
    requires Sound(f) && i <= |s|
    ensures UpdateFrom(f, s, i, false).Success?
    ensures var r := UpdateFrom(f, s, i, false).value;
            |r| == |s| && forall j :: i <= j < |s| ==> r[j] == TrimOrbit(s[j])
    decreases |s| - i
  {
    if i < |s| {
      var drawn := s[i := TrimOrbit(s[i])];
      assert HandleOne(f, s, i, false) == Success(drawn);
      assert UpdateFrom(f, s, i, false) == UpdateFrom(f, drawn, i + 1, false);
      UpdateFromPaused(f, drawn, i + 1);
      UpdateFromFrame(f, drawn, i + 1, false);
      var r := UpdateFrom(f, s, i, false).value;
      assert r[i] == r[..i + 1][i] == drawn[i];
    }
  }

  /** A running frame moves every planet, in group order, against the others' state at that
      moment: the planets before it already moved this frame, the ones after it not yet. A frame
      that succeeds met no planet at zero distance from another and none of zero mass. */
  lemma UpdateSequential(f: Functions, g: Group)
    requires Sound(f) && g.updating
    requires Update(f, g).Success?
    ensures var r := Update(f, g).value.sprites;
            && |r| == |g.sprites|
            && forall j :: 0 <= j < |r| ==>
                 && ApartFromAll(g.sprites[j].x, g.sprites[j].y, r[..j] + g.sprites[j + 1..])
                 && g.sprites[j].mass != 0.0
                 && r[j] == Step(f, TrimOrbit(g.sprites[j]), r[..j] + g.sprites[j + 1..])
  {
    UpdateFromSteps(f, g.sprites, 0);
    UpdateFromFrame(f, g.sprites, 0, true);
  }

  /** A paused frame never fails and only trims the orbits; everything else of every planet stays. */
  lemma UpdatePaused(f: Functions, g: Group)
    requires Sound(f) && !g.updating
    ensures Update(f, g).Success?
    ensures var r := Update(f, g).value;
            && r.updating == g.updating
            && |r.sprites| == |g.sprites|
            && forall j :: 0 <= j < |r.sprites| ==>
                 r.sprites[j] == g.sprites[j].(orbit := r.sprites[j].orbit)
                 && r.sprites[j].orbit == KeepLast(g.sprites[j].orbit, MAX_ORBIT_POINTS)
  {
    UpdateFromPaused(f, g.sprites, 0);
    UpdateFromFrame(f, g.sprites, 0, false);
  }

  /** After a running frame each orbit holds at most MAX_ORBIT_POINTS + 1 points: the trimmed
      orbit and the new position. */
  lemma UpdateBoundsOrbits(f: Functions, g: Group)
    requires Sound(f) && g.updating
    requires Update(f, g).Success?
    ensures forall b | b in Update(f, g).value.sprites :: |b.orbit| <= MAX_ORBIT_POINTS + 1
  {
    UpdateFromSteps(f, g.sprites, 0);
    UpdateFromFrame(f, g.sprites, 0, true);
    var r := Update(f, g).value.sprites;
    forall j | 0 <= j < |r|
      ensures |r[j].orbit| <= MAX_ORBIT_POINTS + 1
    {
      var me := TrimOrbit(g.sprites[j]);
      StepHistoryCounts(f, me, r[..j] + g.sprites[j + 1..]);
    }
  }

  /** A running frame with a planet of zero mass fails: that planet's velocity update divides by
      zero, if nothing failed before it. */
  lemma ZeroMassFails(f: Functions, g: Group, j: nat)
    requires Sound(f) && g.updating
    requires j < |g.sprites| && g.sprites[j].mass == 0.0
    ensures Update(f, g).Failure?
  {
    if Update(f, g).Success? {
      UpdateSequential(f, g);
    }
  }

  /** A frame that fails was a running one: a paused group never divides by zero. */
  lemma UpdateFailsOnlyWhenRunning(f: Functions, g: Group)
    requires Sound(f) && Update(f, g).Failure?
    ensures g.updating
  {
    if !g.updating {
      UpdateFromPaused(f, g.sprites, 0);
    }
  }

  // Dragging

  /** The result of `check_collision`: whether any planet handled the event, the planets after it,
      and the index of the last planet that handled it (Python keeps the last such sprite). */
  datatype Collision = Collision(sprites: seq<Body>, hit: bool, last: Option<nat>)

  /** `last` is the index of the last `true` among the first `k` flags of `hs`, or None when
      there is none. */
  predicate LastHit(hs: seq<bool>, k: nat, last: Option<nat>) {
    && k <= |hs|
    && (last.None? <==> forall i :: 0 <= i < k ==> !hs[i])
    && (last.Some? ==> last.value < k && hs[last.value] && forall i :: last.value < i < k ==> !hs[i])
  }

  /** Looking at one more flag: a `true` becomes the last one, a `false` changes nothing. */
  lemma LastHitStep(hs: seq<bool>, k: nat, last: Option<nat>)
    requires k < |hs| && LastHit(hs, k, last)
    ensures LastHit(hs, k + 1, if hs[k] then Some(k) else last)
  {
  }

  /** A prefix one element longer is the shorter prefix followed by that element. */
  lemma PrefixGrows<T>(s: seq<T>, k: nat)
    requires k < |s|
    ensures s[..k + 1] == s[..k] + [s[k]]
  {
  }

  /** What `drag_planet` does to each planet of the group, in order. */
  ghost function Outcomes(g: Group, ev: Event, over: seq<bool>): seq<Dragged>
    requires |over| == |g.sprites|
  {
    seq(|g.sprites|, i requires 0 <= i < |g.sprites| => DragPlanet(g.sprites[i], ev, over[i]))
  }

  ghost function Handled(ds: seq<Dragged>): seq<bool> {
    seq(|ds|, i requires 0 <= i < |ds| => ds[i].handled)
  }

  ghost function Bodies(ds: seq<Dragged>): seq<Body> {
    seq(|ds|, i requires 0 <= i < |ds| => ds[i].body)
  }

  /** The bodies after the event, and the last planet that handled it, are what `check_collision`
      reports. */
  lemma CollisionMeaning(g: Group, ev: Event, over: seq<bool>, last: Option<nat>)
    requires |over| == |g.sprites|
    requires LastHit(Handled(Outcomes(g, ev, over)), |g.sprites|, last)
    ensures var r := Collision(Bodies(Outcomes(g, ev, over)), last.Some?, last);
            && |r.sprites| == |g.sprites|
            && (forall i :: 0 <= i < |g.sprites| ==> r.sprites[i] == DragPlanet(g.sprites[i], ev, over[i]).body)
            && (r.hit <==> exists i :: 0 <= i < |g.sprites| && DragPlanet(g.sprites[i], ev, over[i]).handled)
            && (r.last.Some? ==>
                  && r.last.value < |g.sprites|
                  && DragPlanet(g.sprites[r.last.value], ev, over[r.last.value]).handled
                  && forall i :: r.last.value < i < |g.sprites| ==> !DragPlanet(g.sprites[i], ev, over[i]).handled)
  {
    var ds := Outcomes(g, ev, over);
    assert forall i :: 0 <= i < |g.sprites| ==> Handled(ds)[i] == DragPlanet(g.sprites[i], ev, over[i]).handled;
  }

  /** `check_collision`: offer the event to every planet in order; `over[i]` says whether the mouse
      is over planet `i`'s drawn circle. Every planet sees the event, even after one has taken it. */
  method CheckCollision(g: Group, ev: Event, over: seq<bool>) returns (r: Collision)
    requires |over| == |g.sprites|
    ensures |r.sprites| == |g.sprites|
    ensures forall i :: 0 <= i < |g.sprites| ==> r.sprites[i] == DragPlanet(g.sprites[i], ev, over[i]).body
    ensures r.hit <==> exists i :: 0 <= i < |g.sprites| && DragPlanet(g.sprites[i], ev, over[i]).handled
    ensures r.hit <==> r.last.Some?
    ensures r.last.Some? ==>
              && r.last.value < |g.sprites|
              && DragPlanet(g.sprites[r.last.value], ev, over[r.last.value]).handled
              && forall i :: r.last.value < i < |g.sprites| ==> !DragPlanet(g.sprites[i], ev, over[i]).handled
  {
    ghost var ds := Outcomes(g, ev, over);
    ghost var hs, bs := Handled(ds), Bodies(ds);
    var sprites := [];
    var last: Option<nat> := None;
    var k := 0;
    while k < |g.sprites|
      invariant 0 <= k <= |g.sprites|
      invariant sprites == bs[..k]
      invariant LastHit(hs, k, last)
    {
      var d := DragPlanet(g.sprites[k], ev, over[k]);
      assert d == ds[k] && hs[k] == d.handled && bs[k] == d.body;
      LastHitStep(hs, k, last);
      PrefixGrows(bs, k);
      sprites := sprites + [d.body];
      if d.handled {
        last := Some(k);
      }
      k := k + 1;
    }
    assert sprites == bs;
    CollisionMeaning(g, ev, over, last);
    r := Collision(sprites, last.Some?, last);
  }

  // Focus

  /** `unfocus`: clear the focus flag of every planet and change nothing else. */
  function Unfocus(g: Group): (r: Group)
    ensures |r.sprites| == |g.sprites| && r.updating == g.updating
    ensures forall i :: 0 <= i < |g.sprites| ==> r.sprites[i] == g.sprites[i].(focused := false)
  {
    g.(sprites := seq(|g.sprites|, i requires 0 <= i < |g.sprites| => g.sprites[i].(focused := false)))
  }

  /** Unfocusing twice is unfocusing once, and afterwards no planet is focused. */
  lemma UnfocusIdempotent(g: Group)
    ensures Unfocus(Unfocus(g)) == Unfocus(g)
    ensures forall b | b in Unfocus(g).sprites :: !b.focused
  {
    assert Unfocus(Unfocus(g)).sprites == Unfocus(g).sprites;
  }
}
