# OrbitalSimulator core in Dafny

This project models the bookkeeping of OrbitalSimulator, a small pygame N-body toy. The model covers:

- a `PlanetaryObject` body and the pull of one body on another (`attraction`);
- the per-frame integration step (`update_position`);
- the orbit trim hidden inside `draw`;
- mouse dragging of a planet (`drag_planet`);
- the 19-key saved record (`save_fields` / `load_fields`);
- the camera's drag-to-pan state machine (`CamGroup`);
- the planet group that drives a frame, dispatches drags and clears focus (`PlanetGroup`).

Everything is functional. A body is an immutable `Body` record. Each Python method that changes a body is a function from the old record to the new one. Physical quantities are `real`. `math.sqrt`, `math.atan2`, `math.cos` and `math.sin` are passed in as a `Trig.Functions` value. The only facts assumed of them are that `sqrt` is the non-negative square root (`Trig.Sound`). The other three are left completely unknown.

Modules, one per file:

| file | module | models |
|---|---|---|
| results.dfy | `Results` | `Option` and `Result` (the error paths) |
| input.dfy | `Input` | pygame events: button press/release, motion, key press, each carrying the mouse position |
| trig.dfy | `Trig` | the floating-point library functions, as a parameter |
| history.dfy | `History` | append-then-keep-the-last-`cap` histories (`KE`, `GPE`, `distance`, `orbit`) |
| planetary_object.dfy | `PlanetaryObject` | constants, `Body`, `attraction`, the orbit trim of `draw`, `drag_planet` |
| integrator.dfy | `Integrator` | `update_position`: the force loop, semi-implicit Euler, the histories |
| fields.dfy | `Fields` | `save_fields` and `load_fields` |
| cam_group.dfy | `CamGroup` | `CamGroup.__init__`, `reset_scales`, `check_collision` |
| planet_group.dfy | `PlanetGroup` | `PlanetGroup.__init__`, `set_updating`, `update`, `check_collision`, `unfocus` |

Inputs that come from the outside world become parameters:

- The mouse position (`pygame.mouse.get_pos()`) is the `mouse` field of the event being handled.
- Whether the mouse is over a planet's drawn circle (`self.planet.collidepoint`) is the `overPlanet` / `over[i]` argument.
- The camera offset used for drawing is an argument of `DrawOrbit`.
- The screen is not modelled.

Python raises `ZeroDivisionError` in `update_position` in two cases: another body sits at exactly the same spot, or the body's mass is zero. In the model, `Integrator.UpdatePosition` and `PlanetGroup.Update` return `Failure(ZeroDivision)` in those cases. `load_fields` fails with `Failure(MissingKey(k))` or `Failure(WrongShape(k))`, where `k` is the first key, in assignment order, that is missing or mis-shaped. A missing key is Python's `KeyError`.

A drag moves the body by the mouse movement divided by `SCALE`, relative to where it was. `load_fields` does not check the loaded mass, so a record with a non-positive mass loads.

## Model

| member | source | states |
|---|---|---|
| PlanetaryObject.NewPlanet | helpers/sprites.py:54-77 | a new planet has the given name, position, size, colour, mass and screen size; it is at rest with zero forces and distance to the sun; it has no orbit and empty KE/GPE/distance histories; it is not a sun, not dragged and not focused |
| PlanetaryObject.Pull | helpers/sprites.py:139-153 | `attraction` returns two components against an ordinary body and four against a sun |
| PlanetaryObject.PullSample | helpers/sprites.py:142-153 | against a sun, the third and fourth components are -G m M / d and the positive Euclidean distance d (d * d is the squared offset) |
| PlanetaryObject.Attraction | helpers/sprites.py:139-153 | 2 or 4 components; `distance_to_sun` is written only when the other body is a sun, and then it is set to the returned distance; otherwise the body is unchanged |
| PlanetaryObject.AttractionSample | helpers/sprites.py:142-153 | against a sun: the potential energy is -G m M / d, the stored `distance_to_sun` is the returned d > 0, and the potential energy is strictly negative for positive masses |
| PlanetaryObject.SampleIsNegative | helpers/sprites.py:148-153 | a potential-energy sample that fits Newton's law is negative when both masses are positive |
| PlanetaryObject.ScreenTrail | helpers/sprites.py:104-108 | one screen point per orbit point, in order |
| PlanetaryObject.TrimOrbitKeepsLast | helpers/sprites.py:110-113 | the trim keeps the last min(n, 200) of an orbit's n points, in order, and changes nothing else of the body |
| PlanetaryObject.DrawOrbit | helpers/sprites.py:101-113 | an orbit of at most 200 points is left as it is; a longer one becomes its last 200 points, in order; nothing else of the body changes; once there are more than 10 points, the trail drawn is the screen image of the kept points |
| PlanetaryObject.DrawLoop | helpers/sprites.py:103-113 | the point-by-point loop, which trims both the trail and the orbit whenever the trail passes 200 points, ends with the orbit's last min(n, 200) points, in order, and a trail that is exactly their screen image |
| PlanetaryObject.DragPlanet | helpers/sprites.py:186-214 | a left press over the planet starts a drag at the mouse position and returns True without moving it; a left release stops the drag and returns False; motion without a drag changes nothing and returns False; motion during a drag moves the body by (mouse - last position) / SCALE, records the mouse and empties all four histories, returning True; other events change nothing; velocity never changes |
| PlanetaryObject.DragAlongMoves | helpers/sprites.py:201-212 | a run of motions during a drag moves the body by the whole mouse movement / SCALE, ends at the last mouse position and leaves the histories empty |
| PlanetaryObject.WholeDrag | helpers/sprites.py:189-212 | press over the planet then move: the body moves by (last mouse - press mouse) / SCALE; its velocity is kept; it is still dragging; its histories are empty |
| History.KeepLast | helpers/sprites.py:179-184 | the `[-cap:]` trim keeps min(len, cap) entries, and they are the suffix of the input |
| History.KeepLastAbsorbs | helpers/sprites.py:176-184 | trimming, appending and trimming again equals appending and trimming once |
| History.RecordKeepsMostRecent | helpers/sprites.py:176-184 | after any number of append-then-trim steps, a history is the last `cap` entries of everything ever appended, in order |
| History.RecordIsFullWindow | helpers/sprites.py:176-184 | once at least `cap` values have gone through a history, it holds exactly the `cap` most recent ones |
| Integrator.Others | helpers/sprites.py:157-159 | the force loop visits one body fewer than the group holds |
| Integrator.OthersSkipsSelf | helpers/sprites.py:157-159 | the bodies visited are those of the group, in group order, with the body being moved left out |
| Integrator.Pulls | helpers/sprites.py:157-160 | one `attraction` list per other body, in order: the k-th is what `attraction` returns against the k-th other body, with 4 components exactly for suns |
| Integrator.AbsorbOne | helpers/sprites.py:160-165 | one pass of the force loop adds the pull to the totals; an ordinary body's list changes nothing else; a sun's list appends one potential-energy and one distance sample and leaves that distance in `distance_to_sun` |
| Integrator.AbsorbIsAttraction | helpers/sprites.py:139-165 | a pass of the force loop adds what `attraction` returns and leaves `distance_to_sun` as `attraction` sets it: the sun's distance against a sun, untouched otherwise |
| Integrator.Accumulate | helpers/sprites.py:157-165 | the force loop changes only the force totals, the GPE and distance histories and `distance_to_sun` |
| Integrator.AccumulateForce | helpers/sprites.py:157-162 | the force loop adds the sums of the first and second components to the totals |
| Integrator.AccumulateGpe | helpers/sprites.py:163-164 | the force loop appends the sun potential energies, in order |
| Integrator.AccumulateDistances | helpers/sprites.py:163-165 | the force loop appends the sun distances, in order |
| Integrator.AccumulateLastDistance | helpers/sprites.py:143-165 | after the force loop, `distance_to_sun` is the distance to the last sun visited, or unchanged if there is none |
| Integrator.AccumulateSums | helpers/sprites.py:156-165 | the whole effect of the force loop, against reference sums and sample lists |
| Integrator.PullsSamples | helpers/sprites.py:139-165 | exactly one GPE and one distance sample per sun among the other bodies, each the one Newton's law gives against that sun |
| Integrator.Advance | helpers/sprites.py:167-184 | after the force loop, only the position, velocity, speed and the four histories change: the force totals, `distance_to_sun`, mass and the rest are kept; the orbit gains exactly one point at its end (the motion itself is stated by `AdvanceMotion`, the histories by `AdvanceHistories` and `AdvanceKineticEnergy`) |
| Integrator.AdvanceMotion | helpers/sprites.py:167-173 | semi-implicit Euler: momentum changes by force * TIMESTEP, then position moves by the new velocity * TIMESTEP |
| Integrator.AdvanceHistories | helpers/sprites.py:171-184 | the new position is appended to the orbit, which is not trimmed; GPE and distance keep their last 5000 samples |
| Integrator.SpeedFacts | helpers/sprites.py:170 | the speed is not negative and squares to vx^2 + vy^2 |
| Integrator.KineticArith | helpers/sprites.py:170-171 | 0.5 m v^2 from the speed is 0.5 m (vx^2 + vy^2), and it is not negative for a positive mass |
| Integrator.AdvanceKineticEnergy | helpers/sprites.py:167-180 | the appended KE is 0.5 m (vx'^2 + vy'^2) of the new velocity, and the KE history keeps its last 5000 entries |
| Integrator.Step | helpers/sprites.py:155-184 | one step changes only the motion, the force totals, `distance_to_sun` and the histories; name, size, colour, mass, the sun flag and the interaction state are kept |
| Integrator.UpdatePosition | helpers/sprites.py:155-184 | it fails exactly when another body coincides with this one or the mass is zero; otherwise it is one `Step` against all the other bodies |
| Integrator.StepAccumulated | helpers/sprites.py:156-165 | the totals are zeroed before summing, so after the loop they equal the net force whatever they held before |
| Integrator.StepMotion | helpers/sprites.py:156-173 | the momentum changes by net force * TIMESTEP, then the position moves by the new velocity * TIMESTEP |
| Integrator.StepKineticEnergy | helpers/sprites.py:167-180 | the speed is the length of the new velocity; the KE history is the old one plus 0.5 m (vx'^2 + vy'^2), trimmed to 5000; the sample is not negative for a positive mass |
| Integrator.StepHistories | helpers/sprites.py:155-184 | the new position is appended to the orbit, untrimmed; GPE and distance get the per-sun samples and are trimmed to 5000; `distance_to_sun` is the last sun's distance |
| Integrator.StepHistoryCounts | helpers/sprites.py:155-184 | one KE sample and one orbit point per step; one GPE and one distance sample per sun; no history exceeds 5000 |
| Fields.SaveFields | helpers/sprites.py:229-235 | the record holds all 19 keys, each with a value of the shape loading expects |
| Fields.Put | helpers/sprites.py:237-256 | one assignment of `load_fields` sets exactly that attribute and leaves the other 18 and the interaction state alone |
| Fields.AllKeysRead | helpers/sprites.py:237-256 | `load_fields` reads every one of the 19 keys |
| Fields.SavedDetermines | helpers/sprites.py:229-235 | the 19 saved attributes plus `last_pos`, `dragging` and `focused` are the whole state of a body |
| Fields.SameRecord | helpers/sprites.py:229-235 | two bodies with equal records differ at most in the interaction state |
| Fields.LoadFrom | helpers/sprites.py:237-256 | reading a run of keys: an error names one of those keys and describes the record truly (a missing key is absent, a mis-shaped one holds a value of the wrong shape); a success keeps `last_pos`, `dragging` and `focused` |
| Fields.LoadFields | helpers/sprites.py:237-256 | an error describes the record truly; a success keeps `last_pos`, `dragging` and `focused`, and every one of the 19 saved attributes then holds the record's value (success exactly for loadable records is `LoadSucceedsIff`, the error key is `LoadReportsFirstFailure`) |
| Fields.LoadFromReads | helpers/sprites.py:237-256 | after a successful load, every read key was present and well shaped, and its attribute now holds the record's value; the other attributes are untouched |
| Fields.LoadFromSucceedsIff | helpers/sprites.py:237-256 | a load succeeds exactly when every key it reads is present and well shaped |
| Fields.LoadFromFirstFailure | helpers/sprites.py:237-256 | a load fails at the first bad key in reading order: missing (KeyError) or of the wrong shape |
| Fields.ReadsAllIffLoadable | helpers/sprites.py:237-256 | the keys read by `load_fields` are all good exactly when the record is loadable |
| Fields.LoadSaveRoundTrip | helpers/sprites.py:229-256 | loading a saved record restores all 19 attributes exactly, keeping the receiver's `last_pos`, `dragging` and `focused` |
| Fields.SaveLoadRoundTrip | helpers/sprites.py:229-256 | a record with all 19 keys well shaped loads, and saving the loaded body gives back exactly those 19 entries |
| Fields.LoadSucceedsIff | helpers/sprites.py:237-256 | `load_fields` succeeds exactly when all 19 keys are present with values of the right shape; otherwise it fails |
| Fields.LoadReportsFirstFailure | helpers/sprites.py:237-256 | the error names the first key, in assignment order, that is missing or mis-shaped |
| CamGroup.ResetScales | helpers/cam_group.py:12-15 | offset (0, 0) and zoom 0.6; the drag state is kept |
| CamGroup.NewCamera | helpers/cam_group.py:5-10 | a new camera is at offset (0, 0), zoom 0.6, not dragging, with a zero click-start vector |
| CamGroup.CheckCollision | helpers/cam_group.py:17-35 | a left press starts a drag with clickstart = offset - mouse and does not move the view; a left release stops it and does not move the view; motion during a drag sets offset = mouse + clickstart; motion without a drag changes nothing; space resets offset and zoom only; other events change nothing; every event returns True |
| CamGroup.MotionsFollowMouse | helpers/cam_group.py:27-30 | during a drag, after any motions the offset is the last mouse position plus clickstart, and nothing else changed |
| CamGroup.MotionsIgnoredWhenIdle | helpers/cam_group.py:27-30 | without a drag, motions change nothing |
| CamGroup.DragMovesByMouseDelta | helpers/cam_group.py:19-30 | after a press and motions, the offset is the press-time offset plus (mouse - press mouse); moving back to the press point restores it; the zoom is kept |
| CamGroup.ReleaseEndsDrag | helpers/cam_group.py:24-30 | after a release, later motions leave the view where it was |
| CamGroup.ResetIdempotent | helpers/cam_group.py:12-33 | a second space press changes nothing; a reset camera matches a new one apart from the drag state |
| PlanetGroup.NewGroup | helpers/planet_group.py:5-9 | a new group is empty and running |
| PlanetGroup.AddPlanet | helpers/sprites.py:54-55 | a new planet joins its group after the planets already in it |
| PlanetGroup.SetUpdating | helpers/planet_group.py:11-12 | sets the running flag and leaves the planets alone |
| PlanetGroup.Update | helpers/planet_group.py:14-20 | a frame that succeeds keeps the running flag and the number of planets (what each planet becomes is `UpdateSequential` and `UpdatePaused`) |
| PlanetGroup.HandleOne | helpers/planet_group.py:15-20 | handling one planet (draw, then step if running) changes only that planet |
| PlanetGroup.UpdateFromFrame | helpers/planet_group.py:14-20 | a frame keeps the number of planets and does not revisit planets already handled |
| PlanetGroup.UpdateFromSteps | helpers/planet_group.py:15-18 | while running, each planet is drawn (trimmed), then stepped against the planets before it in their new state and the planets after it in their old state |
| PlanetGroup.UpdateFromPaused | helpers/planet_group.py:19-20 | paused, each remaining planet only has its orbit trimmed |
| PlanetGroup.UpdateSequential | helpers/planet_group.py:14-18 | a running frame succeeds only if no planet met a coinciding body or had zero mass, and planet j ends as Step(trimmed planet j, new planets before j + old planets after j) |
| PlanetGroup.UpdatePaused | helpers/planet_group.py:14-20 | a paused frame cannot fail, and it changes nothing but trimming each orbit to its last 200 points |
| PlanetGroup.UpdateBoundsOrbits | helpers/planet_group.py:15-18 | after a running frame every orbit has at most 201 points (trim in draw, then one append) |
| PlanetGroup.ZeroMassFails | helpers/planet_group.py:15-18 | a running frame with a zero-mass planet fails |
| PlanetGroup.UpdateFailsOnlyWhenRunning | helpers/planet_group.py:14-20 | a frame that fails was a running one |
| PlanetGroup.CheckCollision | helpers/planet_group.py:22-28 | every planet handles the event, with no short-circuit; the result is True exactly when some planet returned True; the index reported is the last planet that did |
| PlanetGroup.CollisionMeaning | helpers/planet_group.py:22-28 | given that the recorded index is the last planet whose handler returned True (None if none did), the planets after the event are each one's own `drag_planet` result, the collision flag is True exactly when some planet returned True, and no planet after the recorded one returned True |
| PlanetGroup.Unfocus | helpers/planet_group.py:30-32 | every planet gets `focused` false and nothing else changes |
| PlanetGroup.UnfocusIdempotent | helpers/planet_group.py:30-32 | unfocusing twice is unfocusing once; afterwards no planet is focused |

## Left out

- `Star` (helpers/sprites.py), the background star sprite, and helpers/menu_group.py, the menu group's show/hide delegation: drawing and visibility only, with no simulation state.
- `Button`, `Slider`, `LogarithmicSlider`, `TextBox` (helpers/sprites.py): pygame widgets with drawing, image and font loading, and no simulation state.
- The drawing in `draw` and `arrow`: the circles, the sun's scale bar and label, and the force and velocity arrows. Only the orbit trim changes state. The trail points are computed, but `pygame.draw.lines` is not modelled.
- Floating point: all arithmetic is on exact reals. Rounding, overflow, NaN and infinity are not modelled. The values of `atan2`, `cos` and `sin` are unknown to the model, so nothing is claimed about the force components' directions. In particular, Newton's third law (equal and opposite pulls) is not stated.
- PlanetaryObject.Pull: requires the two bodies not to coincide. The Python code divides by a zero distance there. That crash is modelled one level up, as `Failure(ZeroDivision)` from `Integrator.UpdatePosition`.
- PlanetaryObject.Attraction: requires the two bodies not to coincide, for the same reason.
- Integrator.UpdatePosition: on `ZeroDivisionError` the model returns only the error. The GPE/distance samples and force totals that Python had already written to the object before raising are not kept.
- PlanetGroup.Update: a failure returns only the error. The planets already stepped earlier in the same frame are not kept, and planet_group.py does not catch it.
- Fields.LoadFields: on a missing key the model returns only the error. The attributes that Python had already assigned before the `KeyError` are not kept.
- Fields.LoadFields: a value of the wrong shape is the model-only error `WrongShape`. The Python dictionary is untyped, and `load_fields` would store whatever it finds. A record is a map over the 19 keys, so a dictionary with extra keys cannot be represented.
- PlanetGroup.CheckCollision: returns the index of the last planet that handled the event, not the sprite object.
- The file transport of the saved record is not modelled, nor is Python list aliasing between a saved record and the live object.
- The camera's zoom factor is only set, never read, by the modelled code. Camera offsets are integers, because they only ever hold sums and differences of integer mouse positions.
