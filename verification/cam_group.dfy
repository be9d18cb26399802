/** The camera (`CamGroup` in helpers/cam_group.py): a screen offset the user drags with the left
    mouse button and resets with the space key, and a zoom factor. */
module CamGroup {
  import opened Input

  /** The zoom factor `reset_scales` restores. */
  const DEFAULT_SCALE: real := 0.6

  /** The camera state. Offsets are whole pixels: they start at zero and only ever take sums and
      differences of mouse positions, which pygame reports as integers. */
  datatype Camera = Camera(offset: Pixel, clickstart: Pixel, dragging: bool, scaleSize: real)

  function Plus(a: Pixel, b: Pixel): Pixel {
    Pixel(a.x + b.x, a.y + b.y)
  }

  function Minus(a: Pixel, b: Pixel): Pixel {
    Pixel(a.x - b.x, a.y - b.y)
  }

  /** `reset_scales`: back to the origin at the default zoom; the drag state is kept. */
  function ResetScales(c: Camera): (r: Camera)
    ensures r.offset == Pixel(0, 0) && r.scaleSize == DEFAULT_SCALE
    ensures r.dragging == c.dragging && r.clickstart == c.clickstart
  {
    c.(offset := Pixel(0, 0), scaleSize := DEFAULT_SCALE)
  }

  /** `CamGroup()`: not dragging, both vectors zero, default zoom. */
  function NewCamera(): (r: Camera)
    ensures r.offset == r.clickstart == Pixel(0, 0)
    ensures !r.dragging && r.scaleSize == DEFAULT_SCALE
  {
    ResetScales(Camera(Pixel(0, 0), Pixel(0, 0), false, 0.0))
  }

  /** `check_collision`: a left press starts a drag, remembering the offset relative to the mouse;
      a left release ends it; a motion during a drag moves the offset with the mouse; the space key
      resets position and zoom. Every event counts as handled. */
  function CheckCollision(c: Camera, ev: Event): (r: (Camera, bool))
    ensures r.1
    ensures ev.kind == ButtonDown(LEFT) ==>
              r.0 == c.(dragging := true, clickstart := Minus(c.offset, ev.mouse))
    ensures ev.kind == ButtonUp(LEFT) ==> r.0 == c.(dragging := false)
    ensures ev.kind == MouseMotion ==>
              r.0 == if c.dragging then c.(offset := Plus(ev.mouse, c.clickstart)) else c
    ensures ev.kind == KeyDown(K_SPACE) ==> r.0 == ResetScales(c)
    ensures (ev.kind != ButtonDown(LEFT) && ev.kind != ButtonUp(LEFT) && ev.kind != MouseMotion
             && ev.kind != KeyDown(K_SPACE)) ==> r.0 == c
  {
    var next :=
      if ev.kind == ButtonDown(LEFT) then
        c.(dragging := true, clickstart := Minus(c.offset, ev.mouse))
      else if ev.kind == ButtonUp(LEFT) then
        c.(dragging := false)
      else if ev.kind == MouseMotion then
        if c.dragging then c.(offset := Plus(ev.mouse, c.clickstart)) else c
      else if ev.kind == KeyDown(K_SPACE) then
        ResetScales(c)
      else
        c;
    (next, true)
  }

  /** The camera after handling `events` in order. */
  function Replay(c: Camera, events: seq<Event>): Camera
    decreases |events|
  {
    if events == [] then c else Replay(CheckCollision(c, events[0]).0, events[1..])
  }

  /** Mouse motions through the pixels of `path`. */
  function Motions(path: seq<Pixel>): (r: seq<Event>)
    ensures |r| == |path|
    ensures forall i :: 0 <= i < |path| ==> r[i] == Event(MouseMotion, path[i])
  {
    if path == [] then [] else [Event(MouseMotion, path[0])] + Motions(path[1..])
  }

  /** During a drag, motions put the offset at the last mouse position plus the remembered
      click-start vector; nothing else changes. */
  lemma {:induction false} MotionsFollowMouse(c: Camera, path: seq<Pixel>)
    requires c.dragging
    ensures Replay(c, Motions(path)) ==
              if path == [] then c else c.(offset := Plus(path[|path| - 1], c.clickstart))
    decreases |path|
  {
    if path != [] {
      var next := CheckCollision(c, Event(MouseMotion, path[0])).0;
      assert Motions(path)[1..] == Motions(path[1..]);
      MotionsFollowMouse(next, path[1..]);
    }
  }

  /** Outside a drag, mouse motions leave the camera where it is. */
  lemma {:induction false} MotionsIgnoredWhenIdle(c: Camera, path: seq<Pixel>)
    requires !c.dragging
    ensures Replay(c, Motions(path)) == c
    decreases |path|
  {
    if path != [] {
      assert Motions(path)[1..] == Motions(path[1..]);
      MotionsIgnoredWhenIdle(c, path[1..]);
    }
  }

  /** Dragging the view: after a left press at `press` and motions through `path`, the offset has
      moved by exactly the mouse's displacement from the press point, so returning the mouse to
      the press point puts the view back; the zoom is untouched and the drag is still on. */
  lemma DragMovesByMouseDelta(c: Camera, press: Pixel, path: seq<Pixel>)
    ensures var r := Replay(c, [Event(ButtonDown(LEFT), press)] + Motions(path));
            && r.dragging
            && r.scaleSize == c.scaleSize
            && r.offset == (if path == [] then c.offset
                            else Plus(c.offset, Minus(path[|path| - 1], press)))
            && (path != [] && path[|path| - 1] == press ==> r.offset == c.offset)
  {
    var events := [Event(ButtonDown(LEFT), press)] + Motions(path);
    var pressed := CheckCollision(c, events[0]).0;
    assert events[1..] == Motions(path);
    MotionsFollowMouse(pressed, path);
  }

  /** After a left release, later motions do not move the view until the next press. */
  lemma ReleaseEndsDrag(c: Camera, release: Pixel, path: seq<Pixel>)
    ensures Replay(c, [Event(ButtonUp(LEFT), release)] + Motions(path)) == c.(dragging := false)
  {
    var events := [Event(ButtonUp(LEFT), release)] + Motions(path);
    assert events[1..] == Motions(path);
    MotionsIgnoredWhenIdle(c.(dragging := false), path);
  }

  /** The space key is idempotent: a second reset changes nothing, and a reset camera is where a
      new camera starts, apart from the drag state. */
  lemma ResetIdempotent(c: Camera, at: Pixel)
    ensures var once := CheckCollision(c, Event(KeyDown(K_SPACE), at)).0;
            && CheckCollision(once, Event(KeyDown(K_SPACE), at)).0 == once
            && once.(dragging := false, clickstart := Pixel(0, 0)) == NewCamera()
  {
  }
}
