/** The saved record of a body (`PlanetaryObject.save_fields` and `load_fields` in
    helpers/sprites.py): nineteen named fields, read back in a fixed order. */
module Fields {
  import opened Results
  import opened PlanetaryObject
  import opened Input

  /** A value of the record. The Python record is an untyped dictionary; each of its values has
      one of these shapes. */
  datatype Value =
    | Text(text: string)
    | Number(number: real)
    | Whole(whole: int)
    | Flag(flag: bool)
    | Points(points: seq<Point>)
    | Samples(samples: seq<real>)

  /** The nineteen keys of the record, one per dictionary key `save_fields` writes: "name", "x",
      "y", "radius", "color", "mass", "WIDTH", "HEIGHT", "orbit", "sun", "distance_to_sun",
      "x_vel", "y_vel", "total_fx", "total_fy", "velocity", "KE", "GPE" and "distance". */
  datatype Key =
    | NameKey | XKey | YKey | RadiusKey | ColorKey | MassKey | WidthKey | HeightKey | OrbitKey
    | SunKey | DistanceToSunKey | XVelKey | YVelKey | TotalFxKey | TotalFyKey | VelocityKey
    | KeKey | GpeKey | DistanceKey

  /** The saved record. */
  type Record = map<Key, Value>

  /** The nineteen keys, in the order `load_fields` reads them. */
  const KEYS: seq<Key> :=
    [NameKey, XKey, YKey, RadiusKey, ColorKey, MassKey, WidthKey, HeightKey, OrbitKey, SunKey,
     DistanceToSunKey, XVelKey, YVelKey, TotalFxKey, TotalFyKey, VelocityKey, KeKey, GpeKey,
     DistanceKey]

  /** Why a record cannot be loaded: a key is absent (Python's KeyError), or its value does not
      have the shape of the attribute it is loaded into. */
  datatype LoadError = MissingKey(key: Key) | WrongShape(key: Key)

  /** The error describes `rec` truly: a missing key is absent, a mis-shaped one is present with a
      value that does not fit. */
  predicate Faulty(rec: Record, e: LoadError) {
    match e
    case MissingKey(k) => k !in rec
    case WrongShape(k) => k in rec && !Fits(k, rec[k])
  }

  /** The shape of value each saved key holds. */
  predicate Fits(key: Key, v: Value) {
    match key
    case NameKey | ColorKey => v.Text?
    case WidthKey | HeightKey => v.Whole?
    case OrbitKey => v.Points?
    case SunKey => v.Flag?
    case KeKey | GpeKey | DistanceKey => v.Samples?
    case _ => v.Number?
  }

  /** The record holds every key, each with a value of the right shape. */
  predicate Loadable(rec: Record) {
    forall k: Key :: k in rec && Fits(k, rec[k])
  }

  /** The value `save_fields` stores under key `k`. */
  function Saved(b: Body, k: Key): Value {
    match k
    case NameKey => Text(b.name)
    case XKey => Number(b.x)
    case YKey => Number(b.y)
    case RadiusKey => Number(b.radius)
    case ColorKey => Text(b.color)
    case MassKey => Number(b.mass)
    case WidthKey => Whole(b.width)
    case HeightKey => Whole(b.height)
    case OrbitKey => Points(b.orbit)
    case SunKey => Flag(b.sun)
    case DistanceToSunKey => Number(b.distanceToSun)
    case XVelKey => Number(b.xVel)
    case YVelKey => Number(b.yVel)
    case TotalFxKey => Number(b.totalFx)
    case TotalFyKey => Number(b.totalFy)
    case VelocityKey => Number(b.velocity)
    case KeKey => Samples(b.ke)
    case GpeKey => Samples(b.gpe)
    case DistanceKey => Samples(b.distance)
  }

  /** `save_fields`: the nineteen saved attributes under their names; every key is present with
      a value of the shape `load_fields` expects. */
  function SaveFields(b: Body): (r: Record)
    ensures Loadable(r)
  {
    map k: Key | true :: Saved(b, k)
  }

  /** The drag and focus state of a body, which the record does not carry. */
  function Interaction(b: Body): (Pixel, bool, bool) {
    (b.lastPos, b.dragging, b.focused)
  }

  /** `b` with the saved attribute under `k` set to `v`: one assignment of `load_fields`. */
  function Put(b: Body, k: Key, v: Value): (r: Body)
    requires Fits(k, v)
    ensures Saved(r, k) == v
    ensures forall other: Key :: other != k ==> Saved(r, other) == Saved(b, other)
    ensures Interaction(r) == Interaction(b)
  {
    match k
    case NameKey => b.(name := v.text)
    case XKey => b.(x := v.number)
    case YKey => b.(y := v.number)
    case RadiusKey => b.(radius := v.number)
    case ColorKey => b.(color := v.text)
    case MassKey => b.(mass := v.number)
    case WidthKey => b.(width := v.whole)
    case HeightKey => b.(height := v.whole)
    case OrbitKey => b.(orbit := v.points)
    case SunKey => b.(sun := v.flag)
    case DistanceToSunKey => b.(distanceToSun := v.number)
    case XVelKey => b.(xVel := v.number)
    case YVelKey => b.(yVel := v.number)
    case TotalFxKey => b.(totalFx := v.number)
    case TotalFyKey => b.(totalFy := v.number)
    case VelocityKey => b.(velocity := v.number)
    case KeKey => b.(ke := v.samples)
    case GpeKey => b.(gpe := v.samples)
    case DistanceKey => b.(distance := v.samples)
  }

  /** Read `keys` from `rec` into `b`, one after the other; the first absent or mis-shaped key stops
      the load. */
  function LoadFrom(b: Body, rec: Record, keys: seq<Key>): (r: Result<Body, LoadError>)
    ensures r.Failure? ==> r.error.key in keys
    ensures r.Failure? ==> Faulty(rec, r.error)
    ensures r.Success? ==> Interaction(r.value) == Interaction(b)
    decreases |keys|
  {
    if keys == [] then Success(b)
    else if keys[0] !in rec then Failure(MissingKey(keys[0]))
    else if !Fits(keys[0], rec[keys[0]]) then Failure(WrongShape(keys[0]))
    else LoadFrom(Put(b, keys[0], rec[keys[0]]), rec, keys[1..])
  }

  /** `load_fields`: read the nineteen keys, in the order `load_fields` assigns them, into `b`. */
  function LoadFields(b: Body, rec: Record): (r: Result<Body, LoadError>)
    ensures r.Failure? ==> Faulty(rec, r.error)
    ensures r.Success? ==> Interaction(r.value) == Interaction(b)
    ensures r.Success? ==> forall k: Key :: k in rec && Saved(r.value, k) == rec[k]
  {
    var r := LoadFrom(b, rec, KEYS);
    LoadedAll(b, rec);
    r
  }

  /** A successful load has read every key, so every saved attribute holds the record's value. */
  lemma LoadedAll(b: Body, rec: Record)
    ensures var r := LoadFrom(b, rec, KEYS);
            r.Success? ==> forall k: Key :: k in rec && Saved(r.value, k) == rec[k]
  {
    if LoadFrom(b, rec, KEYS).Success? {
      LoadFromReads(b, rec, KEYS);
      forall k: Key
        ensures k in KEYS
      {
        AllKeysRead(k);
      }
    }
  }

  /** Every key is among the nineteen `load_fields` reads. */
  lemma AllKeysRead(k: Key)
    ensures k in KEYS
  {
    match k
    case NameKey => assert KEYS[0] == k;
    case XKey => assert KEYS[1] == k;
    case YKey => assert KEYS[2] == k;
    case RadiusKey => assert KEYS[3] == k;
    case ColorKey => assert KEYS[4] == k;
    case MassKey => assert KEYS[5] == k;
    case WidthKey => assert KEYS[6] == k;
    case HeightKey => assert KEYS[7] == k;
    case OrbitKey => assert KEYS[8] == k;
    case SunKey => assert KEYS[9] == k;
    case DistanceToSunKey => assert KEYS[10] == k;
    case XVelKey => assert KEYS[11] == k;
    case YVelKey => assert KEYS[12] == k;
    case TotalFxKey => assert KEYS[13] == k;
    case TotalFyKey => assert KEYS[14] == k;
    case VelocityKey => assert KEYS[15] == k;
    case KeKey => assert KEYS[16] == k;
    case GpeKey => assert KEYS[17] == k;
    case DistanceKey => assert KEYS[18] == k;
  }

  /** Two bodies with the same saved attributes and the same interaction state are equal: the
      record and the interaction state together cover every attribute of a body. */
  lemma SavedDetermines(c: Body, d: Body)
    requires forall k: Key :: Saved(c, k) == Saved(d, k)
    requires Interaction(c) == Interaction(d)
    ensures c == d
  {
    SameShapeAndPlace(c, d);
    SameMotionAndHistories(c, d);
  }

  /** Equal records give equal identity, position, size, orbit and sun flag. */
  lemma SameShapeAndPlace(c: Body, d: Body)
    requires forall k: Key :: Saved(c, k) == Saved(d, k)
    ensures c.name == d.name && c.x == d.x && c.y == d.y && c.radius == d.radius &&
            c.color == d.color && c.mass == d.mass && c.width == d.width && c.height == d.height &&
            c.orbit == d.orbit && c.sun == d.sun
  {
    assert Saved(c, NameKey) == Saved(d, NameKey);
    assert Saved(c, XKey) == Saved(d, XKey);
    assert Saved(c, YKey) == Saved(d, YKey);
    assert Saved(c, RadiusKey) == Saved(d, RadiusKey);
    assert Saved(c, ColorKey) == Saved(d, ColorKey);
    assert Saved(c, MassKey) == Saved(d, MassKey);
    assert Saved(c, WidthKey) == Saved(d, WidthKey);
    assert Saved(c, HeightKey) == Saved(d, HeightKey);
    assert Saved(c, OrbitKey) == Saved(d, OrbitKey);
    assert Saved(c, SunKey) == Saved(d, SunKey);
  }

  /** Equal records give equal motion, forces and histories. */
  lemma SameMotionAndHistories(c: Body, d: Body)
    requires forall k: Key :: Saved(c, k) == Saved(d, k)
    ensures c.distanceToSun == d.distanceToSun && c.xVel == d.xVel && c.yVel == d.yVel &&
            c.totalFx == d.totalFx && c.totalFy == d.totalFy && c.velocity == d.velocity &&
            c.ke == d.ke && c.gpe == d.gpe && c.distance == d.distance
  {
    assert Saved(c, DistanceToSunKey) == Saved(d, DistanceToSunKey);
    assert Saved(c, XVelKey) == Saved(d, XVelKey);
    assert Saved(c, YVelKey) == Saved(d, YVelKey);
    assert Saved(c, TotalFxKey) == Saved(d, TotalFxKey);
    assert Saved(c, TotalFyKey) == Saved(d, TotalFyKey);
    assert Saved(c, VelocityKey) == Saved(d, VelocityKey);
    assert Saved(c, KeKey) == Saved(d, KeKey);
    assert Saved(c, GpeKey) == Saved(d, GpeKey);
    assert Saved(c, DistanceKey) == Saved(d, DistanceKey);
  }

  /** A load that succeeds has read every listed key from the record, each well shaped; the
      listed attributes now hold the record's values and the rest are as they were. */
  lemma {:induction false} LoadFromReads(b: Body, rec: Record, keys: seq<Key>)
    requires LoadFrom(b, rec, keys).Success?
    ensures var r := LoadFrom(b, rec, keys).value;
            && Interaction(r) == Interaction(b)
            && (forall k: Key :: k in keys ==> k in rec && Fits(k, rec[k]) && Saved(r, k) == rec[k])
            && (forall k: Key :: k !in keys ==> Saved(r, k) == Saved(b, k))
    decreases |keys|
  {
    if keys != [] {
      var c := Put(b, keys[0], rec[keys[0]]);
      LoadFromReads(c, rec, keys[1..]);
      forall k: Key | k in keys
        ensures k == keys[0] || k in keys[1..]
      {
        var i :| 0 <= i < |keys| && keys[i] == k;
        if i > 0 {
          assert keys[1..][i - 1] == k;
        }
      }
    }
  }

  /** A load succeeds exactly when every listed key is present and well shaped. */
  lemma {:induction false} LoadFromSucceedsIff(b: Body, rec: Record, keys: seq<Key>)
    ensures LoadFrom(b, rec, keys).Success? <==>
              forall i :: 0 <= i < |keys| ==> keys[i] in rec && Fits(keys[i], rec[keys[i]])
    decreases |keys|
  {
    if keys != [] && keys[0] in rec && Fits(keys[0], rec[keys[0]]) {
      LoadFromSucceedsIff(Put(b, keys[0], rec[keys[0]]), rec, keys[1..]);
      assert forall i :: 1 <= i < |keys| ==> keys[i] == keys[1..][i - 1];
    }
  }

  /** When every key before position `i` is present and well shaped, the `i`-th key decides the
      error: absent, or present with a value of the wrong shape. */
  lemma {:induction false} LoadFromFirstFailure(b: Body, rec: Record, keys: seq<Key>, i: nat)
    requires i < |keys|
    requires forall j :: 0 <= j < i ==> keys[j] in rec && Fits(keys[j], rec[keys[j]])
    requires keys[i] !in rec || !Fits(keys[i], rec[keys[i]])
    ensures LoadFrom(b, rec, keys) ==
              Failure(if keys[i] !in rec then MissingKey(keys[i]) else WrongShape(keys[i]))
    decreases i
  {
    if i > 0 {
      assert keys[0] in rec && Fits(keys[0], rec[keys[0]]);
      var rest := keys[1..];
      assert forall j :: 0 <= j < i - 1 ==> rest[j] == keys[j + 1];
      LoadFromFirstFailure(Put(b, keys[0], rec[keys[0]]), rec, rest, i - 1);
    }
  }

  /** Position-wise, the keys `load_fields` reads are all present and well shaped exactly when
      the record is loadable. */
  lemma ReadsAllIffLoadable(rec: Record)
    ensures (forall i :: 0 <= i < |KEYS| ==> KEYS[i] in rec && Fits(KEYS[i], rec[KEYS[i]]))
              <==> Loadable(rec)
  {
    if forall i :: 0 <= i < |KEYS| ==> KEYS[i] in rec && Fits(KEYS[i], rec[KEYS[i]]) {
      forall k: Key
        ensures k in rec && Fits(k, rec[k])
      {
        AllKeysRead(k);
      }
    }
  }

  /** A body whose saved record equals `b`'s is `b`, up to the interaction state. */
  lemma SameRecord(r: Body, b: Body)
    requires forall k: Key :: SaveFields(r)[k] == SaveFields(b)[k]
    ensures r == b.(lastPos := r.lastPos, dragging := r.dragging, focused := r.focused)
  {
    var expected := b.(lastPos := r.lastPos, dragging := r.dragging, focused := r.focused);
    forall k: Key
      ensures Saved(r, k) == Saved(expected, k)
    {
      assert SaveFields(r)[k] == SaveFields(b)[k];
    }
    SavedDetermines(r, expected);
  }

  /** Loading a saved record restores all nineteen saved attributes exactly and leaves the
      unsaved interaction state of the receiving body as it was. */
  lemma LoadSaveRoundTrip(b: Body, into: Body)
    ensures LoadFields(into, SaveFields(b)) ==
              Success(b.(lastPos := into.lastPos, dragging := into.dragging, focused := into.focused))
  {
    var rec := SaveFields(b);
    SaveLoadRoundTrip(into, rec);
    var r := LoadFields(into, rec).value;
    LoadFromReads(into, rec, KEYS);
    assert Interaction(r) == Interaction(into);
    SameRecord(r, b);
  }

  /** A loadable record loads, and saving the loaded body gives back exactly the nineteen entries
      of the record. */
  lemma SaveLoadRoundTrip(b: Body, rec: Record)
    requires Loadable(rec)
    ensures LoadFields(b, rec).Success?
    ensures var saved := SaveFields(LoadFields(b, rec).value);
            forall k: Key :: k in rec && saved[k] == rec[k]
  {
    LoadSucceedsIff(b, rec);
    LoadFromReads(b, rec, KEYS);
    forall k: Key
      ensures k in KEYS
    {
      AllKeysRead(k);
    }
  }

  /** A record loads exactly when it holds all nineteen keys with values of the right shapes. */
  lemma LoadSucceedsIff(b: Body, rec: Record)
    ensures LoadFields(b, rec).Success? <==> Loadable(rec)
  {
    LoadFromSucceedsIff(b, rec, KEYS);
    ReadsAllIffLoadable(rec);
  }

  /** The error names the first key, in assignment order, that is absent (Python's KeyError) or
      mis-shaped. */
  lemma LoadReportsFirstFailure(b: Body, rec: Record, i: nat)
    requires i < |KEYS|
    requires forall j :: 0 <= j < i ==> KEYS[j] in rec && Fits(KEYS[j], rec[KEYS[j]])
    requires KEYS[i] !in rec || !Fits(KEYS[i], rec[KEYS[i]])
    ensures LoadFields(b, rec) ==
              Failure(if KEYS[i] !in rec then MissingKey(KEYS[i]) else WrongShape(KEYS[i]))
  {
    LoadFromFirstFailure(b, rec, KEYS, i);
  }
}
