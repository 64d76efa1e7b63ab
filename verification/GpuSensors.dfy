/** What a window has to say about each sensor, and when it has a total to show
    (agent/power_history.go). */
module GpuSensors {
  import opened Common
  import opened GpuWindow

  // ---- what was read ----

  /** The values read of one sensor, in order. */
  function ValuesIn(readings: seq<Reading>, id: Id): seq<real>
    decreases |readings|
  {
    if readings == [] then []
    else
      var r := readings[|readings| - 1];
      ValuesIn(readings[..|readings| - 1], id) + (if r.id == id && r.watts.Some? then [r.watts.value] else [])
  }

  function ValuesOf(ticks: seq<GpuTick>, id: Id): seq<real>
    decreases |ticks|
  {
    if ticks == [] then [] else ValuesOf(ticks[..|ticks| - 1], id) + ValuesIn(ticks[|ticks| - 1].readings, id)
  }

  function IdsIn(readings: seq<Reading>): set<Id> {
    set i | 0 <= i < |readings| :: readings[i].id
  }

  function IdsOf(ticks: seq<GpuTick>): set<Id>
    decreases |ticks|
  {
    if ticks == [] then {} else IdsOf(ticks[..|ticks| - 1]) + IdsIn(ticks[|ticks| - 1].readings)
  }

  lemma ValuesSnoc(readings: seq<Reading>, r: Reading, id: Id)
    ensures ValuesIn(readings + [r], id) == ValuesIn(readings, id) + (if r.id == id && r.watts.Some? then [r.watts.value] else [])
    ensures IdsIn(readings + [r]) == IdsIn(readings) + {r.id}
  {
    var all := readings + [r];
    assert all[..|readings|] == readings;
    assert all[|readings|] == r;
    assert forall i :: 0 <= i < |readings| ==> all[i] == readings[i];
  }

  lemma TicksSnoc(ticks: seq<GpuTick>, t: GpuTick, id: Id)
    ensures ValuesOf(ticks + [t], id) == ValuesOf(ticks, id) + ValuesIn(t.readings, id)
    ensures IdsOf(ticks + [t]) == IdsOf(ticks) + IdsIn(t.readings)
  {
    assert (ticks + [t])[..|ticks|] == ticks;
  }

  lemma {:induction false} NoIdNoValue(readings: seq<Reading>, id: Id)
    requires forall i :: 0 <= i < |readings| ==> readings[i].id != id
    ensures ValuesIn(readings, id) == []
    decreases |readings|
  {
    if readings != [] { NoIdNoValue(readings[..|readings| - 1], id); }
  }

  lemma NotRead(readings: seq<Reading>, id: Id)
    requires id !in IdsIn(readings)
    ensures ValuesIn(readings, id) == []
  {
    assert forall i :: 0 <= i < |readings| ==> readings[i].id in IdsIn(readings);
    NoIdNoValue(readings, id);
  }

  lemma {:induction false} NeverReadNoValue(ticks: seq<GpuTick>, id: Id)
    requires id !in IdsOf(ticks)
    ensures ValuesOf(ticks, id) == []
    decreases |ticks|
  {
    if ticks != [] {
      NeverReadNoValue(ticks[..|ticks| - 1], id);
      NotRead(ticks[|ticks| - 1].readings, id);
    }
  }

  // ---- what the window keeps of it ----

  /** The values of a sensor in these ticks and these readings of the next. */
  function Values(ticks: seq<GpuTick>, readings: seq<Reading>, id: Id): seq<real> {
    ValuesOf(ticks, id) + ValuesIn(readings, id)
  }

  predicate Appears(ticks: seq<GpuTick>, readings: seq<Reading>, id: Id) {
    id in IdsOf(ticks) || id in IdsIn(readings)
  }

  lemma AppearsMore(ticks: seq<GpuTick>, readings: seq<Reading>, r: Reading)
    ensures forall id :: Appears(ticks, readings + [r], id) <==> Appears(ticks, readings, id) || id == r.id
  {
    ValuesSnoc(readings, r, r.id);
  }

  ghost predicate SensorTrue(w: Window, ticks: seq<GpuTick>, readings: seq<Reading>, expected: nat, id: Id) {
    id in w.gpus && w.gpus[id] == Of(First(Values(ticks, readings, id), expected))
  }

  /** Some sensor with a place had a value. */
  ghost predicate SomethingRead(w: Window, ticks: seq<GpuTick>, readings: seq<Reading>) {
    exists id :: id in w.order && Values(ticks, readings, id) != []
  }

  /** Every sensor with a place shows its own values, the sensors seen have places as long
      as there are any, and the window knows whether it holds anything. */
  ghost predicate SensorsTrue(w: Window, ticks: seq<GpuTick>, readings: seq<Reading>, expected: nat) {
    && (forall id :: id in w.order ==> SensorTrue(w, ticks, readings, expected, id))
    && (forall id :: id in w.order ==> Appears(ticks, readings, id))
    && (|w.order| < MAX_SENSORS ==> forall id :: Appears(ticks, readings, id) ==> id in w.order)
    && (w.any <==> expected > 0 && SomethingRead(w, ticks, readings))
  }

  /** As above, but that the sensor `id` has just been given a place. */
  ghost predicate PlacedFor(w: Window, ticks: seq<GpuTick>, readings: seq<Reading>, expected: nat, id: Id) {
    && id in w.gpus && id in w.order
    && (forall x :: x in w.order ==> SensorTrue(w, ticks, readings, expected, x))
    && (forall x :: x in w.order ==> Appears(ticks, readings, x) || x == id)
    && (|w.order| < MAX_SENSORS ==> forall x :: Appears(ticks, readings, x) ==> x in w.order)
    && (w.any <==> expected > 0 && SomethingRead(w, ticks, readings))
  }

  lemma AdmittedTrue(w: Window, ticks: seq<GpuTick>, readings: seq<Reading>, id: Id, expected: nat)
    requires WindowOk(w, expected) && SensorsTrue(w, ticks, readings, expected) && (id in w.gpus || |w.order| < MAX_SENSORS)
    ensures PlacedFor(Admitted(w, id), ticks, readings, expected, id)
  {
    if id !in w.gpus {
      assert id !in w.order;
      NeverReadNoValue(ticks, id);
      NotRead(readings, id);
      NewPlace(w, Admitted(w, id), ticks, readings, id, expected);
    }
  }

  lemma NewPlace(w: Window, w': Window, ticks: seq<GpuTick>, readings: seq<Reading>, id: Id, expected: nat)
    requires (forall x :: x in w.gpus <==> x in w.order) && SensorsTrue(w, ticks, readings, expected)
    requires id !in w.order && |w.order| < MAX_SENSORS && ValuesOf(ticks, id) == [] && ValuesIn(readings, id) == []
    requires w' == w.(gpus := w.gpus[id := NO_STATS], order := w.order + [id])
    ensures PlacedFor(w', ticks, readings, expected, id)
  {
    assert Values(ticks, readings, id) == [];
    assert w'.order[|w.order|] == id;
    assert forall x :: x in w'.order <==> x in w.order || x == id;
    forall x | x in w'.order ensures SensorTrue(w', ticks, readings, expected, x) {
      if x != id { assert SensorTrue(w, ticks, readings, expected, x); }
    }
    assert SomethingRead(w', ticks, readings) <==> SomethingRead(w, ticks, readings);
  }

  lemma OthersUnread(ticks: seq<GpuTick>, readings: seq<Reading>, r: Reading)
    ensures forall id :: id != r.id ==> Values(ticks, readings + [r], id) == Values(ticks, readings, id)
  {
    forall id | id != r.id ensures Values(ticks, readings + [r], id) == Values(ticks, readings, id) { ValuesSnoc(readings, r, id); }
  }

  lemma ReadingKeepsTrue(l: Taking, ticks: seq<GpuTick>, readings: seq<Reading>, r: Reading, expected: nat)
    requires WindowOk(l.w, expected) && SensorsTrue(l.w, ticks, readings, expected)
    ensures SensorsTrue(TakeReading(l, r, expected).w, ticks, readings + [r], expected)
  {
    if r.id in l.w.gpus || |l.w.order| < MAX_SENSORS {
      AdmittedTrue(l.w, ticks, readings, r.id, expected);
      PlacedReading(Admitted(l.w, r.id), TakeReading(l, r, expected).w, ticks, readings, r, expected);
    } else {
      UnplacedReading(l.w, ticks, readings, r, expected);
    }
  }

  /** A reading without a place changes nothing. */
  lemma UnplacedReading(w: Window, ticks: seq<GpuTick>, readings: seq<Reading>, r: Reading, expected: nat)
    requires WindowOk(w, expected) && SensorsTrue(w, ticks, readings, expected) && r.id !in w.gpus && |w.order| >= MAX_SENSORS
    ensures SensorsTrue(w, ticks, readings + [r], expected)
  {
    assert r.id !in w.order;
    OthersUnread(ticks, readings, r);
    AppearsMore(ticks, readings, r);
    forall id | id in w.order ensures SensorTrue(w, ticks, readings + [r], expected, id) {
      assert SensorTrue(w, ticks, readings, expected, id);
    }
    assert SomethingRead(w, ticks, readings + [r]) <==> SomethingRead(w, ticks, readings);
  }

  /** One more value, or none, of a sensor that has a place. */
  lemma PlacedReading(w: Window, w': Window, ticks: seq<GpuTick>, readings: seq<Reading>, r: Reading, expected: nat)
    requires PlacedFor(w, ticks, readings, expected, r.id)
    requires w' == if r.watts.Some? && w.gpus[r.id].n < expected
                   then w.(gpus := w.gpus[r.id := Add(w.gpus[r.id], r.watts.value)], any := true) else w
    ensures SensorsTrue(w', ticks, readings + [r], expected)
  {
    AppearsMore(ticks, readings, r);
    OwnReading(w, w', ticks, readings, r, expected);
    forall id | id in w'.order ensures SensorTrue(w', ticks, readings + [r], expected, id) {
      if id != r.id { OtherSensor(w, w', ticks, readings, r, expected, id); }
    }
  }

  lemma OtherSensor(w: Window, w': Window, ticks: seq<GpuTick>, readings: seq<Reading>, r: Reading, expected: nat, id: Id)
    requires SensorTrue(w, ticks, readings, expected, id) && id != r.id && id in w'.gpus && w'.gpus[id] == w.gpus[id]
    ensures SensorTrue(w', ticks, readings + [r], expected, id)
  {
    ValuesSnoc(readings, r, id);
    assert Values(ticks, readings + [r], id) == Values(ticks, readings, id);
  }

  /** What it does to the sensor itself, and to whether anything was read. */
  lemma OwnReading(w: Window, w': Window, ticks: seq<GpuTick>, readings: seq<Reading>, r: Reading, expected: nat)
    requires PlacedFor(w, ticks, readings, expected, r.id)
    requires w' == if r.watts.Some? && w.gpus[r.id].n < expected
                   then w.(gpus := w.gpus[r.id := Add(w.gpus[r.id], r.watts.value)], any := true) else w
    ensures SensorTrue(w', ticks, readings + [r], expected, r.id)
    ensures w'.any <==> expected > 0 && SomethingRead(w', ticks, readings + [r])
  {
    OthersUnread(ticks, readings, r);
    ValuesSnoc(readings, r, r.id);
    var before, after := Values(ticks, readings, r.id), Values(ticks, readings + [r], r.id);
    assert SensorTrue(w, ticks, readings, expected, r.id);
    OfMeans(First(before, expected));
    if r.watts.Some? {
      assert after == before + [r.watts.value];
      TotalFollows(before, r.watts.value, w.gpus[r.id], expected);
      if w.gpus[r.id].n >= expected && expected > 0 { assert before != []; }
    } else {
      assert after == before;
      assert SomethingRead(w', ticks, readings + [r]) <==> SomethingRead(w, ticks, readings);
    }
  }

  lemma {:induction false} ReadingsKeepTrue(l: Taking, ticks: seq<GpuTick>, readings: seq<Reading>, expected: nat)
    requires WindowOk(l.w, expected) && SensorsTrue(l.w, ticks, [], expected)
    ensures SensorsTrue(TakeReadings(l, readings, expected).w, ticks, readings, expected)
    decreases |readings|
  {
    if readings != [] {
      var front := readings[..|readings| - 1];
      ReadingsKeepTrue(l, ticks, front, expected);
      ReadingsKeepOk(l, front, expected);
      ReadingKeepsTrue(TakeReadings(l, front, expected), ticks, front, readings[|readings| - 1], expected);
      assert readings == front + [readings[|readings| - 1]];
    }
  }

  /** What the sensors show does not depend on the total. */
  lemma SameSensors(w: Window, w': Window, ticks: seq<GpuTick>, readings: seq<Reading>, expected: nat)
    requires SensorsTrue(w, ticks, readings, expected) && w'.gpus == w.gpus && w'.order == w.order && w'.any == w.any
    ensures SensorsTrue(w', ticks, readings, expected)
  {
    forall id | id in w'.order ensures SensorTrue(w', ticks, readings, expected, id) {
      assert SensorTrue(w, ticks, readings, expected, id);
    }
    assert SomethingRead(w', ticks, readings) <==> SomethingRead(w, ticks, readings);
  }

  lemma TickTaken(w: Window, ticks: seq<GpuTick>, t: GpuTick, expected: nat)
    requires SensorsTrue(w, ticks, t.readings, expected)
    ensures SensorsTrue(w, ticks + [t], [], expected)
  {
    forall id ensures Values(ticks + [t], [], id) == Values(ticks, t.readings, id) { TicksSnoc(ticks, t, id); }
    TicksSnoc(ticks, t, 0);
    forall id | id in w.order ensures SensorTrue(w, ticks + [t], [], expected, id) {
      assert SensorTrue(w, ticks, t.readings, expected, id);
    }
    assert SomethingRead(w, ticks + [t], []) <==> SomethingRead(w, ticks, t.readings);
  }

  lemma TickKeepsTrue(w: Window, ticks: seq<GpuTick>, t: GpuTick, expected: nat)
    requires WindowOk(w, expected) && SensorsTrue(w, ticks, [], expected)
    ensures SensorsTrue(AddTick(w, t, expected), ticks + [t], [], expected)
  {
    var l := Taking(WithMembers(w, t), 0.0, Counts(t));
    SameSensors(w, l.w, ticks, [], expected);
    ReadingsKeepTrue(l, ticks, t.readings, expected);
    SameSensors(Took(w, t, expected).w, AddTick(w, t, expected), ticks, t.readings, expected);
    TickTaken(AddTick(w, t, expected), ticks, t, expected);
  }

  /** A window over any ticks: each sensor with a place shows exactly its own first values,
      sensors go without a place only when all are taken, and the window holds something
      exactly when a sensor with a place had a value. */
  lemma {:induction false} SensorsAreTrue(ticks: seq<GpuTick>, expected: nat)
    ensures SensorsTrue(AddTicks(ticks, expected), ticks, [], expected)
    decreases |ticks|
  {
    if ticks != [] {
      var front, t := ticks[..|ticks| - 1], ticks[|ticks| - 1];
      SensorsAreTrue(front, expected);
      TicksOk(front, expected);
      assert ticks == front + [t];
      TickKeepsTrue(AddTicks(front, expected), front, t, expected);
    }
  }

  lemma SameSet(a: set<Id>, b: set<Id>)
    requires a <= b && |b| <= |a|
    ensures a == b
  {
    assert b == a + (b - a);
  }

  /** With no more sensors than places, every sensor seen has one. */
  lemma RoomForAll(w: Window, ticks: seq<GpuTick>, expected: nat)
    requires WindowOk(w, expected) && SensorsTrue(w, ticks, [], expected) && |IdsOf(ticks)| <= MAX_SENSORS
    ensures forall id :: id in IdsOf(ticks) ==> id in w.order
  {
    assert forall id :: Appears(ticks, [], id) <==> id in IdsOf(ticks);
    if |w.order| == MAX_SENSORS { AllTaken(w.order, IdsOf(ticks)); }
  }

  lemma AllTaken(order: seq<Id>, ids: set<Id>)
    requires Distinct(order) && |ids| <= |order| && forall id :: id in order ==> id in ids
    ensures forall id :: id in ids ==> id in order
  {
    ElementsCount(order);
    SameSet(Elements(order), ids);
  }

  // ---- when there is a total ----

  lemma IdsInAre(readings: seq<Reading>)
    ensures forall id :: id in IdsIn(readings) <==> id in Ids(readings)
  {
    var ids := Ids(readings);
    forall id | id in ids ensures id in IdsIn(readings) {
      var i :| 0 <= i < |ids| && ids[i] == id;
      assert readings[i].id == id;
    }
    forall id | id in IdsIn(readings) ensures id in ids {
      var i :| 0 <= i < |readings| && readings[i].id == id;
      assert ids[i] == id;
    }
  }

  lemma {:induction false} FullSumsHas(ticks: seq<GpuTick>, t: GpuTick)
    requires t in ticks && Full(t)
    ensures FullSums(ticks) != []
    decreases |ticks|
  {
    if ticks[|ticks| - 1] != t {
      assert t in ticks[..|ticks| - 1];
      FullSumsHas(ticks[..|ticks| - 1], t);
    }
  }

  /** If all complete ticks of a window had the same distinct sensors, no tick had others,
      there was a place for each, and in some tick each had a value, there is a total. */
  lemma TotalAppears(ticks: seq<GpuTick>, expected: nat, t: GpuTick)
    requires t in ticks && Full(t) && Distinct(Ids(t.readings)) && |t.readings| <= MAX_SENSORS && expected > 0
    requires forall x :: x in ticks && Counts(x) ==> Members(x) == Members(t)
    requires forall id :: id in IdsOf(ticks) ==> id in Ids(t.readings)
    ensures HasTotal(AddTicks(ticks, expected))
  {
    var w := AddTicks(ticks, expected);
    TicksOk(ticks, expected);
    assert w.members == Some(Members(t)) && !w.mixed;
    EverySensorPlaced(ticks, expected, t);
    FullSumsHas(ticks, t);
    OfMeans(First(FullSums(ticks), expected));
    assert forall id :: id in Members(t) ==> id in Ids(t.readings);
    assert |Members(t)| == |Ids(t.readings)|;
  }

  lemma EverySensorPlaced(ticks: seq<GpuTick>, expected: nat, t: GpuTick)
    requires t in ticks && Distinct(Ids(t.readings)) && |t.readings| <= MAX_SENSORS
    requires forall id :: id in IdsOf(ticks) ==> id in Ids(t.readings)
    ensures var w := AddTicks(ticks, expected);
            (forall id :: id in Ids(t.readings) <==> id in w.order) && |w.order| == |t.readings|
  {
    var w, ids := AddTicks(ticks, expected), Ids(t.readings);
    TicksOk(ticks, expected);
    SensorsAreTrue(ticks, expected);
    SeenIds(ticks, t);
    IdsInAre(t.readings);
    assert forall id :: id in w.order ==> id in ids;
    NoMore(w.order, ids);
    if |w.order| < MAX_SENSORS {
      NoMore(ids, w.order);
    } else {
      SameIds(w.order, ids);
    }
  }

  lemma {:induction false} SeenIds(ticks: seq<GpuTick>, t: GpuTick)
    requires t in ticks
    ensures IdsIn(t.readings) <= IdsOf(ticks)
    decreases |ticks|
  {
    if ticks[|ticks| - 1] != t {
      assert t in ticks[..|ticks| - 1];
      SeenIds(ticks[..|ticks| - 1], t);
    }
  }

  /** Distinct ids that are all among others are no more than those. */
  lemma NoMore(a: seq<Id>, b: seq<Id>)
    requires Distinct(a) && Distinct(b) && forall id :: id in a ==> id in b
    ensures |a| <= |b|
  {
    ElementsCount(a);
    ElementsCount(b);
    assert Elements(a) <= Elements(b);
    assert Elements(b) == Elements(a) + (Elements(b) - Elements(a));
  }
}
