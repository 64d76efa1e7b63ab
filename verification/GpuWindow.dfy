/** What one window accumulates from GPU ticks, and when its total is truthful
    (agent/power_history.go). Watts are reals; the clamp of the mean to the peak, which
    only matters for rounding, is kept. */
module GpuWindow {
  import opened Common

  type Id = nat

  const MAX_SENSORS: nat := 16

  /** No watts means the sensor had no value. */
  datatype Reading = Reading(id: Id, watts: Option<real>)

  datatype GpuTick = GpuTick(readings: seq<Reading>, complete: bool)

  // ---- statistics ----

  datatype StatsAcc = StatsAcc(sum: real, n: nat, peak: real)

  datatype Stats = Stats(mean: real, peak: real, samples: nat)

  const NO_STATS := StatsAcc(0.0, 0, 0.0)

  function Add(a: StatsAcc, w: real): StatsAcc {
    StatsAcc(a.sum + w, a.n + 1, if a.n == 0 || w > a.peak then w else a.peak)
  }

  function StatsOf(a: StatsAcc): Stats
    requires a.n > 0
  {
    var mean := a.sum / a.n as real;
    Stats(if mean > a.peak then a.peak else mean, a.peak, a.n)
  }

  function Sum(ws: seq<real>): real {
    if ws == [] then 0.0 else Sum(ws[..|ws| - 1]) + ws[|ws| - 1]
  }

  /** The accumulator of these samples, in order. */
  function Of(ws: seq<real>): StatsAcc {
    if ws == [] then NO_STATS else Add(Of(ws[..|ws| - 1]), ws[|ws| - 1])
  }

  lemma OfSnoc(ws: seq<real>, w: real)
    ensures Of(ws + [w]) == Add(Of(ws), w)
  {
    assert (ws + [w])[..|ws|] == ws;
  }

  /** The accumulator holds the sum, the count and the greatest sample. */
  lemma {:induction false} OfMeans(ws: seq<real>)
    ensures Of(ws).sum == Sum(ws) && Of(ws).n == |ws|
    ensures forall w :: w in ws ==> w <= Of(ws).peak
    ensures ws != [] ==> Of(ws).peak in ws
  {
    if ws != [] {
      OfMeans(ws[..|ws| - 1]);
      assert ws == ws[..|ws| - 1] + [ws[|ws| - 1]];
    }
  }

  lemma {:induction false} SumAtMost(ws: seq<real>, peak: real)
    requires forall w :: w in ws ==> w <= peak
    ensures Sum(ws) <= |ws| as real * peak
  {
    if ws != [] {
      var front := ws[..|ws| - 1];
      forall w | w in front ensures w <= peak { assert w in ws; }
      SumAtMost(front, peak);
      assert ws[|ws| - 1] in ws;
      assert |ws| as real * peak == (|ws| - 1) as real * peak + peak;
    }
  }

  /** The reported mean is the mean, it is at most the peak, and the peak is one of the
      samples: the clamp never acts. */
  lemma StatsAreTrue(ws: seq<real>)
    requires ws != []
    ensures Of(ws).n > 0
    ensures var s := StatsOf(Of(ws));
            s.samples == |ws| && s.mean == Sum(ws) / |ws| as real && s.mean <= s.peak && s.peak in ws
            && forall w :: w in ws ==> w <= s.peak
  {
    OfMeans(ws);
    SumAtMost(ws, Of(ws).peak);
    ClampIsIdle(Of(ws));
  }

  lemma ClampIsIdle(a: StatsAcc)
    requires a.n > 0 && a.sum <= a.n as real * a.peak
    ensures StatsOf(a) == Stats(a.sum / a.n as real, a.peak, a.n) && StatsOf(a).mean <= a.peak
  {
    MeanAtMost(a.sum, a.n as real, a.peak);
  }

  lemma MeanAtMost(sum: real, n: real, peak: real)
    requires n > 0.0 && sum <= n * peak
    ensures sum / n <= peak
  {
  }

  // ---- the window ----

  /** `members` is the device set of the first complete tick; `mixed` that a later
      complete tick had another. */
  datatype Window = Window(gpus: map<Id, StatsAcc>, order: seq<Id>, total: StatsAcc, any: bool,
                           members: Option<multiset<Id>>, mixed: bool)

  const FRESH := Window(map[], [], NO_STATS, false, None, false)

  function Ids(readings: seq<Reading>): (ids: seq<Id>)
    ensures |ids| == |readings|
    ensures forall i :: 0 <= i < |ids| ==> ids[i] == readings[i].id
  {
    if readings == [] then [] else [readings[0].id] + Ids(readings[1..])
  }

  function Counts(t: GpuTick): bool {
    t.complete && t.readings != []
  }

  function Members(t: GpuTick): multiset<Id> {
    multiset(Ids(t.readings))
  }

  /** While one tick is taken: the window, the sum so far, and whether every sensor
      counted. */
  datatype Taking = Taking(w: Window, sum: real, all: bool)

  function Admitted(w: Window, id: Id): Window {
    if id in w.gpus then w else w.(gpus := w.gpus[id := NO_STATS], order := w.order + [id])
  }

  function TakeReading(l: Taking, r: Reading, expected: nat): Taking {
    if r.id !in l.w.gpus && |l.w.order| >= MAX_SENSORS then l.(all := false)
    else
      var w := Admitted(l.w, r.id);
      match r.watts
      case None => Taking(w, l.sum, false)
      case Some(watts) =>
        Taking(if w.gpus[r.id].n < expected then w.(gpus := w.gpus[r.id := Add(w.gpus[r.id], watts)], any := true) else w,
               l.sum + watts, l.all)
  }

  function TakeReadings(l: Taking, readings: seq<Reading>, expected: nat): Taking
    decreases |readings|
  {
    if readings == [] then l
    else TakeReading(TakeReadings(l, readings[..|readings| - 1], expected), readings[|readings| - 1], expected)
  }

  function WithMembers(w: Window, t: GpuTick): Window {
    if !Counts(t) then w
    else if w.members.None? then w.(members := Some(Members(t)))
    else if w.members.value != Members(t) then w.(mixed := true) else w
  }

  function AddTick(w: Window, t: GpuTick, expected: nat): Window {
    Closed(Took(w, t, expected), expected)
  }

  /** All readings of the tick. */
  function Took(w: Window, t: GpuTick, expected: nat): Taking {
    TakeReadings(Taking(WithMembers(w, t), 0.0, Counts(t)), t.readings, expected)
  }

  function Closed(l: Taking, expected: nat): Window {
    if l.all && l.w.total.n < expected then l.w.(total := Add(l.w.total, l.sum)) else l.w
  }

  function AddTicks(ticks: seq<GpuTick>, expected: nat): Window {
    if ticks == [] then FRESH else AddTick(AddTicks(ticks[..|ticks| - 1], expected), ticks[|ticks| - 1], expected)
  }

  /** The total is emitted only then. */
  predicate HasTotal(w: Window) {
    w.total.n > 0 && !w.mixed && w.members.Some? && |w.order| == |w.members.value|
  }

  // ---- what the window knows about its ticks ----

  ghost predicate Distinct(s: seq<Id>) {
    forall i, j :: 0 <= i < j < |s| ==> s[i] != s[j]
  }

  ghost predicate WindowOk(w: Window, expected: nat) {
    && Distinct(w.order) && |w.order| <= MAX_SENSORS
    && (forall id :: id in w.gpus <==> id in w.order)
    && (forall id :: id in w.gpus ==> w.gpus[id].n <= expected)
    && w.total.n <= expected
  }

  lemma AdmitKeepsOk(w: Window, id: Id, expected: nat)
    requires WindowOk(w, expected) && (id in w.gpus || |w.order| < MAX_SENSORS)
    ensures WindowOk(Admitted(w, id), expected) && w.order <= Admitted(w, id).order && id in Admitted(w, id).order
  {
    if id !in w.gpus {
      assert id !in w.order;
      assert Admitted(w, id).order == w.order + [id];
    }
  }

  lemma ReadingKeepsOk(l: Taking, r: Reading, expected: nat)
    requires WindowOk(l.w, expected)
    ensures var l' := TakeReading(l, r, expected);
            && WindowOk(l'.w, expected) && l.w.order <= l'.w.order
            && l'.w.total == l.w.total && l'.w.members == l.w.members && l'.w.mixed == l.w.mixed
            && (l'.all ==> l.all && r.id in l'.w.order && r.watts.Some?)
  {
    if r.id in l.w.gpus || |l.w.order| < MAX_SENSORS {
      AdmitKeepsOk(l.w, r.id, expected);
      assert TakeReading(l, r, expected).w.order == Admitted(l.w, r.id).order;
    }
  }

  lemma {:induction false} ReadingsKeepOk(l: Taking, readings: seq<Reading>, expected: nat)
    requires WindowOk(l.w, expected)
    ensures var l' := TakeReadings(l, readings, expected);
            && WindowOk(l'.w, expected) && l.w.order <= l'.w.order
            && l'.w.total == l.w.total && l'.w.members == l.w.members && l'.w.mixed == l.w.mixed
            && (l'.all ==> l.all && forall r :: r in readings ==> r.id in l'.w.order && r.watts.Some?)
    decreases |readings|
  {
    if readings != [] {
      var front := readings[..|readings| - 1];
      ReadingsKeepOk(l, front, expected);
      ReadingKeepsOk(TakeReadings(l, front, expected), readings[|readings| - 1], expected);
      assert readings == front + [readings[|readings| - 1]];
    }
  }

  // ---- the truth of the total ----

  predicate AllPresent(readings: seq<Reading>) {
    forall i :: 0 <= i < |readings| ==> readings[i].watts.Some?
  }

  function Watts(r: Reading): real {
    if r.watts.Some? then r.watts.value else 0.0
  }

  function SumWatts(readings: seq<Reading>): real
    decreases |readings|
  {
    if readings == [] then 0.0 else SumWatts(readings[..|readings| - 1]) + Watts(readings[|readings| - 1])
  }

  /** A complete tick in which every sensor had a value. */
  predicate Full(t: GpuTick) {
    Counts(t) && AllPresent(t.readings)
  }

  /** The sums of the full ticks, in order. */
  function FullSums(ticks: seq<GpuTick>): seq<real>
    decreases |ticks|
  {
    if ticks == [] then []
    else
      var t := ticks[|ticks| - 1];
      FullSums(ticks[..|ticks| - 1]) + (if Full(t) then [SumWatts(t.readings)] else [])
  }

  function First(ws: seq<real>, n: nat): seq<real> {
    if |ws| <= n then ws else ws[..n]
  }

  /** A sensor that found no place: the window is full without it. */
  ghost predicate NoPlace(w: Window, id: Id) {
    |w.order| == MAX_SENSORS && id !in w.order
  }

  /** A tick counts in full exactly when every sensor has a value and a place. */
  lemma {:induction false} ReadingsCount(l: Taking, readings: seq<Reading>, expected: nat)
    requires WindowOk(l.w, expected) && l.all
    ensures var l' := TakeReadings(l, readings, expected);
            && (l'.all ==> AllPresent(readings) && l'.sum == l.sum + SumWatts(readings))
            && (!l'.all && AllPresent(readings) ==> exists i :: 0 <= i < |readings| && NoPlace(l'.w, readings[i].id))
    decreases |readings|
  {
    if readings != [] {
      var front, r := readings[..|readings| - 1], readings[|readings| - 1];
      ReadingsKeepOk(l, front, expected);
      ReadingsCount(l, front, expected);
      var l1 := TakeReadings(l, front, expected);
      ReadingKeepsOk(l1, r, expected);
      var l' := TakeReading(l1, r, expected);
      assert readings == front + [r];
      if !l'.all && AllPresent(readings) {
        assert AllPresent(front) by { assert forall i :: 0 <= i < |front| ==> front[i] == readings[i]; }
        if !l1.all {
          var i :| 0 <= i < |front| && NoPlace(l1.w, front[i].id);
          assert readings[i] == front[i] && l'.w.order == l1.w.order;
        } else {
          assert NoPlace(l'.w, readings[|readings| - 1].id);
        }
      }
    }
  }

  /** A complete tick had this device set; one had another. */
  ghost predicate Seen(ticks: seq<GpuTick>, m: multiset<Id>) {
    exists t :: t in ticks && Counts(t) && Members(t) == m
  }

  ghost predicate Other(ticks: seq<GpuTick>, m: multiset<Id>) {
    exists t :: t in ticks && Counts(t) && Members(t) != m
  }

  ghost predicate MembersOk(w: Window, ticks: seq<GpuTick>) {
    match w.members
    case None => !w.mixed && forall t :: t in ticks ==> !Counts(t)
    case Some(m) => Seen(ticks, m) && (w.mixed <==> Other(ticks, m))
  }

  /** A total that is not that of the full ticks, or lacks a sensor, cannot be emitted. */
  ghost predicate TotalOk(w: Window, ticks: seq<GpuTick>, expected: nat) {
    !w.mixed && w.members.Some? ==>
      && (w.total == Of(First(FullSums(ticks), expected)) || exists id :: id in w.members.value && NoPlace(w, id))
      && (w.total.n > 0 ==> forall id :: id in w.members.value ==> id in w.order)
  }

  lemma SeenSnoc(ticks: seq<GpuTick>, t: GpuTick, m: multiset<Id>)
    ensures Seen(ticks + [t], m) <==> Seen(ticks, m) || (Counts(t) && Members(t) == m)
    ensures Other(ticks + [t], m) <==> Other(ticks, m) || (Counts(t) && Members(t) != m)
  {
    var all := ticks + [t];
    assert all[|ticks|] == t;
    assert forall x :: x in ticks ==> x in all;
    assert forall x :: x in all ==> x in ticks || x == t;
  }

  lemma MembersStep(w: Window, ticks: seq<GpuTick>, t: GpuTick)
    requires MembersOk(w, ticks)
    ensures MembersOk(WithMembers(w, t), ticks + [t])
  {
    if w.members.Some? {
      SeenSnoc(ticks, t, w.members.value);
    } else {
      FirstMembers(w, ticks, t);
    }
  }

  lemma FirstMembers(w: Window, ticks: seq<GpuTick>, t: GpuTick)
    requires MembersOk(w, ticks) && w.members.None?
    ensures MembersOk(WithMembers(w, t), ticks + [t])
  {
    var all := ticks + [t];
    assert forall x :: x in all ==> x in ticks || x == t;
    assert all[|ticks|] == t;
  }

  lemma FirstSnoc(ws: seq<real>, w: real, n: nat)
    ensures First(ws + [w], n) == if |ws| < n then First(ws, n) + [w] else First(ws, n)
  {
  }

  lemma FullSumsSnoc(ticks: seq<GpuTick>, t: GpuTick)
    ensures FullSums(ticks + [t]) == FullSums(ticks) + (if Full(t) then [SumWatts(t.readings)] else [])
  {
    assert (ticks + [t])[..|ticks|] == ticks;
  }

  /** A sensor without a place stays without one. */
  lemma NoPlaceStays(w: Window, w': Window, id: Id)
    requires NoPlace(w, id) && w.order <= w'.order && |w'.order| <= MAX_SENSORS
    ensures NoPlace(w', id)
  {
  }

  /** A total of the first full ticks follows one more of them. */
  lemma TotalFollows(sums: seq<real>, w: real, total: StatsAcc, expected: nat)
    requires total == Of(First(sums, expected))
    ensures (if total.n < expected then Add(total, w) else total) == Of(First(sums + [w], expected))
  {
    OfMeans(First(sums, expected));
    FirstSnoc(sums, w, expected);
    OfSnoc(First(sums, expected), w);
  }

  /** What is known before the first complete tick, and after it. */
  ghost predicate SumsOk(w: Window, ticks: seq<GpuTick>, expected: nat) {
    && (w.members.None? ==> w.total == NO_STATS && FullSums(ticks) == [])
    && TotalOk(w, ticks, expected)
  }

  lemma KeptStep(w: Window, w': Window, ticks: seq<GpuTick>, ticks': seq<GpuTick>, expected: nat)
    requires SumsOk(w, ticks, expected) && FullSums(ticks') == FullSums(ticks)
    requires w'.total == w.total && w.order <= w'.order && |w'.order| <= MAX_SENSORS
    requires w.mixed ==> w'.mixed
    requires w.members.Some? ==> w'.members == w.members
    ensures SumsOk(w', ticks', expected)
  {
    if !w'.mixed && w.members.Some? && w.total != Of(First(FullSums(ticks), expected)) {
      var id :| id in w.members.value && NoPlace(w, id);
      NoPlaceStays(w, w', id);
    }
  }

  lemma CountedStep(w: Window, w': Window, ticks: seq<GpuTick>, t: GpuTick, expected: nat)
    requires SumsOk(w, ticks, expected) && Full(t)
    requires w.order <= w'.order && |w'.order| <= MAX_SENSORS && (w.mixed ==> w'.mixed)
    requires !w'.mixed ==> (w.members == None || w.members == w'.members) && w'.members == Some(Members(t))
    requires w'.members.Some?
    requires w'.total == if w.total.n < expected then Add(w.total, SumWatts(t.readings)) else w.total
    requires forall id :: id in Members(t) ==> id in w'.order
    ensures SumsOk(w', ticks + [t], expected)
  {
    FullSumsSnoc(ticks, t);
    if !w'.mixed {
      if w.members.Some? && w.total != Of(First(FullSums(ticks), expected)) {
        var id :| id in w.members.value && NoPlace(w, id);
        NoPlaceStays(w, w', id);
      } else {
        TotalFollows(FullSums(ticks), SumWatts(t.readings), w.total, expected);
      }
    }
  }

  lemma CrowdedStep(w: Window, w': Window, ticks: seq<GpuTick>, t: GpuTick, id: Id, expected: nat)
    requires SumsOk(w, ticks, expected) && w'.total == w.total && w.order <= w'.order && (w.mixed ==> w'.mixed)
    requires w'.members.Some? && (w.members.Some? ==> w'.members == w.members)
    requires !w'.mixed ==> w'.members == Some(Members(t))
    requires NoPlace(w', id) && id in Members(t)
    ensures SumsOk(w', ticks + [t], expected)
  {
  }

  /** What every tick keeps of the window. */
  lemma TickKeepsOk(w: Window, t: GpuTick, expected: nat)
    requires WindowOk(w, expected)
    ensures var w' := AddTick(w, t, expected);
            && WindowOk(w', expected) && w.order <= w'.order
            && w'.members == WithMembers(w, t).members && w'.mixed == WithMembers(w, t).mixed
  {
    ReadingsKeepOk(Taking(WithMembers(w, t), 0.0, Counts(t)), t.readings, expected);
  }

  /** A tick counts in full, or one of its sensors has no value or no place. */
  lemma TickCounts(w: Window, t: GpuTick, expected: nat) returns (i: nat)
    requires WindowOk(w, expected)
    ensures var l := Took(w, t, expected);
            && l.w.total == w.total
            && (l.all ==> Full(t) && l.sum == SumWatts(t.readings) && forall r :: r in t.readings ==> r.id in l.w.order)
            && (!l.all && Full(t) ==> i < |t.readings| && NoPlace(l.w, t.readings[i].id))
  {
    var l0 := Taking(WithMembers(w, t), 0.0, Counts(t));
    ReadingsKeepOk(l0, t.readings, expected);
    i := 0;
    if Counts(t) {
      ReadingsCount(l0, t.readings, expected);
      var l := Took(w, t, expected);
      if !l.all && AllPresent(t.readings) { i :| 0 <= i < |t.readings| && NoPlace(l.w, t.readings[i].id); }
    }
  }

  /** What a tick does to what is known of the total. */
  lemma TotalFrom(w: Window, l: Taking, ticks: seq<GpuTick>, t: GpuTick, expected: nat, i: nat)
    requires SumsOk(w, ticks, expected) && l.w.total == w.total && w.order <= l.w.order && |l.w.order| <= MAX_SENSORS
    requires l.w.members == WithMembers(w, t).members && l.w.mixed == WithMembers(w, t).mixed
    requires l.all ==> Full(t) && l.sum == SumWatts(t.readings) && forall r :: r in t.readings ==> r.id in l.w.order
    requires !l.all && Full(t) ==> i < |t.readings| && NoPlace(l.w, t.readings[i].id)
    ensures SumsOk(Closed(l, expected), ticks + [t], expected)
  {
    IdsIn(t.readings);
    if l.all {
      CountedStep(w, Closed(l, expected), ticks, t, expected);
    } else if Full(t) {
      CrowdedStep(w, l.w, ticks, t, t.readings[i].id, expected);
    } else {
      FullSumsSnoc(ticks, t);
      KeptStep(w, l.w, ticks, ticks + [t], expected);
    }
  }

  /** The total follows the full ticks until a sensor of theirs has no place. */
  lemma TotalStep(w: Window, ticks: seq<GpuTick>, t: GpuTick, expected: nat)
    requires WindowOk(w, expected) && SumsOk(w, ticks, expected)
    ensures WindowOk(AddTick(w, t, expected), expected) && SumsOk(AddTick(w, t, expected), ticks + [t], expected)
  {
    TickKeepsOk(w, t, expected);
    ReadingsKeepOk(Taking(WithMembers(w, t), 0.0, Counts(t)), t.readings, expected);
    var i := TickCounts(w, t, expected);
    TotalFrom(w, Took(w, t, expected), ticks, t, expected, i);
  }

  lemma IdsIn(readings: seq<Reading>)
    ensures forall r :: r in readings ==> r.id in multiset(Ids(readings))
    ensures forall id :: id in multiset(Ids(readings)) ==> exists r :: r in readings && r.id == id
  {
    forall r | r in readings ensures r.id in multiset(Ids(readings)) {
      var i :| 0 <= i < |readings| && readings[i] == r;
      assert Ids(readings)[i] == r.id;
    }
    forall id | id in multiset(Ids(readings)) ensures exists r :: r in readings && r.id == id {
      assert id in Ids(readings);
      var i :| 0 <= i < |readings| && Ids(readings)[i] == id;
      assert readings[i] in readings;
    }
  }

  lemma TickOk(w: Window, ticks: seq<GpuTick>, t: GpuTick, expected: nat)
    requires WindowOk(w, expected) && SumsOk(w, ticks, expected) && MembersOk(w, ticks)
    ensures var w' := AddTick(w, t, expected);
            WindowOk(w', expected) && SumsOk(w', ticks + [t], expected) && MembersOk(w', ticks + [t])
  {
    TotalStep(w, ticks, t, expected);
    MembersStep(w, ticks, t);
    TickKeepsOk(w, t, expected);
  }

  lemma {:induction false} TicksOk(ticks: seq<GpuTick>, expected: nat)
    ensures var w := AddTicks(ticks, expected);
            WindowOk(w, expected) && SumsOk(w, ticks, expected) && MembersOk(w, ticks)
    decreases |ticks|
  {
    if ticks != [] {
      var front, t := ticks[..|ticks| - 1], ticks[|ticks| - 1];
      TicksOk(front, expected);
      assert ticks == front + [t];
      TickOk(AddTicks(front, expected), front, t, expected);
    }
  }

  function Elements(s: seq<Id>): (r: set<Id>)
    ensures forall x :: x in r <==> x in s
  {
    if s == [] then {} else {s[0]} + Elements(s[1..])
  }

  lemma {:induction false} ElementsCount(s: seq<Id>)
    requires Distinct(s)
    ensures |Elements(s)| == |s|
  {
    if s != [] {
      ElementsCount(s[1..]);
      assert s[0] !in Elements(s[1..]);
    }
  }

  /** Distinct ids, all of them among as many distinct others, are the others. */
  lemma SameIds(s: seq<Id>, t: seq<Id>)
    requires Distinct(s) && Distinct(t) && |s| == |t| && forall x :: x in s ==> x in t
    ensures forall x :: x in t ==> x in s
  {
    ElementsCount(s);
    ElementsCount(t);
    var a, b := Elements(s), Elements(t);
    assert a <= b;
    assert b == a + (b - a);
    assert b - a == {};
    forall x | x in t ensures x in s { assert x in b; }
  }

  /** Given ticks whose sensors are distinct: when a window has a total, every complete
      tick had exactly the sensors the bucket lists, and the total accumulates the sums
      of the full ticks, at least one and at most the expected number of them. */
  lemma TotalIsTruthful(ticks: seq<GpuTick>, expected: nat, t: GpuTick)
    requires HasTotal(AddTicks(ticks, expected)) && t in ticks && Counts(t)
    requires forall x :: x in ticks && Counts(x) ==> Distinct(Ids(x.readings))
    ensures var w := AddTicks(ticks, expected);
            && (forall id :: id in w.order <==> id in Ids(t.readings)) && |w.order| == |t.readings|
            && w.total == Of(First(FullSums(ticks), expected)) && 1 <= w.total.n <= expected
  {
    var w := AddTicks(ticks, expected);
    TicksOk(ticks, expected);
    NotOther(ticks, w.members.value, t);
    IdsIn(t.readings);
    forall id | id in Ids(t.readings) ensures id in w.order { assert id in Members(t); }
    assert |Members(t)| == |t.readings|;
    SameIds(Ids(t.readings), w.order);
    assert forall id :: id in w.members.value ==> id in Ids(t.readings) && !NoPlace(w, id);
  }

  lemma NotOther(ticks: seq<GpuTick>, m: multiset<Id>, t: GpuTick)
    requires !Other(ticks, m) && t in ticks && Counts(t)
    ensures Members(t) == m
  {
  }
}
