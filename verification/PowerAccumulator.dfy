/** The accumulator that folds samples into windows tiled on the monotonic clock and
    anchored to the wall clock (agent/power_history.go). Times are milliseconds. */
module PowerAccumulator {
  import opened Common
  import opened GpuWindow
  import S = GpuSensors

  type Source = nat

  datatype Domain = System | Cpu | Dram

  const STEP_TOLERANCE_MS := 2000

  // ---- scalar domains ----

  datatype Sample = Sample(source: Source, watts: real)

  datatype DomainAcc = DomainAcc(acc: StatsAcc, source: Option<Source>, mixed: bool)

  const NO_DOMAIN := DomainAcc(NO_STATS, None, false)

  function AddSample(d: DomainAcc, s: Sample, limit: nat): DomainAcc {
    DomainAcc(if d.acc.n < limit then Add(d.acc, s.watts) else d.acc,
              if d.source.None? then Some(s.source) else d.source,
              d.mixed || (d.source.Some? && d.source.value != s.source))
  }

  function AddSamples(samples: seq<Sample>, limit: nat): DomainAcc {
    if samples == [] then NO_DOMAIN else AddSample(AddSamples(samples[..|samples| - 1], limit), samples[|samples| - 1], limit)
  }

  function WattsOf(samples: seq<Sample>): seq<real> {
    if samples == [] then [] else WattsOf(samples[..|samples| - 1]) + [samples[|samples| - 1].watts]
  }

  /** A domain is unmixed exactly when every sample came from one backend, and holds the
      first samples up to the limit. */
  lemma {:induction false} DomainIsPure(samples: seq<Sample>, limit: nat)
    ensures var d := AddSamples(samples, limit);
            && d.acc == Of(First(WattsOf(samples), limit))
            && (samples == [] <==> d.source.None?)
            && (!d.mixed <==> forall s :: s in samples ==> d.source == Some(s.source))
  {
    if samples != [] {
      var front, s := samples[..|samples| - 1], samples[|samples| - 1];
      DomainIsPure(front, limit);
      TotalFollows(WattsOf(front), s.watts, AddSamples(front, limit).acc, limit);
      assert samples == front + [s];
    }
  }

  // ---- one window ----

  datatype Three<T> = Three(system: T, cpu: T, dram: T)
  {
    function Get(d: Domain): T {
      match d case System => system case Cpu => cpu case Dram => dram
    }

    function Set(d: Domain, x: T): Three<T> {
      match d case System => this.(system := x) case Cpu => this.(cpu := x) case Dram => this.(dram := x)
    }
  }

  datatype WindowState = WindowState(gpu: Window, domains: Three<DomainAcc>, anyDomain: bool)

  const FRESH_WINDOW := WindowState(FRESH, Three(NO_DOMAIN, NO_DOMAIN, NO_DOMAIN), false)

  function Any(w: WindowState): bool {
    w.gpu.any || w.anyDomain
  }

  /** What a window saw. */
  datatype Seen = Seen(ticks: seq<GpuTick>, samples: Three<seq<Sample>>)

  const NOTHING := Seen([], Three([], [], []))

  /** One more sample of one domain; the others are left alone. */
  function WithSample(seen: Seen, d: Domain, s: Sample): (r: Seen)
    ensures r.ticks == seen.ticks && r.samples.Get(d) == seen.samples.Get(d) + [s]
    ensures forall x: Domain :: x != d ==> r.samples.Get(x) == seen.samples.Get(x)
  {
    seen.(samples := seen.samples.Set(d, seen.samples.Get(d) + [s]))
  }

  /** The window that has seen just this. */
  function WindowOf(seen: Seen, expected: nat): WindowState {
    WindowState(AddTicks(seen.ticks, expected),
                Three(AddSamples(seen.samples.system, expected), AddSamples(seen.samples.cpu, expected),
                      AddSamples(seen.samples.dram, expected)),
                seen.samples != Three([], [], []))
  }

  lemma OneMoreTick(seen: Seen, t: GpuTick, expected: nat)
    ensures var w := WindowOf(seen, expected);
            WindowOf(seen.(ticks := seen.ticks + [t]), expected) == w.(gpu := AddTick(w.gpu, t, expected))
  {
  }

  lemma OneMoreSample(seen: Seen, d: Domain, s: Sample, expected: nat)
    ensures var w := WindowOf(seen, expected);
            WindowOf(seen.(samples := seen.samples.Set(d, seen.samples.Get(d) + [s])), expected)
              == w.(domains := w.domains.Set(d, AddSample(w.domains.Get(d), s, expected)), anyDomain := true)
  {
  }

  datatype SensorStats = SensorStats(id: Id, stats: Option<Stats>)

  datatype Collected = Collected(start: int, end: int, gapBefore: bool, gpus: seq<SensorStats>, total: Option<Stats>,
                                 domains: Three<Option<(Stats, Source)>>)

  function Stat(a: StatsAcc): Option<Stats> {
    if a.n == 0 then None else Some(StatsOf(a))
  }

  function Sensors(w: Window, ids: seq<Id>): (r: seq<SensorStats>)
    ensures |r| == |ids| && forall i :: 0 <= i < |ids| ==> r[i].id == ids[i]
  {
    if ids == [] then [] else
      var id := ids[|ids| - 1];
      Sensors(w, ids[..|ids| - 1]) + [SensorStats(id, if id in w.gpus then Stat(w.gpus[id]) else None)]
  }

  predicate DomainEmitted(d: DomainAcc) {
    d.acc.n > 0 && !d.mixed && d.source.Some?
  }

  function DomainStats(d: DomainAcc): Option<(Stats, Source)> {
    if DomainEmitted(d) then Some((StatsOf(d.acc), d.source.value)) else None
  }

  function Bucket(w: WindowState, start: int, end: int, gap: bool): Collected {
    Collected(start, end, gap, Sensors(w.gpu, w.gpu.order),
              if HasTotal(w.gpu) then Some(StatsOf(w.gpu.total)) else None,
              Three(DomainStats(w.domains.system), DomainStats(w.domains.cpu), DomainStats(w.domains.dram)))
  }

  predicate HasData(c: Collected) {
    c.gpus != [] || c.domains != Three(None, None, None)
  }

  // ---- which windows come out ----

  /** Samples of one backend. */
  ghost predicate Pure(samples: seq<Sample>) {
    samples != [] && forall i, j :: 0 <= i < |samples| && 0 <= j < |samples| ==> samples[i].source == samples[j].source
  }

  ghost predicate Sampled(seen: Seen) {
    exists d: Domain :: seen.samples.Get(d) != []
  }

  /** A sensor that found a place had a value. */
  ghost predicate GpuRead(seen: Seen, expected: nat) {
    expected > 0 && S.SomethingRead(AddTicks(seen.ticks, expected), seen.ticks, [])
  }

  /** The window holds a value, and a sensor or a domain to show. */
  ghost predicate Worth(seen: Seen, expected: nat) {
    && (Sampled(seen) || GpuRead(seen, expected))
    && (S.IdsOf(seen.ticks) != {} || (expected > 0 && exists d: Domain :: Pure(seen.samples.Get(d))))
  }

  lemma EmittedIfPure(samples: seq<Sample>, limit: nat)
    ensures DomainEmitted(AddSamples(samples, limit)) <==> Pure(samples) && limit > 0
  {
    DomainIsPure(samples, limit);
    OfMeans(First(WattsOf(samples), limit));
    WattsCount(samples);
    if samples != [] { assert samples[0] in samples; }
  }

  lemma {:induction false} WattsCount(samples: seq<Sample>)
    ensures |WattsOf(samples)| == |samples|
  {
    if samples != [] { WattsCount(samples[..|samples| - 1]); }
  }

  /** A window comes out exactly when it is worth it. */
  lemma ComesOutIfWorth(seen: Seen, expected: nat, start: int, end: int, gap: bool)
    ensures var w := WindowOf(seen, expected);
            Any(w) && HasData(Bucket(w, start, end, gap)) <==> Worth(seen, expected)
    ensures Any(WindowOf(seen, expected)) <==> Sampled(seen) || GpuRead(seen, expected)
  {
    var w := WindowOf(seen, expected);
    S.SensorsAreTrue(seen.ticks, expected);
    EmittedIfPure(seen.samples.system, expected);
    EmittedIfPure(seen.samples.cpu, expected);
    EmittedIfPure(seen.samples.dram, expected);
    assert seen.samples.Get(System) == seen.samples.system && seen.samples.Get(Cpu) == seen.samples.cpu
           && seen.samples.Get(Dram) == seen.samples.dram;
    PlacesIfRead(w.gpu, seen.ticks, expected);
  }

  lemma PlacesIfRead(w: Window, ticks: seq<GpuTick>, expected: nat)
    requires S.SensorsTrue(w, ticks, [], expected)
    ensures w.order != [] <==> S.IdsOf(ticks) != {}
  {
    if w.order == [] && S.IdsOf(ticks) != {} {
      var id :| id in S.IdsOf(ticks);
      assert S.Appears(ticks, [], id);
    }
    if w.order != [] { assert S.Appears(ticks, [], w.order[0]); }
  }

  /** Each sensor of a bucket shows the statistics of its own first values in the window,
      or none if it had none. */
  lemma EmittedSensorsAreTrue(c: Collected, seen: Seen, window: nat, expected: nat)
    requires Faithful(c, seen, window, expected)
    ensures forall i {:trigger c.gpus[i]} :: 0 <= i < |c.gpus| ==>
              var ws := First(S.ValuesOf(seen.ticks, c.gpus[i].id), expected);
              c.gpus[i].stats == if ws == [] then None else Some(StatsOf(Of(ws)))
    ensures |S.IdsOf(seen.ticks)| <= MAX_SENSORS ==>
              forall id :: id in S.IdsOf(seen.ticks) ==> exists i :: 0 <= i < |c.gpus| && c.gpus[i].id == id
  {
    var w := WindowOf(seen, expected).gpu;
    S.SensorsAreTrue(seen.ticks, expected);
    TicksOk(seen.ticks, expected);
    SensorsAt(w, w.order);
    forall i {:trigger c.gpus[i]} | 0 <= i < |c.gpus|
      ensures var ws := First(S.ValuesOf(seen.ticks, c.gpus[i].id), expected);
              c.gpus[i].stats == if ws == [] then None else Some(StatsOf(Of(ws)))
    {
      assert S.SensorTrue(w, seen.ticks, [], expected, w.order[i]);
      assert S.Values(seen.ticks, [], w.order[i]) == S.ValuesOf(seen.ticks, w.order[i]);
      OfMeans(First(S.ValuesOf(seen.ticks, w.order[i]), expected));
    }
    if |S.IdsOf(seen.ticks)| <= MAX_SENSORS {
      S.RoomForAll(w, seen.ticks, expected);
      forall id | id in S.IdsOf(seen.ticks) ensures exists i :: 0 <= i < |c.gpus| && c.gpus[i].id == id {
        var i :| 0 <= i < |w.order| && w.order[i] == id;
        assert c.gpus[i].id == id;
      }
    }
  }

  lemma {:induction false} SensorsAt(w: Window, ids: seq<Id>)
    ensures forall i :: 0 <= i < |ids| ==>
              Sensors(w, ids)[i] == SensorStats(ids[i], if ids[i] in w.gpus then Stat(w.gpus[ids[i]]) else None)
  {
    if ids != [] {
      var front := ids[..|ids| - 1];
      SensorsAt(w, front);
      forall i | 0 <= i < |ids|
        ensures Sensors(w, ids)[i] == SensorStats(ids[i], if ids[i] in w.gpus then Stat(w.gpus[ids[i]]) else None)
      {
        if i < |front| { assert Sensors(w, ids)[i] == Sensors(w, front)[i]; }
      }
    }
  }

  // ---- where the open window stands ----

  /** The accumulator between two calls. */
  datatype Position = Position(startMono: Option<int>, startWallMS: int, seen: Seen, gap: bool, emitted: seq<Collected>)

  /** The window that began at p came out with this end, if it was worth it. */
  ghost predicate CameOut(p: Position, emitted: seq<Collected>, end: int, window: nat, expected: nat) {
    if Worth(p.seen, expected)
    then && |emitted| == |p.emitted| + 1 && emitted[..|p.emitted|] == p.emitted
         && var b := emitted[|p.emitted|];
         && b.start == p.startWallMS && b.end == end && b.gapBefore == p.gap && Faithful(b, p.seen, window, expected)
    else emitted == p.emitted
  }

  /** The wall clock disagrees with the monotonic one since the window began. */
  predicate Stepped(p: Position, at: int, wallMS: int)
    requires p.startMono.Some?
  {
    var d := wallMS - (p.startWallMS + (at - p.startMono.value));
    d > 2000 || d < -2000
  }

  /** How the clock moves the window: it opens with the first call; it stays as it is until
      it has elapsed or the wall clock steps; an elapsed one comes out whole, and the next
      is tiled onto it, or anchored anew after a suspend of two more windows or a step. */
  ghost predicate RolledTo(p: Position, q: Position, at: int, wallMS: int, window: nat, expected: nat) {
    if p.startMono.None? then q == Position(Some(at), wallMS, NOTHING, true, p.emitted)
    else
      var elapsed := at - p.startMono.value;
      if elapsed < window then
        if !Stepped(p, at, wallMS) then q == p
        else && CameOut(p, q.emitted, p.startWallMS + elapsed, window, expected)
             && q.startMono == Some(at) && q.startWallMS == wallMS && q.gap
             && q.seen == (if Sampled(p.seen) || GpuRead(p.seen, expected) then NOTHING else p.seen)
      else
        && CameOut(p, q.emitted, p.startWallMS + window, window, expected)
        && q.seen == NOTHING
        && (if elapsed >= 3 * window || Stepped(p, at, wallMS) then q.startMono == Some(at) && q.startWallMS == wallMS
            else var n := if elapsed < 2 * window then window else 2 * window;
                 q.startMono == Some(p.startMono.value + n) && q.startWallMS == p.startWallMS + n)
        && (q.gap <==> elapsed >= 2 * window || Stepped(p, at, wallMS) || !Worth(p.seen, expected))
  }

  /** Elapsed windows closed one by one: none yet, the first, or an empty one after it. */
  ghost predicate ClosedSome(p: Position, q: Position, window: nat, expected: nat)
    requires p.startMono.Some?
  {
    || q == p
    || (&& CameOut(p, q.emitted, p.startWallMS + window, window, expected) && q.seen == NOTHING
        && q.startMono == Some(p.startMono.value + window) && q.startWallMS == p.startWallMS + window
        && (q.gap <==> !Worth(p.seen, expected)))
    || (&& CameOut(p, q.emitted, p.startWallMS + window, window, expected) && q.seen == NOTHING && q.gap
        && q.startMono == Some(p.startMono.value + 2 * window) && q.startWallMS == p.startWallMS + 2 * window)
  }

  /** All of them closed. */
  ghost predicate ClosedTo(p: Position, q: Position, at: int, wallMS: int, window: nat, expected: nat)
    requires p.startMono.Some?
  {
    var elapsed := at - p.startMono.value;
    if elapsed < window then q == p
    else
      && CameOut(p, q.emitted, p.startWallMS + window, window, expected) && q.seen == NOTHING
      && (if elapsed >= 3 * window then q.startMono == Some(at) && q.startWallMS == wallMS && q.gap
          else var n := if elapsed < 2 * window then window else 2 * window;
               && q.startMono == Some(p.startMono.value + n) && q.startWallMS == p.startWallMS + n
               && (q.gap <==> elapsed >= 2 * window || !Worth(p.seen, expected)))
  }

  lemma EmptyIsNothing(expected: nat)
    ensures !Worth(NOTHING, expected) && !Any(WindowOf(NOTHING, expected))
  {
    assert !Sampled(NOTHING);
    ComesOutIfWorth(NOTHING, expected, 0, 0, false);
  }

  // ---- the buckets in order ----

  ghost predicate Continues(a: Collected, b: Collected) {
    !b.gapBefore ==> b.start == a.end
  }

  /** The first is flagged, and any other that is not starts where its predecessor ends. */
  ghost predicate Chained(s: seq<Collected>) {
    && (s != [] ==> s[0].gapBefore)
    && forall i, j :: 0 <= i < j < |s| && j == i + 1 ==> Continues(s[i], s[j])
  }

  lemma ChainedAt(s: seq<Collected>, n: nat)
    requires Chained(s) && 0 < n < |s|
    ensures Continues(s[n - 1], s[n])
  {
  }

  /** The bucket is what its window saw, and lasts no longer than a window. */
  ghost predicate Faithful(c: Collected, seen: Seen, window: nat, expected: nat) {
    c.start <= c.end <= c.start + window && c == Bucket(WindowOf(seen, expected), c.start, c.end, c.gapBefore)
  }

  ghost predicate AllFaithful(s: seq<Collected>, behind: seq<Seen>, window: nat, expected: nat) {
    |behind| == |s|
    && forall i {:trigger Faithful(s[i], behind[i], window, expected)} :: 0 <= i < |s| ==> Faithful(s[i], behind[i], window, expected)
  }

  /** A bucket that carries a GPU total: every complete tick of its window had exactly the
      sensors the bucket lists, and the total is the mean and peak of the sums of the
      complete ticks in which every sensor had a value. */
  lemma EmittedTotalIsTruthful(c: Collected, seen: Seen, window: nat, expected: nat, t: GpuTick)
    requires Faithful(c, seen, window, expected) && c.total.Some?
    requires t in seen.ticks && Counts(t) && forall x :: x in seen.ticks && Counts(x) ==> Distinct(Ids(x.readings))
    ensures |c.gpus| == |t.readings| && forall id :: id in Ids(t.readings) <==> exists i :: 0 <= i < |c.gpus| && c.gpus[i].id == id
    ensures var sums := First(FullSums(seen.ticks), expected);
            && 1 <= c.total.value.samples == |sums| <= expected
            && c.total.value.mean == Sum(sums) / |sums| as real
            && c.total.value.mean <= c.total.value.peak && c.total.value.peak in sums
  {
    var w := WindowOf(seen, expected);
    TotalIsTruthful(seen.ticks, expected, t);
    var sums := First(FullSums(seen.ticks), expected);
    OfMeans(sums);
    StatsAreTrue(sums);
    forall id ensures id in Ids(t.readings) <==> exists i :: 0 <= i < |c.gpus| && c.gpus[i].id == id {
      if id in Ids(t.readings) {
        assert id in w.gpu.order;
        var i :| 0 <= i < |w.gpu.order| && w.gpu.order[i] == id;
        assert c.gpus[i].id == id;
      }
    }
  }

  /** A domain in a bucket was sampled from one backend only, the one it names. */
  lemma EmittedDomainIsPure(d: DomainAcc, samples: seq<Sample>, limit: nat)
    requires d == AddSamples(samples, limit) && DomainStats(d).Some?
    ensures var (stats, source) := DomainStats(d).value;
            && (forall s :: s in samples ==> s.source == source)
            && 1 <= stats.samples <= limit && stats.mean <= stats.peak
            && stats.mean == Sum(First(WattsOf(samples), limit)) / stats.samples as real
  {
    DomainIsPure(samples, limit);
    OfMeans(First(WattsOf(samples), limit));
    StatsAreTrue(First(WattsOf(samples), limit));
  }

  /** The last ones, not yet drained. */
  ghost predicate Waiting(emitted: seq<Collected>, ready: seq<Collected>) {
    |ready| <= |emitted| && forall i {:trigger ready[i]} :: 0 <= i < |ready| ==> ready[i] == emitted[|emitted| - |ready| + i]
  }

  lemma WaitingAt(emitted: seq<Collected>, ready: seq<Collected>, i: nat)
    requires Waiting(emitted, ready) && i < |ready|
    ensures ready[i] == emitted[|emitted| - |ready| + i]
  {
  }

  ghost predicate More(before: seq<Collected>, r0: nat, after: seq<Collected>, r1: nat, n: nat) {
    && |before| <= |after| <= |before| + n && r1 - r0 == |after| - |before|
    && forall i {:trigger after[i]} :: 0 <= i < |before| ==> after[i] == before[i]
  }

  lemma MoreStill(a: seq<Collected>, r0: nat, b: seq<Collected>, r1: nat, c: seq<Collected>, r2: nat, n: nat, m: nat)
    requires More(a, r0, b, r1, n) && More(b, r1, c, r2, m)
    ensures More(a, r0, c, r2, n + m)
  {
  }

  lemma WaitingGrows(emitted: seq<Collected>, ready: seq<Collected>, b: Collected)
    requires Waiting(emitted, ready)
    ensures Waiting(emitted + [b], ready + [b])
  {
  }

  lemma ChainGrows(s: seq<Collected>, b: Collected)
    requires Chained(s) && (!b.gapBefore ==> s != [] && s[|s| - 1].end == b.start)
    ensures Chained(s + [b])
  {
  }

  lemma FaithfulGrows(s: seq<Collected>, behind: seq<Seen>, window: nat, expected: nat, b: Collected, seen: Seen)
    requires AllFaithful(s, behind, window, expected) && b.start <= b.end <= b.start + window
    requires b == Bucket(WindowOf(seen, expected), b.start, b.end, b.gapBefore)
    ensures AllFaithful(s + [b], behind + [seen], window, expected)
  {
  }

  class PowerAccumulator {
    const window: nat
    const expected: nat

    var startMono: Option<int>
    var startWallMS: int
    var cur: WindowState
    var gapPending: bool
    var ready: seq<Collected>

    ghost var now: int
    ghost var seen: Seen
    ghost var emitted: seq<Collected>
    ghost var behind: seq<Seen>

    ghost function Here(): Position reads this {
      Position(startMono, startWallMS, seen, gapPending, emitted)
    }

    /** Everything but where the open window stands. */
    ghost predicate Consistent() reads this {
      && window > 0
      && cur == WindowOf(seen, expected)
      && Chained(emitted)
      && AllFaithful(emitted, behind, window, expected)
      && Waiting(emitted, ready)
    }

    /** Without a pending gap the last bucket ends there. */
    ghost predicate EndsAt(ms: int) reads this {
      !gapPending ==> emitted != [] && emitted[|emitted| - 1].end == ms
    }

    ghost predicate Valid() reads this {
      && Consistent() && EndsAt(startWallMS)
      && (startMono.Some? ==> startMono.value <= now < startMono.value + window)
    }

    constructor (window: nat, interval: nat)
      requires window > 0 && interval > 0
      ensures Valid() && emitted == [] && ready == [] && gapPending && startMono.None?
    {
      this.window, expected := window, window / interval;
      startMono, startWallMS, cur, gapPending, ready := None, 0, FRESH_WINDOW, true, [];
      now, seen, emitted, behind := 0, NOTHING, [], [];
    }

    method StartWindow()
      modifies this`cur, this`seen
      ensures cur == FRESH_WINDOW && seen == NOTHING && cur == WindowOf(seen, expected)
    {
      cur, seen := FRESH_WINDOW, NOTHING;
    }

    /** Converts the open window into a bucket, if it has anything to say; otherwise the
        next one follows a gap. */
    method Emit(endMS: int)
      requires Consistent() && EndsAt(startWallMS) && startWallMS <= endMS <= startWallMS + window
      modifies this`gapPending, this`ready, this`emitted, this`behind
      ensures Consistent() && EndsAt(endMS) && Grew(if Any(cur) then 1 else 0)
      ensures CameOut(old(Here()), emitted, endMS, window, expected)
      ensures gapPending <==> !Worth(seen, expected)
    {
      var b := Bucket(cur, startWallMS, endMS, gapPending);
      ComesOutIfWorth(seen, expected, startWallMS, endMS, gapPending);
      if !Any(cur) || !HasData(b) {
        gapPending := true;
        return;
      }
      Record(b);
    }

    /** At most n more were emitted, and wait to be drained. */
    twostate predicate Grew(n: nat) reads this {
      More(old(emitted), |old(ready)|, emitted, |ready|, n)
    }

    method Record(b: Collected)
      requires Consistent() && EndsAt(startWallMS) && b == Bucket(cur, startWallMS, b.end, gapPending)
      requires startWallMS <= b.end <= startWallMS + window
      modifies this`gapPending, this`ready, this`emitted, this`behind
      ensures Consistent() && EndsAt(b.end) && emitted == old(emitted) + [b] && ready == old(ready) + [b]
      ensures !gapPending && behind == old(behind) + [seen]
    {
      ChainGrows(emitted, b);
      FaithfulGrows(emitted, behind, window, expected, b, seen);
      WaitingGrows(emitted, ready, b);
      gapPending := false;
      ready := ready + [b];
      emitted, behind := emitted + [b], behind + [seen];
    }

    /** Closes every window that has elapsed, and re-anchors after a suspend or a clock
        step; at most one bucket comes out. */
    method Roll(at: int, wallMS: int)
      requires Valid() && now <= at
      modifies this
      ensures Valid() && now == at && startMono.Some? && Grew(1)
      ensures RolledTo(old(Here()), Here(), at, wallMS, window, expected)
    {
      now := at;
      if startMono.None? {
        startMono, startWallMS := Some(at), wallMS;
        gapPending := true;
        StartWindow();
        return;
      }
      CloseElapsed(at, wallMS);
      ghost var between, waiting, open := emitted, |ready|, Any(cur);
      EmptyIsNothing(expected);
      ComesOutIfWorth(seen, expected, 0, 0, false);
      Reanchor(at, wallMS);
      MoreStill(old(emitted), |old(ready)|, between, waiting, emitted, |ready|, if open then 0 else 1, if open then 1 else 0);
    }

    method CloseElapsed(at: int, wallMS: int)
      requires Consistent() && EndsAt(startWallMS) && startMono.Some? && startMono.value <= at
      modifies this`gapPending, this`ready, this`emitted, this`behind, this`startMono, this`startWallMS, this`cur, this`seen
      ensures Consistent() && EndsAt(startWallMS) && startMono.Some? && startMono.value <= at < startMono.value + window
      ensures Grew(if Any(cur) then 0 else 1)
      ensures ClosedTo(old(Here()), Here(), at, wallMS, window, expected)
    {
      ghost var p := Here();
      while at - startMono.value >= window
        invariant Consistent() && EndsAt(startWallMS) && startMono.Some? && startMono.value <= at
        invariant Grew(if Any(cur) then 0 else 1)
        invariant Follows(p, at) && ClosedSome(p, Here(), window, expected)
        decreases at - startMono.value
      {
        var suspended := CloseNext(p, at, wallMS);
        if suspended { break; }
      }
    }

    /** Once a window is closed there is at most one more to close. */
    ghost predicate Follows(p: Position, at: int) reads this`startMono {
      && startMono.Some? && p.startMono.Some?
      && (startMono == p.startMono
          || (startMono.value == p.startMono.value + window && at - startMono.value < 2 * window)
          || (startMono.value == p.startMono.value + 2 * window && at - startMono.value < window))
    }

    method CloseNext(ghost p: Position, at: int, wallMS: int) returns (suspended: bool)
      requires Consistent() && EndsAt(startWallMS) && startMono.Some? && startMono.value + window <= at
      requires Follows(p, at) && ClosedSome(p, Here(), window, expected)
      modifies this`gapPending, this`ready, this`emitted, this`behind, this`startMono, this`startWallMS, this`cur, this`seen
      ensures Consistent() && EndsAt(startWallMS) && startMono.Some? && startMono.value <= at && !Any(cur)
      ensures Grew(if old(Any(cur)) then 1 else 0) && old(startMono).value < startMono.value
      ensures suspended ==> startMono == Some(at) && ClosedTo(p, Here(), at, wallMS, window, expected)
      ensures !suspended ==> ClosedSome(p, Here(), window, expected) && Follows(p, at)
    {
      ghost var q := Here();
      CloseOne();
      ClosedNext(p, q, Here(), window, expected);
      suspended := at - startMono.value >= 2 * window;
      if suspended { startMono, startWallMS, gapPending := Some(at), wallMS, true; }
    }

    /** The first window closed, or an empty one after it. */
    lemma ClosedNext(p: Position, q: Position, r: Position, window: nat, expected: nat)
      requires p.startMono.Some? && q.startMono.Some? && window > 0 && (q == p || q.startMono.value == p.startMono.value + window)
      requires ClosedSome(p, q, window, expected) && CameOut(q, r.emitted, q.startWallMS + window, window, expected)
      requires r.seen == NOTHING && (r.gap <==> !Worth(q.seen, expected))
      requires r.startMono == Some(q.startMono.value + window) && r.startWallMS == q.startWallMS + window
      ensures ClosedSome(p, r, window, expected)
    {
      EmptyIsNothing(expected);
    }

    method CloseOne()
      requires Consistent() && EndsAt(startWallMS) && startMono.Some?
      modifies this`gapPending, this`ready, this`emitted, this`behind, this`startMono, this`startWallMS, this`cur, this`seen
      ensures Consistent() && EndsAt(startWallMS) && startMono == Some(old(startMono).value + window) && !Any(cur)
      ensures Grew(if old(Any(cur)) then 1 else 0)
      ensures startWallMS == old(startWallMS) + window && seen == NOTHING
      ensures CameOut(old(Here()), emitted, startWallMS, window, expected)
      ensures gapPending <==> !Worth(old(seen), expected)
    {
      var endMS := startWallMS + window;
      Emit(endMS);
      startMono, startWallMS := Some(startMono.value + window), endMS;
      StartWindow();
    }

    /** The wall clock no longer agrees with the monotonic anchor. */
    method Reanchor(at: int, wallMS: int)
      requires Consistent() && EndsAt(startWallMS) && startMono.Some? && startMono.value <= at < startMono.value + window
      requires now == at
      modifies this`gapPending, this`ready, this`emitted, this`behind, this`startMono, this`startWallMS, this`cur, this`seen
      ensures Valid() && startMono.Some? && Grew(if old(Any(cur)) then 1 else 0)
      ensures if !Stepped(old(Here()), at, wallMS) then Here() == old(Here())
              else && CameOut(old(Here()), emitted, old(startWallMS) + (at - old(startMono).value), window, expected)
                   && startMono == Some(at) && startWallMS == wallMS && gapPending
                   && seen == if old(Any(cur)) then NOTHING else old(seen)
    {
      ComesOutIfWorth(seen, expected, 0, 0, false);
      var expectedMS := startWallMS + (at - startMono.value);
      var d := wallMS - expectedMS;
      if d > STEP_TOLERANCE_MS || d < -STEP_TOLERANCE_MS {
        if Any(cur) { CutShort(expectedMS); }
        startMono, startWallMS, gapPending := Some(at), wallMS, true;
      }
    }

    method CutShort(endMS: int)
      requires Consistent() && EndsAt(startWallMS) && startWallMS <= endMS <= startWallMS + window
      modifies this`gapPending, this`ready, this`emitted, this`behind, this`cur, this`seen
      ensures Consistent() && Grew(if old(Any(cur)) then 1 else 0)
      ensures seen == NOTHING && CameOut(old(Here()), emitted, endMS, window, expected)
    {
      Emit(endMS);
      StartWindow();
    }

    method AddGPUAt(t: GpuTick, at: int, wallMS: int)
      requires Valid() && now <= at
      modifies this
      ensures Valid() && now == at && Grew(1)
      ensures exists q :: RolledTo(old(Here()), q, at, wallMS, window, expected)
                          && Here() == q.(seen := q.seen.(ticks := q.seen.ticks + [t]))
    {
      Roll(at, wallMS);
      ghost var q := Here();
      AbsorbTick(t);
      assert Here() == q.(seen := q.seen.(ticks := q.seen.ticks + [t]));
    }

    method AbsorbTick(t: GpuTick)
      requires cur == WindowOf(seen, expected)
      modifies this`cur, this`seen
      ensures cur == WindowOf(seen, expected) && seen == old(seen).(ticks := old(seen).ticks + [t])
    {
      var w := TakeTick(cur.gpu, t);
      OneMoreTick(seen, t, expected);
      cur := cur.(gpu := w);
      seen := seen.(ticks := seen.ticks + [t]);
    }

    /** One pass over the readings. */
    method TakeTick(w0: Window, t: GpuTick) returns (w: Window)
      ensures w == AddTick(w0, t, expected)
    {
      w := w0;
      if t.complete && t.readings != [] {
        if w.members.None? { w := w.(members := Some(Members(t))); }
        else if w.members.value != Members(t) { w := w.(mixed := true); }
      }
      var sum, all := 0.0, t.complete && t.readings != [];
      ghost var start := Taking(w, sum, all);
      for i := 0 to |t.readings|
        invariant Taking(w, sum, all) == TakeReadings(start, t.readings[..i], expected)
      {
        assert t.readings[..i + 1][..i] == t.readings[..i];
        w, sum, all := TakeReading(w, sum, all, t.readings[i]);
      }
      assert t.readings[..|t.readings|] == t.readings;
      if all && w.total.n < expected { w := w.(total := Add(w.total, sum)); }
    }

    method TakeReading(w0: Window, sum0: real, all0: bool, r: Reading) returns (w: Window, sum: real, all: bool)
      ensures Taking(w, sum, all) == GpuWindow.TakeReading(Taking(w0, sum0, all0), r, expected)
    {
      w, sum, all := w0, sum0, all0;
      if r.id !in w.gpus {
        if |w.order| >= MAX_SENSORS { return w, sum, false; }
        w := w.(gpus := w.gpus[r.id := NO_STATS], order := w.order + [r.id]);
      }
      if r.watts.None? { return w, sum, false; }
      if w.gpus[r.id].n < expected { w := w.(gpus := w.gpus[r.id := Add(w.gpus[r.id], r.watts.value)], any := true); }
      sum := sum + r.watts.value;
    }

    method AddDomainAt(domain: Domain, at: int, wallMS: int, watts: real, source: Source)
      requires Valid() && now <= at
      modifies this
      ensures Valid() && now == at && Grew(1)
      ensures exists q :: RolledTo(old(Here()), q, at, wallMS, window, expected)
                          && Here() == q.(seen := WithSample(q.seen, domain, Sample(source, watts)))
    {
      Roll(at, wallMS);
      ghost var q := Here();
      AbsorbSample(domain, watts, source);
      assert Here() == q.(seen := WithSample(q.seen, domain, Sample(source, watts)));
    }

    method AbsorbSample(domain: Domain, watts: real, source: Source)
      requires cur == WindowOf(seen, expected)
      modifies this`cur, this`seen
      ensures cur == WindowOf(seen, expected)
      ensures seen == WithSample(old(seen), domain, Sample(source, watts))
    {
      var d := TakeSample(cur.domains.Get(domain), source, watts);
      OneMoreSample(seen, domain, Sample(source, watts), expected);
      cur := cur.(domains := cur.domains.Set(domain, d), anyDomain := true);
      seen := seen.(samples := seen.samples.Set(domain, seen.samples.Get(domain) + [Sample(source, watts)]));
    }

    /** A switch of backend is noticed even beyond the sample limit. */
    method TakeSample(d0: DomainAcc, source: Source, watts: real) returns (d: DomainAcc)
      ensures d == AddSample(d0, Sample(source, watts), expected)
    {
      d := d0;
      if d.source.None? {
        d := d.(source := Some(source));
      } else if source != d.source.value {
        d := d.(mixed := true);
      }
      if d.acc.n < expected { d := d.(acc := Add(d.acc, watts)); }
    }

    /** Advances the clock and drains the completed buckets. */
    method TickAt(at: int, wallMS: int) returns (out: seq<Collected>)
      requires Valid() && now <= at
      modifies this
      ensures Valid() && now == at && ready == [] && Waiting(emitted, out)
      ensures More(old(emitted), |old(ready)|, emitted, |out|, 1)
      ensures RolledTo(old(Here()), Here(), at, wallMS, window, expected)
      ensures |out| == |old(ready)| + |emitted| - |old(emitted)|
    {
      Roll(at, wallMS);
      out := Drain();
    }

    method Drain() returns (out: seq<Collected>)
      requires Valid()
      modifies this`ready
      ensures Valid() && ready == [] && out == old(ready) && Waiting(emitted, out) && Here() == old(Here())
    {
      out := ready;
      ready := [];
    }

    method MarkGap()
      requires Valid()
      modifies this`gapPending
      ensures Valid() && gapPending
    {
      gapPending := true;
    }
  }
}
