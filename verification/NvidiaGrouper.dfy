/** Reassembling the per-GPU lines of one sampling iteration into ticks
    (agent/power_nvidia.go). */
module NvidiaGrouper {
  import opened Common
  import opened GpuWindow

  /** One parsed line: the advertised number of GPUs, this one's index, its reading. */
  datatype Line = Line(count: nat, index: nat, r: Reading)

  /** What the parser lets through. */
  predicate Parsed(l: Line) {
    1 <= l.count <= MAX_SENSORS && l.index < l.count
  }

  function Readings(lines: seq<Line>): (r: seq<Reading>)
    ensures |r| == |lines| && forall i :: 0 <= i < |r| ==> r[i] == lines[i].r
  {
    if lines == [] then [] else [lines[0].r] + Readings(lines[1..])
  }

  function SensorIds(lines: seq<Line>): (r: set<Id>)
    ensures forall i :: 0 <= i < |lines| ==> lines[i].r.id in r
  {
    if lines == [] then {} else SensorIds(lines[..|lines| - 1]) + {lines[|lines| - 1].r.id}
  }

  /** An earlier line of the same iteration. */
  predicate Before(a: Line, b: Line) {
    a.count == b.count && a.index < b.index && a.r.id != b.r.id
  }

  /** Lines of one iteration: one count, increasing indices, distinct sensors. */
  ghost predicate OneIteration(lines: seq<Line>) {
    && (forall i, j :: 0 <= i < j < |lines| ==> Before(lines[i], lines[j]))
    && forall i :: 0 <= i < |lines| ==> Parsed(lines[i])
  }

  /** A tick, and the lines that went into it. */
  datatype Group = Group(tick: GpuTick, lines: seq<Line>)

  /** The tick holds its lines in order, and is complete exactly when they are as many as
      advertised. */
  ghost predicate GroupOk(g: Group) {
    && g.lines != [] && OneIteration(g.lines)
    && g.tick.readings == Readings(g.lines)
    && (g.tick.complete <==> |g.lines| == g.lines[0].count)
  }

  function Lines(groups: seq<Group>): seq<Line> {
    if groups == [] then [] else Lines(groups[..|groups| - 1]) + groups[|groups| - 1].lines
  }

  function Ticks(groups: seq<Group>): (t: seq<GpuTick>)
    ensures |t| == |groups| && forall i :: 0 <= i < |t| ==> t[i] == groups[i].tick
  {
    if groups == [] then [] else [groups[0].tick] + Ticks(groups[1..])
  }

  /** The lines' count, and the index of the last. */
  ghost predicate At(lines: seq<Line>, count: nat, lastIndex: int)
    requires lines != []
  {
    lines[0].count == count && lines[|lines| - 1].index == lastIndex
  }

  class NvidiaTickGrouper {
    var count: nat
    var cur: seq<Reading>
    var seen: set<Id>
    var lastIndex: int
    var valid: bool

    /** The lines of the open group, and every group emitted so far. */
    ghost var open: seq<Line>
    ghost var groups: seq<Group>

    ghost predicate Valid() reads this {
      && OneIteration(open) && cur == Readings(open)
      && (open != [] ==>
            && |open| < count && At(open, count, lastIndex) && valid && seen == SensorIds(open))
      && forall g :: g in groups ==> GroupOk(g)
    }

    /** Every line accepted so far, in order: those in ticks, then the open group's. */
    ghost function Accepted(): seq<Line> reads this {
      Lines(groups) + open
    }

    constructor ()
      ensures Valid() && Accepted() == [] && groups == []
    {
      count, cur, seen, lastIndex, valid, open, groups := 0, [], {}, 0, false, [], [];
    }

    /** Emits the open group, if there is one. */
    method Flush() returns (t: Option<GpuTick>)
      requires OneIteration(open) && cur == Readings(open) && forall g :: g in groups ==> GroupOk(g)
      requires open != [] ==> |open| <= count && open[0].count == count && (|open| == count ==> valid)
      modifies this`cur, this`seen, this`open, this`groups
      ensures Valid() && open == [] && Accepted() == old(Accepted())
      ensures t.None? <==> old(open) == []
      ensures t.Some? ==> groups == old(groups) + [Group(t.value, old(open))]
      ensures t.None? ==> groups == old(groups)
    {
      if |cur| == 0 { return None; }
      var tick := GpuTick(cur, valid && |cur| == count);
      var g := Group(tick, open);
      assert (groups + [g])[..|groups|] == groups;
      groups := groups + [g];
      cur, seen, open := [], {}, [];
      return Some(tick);
    }

    /** The line breaks the open group: its sensor was already there. */
    predicate Repeats(l: Line) reads this {
      cur != [] && lastIndex < l.index && l.count == count && l.r.id in seen
    }

    /** The line goes on with the open group. */
    ghost predicate Continues(l: Line) reads this {
      open != [] && l.count == open[0].count && l.index > open[|open| - 1].index
    }

    /** The last group closed holds these lines. */
    ghost predicate LastClosed(lines: seq<Line>) reads this {
      groups != [] && groups[|groups| - 1].lines == lines
    }

    /** Takes the line into the open group, or opens one with it. */
    method Take(l: Line)
      requires Valid() && Parsed(l)
      requires open != [] ==> l.count == count && lastIndex < l.index && l.r.id !in seen
      modifies this`count, this`cur, this`seen, this`lastIndex, this`valid, this`open
      ensures OneIteration(open) && cur == Readings(open) && open == old(open) + [l]
      ensures |open| <= count && At(open, count, lastIndex) && valid && seen == SensorIds(open) && count == l.count
    {
      ReadingsSnoc(open, l);
      IterationGrows(open, l);
      if |cur| == 0 { count, seen, valid := l.count, {}, true; }
      seen := seen + {l.r.id};
      cur := cur + [l.r];
      open := open + [l];
      lastIndex := l.index;
    }

    /** The open group goes out, whole or not. */
    method FlushInto(out0: seq<GpuTick>, ghost n: nat) returns (out: seq<GpuTick>)
      requires OneIteration(open) && cur == Readings(open) && forall g :: g in groups ==> GroupOk(g)
      requires open != [] ==> |open| <= count && open[0].count == count && (|open| == count ==> valid)
      requires n <= |groups| && out0 == Ticks(groups[n..])
      modifies this`cur, this`seen, this`open, this`groups
      ensures Valid() && open == [] && Accepted() == old(Accepted())
      ensures old(groups) <= groups && out == Ticks(groups[n..])
      ensures |out| == |out0| + if old(open) == [] then 0 else 1
      ensures if old(open) == [] then groups == old(groups) else |groups| == |old(groups)| + 1 && LastClosed(old(open))
    {
      out := out0;
      ghost var before := groups;
      var t := Flush();
      if t.Some? {
        out := out + [t.value];
        TicksSnoc(before[n..], groups[|before|]);
        assert groups[n..] == before[n..] + [groups[|before|]];
      }
    }

    /** Adds one line; emits a partial predecessor, the group just completed, or both.
        A line is dropped exactly when its sensor is already in the group it continues. */
    method Push(l: Line) returns (out: seq<GpuTick>)
      requires Valid() && Parsed(l)
      modifies this
      ensures Valid()
      ensures old(groups) <= groups && out == Ticks(groups[|old(groups)|..]) && |out| <= 2
      ensures Accepted() == old(Accepted()) + (if old(Repeats(l)) then [] else [l])
      ensures old(Continues(l)) && old(Repeats(l)) ==> open == [] && |groups| == |old(groups)| + 1 && LastClosed(old(open))
      ensures old(Continues(l)) && !old(Repeats(l)) ==>
                if |old(open)| + 1 < l.count then groups == old(groups) && open == old(open) + [l]
                else open == [] && |groups| == |old(groups)| + 1 && LastClosed(old(open) + [l])
      ensures !old(Continues(l)) ==>
                && (old(open) != [] ==> |groups| > |old(groups)| && groups[|old(groups)|].lines == old(open))
                && |groups| == |old(groups)| + (if old(open) != [] then 1 else 0) + (if l.count == 1 then 1 else 0)
                && (if l.count == 1 then open == [] && LastClosed([l]) else open == [l])
    {
      out := [];
      ghost var n := |groups|;
      if |cur| > 0 && (l.index <= lastIndex || l.count != count) { out := FlushInto(out, n); }
      if |cur| > 0 && (l.r.id in seen || |cur| >= MAX_SENSORS) {
        out := Spoil(l, out, n);
      } else {
        out := TakeAndClose(l, out, n);
      }
    }

    /** A sensor that comes twice spoils the open group. */
    method Spoil(l: Line, out0: seq<GpuTick>, ghost n: nat) returns (out: seq<GpuTick>)
      requires Valid() && open != [] && n <= |groups| && out0 == Ticks(groups[n..])
      modifies this
      ensures Valid() && open == [] && Accepted() == old(Accepted())
      ensures old(groups) <= groups && out == Ticks(groups[n..]) && |out| == |out0| + 1
      ensures |groups| == |old(groups)| + 1 && LastClosed(old(open))
    {
      valid := false;
      out := FlushInto(out0, n);
      lastIndex := l.index;
    }

    /** The line joins the group, which goes out when it is whole. */
    method TakeAndClose(l: Line, out0: seq<GpuTick>, ghost n: nat) returns (out: seq<GpuTick>)
      requires Valid() && Parsed(l) && n <= |groups| && out0 == Ticks(groups[n..])
      requires open != [] ==> l.count == count && lastIndex < l.index && l.r.id !in seen
      modifies this
      ensures Valid() && Accepted() == old(Accepted()) + [l]
      ensures old(groups) <= groups && out == Ticks(groups[n..]) && |out| <= |out0| + 1
      ensures if |old(open)| + 1 < l.count then groups == old(groups) && open == old(open) + [l]
              else open == [] && |groups| == |old(groups)| + 1 && LastClosed(old(open) + [l])
    {
      TakeOne(l);
      if |cur| >= count { out := FlushInto(out0, n); } else { out := out0; }
    }

    method TakeOne(l: Line)
      requires Valid() && Parsed(l)
      requires open != [] ==> l.count == count && lastIndex < l.index && l.r.id !in seen
      modifies this`count, this`cur, this`seen, this`lastIndex, this`valid, this`open
      ensures OneIteration(open) && cur == Readings(open) && open == old(open) + [l] && count == l.count
      ensures |open| <= count && At(open, count, lastIndex) && valid && seen == SensorIds(open)
      ensures Accepted() == old(Accepted()) + [l]
    {
      AcceptedMore(Lines(groups), open, l);
      Take(l);
      assert Accepted() == Lines(groups) + (old(open) + [l]);
    }
  }

  /** All lines of one sampling iteration, pushed one after another, come out as exactly one
      tick, complete and in order. */
  method PushIteration(g: NvidiaTickGrouper, lines: seq<Line>) returns (out: seq<GpuTick>)
    requires g.Valid() && g.open == [] && lines != [] && OneIteration(lines) && |lines| == lines[0].count
    modifies g
    ensures g.Valid() && g.open == [] && out == [GpuTick(Readings(lines), true)]
    ensures |g.groups| == |old(g.groups)| + 1 && g.LastClosed(lines)
  {
    out := [];
    ghost var n := |g.groups|;
    for i := 0 to |lines|
      invariant g.Valid() && old(g.groups) <= g.groups && out == Ticks(g.groups[n..])
      invariant i < |lines| ==> g.open == lines[..i] && g.groups == old(g.groups)
      invariant i == |lines| ==> g.open == [] && |g.groups| == n + 1 && g.LastClosed(lines)
    {
      assert lines[..i + 1] == lines[..i] + [lines[i]];
      if i > 0 {
        assert Before(lines[i - 1], lines[i]) && Before(lines[0], lines[i]);
        NotRepeated(lines, i);
      }
      var more := g.Push(lines[i]);
      out := out + more;
    }
    assert g.groups[n..] == [g.groups[n]];
    assert g.groups[n] in g.groups;
  }

  /** No sensor of an iteration comes twice. */
  lemma {:induction false} NotAmong(lines: seq<Line>, id: Id)
    requires forall i :: 0 <= i < |lines| ==> lines[i].r.id != id
    ensures id !in SensorIds(lines)
  {
    if lines != [] { NotAmong(lines[..|lines| - 1], id); }
  }

  lemma NotRepeated(lines: seq<Line>, i: nat)
    requires OneIteration(lines) && i < |lines|
    ensures lines[i].r.id !in SensorIds(lines[..i])
  {
    forall j | 0 <= j < i ensures lines[..i][j].r.id != lines[i].r.id { assert Before(lines[j], lines[i]); }
    NotAmong(lines[..i], lines[i].r.id);
  }

  lemma AcceptedMore(s: seq<Line>, t: seq<Line>, l: Line)
    ensures s + (t + [l]) == (s + t) + [l]
  {
  }

  /** One more line of the same iteration. */
  lemma IterationGrows(lines: seq<Line>, l: Line)
    requires OneIteration(lines) && Parsed(l)
    requires lines != [] ==> l.count == lines[0].count && lines[|lines| - 1].index < l.index && l.r.id !in SensorIds(lines)
    ensures OneIteration(lines + [l]) && SensorIds(lines + [l]) == SensorIds(lines) + {l.r.id}
  {
    var all := lines + [l];
    assert all[..|lines|] == lines;
    forall i | 0 <= i < |lines| ensures Before(lines[i], l) {
      assert i < |lines| - 1 ==> Before(lines[i], lines[|lines| - 1]);
      assert 0 < i ==> Before(lines[0], lines[i]);
    }
    forall i, j | 0 <= i < j < |all| ensures Before(all[i], all[j]) {
      if j < |lines| { assert Before(lines[i], lines[j]); }
    }
  }

  lemma {:induction false} ReadingsSnoc(lines: seq<Line>, l: Line)
    ensures Readings(lines + [l]) == Readings(lines) + [l.r]
  {
  }

  lemma {:induction false} TicksSnoc(groups: seq<Group>, g: Group)
    ensures Ticks(groups + [g]) == Ticks(groups) + [g.tick]
  {
  }

  /** A complete tick has as many distinct sensors as the sampler advertised. */
  lemma CompleteTickIsWhole(g: Group)
    requires GroupOk(g) && g.tick.complete
    ensures |g.tick.readings| == g.lines[0].count && Distinct(Ids(g.tick.readings)) && Counts(g.tick)
  {
  }
}
