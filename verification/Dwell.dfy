/** Health evidence of one machine on one platform: what each connection reported, and
    when it counts as a dwell (hub/agent_rollout.go). SHAs are compared without regard
    to case, so they are numbers here; times are hub receipt times in milliseconds. */
module Dwell {
  import opened Common

  type Sha = nat
  type Conn = nat

  const NONE: Sha := 0
  const DWELL_MS := 60_000
  const GAP_MS := 45_000

  datatype Evidence = Evidence(generation: int, candidate: Sha, saw: bool, dwellStart: Option<int>, lastMetrics: Option<int>)

  const NOTHING := Evidence(0, NONE, false, None, None)

  /** What one connection did. */
  datatype Frame =
    | Report(generation: int, running: Sha, candidate: Sha)
    | Metrics(at: int)

  datatype Event =
    | From(conn: Conn, frame: Frame)
    | Forgotten(conn: Conn)
    | AllForgotten

  // ---- the record of one connection ----

  function Reported(e: Evidence, generation: int, running: Sha, candidate: Sha): Evidence {
    var e1 := if e.generation != generation || e.candidate != candidate
              then Evidence(generation, candidate, false, None, e.lastMetrics) else e;
    if running != candidate then e1.(saw := false, dwellStart := None) else e1.(saw := true)
  }

  function Noted(e: Evidence, at: int): Evidence {
    if !e.saw then e.(lastMetrics := Some(at), dwellStart := None)
    else if e.dwellStart.None? || (e.lastMetrics.Some? && at - e.lastMetrics.value > GAP_MS)
    then e.(dwellStart := Some(at), lastMetrics := Some(at))
    else e.(lastMetrics := Some(at))
  }

  function Apply(e: Evidence, f: Frame): Evidence {
    match f
    case Report(generation, running, candidate) => if candidate == NONE then e else Reported(e, generation, running, candidate)
    case Metrics(at) => Noted(e, at)
  }

  function Record(frames: seq<Frame>): Evidence {
    if frames == [] then NOTHING else Apply(Record(frames[..|frames| - 1]), frames[|frames| - 1])
  }

  function Suffices(e: Evidence, generation: int, candidate: Sha, now: int): bool {
    && e.generation == generation && e.candidate == candidate && e.saw
    && e.dwellStart.Some? && e.lastMetrics.Some?
    && now - e.lastMetrics.value <= GAP_MS
    && e.lastMetrics.value - e.dwellStart.value >= DWELL_MS
  }

  // ---- the same in terms of what happened ----

  predicate Confirms(f: Frame, generation: int, candidate: Sha) {
    f == Report(generation, candidate, candidate)
  }

  /** A report of anything else; one without a candidate is ignored. */
  predicate Contradicts(f: Frame, generation: int, candidate: Sha) {
    f.Report? && f.candidate != NONE && !Confirms(f, generation, candidate)
  }

  /** When the last metrics frame among the first i came. */
  function LastBefore(frames: seq<Frame>, i: nat): Option<int>
    requires i <= |frames|
  {
    if i == 0 then None
    else if frames[i - 1].Metrics? then Some(frames[i - 1].at)
    else LastBefore(frames, i - 1)
  }

  function LastMetrics(frames: seq<Frame>): Option<int> {
    LastBefore(frames, |frames|)
  }

  lemma {:induction false} LastBeforeSnoc(frames: seq<Frame>, f: Frame, i: nat)
    requires i <= |frames|
    ensures LastBefore(frames + [f], i) == LastBefore(frames, i)
  {
    if i > 0 { LastBeforeSnoc(frames, f, i - 1); }
  }

  /** Every metrics frame after a follows the one before it within the gap. */
  ghost predicate NoGap(frames: seq<Frame>, a: nat) {
    forall i :: a < i < |frames| && frames[i].Metrics? ==>
      LastBefore(frames, i).Some? && frames[i].at - LastBefore(frames, i).value <= GAP_MS
  }

  /** The candidate was reported at r and not contradicted since. */
  ghost predicate Standing(frames: seq<Frame>, generation: int, candidate: Sha, r: nat) {
    && 0 <= r < |frames| && candidate != NONE && Confirms(frames[r], generation, candidate)
    && forall i :: r <= i < |frames| ==> !Contradicts(frames[i], generation, candidate)
  }

  /** After that report, metrics from a on came without a gap. */
  ghost predicate Dwelling(frames: seq<Frame>, generation: int, candidate: Sha, r: nat, a: nat) {
    Standing(frames, generation, candidate, r) && r < a < |frames| && frames[a].Metrics? && NoGap(frames, a)
  }

  /** They span the dwell and the last is fresh. */
  ghost predicate Proof(frames: seq<Frame>, generation: int, candidate: Sha, now: int, r: nat, a: nat) {
    && Dwelling(frames, generation, candidate, r, a)
    && LastMetrics(frames).Some?
    && LastMetrics(frames).value - frames[a].at >= DWELL_MS
    && now - LastMetrics(frames).value <= GAP_MS
  }

  ghost predicate InOrder(frames: seq<Frame>) {
    forall i, j :: 0 <= i < j < |frames| && frames[i].Metrics? && frames[j].Metrics? ==> frames[i].at <= frames[j].at
  }

  lemma StandingSnoc(frames: seq<Frame>, f: Frame, g: int, c: Sha, r: nat)
    requires Standing(frames, g, c, r) && !Contradicts(f, g, c)
    ensures Standing(frames + [f], g, c, r)
  {
  }

  lemma DwellingSnoc(frames: seq<Frame>, f: Frame, g: int, c: Sha, r: nat, a: nat)
    requires Dwelling(frames, g, c, r, a) && !Contradicts(f, g, c)
    requires f.Metrics? ==> LastMetrics(frames).Some? && f.at - LastMetrics(frames).value <= GAP_MS
    ensures Dwelling(frames + [f], g, c, r, a)
  {
    var all := frames + [f];
    StandingSnoc(frames, f, g, c, r);
    forall i | a < i < |all| && all[i].Metrics?
      ensures LastBefore(all, i).Some? && all[i].at - LastBefore(all, i).value <= GAP_MS
    {
      LastBeforeSnoc(frames, f, i);
    }
  }

  /** A dwell that starts with the frame just received. */
  lemma DwellingStarts(frames: seq<Frame>, f: Frame, g: int, c: Sha, r: nat)
    requires Standing(frames, g, c, r) && f.Metrics?
    ensures Dwelling(frames + [f], g, c, r, |frames|)
  {
    StandingSnoc(frames, f, g, c, r);
  }

  lemma LastMetricsSnoc(frames: seq<Frame>, f: Frame)
    ensures LastMetrics(frames + [f]) == if f.Metrics? then Some(f.at) else LastMetrics(frames)
  {
    LastBeforeSnoc(frames, f, |frames|);
  }

  /** What the record claims, the frames show: the report at r and the dwell from a. */
  ghost predicate Explains(frames: seq<Frame>, e: Evidence, r: nat, a: nat) {
    && e.lastMetrics == LastMetrics(frames)
    && (e.saw ==> Standing(frames, e.generation, e.candidate, r))
    && (e.dwellStart.Some? ==>
          && e.lastMetrics.Some? && e.saw && Dwelling(frames, e.generation, e.candidate, r, a)
          && frames[a] == Metrics(e.dwellStart.value))
  }

  lemma MetricsExplained(frames: seq<Frame>, e: Evidence, at: int, r: nat, a: nat) returns (a': nat)
    requires Explains(frames, e, r, a)
    ensures Explains(frames + [Metrics(at)], Noted(e, at), r, a')
  {
    a' := a;
    LastMetricsSnoc(frames, Metrics(at));
    if e.saw {
      StandingSnoc(frames, Metrics(at), e.generation, e.candidate, r);
      if e.dwellStart.None? || at - e.lastMetrics.value > GAP_MS {
        DwellingStarts(frames, Metrics(at), e.generation, e.candidate, r);
        a' := |frames|;
      } else {
        DwellingSnoc(frames, Metrics(at), e.generation, e.candidate, r, a);
      }
    }
  }

  lemma ReportExplained(frames: seq<Frame>, e: Evidence, g: int, running: Sha, c: Sha, r: nat, a: nat) returns (r': nat)
    requires Explains(frames, e, r, a)
    ensures Explains(frames + [Report(g, running, c)], Apply(e, Report(g, running, c)), r', a)
  {
    var f := Report(g, running, c);
    r' := r;
    LastMetricsSnoc(frames, f);
    if e.saw && !Contradicts(f, e.generation, e.candidate) {
      StandingSnoc(frames, f, e.generation, e.candidate, r);
      if e.dwellStart.Some? { DwellingSnoc(frames, f, e.generation, e.candidate, r, a); }
    } else if running == c && c != NONE {
      r' := |frames|;
    }
  }

  lemma {:induction false} RecordIsExplained(frames: seq<Frame>) returns (r: nat, a: nat)
    ensures Explains(frames, Record(frames), r, a)
  {
    r, a := 0, 0;
    if frames != [] {
      var front, f := frames[..|frames| - 1], frames[|frames| - 1];
      r, a := RecordIsExplained(front);
      assert frames == front + [f];
      match f
      case Metrics(at) => a := MetricsExplained(front, Record(front), at, r, a);
      case Report(g, running, c) => r := ReportExplained(front, Record(front), g, running, c, r, a);
    }
  }

  /** The start a record keeps is no later than any start of an unbroken dwell. */
  ghost predicate Complete(frames: seq<Frame>, e: Evidence, g: int, c: Sha, r: nat) {
    && e.saw && e.generation == g && e.candidate == c
    && forall a: nat :: Dwelling(frames, g, c, r, a) ==> e.dwellStart.Some? && e.dwellStart.value <= frames[a].at
  }

  /** What the frames show, the record claims. */
  lemma {:induction false} RecordIsComplete(frames: seq<Frame>, g: int, c: Sha, r: nat)
    requires InOrder(frames) && Standing(frames, g, c, r)
    ensures Complete(frames, Record(frames), g, c, r)
  {
    var front, f := frames[..|frames| - 1], frames[|frames| - 1];
    assert frames == front + [f];
    if r < |front| {
      assert forall i :: 0 <= i < |front| ==> front[i] == frames[i];
      assert Standing(front, g, c, r);
      RecordIsComplete(front, g, c, r);
      var r0, a0 := RecordIsExplained(front);
      StaysComplete(front, Record(front), f, g, c, r, r0, a0);
    }
  }

  lemma StaysComplete(front: seq<Frame>, e: Evidence, f: Frame, g: int, c: Sha, r: nat, r0: nat, a0: nat)
    requires Complete(front, e, g, c, r) && Explains(front, e, r0, a0) && InOrder(front + [f])
    requires Standing(front + [f], g, c, r) && r < |front|
    ensures Complete(front + [f], Apply(e, f), g, c, r)
  {
    var all, e' := front + [f], Apply(e, f);
    assert all[|front|] == f && forall i :: 0 <= i < |front| ==> all[i] == front[i];
    forall a: nat | Dwelling(all, g, c, r, a) ensures e'.dwellStart.Some? && e'.dwellStart.value <= all[a].at {
      if a < |front| {
        DwellingFront(front, f, g, c, r, a);
        LastBeforeSnoc(front, f, |front|);
      } else if e.dwellStart.Some? {
        assert all[a0] == Metrics(e.dwellStart.value);
      }
    }
  }

  lemma DwellingFront(front: seq<Frame>, f: Frame, g: int, c: Sha, r: nat, a: nat)
    requires Dwelling(front + [f], g, c, r, a) && a < |front|
    ensures Dwelling(front, g, c, r, a)
  {
    var all := front + [f];
    assert forall i :: 0 <= i < |front| ==> front[i] == all[i];
    forall i | a < i < |front| && front[i].Metrics?
      ensures LastBefore(front, i).Some? && front[i].at - LastBefore(front, i).value <= GAP_MS
    {
      LastBeforeSnoc(front, f, i);
    }
  }

  /** A machine counts as healthy exactly when its connection's history proves the
      dwell. */
  lemma DwellIsSound(frames: seq<Frame>, g: int, c: Sha, now: int)
    requires InOrder(frames)
    ensures Suffices(Record(frames), g, c, now) <==> exists r: nat, a: nat :: Proof(frames, g, c, now, r, a)
  {
    var r, a := RecordIsExplained(frames);
    if Suffices(Record(frames), g, c, now) { assert Proof(frames, g, c, now, r, a); }
    if exists r: nat, a: nat :: Proof(frames, g, c, now, r, a) {
      var r1: nat, a1: nat :| Proof(frames, g, c, now, r1, a1);
      RecordIsComplete(frames, g, c, r1);
    }
  }

  /** A dwell is never two endpoints: at least three metrics frames lie in it. */
  lemma AtLeastThreeFrames(frames: seq<Frame>, g: int, c: Sha, now: int, r: nat, a: nat) returns (i: nat, j: nat)
    requires Proof(frames, g, c, now, r, a)
    ensures a < i < j < |frames| && frames[i].Metrics? && frames[j].Metrics?
  {
    j := LastAt(frames, |frames|, a);
    i := LastAt(frames, j, a);
  }

  lemma {:induction false} LastAt(frames: seq<Frame>, n: nat, a: nat) returns (j: nat)
    requires a < n <= |frames| && frames[a].Metrics?
    ensures LastBefore(frames, n).Some? && a <= j < n && frames[j] == Metrics(LastBefore(frames, n).value)
    decreases n
  {
    j := n - 1;
    if !frames[j].Metrics? { j := LastAt(frames, n - 1, a); }
  }

  // ---- all connections of the machine ----

  /** What happened on one connection since its record was last dropped. */
  function Own(h: seq<Event>, conn: Conn): seq<Frame> {
    if h == [] then []
    else
      var front := Own(h[..|h| - 1], conn);
      match h[|h| - 1]
      case From(c, f) => if c == conn then front + [f] else front
      case Forgotten(c) => if c == conn then [] else front
      case AllForgotten => []
  }

  /** No event of another connection matters to this one. */
  lemma OthersDoNotMatter(h: seq<Event>, e: Event, conn: Conn)
    requires !e.AllForgotten? && e.conn != conn
    ensures Own(h + [e], conn) == Own(h, conn)
  {
    assert (h + [e])[..|h|] == h;
  }

  class DwellBook {
    var evidence: map<Conn, Evidence>
    var current: Option<Conn>
    ghost var history: seq<Event>

    /** Each connection's record is what its own frames make of it. */
    ghost predicate Valid() reads this {
      forall c :: Record(Own(history, c)) == if c in evidence then evidence[c] else NOTHING
    }

    constructor ()
      ensures Valid() && history == [] && current == None
    {
      evidence, current, history := map[], None, [];
    }

    /** A connection takes over the machine; the one it displaces keeps its record until
        it leaves, which cannot count any more. */
    method Register(conn: Conn) returns (displaced: Option<Conn>)
      requires Valid()
      modifies this`current
      ensures Valid() && current == Some(conn)
      ensures displaced == if old(current) == Some(conn) then None else old(current)
    {
      displaced := if current == Some(conn) then None else current;
      current := Some(conn);
    }

    /** A connection leaves: the machine is without one only if it was its own, and no
        other connection's evidence goes with it. */
    method Unregister(conn: Conn)
      requires Valid()
      modifies this
      ensures Valid() && Own(history, conn) == []
      ensures current == if old(current) == Some(conn) then None else old(current)
      ensures forall c :: c != conn ==> Own(history, c) == Own(old(history), c)
    {
      if current == Some(conn) { current := None; }
      ForgetConnection(conn);
      assert history[..|history| - 1] == old(history);
    }

    function EvidenceFor(c: Conn): Evidence reads this {
      if c in evidence then evidence[c] else NOTHING
    }

    ghost method Happened(e: Event)
      modifies this`history
      ensures history == old(history) + [e]
      ensures forall c :: Own(history, c) ==
                match e case From(d, f) => (if d == c then Own(old(history), c) + [f] else Own(old(history), c))
                        case Forgotten(d) => (if d == c then [] else Own(old(history), c))
                        case AllForgotten => []
    {
      history := history + [e];
      assert history[..|history| - 1] == old(history);
    }

    method ObserveCandidateReport(conn: Conn, generation: int, running: Sha, candidate: Sha)
      requires Valid()
      modifies this`evidence, this`history
      ensures Valid() && history == old(history) + [From(conn, Report(generation, running, candidate))]
    {
      Happened(From(conn, Report(generation, running, candidate)));
      RecordSnoc(Own(old(history), conn), Report(generation, running, candidate));
      if candidate == NONE { return; }
      var ev := EvidenceFor(conn);
      if ev.generation != generation || ev.candidate != candidate {
        ev := ev.(generation := generation, candidate := candidate, saw := false, dwellStart := None);
      }
      if running != candidate {
        ev := ev.(saw := false, dwellStart := None);
      } else {
        ev := ev.(saw := true);
      }
      evidence := evidence[conn := ev];
    }

    method ObserveTelemetry(conn: Conn, now: int)
      requires Valid()
      modifies this`evidence, this`history
      ensures Valid() && history == old(history) + [From(conn, Metrics(now))]
    {
      Happened(From(conn, Metrics(now)));
      RecordSnoc(Own(old(history), conn), Metrics(now));
      var ev := EvidenceFor(conn);
      if !ev.saw {
        ev := ev.(dwellStart := None);
      } else if ev.dwellStart.None? {
        ev := ev.(dwellStart := Some(now));
      } else if ev.lastMetrics.Some? && now - ev.lastMetrics.value > GAP_MS {
        ev := ev.(dwellStart := Some(now));
      }
      evidence := evidence[conn := ev.(lastMetrics := Some(now))];
    }

    lemma RecordSnoc(frames: seq<Frame>, f: Frame)
      ensures Record(frames + [f]) == Apply(Record(frames), f)
    {
      assert (frames + [f])[..|frames|] == frames;
    }

    method ForgetConnection(conn: Conn)
      requires Valid()
      modifies this`evidence, this`history
      ensures Valid() && history == old(history) + [Forgotten(conn)]
    {
      Happened(Forgotten(conn));
      evidence := evidence - {conn};
    }

    method ForgetEvidence()
      requires Valid()
      modifies this`evidence, this`history
      ensures Valid() && history == old(history) + [AllForgotten]
    {
      Happened(AllForgotten);
      evidence := map[];
    }

    /** The connection that owns the machine now has proven the candidate. */
    ghost predicate Proven(generation: int, candidate: Sha, now: int) reads this {
      current.Some? && exists r: nat, a: nat :: Proof(Own(history, current.value), generation, candidate, now, r, a)
    }

    ghost predicate Timed() reads this {
      forall c :: InOrder(Own(history, c))
    }

    method DwellSatisfied(generation: int, candidate: Sha, now: int) returns (ok: bool)
      requires Valid() && Timed()
      ensures ok <==> Proven(generation, candidate, now)
    {
      if current.None? { return false; }
      DwellIsSound(Own(history, current.value), generation, candidate, now);
      var r, a := RecordIsExplained(Own(history, current.value));
      if current.value !in evidence { return false; }
      var ev := evidence[current.value];
      if ev.generation != generation || ev.candidate != candidate { return false; }
      if !ev.saw || ev.dwellStart.None? { return false; }
      if now - ev.lastMetrics.value > GAP_MS { return false; }
      if ev.lastMetrics.value - ev.dwellStart.value < DWELL_MS { return false; }
      assert Record(Own(history, current.value)) == ev;
      return true;
    }
  }
}
