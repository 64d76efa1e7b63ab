/** States that some run of the machine reaches, and that each step stays among them. */
module JournalReach {
  import opened Common
  import opened JournalTypes
  import opened JournalMachine
  import opened JournalSafety
  import opened JournalRuns

  ghost predicate EndsRun(states: seq<Sys>, actions: seq<Action>, s: Sys) {
    IsRun(states, actions) && states[|actions|] == s
  }

  ghost predicate Hereditary(p: Sys -> bool) {
    && (forall s :: Initial(s) ==> p(s))
    && (forall s, a :: p(s) && Enabled(s, a) ==> p(Step(s, a)))
  }

  /** The states of runs: what is in every set that has the initial states and is closed
      under steps. */
  ghost predicate Reached(s: Sys) {
    forall p: Sys -> bool {:trigger Hereditary(p)} :: Hereditary(p) ==> p(s)
  }

  lemma RunExtends(states: seq<Sys>, actions: seq<Action>, s': Sys, a: Action)
    requires IsRun(states, actions) && Enabled(states[|actions|], a) && s' == Step(states[|actions|], a)
    ensures EndsRun(states + [s'], actions + [a], s')
  {
    var states', actions' := states + [s'], actions + [a];
    forall i | 0 <= i < |actions'|
      ensures Enabled(states'[i], actions'[i]) && states'[i + 1] == Step(states'[i], actions'[i])
    {
      if i < |actions| { assert states'[i] == states[i] && actions'[i] == actions[i]; }
    }
  }

  ghost predicate EndsSomeRun(s: Sys) {
    exists states, actions :: EndsRun(states, actions, s)
  }

  lemma RunsAreClosed(p: Sys -> bool)
    requires forall s :: p(s) <==> EndsSomeRun(s)
    ensures Hereditary(p)
  {
    forall s | Initial(s) ensures p(s) {
      assert EndsRun([s], [], s);
    }
    forall s, a | p(s) && Enabled(s, a) ensures p(Step(s, a)) {
      var states, actions :| EndsRun(states, actions, s);
      RunExtends(states, actions, Step(s, a), a);
    }
  }

  lemma {:induction false} RunStaysIn(states: seq<Sys>, actions: seq<Action>, n: nat, p: Sys -> bool)
    requires IsRun(states, actions) && n < |states| && Hereditary(p)
    ensures p(states[n])
  {
    if n > 0 { RunStaysIn(states, actions, n - 1, p); }
  }

  /** A state is reached exactly when a run ends in it. */
  lemma ReachedByRun(s: Sys)
    ensures Reached(s) <==> EndsSomeRun(s)
  {
    var ends: Sys -> bool := x => EndsSomeRun(x);
    RunsAreClosed(ends);
    if EndsSomeRun(s) {
      var states, actions :| EndsRun(states, actions, s);
      forall p: Sys -> bool | Hereditary(p) ensures p(s) { RunStaysIn(states, actions, |actions|, p); }
    }
  }

  lemma Ran(s: Sys, a: Action, s': Sys)
    requires Reached(s) && Enabled(s, a) && s' == Step(s, a)
    ensures Reached(s')
  {
  }

  lemma StartReached(s: Sys)
    requires Initial(s)
    ensures Reached(s)
  {
  }

  lemma ReachedInv(s: Sys)
    requires Reached(s)
    ensures Inv(s)
  {
    ReachedByRun(s);
    var states, actions :| EndsRun(states, actions, s);
    RunKeepsInv(states, actions, |actions|);
  }

  lemma RanNewState(s: Sys, id: StreamId, w: WriteOutcome)
    requires Reached(s) && CanNewState(s, id)
    ensures Reached(NewStateDone(s, id, w))
  {
    Ran(s, NewState(id, w), NewStateDone(s, id, w));
  }

  lemma RanCommit(s: Sys, w: WriteOutcome)
    requires Reached(s) && CanCommit(s)
    ensures Reached(CommitDone(s, w))
  {
    Ran(s, CommitIdentity(w), CommitDone(s, w));
  }

  lemma RanRemoveOrphans(s: Sys, gone: set<StreamId>)
    requires Reached(s) && CanRemoveOrphans(s, gone)
    ensures Reached(OrphansRemoved(s, gone))
  {
    Ran(s, RemoveOrphans(gone), OrphansRemoved(s, gone));
  }

  lemma RanTrim(s: Sys, file: nat, n: nat)
    requires Reached(s) && CanTrim(s, file, n)
    ensures Reached(Trimmed(s, file, n))
  {
    Ran(s, Trim(file, n), Trimmed(s, file, n));
  }

  lemma RanRemoveFile(s: Sys, file: nat)
    requires Reached(s) && Closed(s)
    ensures Reached(WithoutFile(s, s.disk.id.value, file))
  {
    Ran(s, RemoveFile(file), WithoutFile(s, s.disk.id.value, file));
  }

  lemma RanLoad(s: Sys, lo: nat)
    requires Reached(s) && CanLoad(s, lo)
    ensures Reached(Loaded(s, lo))
  {
    Ran(s, Load(lo), Loaded(s, lo));
  }

  lemma RanSetState(s: Sys, st: PState, w: WriteOutcome)
    requires Reached(s) && CanSetState(s, st)
    ensures Reached(StateSet(s, st, w))
  {
    Ran(s, SetState(st, w), StateSet(s, st, w));
  }

  lemma RanCreateSeg(s: Sys, w: WriteOutcome)
    requires Reached(s) && CanCreateSeg(s)
    ensures Reached(SegCreated(s, w))
  {
    Ran(s, CreateSeg(w), SegCreated(s, w));
  }

  lemma RanOpenLast(s: Sys)
    requires Reached(s) && Running(s) && !s.ram.value.overCap && !NeedsSegment(s.ram.value, s.cfg)
    ensures Reached(HandleSet(s, true))
  {
    Ran(s, OpenLast, HandleSet(s, true));
  }

  lemma RanCloseHandle(s: Sys)
    requires Reached(s) && Running(s)
    ensures Reached(HandleSet(s, false))
  {
    Ran(s, CloseHandle, HandleSet(s, false));
  }

  lemma RanWrite(s: Sys, b: Bucket, ok: bool)
    requires Reached(s) && CanWrite(s, b)
    ensures Reached(Written(s, b, ok))
  {
    Ran(s, Write(b, ok), Written(s, b, ok));
  }

  lemma RanSync(s: Sys, ok: bool)
    requires Reached(s) && CanSync(s)
    ensures Reached(Synced(s, ok))
  {
    Ran(s, Sync(ok), Synced(s, ok));
  }

  lemma RanExpire(s: Sys, now: int)
    requires Reached(s) && Running(s)
    ensures Reached(Expired(s, now))
  {
    Ran(s, Expire(now), Expired(s, now));
  }

  lemma RanRemoveSeg(s: Sys, i: nat, ok: bool)
    requires Reached(s) && CanRemoveSeg(s, i)
    ensures Reached(SegRemoved(s, i, ok))
  {
    Ran(s, RemoveSeg(i, ok), SegRemoved(s, i, ok));
  }

  lemma RanCompact(s: Sys, i: nat, w: WriteOutcome)
    requires Reached(s) && CanCompact(s, i)
    ensures Reached(Compacted(s, i, w))
  {
    Ran(s, CompactSeg(i, w), Compacted(s, i, w));
  }

  lemma RanCapRemove(s: Sys, ok: bool)
    requires Reached(s) && CanCapRemove(s)
    ensures Reached(CapRemoved(s, ok))
  {
    Ran(s, CapRemove(ok), CapRemoved(s, ok));
  }

  lemma RanSettle(s: Sys)
    requires Reached(s) && CanSettle(s)
    ensures Reached(Settled(s))
  {
    Ran(s, Settle, Settled(s));
  }

  lemma RanPublish(s: Sys)
    requires Reached(s) && Running(s)
    ensures Reached(Published(s))
  {
    Ran(s, Publish, Published(s));
  }

  /** Publishing adds every retained record and changes nothing published before. */
  lemma PublishesAll(s: Sys)
    requires Reached(s) && Running(s)
    ensures var (r, v) := (s.ram.value, Published(s).visible);
            && (forall b :: b in r.records ==> (r.id, b.seqno) in v && v[(r.id, b.seqno)] == b)
            && (forall k :: k in s.visible ==> k in v && v[k] == s.visible[k])
  {
    ReachedInv(s);
    PublishKeepsInv(s);
    RecordsAgree(Published(s));
    forall b | b in s.ram.value.records ensures (s.ram.value.id, b.seqno) in Published(s).visible {
      assert (s.ram.value.id, b.seqno) in Keys(s.ram.value);
    }
  }

  lemma RanCrash(s: Sys, left: Files)
    requires Reached(s) && CanCrash(s, left)
    ensures Reached(Crashed(s, left))
  {
    Ran(s, Crash(left), Crashed(s, left));
  }

  // ---- what the steps do to the lines on disk ----

  function WithFiles(d: Disk, id: StreamId, files: Files): Disk {
    d.(segs := d.segs[id := files])
  }

  /** Files of one stream that hold no new line. */
  lemma FewerFiles(d: Disk, id: StreamId, files: Files)
    requires forall b :: OnDisk(files, b) ==> OnDisk(FilesOf(d, id), b)
    requires forall b :: InTail(files, b) ==> InTail(FilesOf(d, id), b)
    ensures Fewer(d, WithFiles(d, id, files))
  {
  }

  lemma AddedFiles(d: Disk, id: StreamId, files: Files, line: Bucket)
    requires forall b :: OnDisk(files, b) ==> OnDisk(FilesOf(d, id), b) || b == line
    requires forall b :: InTail(files, b) ==> InTail(FilesOf(d, id), b) || b == line
    ensures Added(d, WithFiles(d, id, files), id, line)
  {
  }

  /** A compaction writes only lines of the file it replaces. */
  lemma CompactAddsNothing(s: Sys, i: nat)
    requires Reached(s) && CanCompact(s, i)
    ensures var r := s.ram.value;
            Fewer(s.disk, WithFiles(s.disk, r.id, RamFiles(s)[r.segs[i].first := SegFile(InSeg(r.records, r.segs[i]), {}, false)]))
  {
    ReachedInv(s);
    OwnFits(s);
    var r := s.ram.value;
    assert SegOk(r.segs[i], r.records, r.overCap, RamFiles(s));
    ReplacedAddsNothing(s.disk, r.id, r.segs[i].first, InSeg(r.records, r.segs[i]));
  }

  lemma ReplacedAddsNothing(d: Disk, id: StreamId, key: nat, sub: seq<Bucket>)
    requires key in FilesOf(d, id) && Inside(sub, FilesOf(d, id)[key].lines)
    ensures Fewer(d, WithFiles(d, id, FilesOf(d, id)[key := SegFile(sub, {}, false)]))
  {
  }

  lemma RemovedAddsNothing(d: Disk, id: StreamId, key: nat)
    ensures Fewer(d, WithFiles(d, id, FilesOf(d, id) - {key}))
  {
  }

  /** A fresh file holds no line. */
  lemma FreshAddsNothing(d: Disk, id: StreamId, key: nat)
    ensures Fewer(d, WithFiles(d, id, FilesOf(d, id)[key := SegFile([], {}, false)]))
  {
    FewerFiles(d, id, FilesOf(d, id)[key := SegFile([], {}, false)]);
  }

  lemma WriteAddsOne(d: Disk, id: StreamId, key: nat, line: Bucket)
    requires key in FilesOf(d, id)
    ensures var files := FilesOf(d, id);
            Added(d, WithFiles(d, id, files[key := files[key].(tail := files[key].tail + {line})]), id, line)
  {
  }

  lemma SyncAddsOne(d: Disk, id: StreamId, key: nat, line: Bucket)
    requires key in FilesOf(d, id)
    ensures var files := FilesOf(d, id);
            Added(d, WithFiles(d, id, files[key := SegFile(files[key].lines + [line], {}, false)]), id, line)
  {
    var files := FilesOf(d, id);
    AddedFiles(d, id, files[key := SegFile(files[key].lines + [line], {}, false)], line);
  }

  lemma OrphansAddNothing(d: Disk, gone: set<StreamId>)
    ensures Fewer(d, d.(states := d.states - gone, segs := d.segs - gone))
  {
  }

  lemma SameSegsAddNothing(d: Disk, d': Disk)
    requires d'.segs == d.segs
    ensures Fewer(d, d')
  {
  }

  lemma FewerStill(a: Disk, b: Disk, c: Disk)
    requires Fewer(a, b) && Fewer(b, c)
    ensures Fewer(a, c)
  {
  }

  lemma AddedStill(a: Disk, b: Disk, c: Disk, id: StreamId, line: Bucket)
    requires Added(a, b, id, line) && Added(b, c, id, line)
    ensures Added(a, c, id, line)
  {
  }

  lemma FewerIsAdded(a: Disk, b: Disk, id: StreamId, line: Bucket)
    requires Fewer(a, b)
    ensures Added(a, b, id, line)
  {
  }
}
