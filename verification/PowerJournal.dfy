/** The journal process. Every method is a sequence of steps of the machine. */
module PowerJournal {
  import opened Common
  import opened JournalTypes
  import opened JournalMachine
  import opened JournalSafety
  import opened JournalRetention
  import opened JournalRuns
  import opened JournalRecovery
  import opened JournalAgreement
  import opened JournalReach
  import opened JournalReading
  import Replay

  /** The first n records are older than segment i and all after it. */
  ghost predicate Passed(records: seq<Bucket>, n: nat, segs: seq<Seg>, i: nat) {
    n <= |records| && forall k, j :: 0 <= k < n && i <= j < |segs| ==> records[k].seqno < segs[j].first
  }

  datatype AckResult = Mismatch | Beyond | Replay | Unsaved | Moved

  class PowerJournal {
    const cfg: Config

    // the directory
    var disk: Disk

    // the process
    var loaded: bool
    var streamID: StreamId
    var segs: seq<Seg>
    var cur: bool
    var records: seq<Bucket>
    var acked: nat
    var reserved: nat
    var nextSeq: nat
    var overCap: bool

    /** Whether the disk may refuse operations; the environment's, between calls. */
    var failing: bool

    // history
    ghost var written: Option<Bucket>
    ghost var rotating: Option<StreamId>
    ghost var ids: set<StreamId>
    ghost var visible: Visible

    ghost function Memory(): Ram reads this {
      Ram(streamID, segs, cur, written, records, acked, reserved, nextSeq, overCap)
    }

    ghost function State(): Sys reads this {
      Sys(cfg, disk, if loaded then Some(Memory()) else None, rotating, ids, visible)
    }

    /** The present state ends a run of the machine. */
    ghost predicate Valid() reads this {
      Reached(State()) && cfg.segRecords > 0 && (loaded ==> written.None? && (cur ==> segs != []))
    }

    ghost function Files(): Files reads this {
      FilesOf(disk, streamID)
    }

    /** A journal over an empty directory, not yet opened. */
    constructor (cfg: Config)
      requires cfg.segRecords > 0
      ensures Valid() && !loaded && rotating.None? && this.cfg == cfg && visible == map[] && ids == {}
      ensures disk == Disk(None, map[], map[])
    {
      this.cfg, failing := cfg, true;
      disk, loaded := Disk(None, map[], map[]), false;
      written, rotating, ids, visible := None, None, {}, map[];
      new;
      StartReached(State());
    }

    /** What only opening, rotating, publishing and crashing change. */
    twostate predicate SameStream() reads this {
      && loaded == old(loaded) && streamID == old(streamID) && disk.id == old(disk).id
      && rotating == old(rotating) && ids == old(ids) && visible == old(visible)
    }

    /** No line was added to any stream. */
    twostate predicate NoNewLines() reads this {
      Fewer(old(disk), disk)
    }

    /** At most this line was, to the present stream. */
    twostate predicate OnlyNew(line: Bucket) reads this {
      Added(old(disk), disk, streamID, line)
    }

    /** How an atomic write ends. */
    method Outcome() returns (w: WriteOutcome)
      ensures !failing ==> w == Durable
    {
      w := *;
      if !failing { w := Durable; }
    }

    /** Whether any other operation works. */
    method Works() returns (ok: bool)
      ensures !failing ==> ok
    {
      ok := *;
      if !failing { ok := true; }
    }

    /** Persists the ACK cursor and the sequence reservation. */
    method WriteState(acked: nat, reserved: nat) returns (ok: bool)
      requires Valid() && loaded && CanSetState(State(), PState(acked, reserved))
      modifies this`disk, this`acked, this`reserved
      ensures Valid() && SameStream()
      ensures ok ==> this.acked == acked && this.reserved == reserved && disk.states == old(disk).states[streamID := PState(acked, reserved)]
      ensures !ok ==> this.acked == old(this.acked) && this.reserved == old(this.reserved)
      ensures disk.segs == old(disk).segs
      ensures !failing ==> ok
    {
      ghost var s := State();
      var st := PState(acked, reserved);
      var w := Outcome();
      if w != Lost { disk := disk.(states := disk.states[streamID := st]); }
      if w == Durable { this.acked, this.reserved := acked, reserved; }
      RanSetState(s, st, w);
      return w == Durable;
    }

    method CloseHandle()
      requires Valid() && loaded
      modifies this`cur
      ensures Valid() && !cur
    {
      ghost var s := State();
      cur := false;
      RanCloseHandle(s);
    }

    /** Opens the last segment, or starts one when it is full or there is none. */
    method EnsureOpen() returns (ok: bool)
      requires Valid() && loaded && !overCap && nextSeq <= reserved
      requires cur ==> !NeedsSegment(Memory(), cfg)
      modifies this`disk, this`cur, this`segs
      ensures Valid() && SameStream()
      ensures ok ==> cur && !NeedsSegment(Memory(), cfg)
      ensures segs == old(segs) || (NeedsSegment(old(Memory()), cfg) && segs == old(segs) + [Seg(nextSeq, 0, 0, 0)])
      ensures NoNewLines()
      ensures !failing ==> ok
    {
      if cur { return true; }
      ghost var s := State();
      if |segs| > 0 && segs[|segs| - 1].count < cfg.segRecords {
        var reachable := Works();
        if !reachable { return false; }
        cur := true;
        RanOpenLast(s);
        return true;
      }
      var w := Outcome();
      RanCreateSeg(s, w);
      if w != Lost {
        var files := FilesOf(disk, streamID);
        FreshAddsNothing(disk, streamID, nextSeq);
        disk := disk.(segs := disk.segs[streamID := files[nextSeq := SegFile([], {}, false)]]);
      }
      if w == Durable {
        segs := segs + [Seg(nextSeq, 0, 0, 0)];
        cur := true;
      }
      return w == Durable;
    }

    lemma LastFileExists()
      requires Valid() && loaded && segs != []
      ensures LastSeg(Memory()).first in Files()
    {
      ReachedInv(State());
      OwnFits(State());
      assert SegOk(LastSeg(Memory()), records, overCap, Files());
    }

    /** Appends one line to the open segment and syncs it. */
    method WriteLine(b: Bucket) returns (ok: bool)
      requires Valid() && loaded && cur && !overCap && !NeedsSegment(Memory(), cfg)
      requires b.seqno == nextSeq <= reserved && nextSeq < MAX_SEQ && LineBytes(b) <= MAX_LINE + 1
      modifies this`disk, this`cur, this`segs, this`records, this`nextSeq, this`written
      ensures Valid() && SameStream() && OnlyNew(b)
      ensures ok ==> records == old(records) + [b] && nextSeq == old(nextSeq) + 1
      ensures !ok ==> records == old(records) && nextSeq == old(nextSeq) && segs == old(segs) && !cur
      ensures !failing ==> ok
    {
      LastFileExists();
      ghost var s := State();
      var last := segs[|segs| - 1];
      var files := FilesOf(disk, streamID);
      var f := files[last.first];
      var wrote := Works();
      disk := disk.(segs := disk.segs[streamID := files[last.first := f.(tail := f.tail + {b})]]);
      RanWrite(s, b, wrote);
      WriteAddsOne(s.disk, streamID, last.first, b);
      if !wrote {
        cur := false;
        return false;
      }
      written := Some(b);
      ghost var between := disk;
      ok := SyncLine(b);
      AddedStill(s.disk, between, disk, streamID, b);
    }

    method SyncLine(b: Bucket) returns (ok: bool)
      requires Reached(State()) && cfg.segRecords > 0 && loaded && written == Some(b) && CanSync(State())
      modifies this`disk, this`cur, this`segs, this`records, this`nextSeq, this`written
      ensures Valid() && SameStream() && OnlyNew(b)
      ensures ok ==> records == old(records) + [b] && nextSeq == old(nextSeq) + 1
      ensures !ok ==> records == old(records) && nextSeq == old(nextSeq) && segs == old(segs) && !cur
      ensures !failing ==> ok
    {
      ghost var s := State();
      var last := segs[|segs| - 1];
      var files := FilesOf(disk, streamID);
      ok := Works();
      RanSync(s, ok);
      SyncAddsOne(disk, streamID, last.first, b);
      written := None;
      if ok {
        disk := disk.(segs := disk.segs[streamID := files[last.first := SegFile(files[last.first].lines + [b], {}, false)]]);
        segs := segs[|segs| - 1 := Grown(last, b)];
        nextSeq := nextSeq + 1;
        records := records + [b];
      } else {
        cur := false;
      }
      assert State() == Synced(s, ok);
    }

    // ---- retention ----

    /** What the loops of one enforcement need to know. */
    lemma Ordered()
      requires Valid() && loaded
      ensures SegsOrdered(segs) && Ascending(records) && cfg.segRecords > 0
      ensures forall b :: b in records ==> Covered(segs, b)
    {
      ReachedInv(State());
    }

    /** The age filter over all records, then the newest ones. */
    method Expire(now: int)
      requires Valid() && loaded
      modifies this`records
      ensures Valid() && records == Kept(old(records), cfg, now)
      ensures KeptNewest(old(records), records, cfg, now)
    {
      ghost var s := State();
      var all, kept: seq<Bucket> := records, [];
      for i := 0 to |all|
        modifies {}
        invariant kept == LiveOnly(all[..i], cfg, now)
      {
        LiveOnlySnoc(all[..i], all[i], cfg, now);
        assert all[..i + 1] == all[..i] + [all[i]];
        if Live(all[i], cfg, now) { kept := kept + [all[i]]; }
      }
      assert all[..|all|] == all;
      if |kept| > cfg.maxRecords { kept := kept[|kept| - cfg.maxRecords..]; }
      RanExpire(s, now);
      Ordered();
      KeepsNewest(all, cfg, now);
      records := kept;
    }

    /** Rewrites segment i so that it holds exactly `inSeg`. */
    method CompactSegment(i: nat, inSeg: seq<Bucket>) returns (ok: bool)
      requires Valid() && loaded && i < |segs| && (i + 1 == |segs| ==> !cur)
      requires inSeg == InSeg(records, segs[i]) && inSeg != [] && |inSeg| != segs[i].count
      modifies this`disk, this`segs, this`overCap
      ensures Valid() && SameStream() && NoNewLines()
      ensures ok ==> segs == old(segs)[i := SegOf(old(segs)[i].first, inSeg)] && overCap == old(overCap)
      ensures !ok ==> segs == old(segs) && overCap
      ensures !failing ==> ok
    {
      ghost var s := State();
      var w := Outcome();
      RanCompact(s, i, w);
      CompactAddsNothing(s, i);
      var first := segs[i].first;
      if w != Lost {
        disk := disk.(segs := disk.segs[streamID := FilesOf(disk, streamID)[first := SegFile(inSeg, {}, false)]]);
      }
      if w == Durable { segs := segs[i := SegOf(first, inSeg)]; } else { overCap := true; }
      return w == Durable;
    }

    method RemoveSegment(i: nat) returns (ok: bool)
      requires Valid() && loaded && i < |segs| && (i + 1 == |segs| ==> !cur)
      requires InSeg(records, segs[i]) == []
      modifies this`disk, this`segs, this`overCap
      ensures Valid() && SameStream() && NoNewLines()
      ensures ok ==> segs == Drop(old(segs), i) && overCap == old(overCap)
      ensures !ok ==> segs == old(segs) && overCap
      ensures !failing ==> ok
    {
      ghost var s := State();
      ok := Works();
      RanRemoveSeg(s, i, ok);
      RemovedAddsNothing(disk, streamID, segs[i].first);
      if ok {
        disk := disk.(segs := disk.segs[streamID := FilesOf(disk, streamID) - {segs[i].first}]);
        segs := Drop(segs, i);
      } else {
        overCap := true;
      }
    }

    /** Where the records of segment i start and end; `from` is where those of the
        segment before it ended. */
    method Locate(i: nat, from: nat) returns (start: nat, end: nat)
      requires Valid() && loaded && i < |segs| && from <= |records|
      requires Passed(records, from, segs, i)
      ensures start <= end <= |records| && records[start..end] == InSeg(records, segs[i])
      ensures Passed(records, end, segs, i + 1)
    {
      Ordered();
      var g := segs[i];
      start := from;
      while start < |records| && records[start].seqno < g.first
        invariant from <= start <= |records|
        invariant forall k :: 0 <= k < start ==> records[k].seqno < g.first
      {
        start := start + 1;
      }
      end := start;
      while end < |records| && records[end].seqno <= g.last
        invariant start <= end <= |records|
        invariant forall k :: start <= k < end ==> g.first <= records[k].seqno <= g.last
      {
        end := end + 1;
      }
      BetweenIsSlice(records, start, end, g.first, g.last);
      assert forall j :: i < j < |segs| ==> g.first < segs[j].first && g.last < segs[j].first;
    }

    /** Deletes a segment of which nothing is retained, compacts any other. */
    method ShrinkSegment(i: nat, inSeg: seq<Bucket>, ghost n: nat) returns (ok: bool, gone: bool)
      requires Valid() && loaded && i < |segs|
      requires inSeg == InSeg(records, segs[i]) && |inSeg| != segs[i].count && Passed(records, n, segs, i + 1)
      modifies this`disk, this`segs, this`overCap, this`cur
      ensures Valid() && SameStream() && NoNewLines() && (!ok ==> overCap)
      ensures |segs| == |old(segs)| - (if gone then 1 else 0) && segs[..i] == old(segs)[..i]
      ensures Passed(records, n, segs, if gone then i else i + 1)
      ensures ok && !gone ==> |InSeg(records, segs[i])| == segs[i].count
      ensures !failing ==> ok
    {
      if i + 1 == |segs| { CloseHandle(); }
      gone := false;
      if |inSeg| == 0 {
        ok := RemoveSegment(i);
        gone := ok;
        assert gone ==> forall j :: i <= j < |segs| ==> segs[j] == old(segs)[j + 1];
      } else {
        CompactedCount(segs[i]);
        ok := CompactSegment(i, inSeg);
      }
    }

    /** A compacted segment is reconciled. */
    lemma CompactedCount(g: Seg)
      requires Valid() && loaded && InSeg(records, g) != []
      ensures InSeg(records, SegOf(g.first, InSeg(records, g))) == InSeg(records, g)
    {
      Ordered();
      AscendingUp(records, 0);
      BetweenTwice(records, 0, g.first, g.last);
    }

    /** Deletes or compacts every segment that holds more than is retained; the first
        failure ends that. */
    method Reconcile() returns (ok: bool, total: nat)
      requires Valid() && loaded
      modifies this`disk, this`segs, this`overCap, this`cur
      ensures Valid() && SameStream() && NoNewLines()
      ensures ok ==> Reconciled(segs, records) && total == SegBytes(segs)
      ensures !ok ==> overCap
      ensures !failing ==> ok
    {
      ok, total := true, 0;
      var i: nat, ri: nat := 0, 0;
      while i < |segs|
        invariant Valid() && SameStream() && NoNewLines() && i <= |segs| && ri <= |records|
        invariant Passed(records, ri, segs, i)
        invariant ok ==> Reconciled(segs[..i], records) && total == SegBytes(segs[..i])
        invariant !ok ==> overCap && failing
        decreases |segs| - i
      {
        var start, end := Locate(i, ri);
        ri := end;
        var gone := false;
        if ok && end - start != segs[i].count {
          ghost var before := disk;
          ok, gone := ShrinkSegment(i, records[start..end], ri);
          FewerStill(old(disk), before, disk);
        }
        if !gone {
          if ok { OneMoreReconciled(segs, records, i, total); }
          total := total + segs[i].bytes;
          i := i + 1;
        }
      }
      assert segs[..i] == segs;
    }

    /** With nothing to reconcile, the disk holds the retained records. */
    lemma Agrees()
      requires Valid() && loaded && Reconciled(segs, records)
      ensures DiskRecords(Files(), segs) == records && SegBytes(segs) == Bytes(records)
      ensures forall i :: 0 <= i < |segs| ==> |InSeg(records, segs[i])| <= cfg.segRecords
    {
      ReachedInv(State());
      OwnFits(State());
      SettledAgrees(Memory().(open := false), Files(), disk.states[streamID], visible, cfg);
    }

    lemma OldestGoes()
      requires Valid() && loaded && Reconciled(segs, records) && segs != []
      ensures var fewer := DropThrough(records, segs[0].last);
              && EndsWith(records, fewer) && |records| <= |fewer| + cfg.segRecords
              && Reconciled(segs[1..], fewer)
    {
      Ordered();
      Agrees();
      OldestFront(segs, records, cfg.segRecords);
    }

    /** How many records a removed segment takes with it. */
    method CountThrough(last: nat) returns (n: nat)
      ensures n <= |records| && records[n..] == DropThrough(records, last)
    {
      n := 0;
      while n < |records| && records[n].seqno <= last
        invariant n <= |records| && DropThrough(records, last) == DropThrough(records[n..], last)
      {
        assert records[n..][1..] == records[n + 1..];
        n := n + 1;
      }
    }

    /** Whole oldest segments go while the bytes exceed the cap. */
    method TrimBytes(total: nat) returns (ok: bool)
      requires Valid() && loaded && Reconciled(segs, records) && total == SegBytes(segs)
      modifies this`disk, this`segs, this`overCap, this`cur, this`records
      ensures Valid() && SameStream() && NoNewLines() && DroppedForBytes(old(records), records, cfg)
      ensures ok ==> Reconciled(segs, records) && SegBytes(segs) <= cfg.maxBytes
      ensures !ok ==> overCap
      ensures !failing ==> ok
    {
      ok := true;
      var left := total;
      while left > cfg.maxBytes && |segs| > 0
        invariant Valid() && SameStream() && NoNewLines() && Reconciled(segs, records) && left == SegBytes(segs)
        invariant DroppedForBytes(old(records), records, cfg)
        decreases |segs|
      {
        left := left - segs[0].bytes;
        ghost var kept := records;
        ghost var before := disk;
        ok := TrimOne();
        FewerStill(old(disk), before, disk);
        if !ok { return; }
        DropContinues(old(records), kept, records, cfg);
      }
    }

    method TrimOne() returns (ok: bool)
      requires Valid() && loaded && Reconciled(segs, records) && segs != [] && SegBytes(segs) > cfg.maxBytes
      modifies this`disk, this`segs, this`overCap, this`cur, this`records
      ensures Valid() && SameStream() && NoNewLines() && (if ok then segs == old(segs)[1..] else segs == old(segs) && overCap)
      ensures ok ==> Reconciled(segs, records) && EndsWith(old(records), records)
      ensures ok ==> |old(records)| <= |records| + cfg.segRecords && Bytes(old(records)) > cfg.maxBytes
      ensures !ok ==> records == old(records)
      ensures !failing ==> ok
    {
      OldestGoes();
      Agrees();
      if |segs| == 1 { CloseHandle(); }
      ok := DropOldest();
    }

    method DropOldest() returns (ok: bool)
      requires Valid() && loaded && segs != [] && SegBytes(segs) > cfg.maxBytes && (|segs| == 1 ==> !cur)
      modifies this`disk, this`segs, this`overCap, this`records
      ensures Valid() && SameStream() && NoNewLines()
      ensures ok ==> segs == old(segs)[1..] && records == DropThrough(old(records), old(segs)[0].last)
      ensures !ok ==> segs == old(segs) && records == old(records) && overCap
      ensures !failing ==> ok
    {
      ghost var s := State();
      ok := Works();
      RanCapRemove(s, ok);
      RemovedAddsNothing(disk, streamID, segs[0].first);
      if ok {
        disk := disk.(segs := disk.segs[streamID := FilesOf(disk, streamID) - {segs[0].first}]);
        var n := CountThrough(segs[0].last);
        records := records[n..];
        segs := segs[1..];
      } else {
        overCap := true;
      }
    }

    /** Nothing failed: appends are welcome, and disk and memory agree. */
    method Settle(ghost kept: seq<Bucket>, ghost now: int)
      requires Valid() && loaded && Reconciled(segs, records) && SegBytes(segs) <= cfg.maxBytes
      requires EndsWith(kept, records) && AllLive(kept, cfg, now) && |kept| <= cfg.maxRecords
      modifies this`overCap
      ensures Valid() && !overCap && Enforced(Files(), segs, records, cfg, now)
    {
      Agrees();
      StillBounded(kept, records, cfg, now);
      RanSettle(State());
      overCap := false;
    }

    /** Applies the hard bounds. On success the disk holds exactly what is retained,
        all of it live and within the count and byte caps, and the byte cap has cost
        nothing that would have fitted. On failure the journal refuses appends. */
    method Enforce(now: int) returns (ok: bool)
      requires Valid() && loaded
      modifies this`disk, this`segs, this`overCap, this`cur, this`records
      ensures Valid() && SameStream() && NoNewLines() && overCap == !ok
      ensures DroppedForBytes(Kept(old(records), cfg, now), records, cfg)
      ensures ok ==> Enforced(Files(), segs, records, cfg, now)
      ensures OlderDropped(old(records), records, cfg, now)
      ensures Bytes(LiveOnly(old(records), cfg, now)) <= cfg.maxBytes ==> KeptNewest(old(records), records, cfg, now)
      ensures !failing ==> ok
    {
      Expire(now);
      ghost var kept := records;
      KeptIsBounded(old(records), cfg, now);
      ok := BoundAndSettle(now);
      StillNewest(old(records), kept, records, cfg, now);
      if Bytes(LiveOnly(old(records), cfg, now)) <= cfg.maxBytes {
        NewestFit(old(records), cfg, now);
        FittingStays(kept, records, cfg);
      }
    }

    method BoundAndSettle(ghost now: int) returns (ok: bool)
      requires Valid() && loaded && AllLive(records, cfg, now) && |records| <= cfg.maxRecords
      modifies this`disk, this`segs, this`overCap, this`cur, this`records
      ensures Valid() && SameStream() && NoNewLines() && overCap == !ok
      ensures DroppedForBytes(old(records), records, cfg)
      ensures ok ==> Enforced(Files(), segs, records, cfg, now)
      ensures !failing ==> ok
    {
      ok := Bound();
      if ok { Settle(old(records), now); }
    }

    /** Every segment holds what is retained of it, and the oldest go while they do not
        fit. */
    method Bound() returns (ok: bool)
      requires Valid() && loaded
      modifies this`disk, this`segs, this`overCap, this`cur, this`records
      ensures Valid() && SameStream() && NoNewLines() && DroppedForBytes(old(records), records, cfg)
      ensures ok ==> Reconciled(segs, records) && SegBytes(segs) <= cfg.maxBytes
      ensures !ok ==> overCap
      ensures !failing ==> ok
    {
      NothingDropped(records, cfg);
      var total: nat;
      ok, total := Reconcile();
      if ok {
        ghost var before := disk;
        ok := TrimBytes(total);
        FewerStill(old(disk), before, disk);
      }
    }

    // ---- identity ----

    twostate predicate SameMemory() reads this {
      && streamID == old(streamID) && segs == old(segs) && records == old(records)
      && acked == old(acked) && reserved == old(reserved) && nextSeq == old(nextSeq) && overCap == old(overCap)
    }

    /** A stream that has not handed out a sequence number. */
    ghost predicate Fresh(id: StreamId) reads this {
      && streamID == id && disk.id == Some(id) && segs == [] && records == []
      && acked == 0 && reserved == 0 && nextSeq == 1 && !overCap
      && id in disk.states && disk.states[id] == PState(0, 0) && id !in disk.segs
    }

    lemma FreshId(id: StreamId)
      requires Valid() && id !in ids
      ensures id !in disk.segs && id !in disk.states
    {
      ReachedInv(State());
    }

    /** A fresh identity: its state file first, then the one rename that commits it. */
    method RotateStream(id: StreamId) returns (ok: bool)
      requires Valid() && id !in ids
      modifies this
      ensures Valid() && loaded == old(loaded) && visible == old(visible) && ids == old(ids) + {id}
      ensures rotating.None? && if ok then Fresh(id) else SameMemory()
      ensures NoNewLines()
      ensures failing == old(failing) && (!failing ==> ok)
    {
      ok := WriteNewState(id);
      if ok { ok := CommitIdentity(id); }
      ghost var between := disk;
      SameSegsAddNothing(old(disk), between);
      if ok {
        RemoveOrphans();
        FewerStill(old(disk), between, disk);
      }
    }

    method WriteNewState(id: StreamId) returns (ok: bool)
      requires Valid() && id !in ids
      modifies this`disk, this`cur, this`ids, this`rotating
      ensures Valid() && !cur && ids == old(ids) + {id} && disk.segs == old(disk).segs
      ensures rotating == if ok then Some(id) else None
      ensures ok ==> id in disk.states && disk.states[id] == PState(0, 0) && id !in disk.segs
      ensures !failing ==> ok
    {
      ghost var s := State();
      var w := Outcome();
      RanNewState(s, id, w);
      ReachedInv(s);
      cur := false;
      if w != Lost { disk := disk.(states := disk.states[id := PState(0, 0)]); }
      ids := ids + {id};
      rotating := if w == Durable then Some(id) else None;
      return w == Durable;
    }

    method CommitIdentity(id: StreamId) returns (ok: bool)
      requires Valid() && rotating == Some(id) && !cur
      modifies this`disk, this`rotating, this`streamID, this`segs, this`records, this`acked, this`reserved, this`nextSeq, this`overCap
      ensures Valid() && rotating.None?
      ensures ok ==> Memory() == Ram(id, [], false, written, [], 0, 0, 1, false) && disk == old(disk).(id := Some(id))
      ensures !ok ==> Memory() == old(Memory()) && disk.segs == old(disk).segs
      ensures !failing ==> ok
    {
      ghost var s := State();
      var w := Outcome();
      RanCommit(s, w);
      rotating := None;
      if w != Lost { disk := disk.(id := Some(id)); }
      if w == Durable { StartOver(id); }
      assert State() == CommitDone(s, w);
      return w == Durable;
    }

    /** The memory of a stream that has not begun. */
    method StartOver(id: StreamId)
      modifies this`streamID, this`segs, this`records, this`acked, this`reserved, this`nextSeq, this`overCap
      ensures Memory() == Ram(id, [], cur, written, [], 0, 0, 1, false)
    {
      streamID, segs, records, acked, reserved, nextSeq, overCap := id, [], [], 0, 0, 1, false;
    }

    /** Best-effort removal of other streams' files. */
    method RemoveOrphans()
      requires Valid() && rotating.None? && disk.id == Some(streamID)
      modifies this`disk
      ensures Valid() && disk.id == old(disk).id && NoNewLines()
      ensures FilesOf(disk, streamID) == FilesOf(old(disk), streamID) && (streamID !in old(disk).segs ==> streamID !in disk.segs)
      ensures streamID in old(disk).states ==> streamID in disk.states && disk.states[streamID] == old(disk).states[streamID]
      ensures !failing ==> disk.states.Keys <= {streamID} && disk.segs.Keys <= {streamID}
    {
      ghost var s := State();
      var gone := disk.states.Keys + disk.segs.Keys - {streamID};
      if failing {
        var left: set<StreamId> := *;
        gone := gone - left;
      }
      RanRemoveOrphans(s, gone);
      OrphansAddNothing(disk, gone);
      disk := disk.(states := disk.states - gone, segs := disk.segs - gone);
    }

    // ---- append, acknowledge, publish ----

    /** Raises the durable reservation above the next sequence number. */
    method Reserve() returns (ok: bool)
      requires Valid() && loaded && nextSeq < MAX_SEQ
      modifies this`disk, this`acked, this`reserved
      ensures Valid() && SameStream() && (ok ==> nextSeq <= reserved)
      ensures disk.segs == old(disk).segs
      ensures !failing ==> ok
    {
      if nextSeq <= reserved { return true; }
      ok := WriteState(acked, nextSeq + RESERVE);
    }

    /** Writes and syncs the record under the next sequence number. */
    method Store(rec: Bucket) returns (ok: bool)
      requires Valid() && loaded && !overCap && rec.seqno == nextSeq <= reserved && nextSeq < MAX_SEQ
      requires LineBytes(rec) <= MAX_LINE + 1
      modifies this`disk, this`cur, this`segs, this`records, this`nextSeq, this`written
      ensures Valid() && SameStream() && OnlyNew(rec)
      ensures nextSeq == old(nextSeq) + (if ok then 1 else 0)
      ensures records == if ok then old(records) + [rec] else old(records)
      ensures !failing ==> ok
    {
      if |segs| > 0 && segs[|segs| - 1].count >= cfg.segRecords && cur { CloseHandle(); }
      ok := EnsureOpen();
      ghost var between := disk;
      FewerIsAdded(old(disk), between, streamID, rec);
      if ok {
        ok := WriteLine(rec);
        AddedStill(old(disk), between, disk, streamID, rec);
      }
    }

    /** What one enforcement leaves was there before. */
    lemma LostNothingElse(before: seq<Bucket>, now: int)
      requires DroppedForBytes(Kept(before, cfg, now), records, cfg)
      ensures Inside(records, before)
    {
    }

    /** Refuses while the bounds are not enforceable, and changes identity when the
        sequence space is used up. */
    method Admit(now: int, id: StreamId) returns (ok: bool)
      requires Valid() && loaded && rotating.None? && id !in ids
      modifies this
      ensures Valid() && loaded && rotating.None? && visible == old(visible)
      ensures ok ==> !overCap && nextSeq < MAX_SEQ
      ensures old(nextSeq) < MAX_SEQ ==> streamID == old(streamID) && nextSeq == old(nextSeq) && Inside(records, old(records))
      ensures old(nextSeq) < MAX_SEQ && !old(overCap) ==> ok && records == old(records)
      ensures (streamID == old(streamID) && nextSeq == old(nextSeq)) || (ok && streamID == id && nextSeq == 1)
      ensures NoNewLines()
      ensures failing == old(failing) && (!failing ==> ok)
    {
      if overCap {
        ok := Enforce(now);
        LostNothingElse(old(records), now);
        if !ok { return; }
      }
      ok := true;
      if nextSeq >= MAX_SEQ {
        ghost var between := disk;
        ok := RotateStream(id);
        FewerStill(old(disk), between, disk);
      }
    }

    /** Retained records are in order, and none has a longer line than the writer takes. */
    lemma ShortRecords()
      requires Valid() && loaded
      ensures Ascending(records) && Short(records)
    {
      ReachedInv(State());
      OwnFits(State());
      forall b | b in records ensures LineBytes(b) <= MAX_LINE + 1 {
        var i := RecordOnDisk(Memory().(open := false), Files(), disk.states[streamID], visible, cfg, b);
        assert FileOk(segs[i].first, Files()[segs[i].first], cfg);
      }
    }

    /** Stores the record, then applies the bounds to everything retained. */
    method StoreAndEnforce(line: Bucket, now: int) returns (ok: bool)
      requires Valid() && loaded && !overCap && line.seqno == nextSeq <= reserved && nextSeq < MAX_SEQ
      requires LineBytes(line) <= MAX_LINE + 1
      modifies this
      ensures Valid() && SameStream() && OnlyNew(line) && reserved == old(reserved)
      ensures ok ==> !overCap && Enforced(Files(), segs, records, cfg, now)
      ensures nextSeq == old(nextSeq) + 1 || (nextSeq == old(nextSeq) && !ok && records == old(records))
      ensures nextSeq == old(nextSeq) + 1 ==> DroppedForBytes(Kept(old(records) + [line], cfg, now), records, cfg)
      ensures nextSeq == old(nextSeq) + 1 && Live(line, cfg, now) && cfg.maxRecords > 0 && RoomForASegment(cfg) ==> line in records
      ensures nextSeq == old(nextSeq) + 1 ==> OlderDropped(old(records) + [line], records, cfg, now)
      ensures nextSeq == old(nextSeq) + 1 && Bytes(LiveOnly(old(records) + [line], cfg, now)) <= cfg.maxBytes ==>
                KeptNewest(old(records) + [line], records, cfg, now)
      ensures failing == old(failing) && (!failing ==> ok)
    {
      ok := Store(line);
      if !ok { return; }
      ghost var between := disk;
      ShortRecords();
      ok := Enforce(now);
      if Live(line, cfg, now) && cfg.maxRecords > 0 && RoomForASegment(cfg) {
        NewestStays(old(records), line, records, cfg, now);
      }
      FewerIsAdded(between, disk, streamID, line);
      AddedStill(old(disk), between, disk, streamID, line);
    }

    /** Assigns the next sequence number below a reservation persisted first, writes and
        syncs the record, then retains it. `id` is the identity a rotation would draw. */
    method Append(b: Bucket, now: int, id: StreamId) returns (ok: bool, ghost rec: Bucket)
      requires Valid() && loaded && rotating.None? && id !in ids
      modifies this
      ensures Valid() && loaded && rotating.None? && visible == old(visible)
      ensures ok ==> !overCap && Enforced(Files(), segs, records, cfg, now)
      ensures rec == b.(seqno := rec.seqno) && OnlyNew(rec)
      ensures old(nextSeq) < MAX_SEQ ==> streamID == old(streamID) && rec.seqno == old(nextSeq)
      ensures (streamID == old(streamID) && rec.seqno == old(nextSeq)) || (streamID == id && rec.seqno == 1)
      ensures ok ==> nextSeq == rec.seqno + 1 <= reserved + 1
      ensures old(nextSeq) < MAX_SEQ && nextSeq == old(nextSeq) ==> !ok && Inside(records, old(records))
      ensures old(nextSeq) < MAX_SEQ && nextSeq != old(nextSeq) && !old(overCap) ==>
                DroppedForBytes(Kept(old(records) + [b.(seqno := old(nextSeq))], cfg, now), records, cfg)
      ensures ok && Live(rec, cfg, now) && cfg.maxRecords > 0 && RoomForASegment(cfg) ==> rec in records
      ensures old(nextSeq) < MAX_SEQ && nextSeq != old(nextSeq) && !old(overCap)
              && Bytes(LiveOnly(old(records) + [rec], cfg, now)) <= cfg.maxBytes ==>
                KeptNewest(old(records) + [rec], records, cfg, now)
      ensures LineBytes(rec) - 1 > MAX_LINE ==> !ok
      ensures failing == old(failing) && (!failing && LineBytes(rec) - 1 <= MAX_LINE ==> ok)
    {
      rec := b.(seqno := nextSeq);
      ok := Admit(now, id);
      ghost var between := disk;
      FewerIsAdded(old(disk), between, streamID, rec);
      if !ok { return; }
      var line := b.(seqno := nextSeq);
      rec := line;
      ok := Reserve();
      SameSegsAddNothing(between, disk);
      FewerStill(old(disk), between, disk);
      between := disk;
      FewerIsAdded(old(disk), between, streamID, rec);
      if !ok { return; }
      if LineBytes(line) - 1 > MAX_LINE { return false, rec; }
      ok := StoreAndEnforce(line, now);
      AddedStill(old(disk), between, disk, streamID, rec);
    }

    /** Moves the ACK cursor of a matching stream forward, never beyond the last durable
        record and never back; the new cursor is durable before the call returns. */
    method Ack(stream: StreamId, through: nat) returns (r: AckResult)
      requires Valid() && loaded
      modifies this`disk, this`acked, this`reserved
      ensures Valid() && SameStream() && reserved == old(reserved) && disk.segs == old(disk).segs
      ensures r == Mismatch <==> stream != streamID
      ensures r == Beyond <==> stream == streamID && through >= nextSeq
      ensures r == Replay <==> stream == streamID && through <= acked == old(acked) && through < nextSeq
      ensures acked == if r == Moved then through else old(acked)
      ensures r == Moved ==> old(acked) < through < nextSeq && streamID in disk.states && disk.states[streamID].acked == through
      ensures r == Unsaved ==> failing
    {
      if stream != streamID { return Mismatch; }
      if through >= nextSeq { return Beyond; }
      if through <= acked { return Replay; }
      var ok := WriteState(through, reserved);
      return if ok then Moved else Unsaved;
    }

    /** Whole lines are numbered below the next number, unfinished ones by it. */
    lemma LinesAreNumbered()
      requires Valid() && loaded
      ensures forall b :: OnDisk(Files(), b) ==> b.seqno < nextSeq
      ensures forall b :: InTail(Files(), b) ==> b.seqno == nextSeq
    {
      ReachedInv(State());
      OwnFits(State());
      assert forall k :: k in Files() ==> Below(Files()[k].lines, nextSeq) && TailIs(Files()[k].tail, nextSeq);
    }

    lemma RetainedIsOnDisk(b: Bucket)
      requires Valid() && loaded && b in records
      ensures OnDisk(Files(), b)
    {
      ReachedInv(State());
      OwnFits(State());
      var i := RecordOnDisk(Memory().(open := false), Files(), disk.states[streamID], visible, cfg, b);
    }

    /** The durable reservation covers every number assigned so far. */
    lemma BelowReservation()
      requires Valid() && loaded
      ensures streamID in disk.states && nextSeq <= disk.states[streamID].reserved + 1
    {
      ReachedInv(State());
    }

    lemma Numbered()
      requires Valid() && loaded
      ensures acked < nextSeq && Ascending(records) && Below(records, nextSeq)
    {
      ReachedInv(State());
    }

    /** Publishes the retained records. What was published before is untouched. */
    method Snapshot() returns (shot: Replay.Snapshot)
      requires Valid() && loaded
      modifies this`visible
      ensures Valid() && shot == Replay.Snapshot(streamID, acked, nextSeq, records) && Replay.Sound(shot)
      ensures forall b :: b in records ==> (streamID, b.seqno) in visible && visible[(streamID, b.seqno)] == b
      ensures forall k :: k in old(visible) ==> k in visible && visible[k] == old(visible)[k]
    {
      ghost var s := State();
      RanPublish(s);
      PublishesAll(s);
      Numbered();
      visible := visible + PublishedBy(Memory());
      return Replay.Snapshot(streamID, acked, nextSeq, records);
    }

    // ---- crash and recovery ----

    /** The process ends, here or inside any of the operations; unsynced lines of its
        stream are lost, torn or kept. */
    method Crash(left: Files)
      requires Valid() && CanCrash(State(), left)
      modifies this
      ensures Valid() && !loaded && rotating.None? && visible == old(visible) && ids == old(ids)
      ensures disk == if old(loaded) then old(disk).(segs := old(disk).segs[old(streamID) := left]) else old(disk)
      ensures failing == old(failing)
    {
      ghost var s := State();
      RanCrash(s, left);
      if loaded { disk := disk.(segs := disk.segs[streamID := left]); }
      loaded, written, rotating, cur := false, None, None, false;
    }

    /** Parses one segment up to the record cap, the byte budget, the line cap or the
        first line that does not ascend. */
    method ReadSegment(f: SegFile, lastSeq: nat, budget: int) returns (n: nat, good: nat, clean: bool)
      ensures n == Accepted(f.lines, lastSeq, cfg.segRecords, budget) && good == Bytes(f.lines[..n])
      ensures clean <==> n == |f.lines| && !f.torn
    {
      n, good := 0, 0;
      var last := lastSeq;
      while true
        invariant n <= |f.lines| && n <= cfg.segRecords && good == Bytes(f.lines[..n])
        invariant Accepted(f.lines, lastSeq, cfg.segRecords, budget)
               == n + Accepted(f.lines[n..], last, cfg.segRecords - n, budget - good)
        decreases |f.lines| - n
      {
        if n >= cfg.segRecords || good >= budget {
          return n, good, n == |f.lines| && !f.torn;
        }
        if n == |f.lines| { return n, good, !f.torn; }
        var line := f.lines[n];
        if LineBytes(line) > MAX_LINE + 1 || LineBytes(line) > budget - good { return n, good, false; }
        if line.seqno <= last { return n, good, false; }
        BytesSnoc(f.lines, n);
        assert f.lines[n..][1..] == f.lines[n + 1..];
        last := line.seqno;
        n := n + 1;
        good := good + LineBytes(line);
      }
    }

    /** While closed, the process works on the directory of its identity. */
    ghost predicate Reading() reads this {
      Valid() && !loaded && rotating.None? && disk.id == Some(streamID) && streamID in disk.states
    }

    twostate predicate SameIdentity() reads this {
      streamID == old(streamID) && disk.id == old(disk).id && disk.states == old(disk).states && NoNewLines()
    }

    method RemoveFile(k: nat)
      requires Reading()
      modifies this`disk
      ensures Reading() && SameIdentity() && Files() == old(Files()) - {k}
    {
      ghost var s := State();
      RanRemoveFile(s, k);
      RemovedAddsNothing(disk, streamID, k);
      disk := disk.(segs := disk.segs[streamID := FilesOf(disk, streamID) - {k}]);
    }

    method TruncateFile(k: nat, n: nat) returns (ok: bool)
      requires Reading() && k in Files() && n <= |Files()[k].lines|
      modifies this`disk
      ensures Reading() && SameIdentity()
      ensures ok ==> Files() == old(Files())[k := SegFile(old(Files())[k].lines[..n], {}, false)]
      ensures !failing ==> ok
    {
      ghost var s := State();
      ok := Works();
      if !ok { return; }
      RanTrim(s, k, n);
      var files := FilesOf(disk, streamID);
      ReplacedAddsNothing(disk, streamID, k, files[k].lines[..n]);
      disk := disk.(segs := disk.segs[streamID := files[k := SegFile(files[k].lines[..n], {}, false)]]);
    }

    /** Removes files; one that is not torn may stay behind when `must` is not set. */
    method RemoveFiles(keys: seq<nat>, must: bool)
      requires Reading()
      modifies this`disk
      ensures Reading() && SameIdentity() && Thinned(old(Files()), Files(), keys, must)
      ensures !failing ==> forall k :: k in keys ==> k !in Files()
    {
      for i := 0 to |keys|
        invariant Reading() && SameIdentity() && Thinned(old(Files()), Files(), keys[..i], must)
        invariant !failing ==> forall j :: 0 <= j < i ==> keys[j] !in Files()
      {
        var files := FilesOf(disk, streamID);
        var goes := Works();
        assert keys[..i + 1] == keys[..i] + [keys[i]];
        ghost var before := disk;
        if must || (keys[i] in files && files[keys[i]].torn) || goes {
          RemoveFile(keys[i]);
          FewerStill(old(disk), before, disk);
        }
      }
      assert keys[..|keys|] == keys;
    }

    /** Truncates segment m to the n lines read of it and drops everything behind it. */
    method Cut(keys: seq<nat>, m: nat, n: nat) returns (ok: bool)
      requires Reading() && SortedKeys(keys) && m < |keys| && (forall k :: k in keys ==> k in Files())
      requires forall k :: k in keys[..m] ==> !Files()[k].torn
      requires Has(Files(), keys[..m], segs, records) && n <= |Files()[keys[m]].lines|
      modifies this`disk, this`segs, this`records
      ensures Reading() && SameIdentity()
      ensures ok ==> Has(Files(), keys[..m + 1], segs, records) && LeftWith(old(Files()), Files(), keys, m + 1)
      ensures ok ==> records == old(records) + old(Files())[keys[m]].lines[..n]
      ensures !failing ==> ok
    {
      var lines := FilesOf(disk, streamID)[keys[m]].lines[..n];
      ok := TruncateFile(keys[m], n);
      if !ok { return; }
      ghost var between := disk;
      RemoveFiles(keys[m + 1..], true);
      FewerStill(old(disk), between, disk);
      CutLeaves(old(Files()), Files(), keys, m, n, segs, records);
      segs, records := segs + [SegOf(keys[m], lines)], records + lines;
    }

    /** Reads segment m: it joins what was read whole, or it is cut. */
    method ReadNext(keys: seq<nat>, m: nat, last: nat, left: int) returns (ok: bool, clean: bool, last': nat, left': int)
      requires Reading() && SortedKeys(keys) && m < |keys| && forall k :: k in keys ==> k in Files()
      requires ReadSoFar(Files(), keys, m, last, left, segs, records, cfg)
      modifies this`disk, this`segs, this`records
      ensures Reading() && SameIdentity()
      ensures clean ==> ok && disk == old(disk) && ReadSoFar(Files(), keys, m + 1, last', left', segs, records, cfg)
      ensures ok && !clean ==> LeftWith(old(Files()), Files(), keys, m + 1) && Has(Files(), keys[..m + 1], segs, records)
      ensures ok && !clean ==> records == Recovered(old(Files()), keys, 0, cfg.maxBytes, cfg)
      ensures !failing ==> ok
    {
      var f := FilesOf(disk, streamID)[keys[m]];
      var n, good;
      n, good, clean := ReadSegment(f, last, left);
      last', left' := if n > 0 then f.lines[n - 1].seqno else last, left - good;
      if clean {
        ok := true;
        assert f.lines[..n] == f.lines;
        ReadingContinues(Files(), keys, m, last, left, segs, records, cfg);
        segs, records := segs + [SegOf(keys[m], f.lines)], records + f.lines;
      } else {
        ReadingCut(Files(), keys, m, last, left, segs, records, cfg);
        ok := Cut(keys, m, n);
      }
    }

    /** Reads the segments in order up to the first that is not clean, which is cut. */
    method ReadSegments(keys: seq<nat>) returns (ok: bool, m: nat)
      requires Reading() && segs == [] && records == []
      requires SortedKeys(keys) && forall k :: k in keys ==> k in Files()
      modifies this`disk, this`segs, this`records
      ensures Reading() && SameIdentity()
      ensures ok ==> LeftWith(old(Files()), Files(), keys, m) && Has(Files(), keys[..m], segs, records)
      ensures ok ==> records == Recovered(old(Files()), keys, 0, cfg.maxBytes, cfg)
      ensures !failing ==> ok
    {
      ok, m := true, 0;
      var last: nat := 0;
      var left: int := cfg.maxBytes;
      ReadingStarts(Files(), keys, cfg);
      while m < |keys|
        invariant m <= |keys| && Reading() && SameIdentity() && disk == old(disk)
        invariant ReadSoFar(Files(), keys, m, last, left, segs, records, cfg) && ok
      {
        var clean;
        ok, clean, last, left := ReadNext(keys, m, last, left);
        m := m + 1;
        if !clean { return; }
      }
      ReadingEnds(Files(), keys, last, left, segs, records, cfg);
    }

    /** Removes, best effort, the files of segments without records. */
    method DropEmpty(ghost keys: seq<nat>)
      requires Reading() && segs == SegsOf(Files(), keys)
      modifies this`disk, this`segs
      ensures Reading() && SameIdentity() && segs == WithRecords(old(segs))
      ensures Thinned(old(Files()), Files(), Empties(old(Files()), keys), false)
    {
      var all := segs;
      var kept: seq<Seg> := [];
      var gone: seq<nat> := [];
      for i := 0 to |all|
        modifies {}
        invariant kept == WithRecords(all[..i]) && gone == Empties(old(Files()), keys[..i])
      {
        SortedOut(old(Files()), keys, all, i);
        if all[i].count == 0 { gone := gone + [all[i].first]; } else { kept := kept + [all[i]]; }
      }
      assert all[..|all|] == all && keys[..|all|] == keys;
      RemoveFiles(gone, false);
      segs := kept;
    }

    /** Loads this stream's segments in sequence order, within the bounds that retention
        could have produced. */
    method Recover() returns (ok: bool, ghost lo: nat, ghost keys: seq<nat>)
      requires Reading() && segs == [] && records == []
      modifies this`disk, this`segs, this`records
      ensures Reading() && SameIdentity()
      ensures ok ==> LoadKeys(Files(), lo, keys) && Has(Files(), keys, segs, records)
      ensures ok ==> records == Reopened(old(Files()), cfg) && forall k :: k in Files() ==> !Files()[k].torn
      ensures !failing ==> ok
    {
      ghost var F := Files();
      var files := FilesOf(disk, streamID);
      lo, keys := 0, [];
      LoadableSorted(F, cfg, 0);
      RemoveFiles(Refused(files, cfg), false);
      ghost var F1, d1 := Files(), disk;
      StillLoadable(F, F1, cfg);
      var m: nat;
      ok, m := ReadSegments(Loadable(files, cfg));
      if !ok { return; }
      ghost var F2, d2 := Files(), disk;
      ghost var got := segs;
      FewerStill(old(disk), d1, d2);
      DropEmpty(Loadable(F, cfg)[..m]);
      FewerStill(old(disk), d2, disk);
      ReadyToLoad(F, F1, F2, Files(), cfg, m, got, records);
      lo, keys := Lowest(F, cfg), NonEmpty(F2, Loadable(F, cfg)[..m]);
    }

    lemma WithinReservation()
      requires Reached(State()) && loaded
      ensures nextSeq <= reserved + 1
    {
      ReachedInv(State());
    }

    /** The process starts where the persisted reservation and the records end. */
    method Load(ghost lo: nat, ghost keys: seq<nat>)
      requires Reading() && LoadKeys(Files(), lo, keys) && Has(Files(), keys, segs, records)
      requires forall k :: k in Files() ==> !Files()[k].torn
      requires disk.states[streamID] == PState(acked, reserved)
      modifies this`nextSeq, this`overCap, this`loaded, this`cur, this`written
      ensures Valid() && loaded && nextSeq == reserved + 1
      ensures Files() == old(Files())
    {
      ghost var s := State();
      RanLoad(s, lo);
      LoadedIs(s, lo, keys);
      var last := Max(acked, reserved);
      if |records| > 0 && records[|records| - 1].seqno > last { last := records[|records| - 1].seqno; }
      nextSeq := last + 1;
      loaded, cur, overCap, written := true, false, false, None;
      WithinReservation();
    }

    /** What was read back of an identity that was there, before the bounds apply. */
    twostate predicate Restored() reads this {
      old(disk).id.Some? && old(disk).id.value in old(disk).states && cfg.segRecords > 0 ==>
        var id := old(disk).id.value;
        && streamID == id && old(disk).states[id] == PState(acked, reserved)
        && records == Reopened(FilesOf(old(disk), id), cfg)
    }

    method Restore(id: StreamId) returns (ok: bool)
      requires Valid() && !loaded && rotating.None? && id !in ids
      modifies this
      ensures Valid() && rotating.None? && visible == old(visible) && ids <= old(ids) + {id}
      ensures NoNewLines() && (ok ==> loaded && nextSeq == reserved + 1 && Restored())
      ensures failing == old(failing) && (!failing ==> ok)
    {
      ok := LoadIdentity(id);
      if !ok { return; }
      ghost var found := disk;
      ok := RecoverAndLoad();
      FewerStill(old(disk), found, disk);
    }

    method RecoverAndLoad() returns (ok: bool)
      requires Reading() && disk.states[streamID] == PState(acked, reserved) && segs == [] && records == []
      modifies this`disk, this`segs, this`records, this`nextSeq, this`overCap, this`loaded, this`cur, this`written
      ensures Valid() && NoNewLines() && (!failing ==> ok)
      ensures ok ==> loaded && nextSeq == reserved + 1 && records == Reopened(old(Files()), cfg)
    {
      ghost var lo, keys;
      ok, lo, keys := Recover();
      if !ok { return; }
      Load(lo, keys);
      ghost var found := disk;
      RemoveOrphans();
      FewerStill(old(disk), found, disk);
    }

    /** Changes identity when the sequence space is used up, then enforces the bounds. */
    method Begin(now: int, id: StreamId) returns (ok: bool)
      requires Valid() && loaded && rotating.None? && id !in ids
      modifies this
      ensures Valid() && rotating.None? && visible == old(visible)
      ensures ok ==> loaded && !overCap && Enforced(Files(), segs, records, cfg, now)
      ensures NoNewLines()
      ensures ok && old(nextSeq) < MAX_SEQ ==>
                && streamID == old(streamID) && acked == old(acked) && reserved == old(reserved) && nextSeq == old(nextSeq)
                && DroppedForBytes(Kept(old(records), cfg, now), records, cfg)
      ensures failing == old(failing) && (!failing ==> ok)
    {
      if nextSeq >= MAX_SEQ {
        ok := RotateAndEnforce(now, id);
      } else {
        ok := Enforce(now);
      }
    }

    method RotateAndEnforce(now: int, id: StreamId) returns (ok: bool)
      requires Valid() && loaded && rotating.None? && id !in ids
      modifies this
      ensures Valid() && loaded && rotating.None? && visible == old(visible) && NoNewLines()
      ensures ok ==> !overCap && Enforced(Files(), segs, records, cfg, now)
      ensures failing == old(failing) && (!failing ==> ok)
    {
      ok := RotateStream(id);
      if !ok { return; }
      ghost var between := disk;
      ok := Enforce(now);
      FewerStill(old(disk), between, disk);
    }

    /** Opens the journal: loads or creates the identity, recovers, and enforces the
        bounds. `id1` and `id2` are the identities rotations would draw. */
    method Open(now: int, id1: StreamId, id2: StreamId) returns (ok: bool)
      requires Valid() && !loaded && rotating.None? && id1 !in ids && id2 !in ids && id1 != id2
      modifies this
      ensures Valid() && rotating.None? && visible == old(visible)
      ensures ok ==> loaded && !overCap && Enforced(Files(), segs, records, cfg, now)
      ensures ok ==> Resumed(now)
      ensures NoNewLines()
      ensures failing == old(failing) && (!failing ==> ok)
    {
      ok := Restore(id1);
      if !ok { return; }
      ghost var found := disk;
      ok := Begin(now, id2);
      if !ok { return; }
      FewerStill(old(disk), found, disk);
    }

    /** An identity found on disk goes on above its reservation, with what its directory
        still held. */
    twostate predicate Resumed(now: int) reads this {
      old(disk).id.Some? && old(disk).id.value in old(disk).states && cfg.segRecords > 0 ==>
        var id := old(disk).id.value;
        var st := old(disk).states[id];
        st.reserved + 1 < MAX_SEQ ==>
          && streamID == id && acked == st.acked && reserved == st.reserved && nextSeq == st.reserved + 1
          && DroppedForBytes(Kept(Reopened(FilesOf(old(disk), id), cfg), cfg, now), records, cfg)
    }

    /** Reads the identity and its counters, or starts a new identity. An identity on
        disk always has its state file. */
    method LoadIdentity(id: StreamId) returns (ok: bool)
      requires Valid() && !loaded && rotating.None? && id !in ids
      modifies this
      ensures Valid() && rotating.None? && visible == old(visible) && ids <= old(ids) + {id} && !loaded
      ensures ok ==> Reading() && disk.states[streamID] == PState(acked, reserved) && segs == [] && records == []
      ensures NoNewLines()
      ensures ok && old(disk).id.Some? ==>
                disk == old(disk) && streamID == disk.id.value
      ensures failing == old(failing) && (!failing ==> ok)
    {
      if disk.id.Some? {
        HasState();
        streamID := disk.id.value;
        segs, records := [], [];
        acked, reserved := disk.states[streamID].acked, disk.states[streamID].reserved;
        return true;
      }
      ok := RotateStream(id);
    }

    lemma HasState()
      requires Valid() && disk.id.Some?
      ensures disk.id.value in disk.states
    {
      ReachedInv(State());
    }
  }

  /** What a crash may cost: when the directory fits the caps, the reopened journal starts
      from every record that was retained, in order, with at most the one line that was
      being written besides; and it numbers on above all of them. */
  method CrashAndReopen(j: PowerJournal, left: Files, now: int, id1: StreamId, id2: StreamId) returns (ok: bool)
    requires j.Valid() && j.loaded && j.rotating.None? && j.disk.id == Some(j.streamID) && CanCrash(j.State(), left)
    requires id1 !in j.ids && id2 !in j.ids && id1 != id2
    requires j.streamID in j.disk.states && j.disk.states[j.streamID].reserved + 1 < MAX_SEQ
    modifies j
    ensures j.Valid() && j.visible == old(j.visible)
    ensures !old(j.failing) ==> ok
    ensures ok ==> j.streamID == old(j.streamID) && j.nextSeq >= old(j.nextSeq)
    ensures var all := AllLines(left);
            && Ascending(all) && Inside(old(j.records), all)
            && forall b :: b in all ==> OnDisk(old(j.Files()), b) || b.seqno == old(j.nextSeq)
    ensures ok && Concat(left, Refused(left, j.cfg)) == [] && Affordable(Concat(left, Loadable(left, j.cfg)), j.cfg.maxBytes) ==>
              DroppedForBytes(Kept(AllLines(left), j.cfg, now), j.records, j.cfg)
  {
    j.BelowReservation();
    ghost var s := j.State();
    ReachedInv(s);
    CrashRecovery(s, left);
    j.Crash(left);
    ok := j.Open(now, id1, id2);
  }

  lemma BytesSnoc(s: seq<Bucket>, n: nat)
    requires n < |s|
    ensures Bytes(s[..n + 1]) == Bytes(s[..n]) + LineBytes(s[n])
  {
    assert s[..n + 1] == s[..n] + [s[n]];
    BytesAppend(s[..n], [s[n]]);
    BytesOne(s[n]);
  }
}
