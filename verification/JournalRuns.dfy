/** Every step of the journal keeps the invariant, and what follows over whole runs. */
module JournalRuns {
  import opened Common
  import opened JournalTypes
  import opened JournalMachine
  import opened JournalSafety
  import opened JournalRetention

  // ---- the process's own steps ----

  lemma OwnFits(s: Sys)
    requires Inv(s) && s.ram.Some?
    ensures var r := s.ram.value;
            r.id in s.disk.states && Fits(r.(open := false), RamFiles(s), s.disk.states[r.id], s.visible, s.cfg)
  {
  }

  lemma HandleKeepsInv(s: Sys, open: bool)
    requires Inv(s) && s.ram.Some?
    ensures Inv(HandleSet(s, open))
  {
    RamFrame(s, HandleSet(s, open), s.ram.value, HandleSet(s, open).ram.value);
  }

  /** One file of the own stream is written or removed, and the process follows. */
  lemma FileStep(s: Sys, s': Sys, r': Ram, files': Files)
    requires Inv(s) && s.ram.Some? && r'.id == s.ram.value.id
    requires s' == s.(disk := s.disk.(segs := s.disk.segs[r'.id := files']), ram := Some(r'))
    requires r'.id in s.disk.states && Fits(r'.(open := false), files', s.disk.states[r'.id], s.visible, s.cfg)
    ensures Inv(s')
  {
    OwnStream(s, s');
  }

  lemma RamStep(s: Sys, s': Sys, r': Ram)
    requires Inv(s) && s.ram.Some? && r'.id == s.ram.value.id
    requires s' == s.(ram := Some(r'))
    requires r'.id in s.disk.states && Fits(r'.(open := false), RamFiles(s), s.disk.states[r'.id], s.visible, s.cfg)
    ensures Inv(s')
  {
    OwnStream(s, s');
  }

  lemma CreateKeepsInv(s: Sys, w: WriteOutcome)
    requires Inv(s) && CanCreateSeg(s)
    ensures Inv(SegCreated(s, w))
  {
    OwnFits(s);
    var r := s.ram.value;
    if w == Lost {
      HandleKeepsInv(s, r.open);
    } else {
      var files := RamFiles(s);
      CreateFits(r.(open := false), files, s.disk.states[r.id], s.visible, s.cfg);
      FileStep(s, SegCreated(s, w), SegCreated(s, w).ram.value, files[r.nextSeq := SegFile([], {}, false)]);
    }
  }

  lemma WriteKeepsInv(s: Sys, b: Bucket, ok: bool)
    requires Inv(s) && CanWrite(s, b)
    ensures Inv(Written(s, b, ok))
  {
    OwnFits(s);
    var r := s.ram.value;
    var files := RamFiles(s);
    var f := files[LastSeg(r).first];
    WriteFits(r.(open := false), files, s.disk.states[r.id], s.visible, s.cfg, b);
    FileStep(s, Written(s, b, ok), Written(s, b, ok).ram.value, files[LastSeg(r).first := f.(tail := f.tail + {b})]);
  }

  lemma SyncStep(r: Ram, files: Files, st: PState, visible: Visible, cfg: Config)
    requires Fits(r.(open := false), files, st, visible, cfg)
    requires r.inflight.Some? && r.segs != [] && LastSeg(r).first in files
    ensures Fits(RamSynced(r).(open := false), SyncedAs(r, files), st, visible, cfg)
  {
    SyncFits(r.(open := false), files, st, visible, cfg);
    assert RamSynced(r).(open := false) == RamSynced(r.(open := false));
  }

  lemma SyncKeepsInv(s: Sys, ok: bool)
    requires Inv(s) && CanSync(s)
    ensures Inv(Synced(s, ok))
  {
    OwnFits(s);
    var r := s.ram.value;
    if ok {
      SyncStep(r, RamFiles(s), s.disk.states[r.id], s.visible, s.cfg);
      FileStep(s, Synced(s, ok), RamSynced(r), SyncedAs(r, RamFiles(s)));
    } else {
      UnsyncedFits(r.(open := false), RamFiles(s), s.disk.states[r.id], s.visible, s.cfg);
      RamStep(s, Synced(s, ok), r.(inflight := None, open := false));
    }
  }

  lemma ExpireKeepsInv(s: Sys, now: int)
    requires Inv(s) && Running(s)
    ensures Inv(Expired(s, now))
  {
    OwnFits(s);
    var r := s.ram.value;
    ExpireFits(r.(open := false), RamFiles(s), s.disk.states[r.id], s.visible, s.cfg, now);
    RamStep(s, Expired(s, now), Expired(s, now).ram.value);
  }

  lemma GiveUpKeepsInv(s: Sys, i: nat)
    requires Inv(s) && Running(s)
    ensures Inv(s.(ram := Some(Detached(s.ram.value, i).(overCap := true))))
  {
    OwnFits(s);
    var r := s.ram.value;
    GiveUpFits(r.(open := false), RamFiles(s), s.disk.states[r.id], s.visible, s.cfg);
    RamStep(s, s.(ram := Some(Detached(r, i).(overCap := true))), Detached(r, i).(overCap := true));
  }

  lemma RemoveSegKeepsInv(s: Sys, i: nat, ok: bool)
    requires Inv(s) && CanRemoveSeg(s, i)
    ensures Inv(SegRemoved(s, i, ok))
  {
    if ok { RemoveSegOk(s, i); } else { GiveUpKeepsInv(s, i); }
  }

  lemma RemoveSegOk(s: Sys, i: nat)
    requires Inv(s) && CanRemoveSeg(s, i)
    ensures Inv(SegRemoved(s, i, true))
  {
    OwnFits(s);
    var r := s.ram.value;
    RemoveSegFits(r.(open := false), RamFiles(s), s.disk.states[r.id], s.visible, s.cfg, i);
    FileStep(s, SegRemoved(s, i, true), Detached(r, i).(segs := Drop(r.segs, i)), RamFiles(s) - {r.segs[i].first});
  }

  function RamCompacted(r: Ram, i: nat, w: WriteOutcome): Ram
    requires i < |r.segs|
  {
    if w == Durable then Detached(r, i).(segs := r.segs[i := SegOf(r.segs[i].first, InSeg(r.records, r.segs[i]))])
    else Detached(r, i).(overCap := true)
  }

  lemma CompactStep(r: Ram, files: Files, st: PState, visible: Visible, cfg: Config, i: nat, w: WriteOutcome)
    requires Fits(r.(open := false), files, st, visible, cfg) && Idle(r) && i < |r.segs|
    requires InSeg(r.records, r.segs[i]) != [] && |InSeg(r.records, r.segs[i])| != r.segs[i].count
    ensures Fits(RamCompacted(r, i, w).(open := false), files[r.segs[i].first := SegFile(InSeg(r.records, r.segs[i]), {}, false)],
                 st, visible, cfg)
  {
    var r0 := r.(open := false);
    var sub := InSeg(r.records, r.segs[i]);
    assert RamCompacted(r, i, w).(open := false)
           == if w == Durable then r0.(segs := r.segs[i := SegOf(r.segs[i].first, sub)]) else r0.(overCap := true);
    CompactFits(r0, files, st, visible, cfg, i);
  }

  lemma CompactKeepsInv(s: Sys, i: nat, w: WriteOutcome)
    requires Inv(s) && CanCompact(s, i)
    ensures Inv(Compacted(s, i, w))
  {
    OwnFits(s);
    var r := s.ram.value;
    if w == Lost {
      GiveUpKeepsInv(s, i);
    } else {
      CompactStep(r, RamFiles(s), s.disk.states[r.id], s.visible, s.cfg, i, w);
      FileStep(s, Compacted(s, i, w), RamCompacted(r, i, w),
               RamFiles(s)[r.segs[i].first := SegFile(InSeg(r.records, r.segs[i]), {}, false)]);
    }
  }

  function RamCapRemoved(r: Ram): Ram
    requires r.segs != []
  {
    Detached(r, 0).(segs := r.segs[1..], records := DropThrough(r.records, r.segs[0].last))
  }

  lemma CapRemoveStep(r: Ram, files: Files, st: PState, visible: Visible, cfg: Config)
    requires Fits(r.(open := false), files, st, visible, cfg) && Idle(r) && r.segs != []
    ensures Fits(RamCapRemoved(r).(open := false), files - {r.segs[0].first}, st, visible, cfg)
  {
    CapRemoveFits(r.(open := false), files, st, visible, cfg);
  }

  lemma CapRemoveKeepsInv(s: Sys, ok: bool)
    requires Inv(s) && CanCapRemove(s)
    ensures Inv(CapRemoved(s, ok))
  {
    if ok { CapRemoveOk(s); } else { GiveUpKeepsInv(s, 0); }
  }

  lemma CapRemoveOk(s: Sys)
    requires Inv(s) && CanCapRemove(s)
    ensures Inv(CapRemoved(s, true))
  {
    OwnFits(s);
    var r := s.ram.value;
    CapRemoveStep(r, RamFiles(s), s.disk.states[r.id], s.visible, s.cfg);
    FileStep(s, CapRemoved(s, true), RamCapRemoved(r), RamFiles(s) - {r.segs[0].first});
  }

  lemma SettleKeepsInv(s: Sys)
    requires Inv(s) && CanSettle(s)
    ensures Inv(Settled(s))
  {
    OwnFits(s);
    var r := s.ram.value;
    SettleFits(r.(open := false), RamFiles(s), s.disk.states[r.id], s.visible, s.cfg);
    RamStep(s, Settled(s), r.(overCap := false));
  }

  // ---- publication ----

  lemma EarlierBelow(files: Files, cfg: Config, k: nat, m: nat)
    requires FilesOk(files, cfg) && k in files && m in files && k < m && files[m].lines != []
    ensures Below(files[k].lines, m)
  {
  }

  /** No sequence number is on disk twice with different contents. */
  lemma OneLinePerSeq(files: Files, cfg: Config, k: nat, m: nat, a: Bucket, b: Bucket)
    requires FilesOk(files, cfg) && k in files && m in files
    requires a in files[k].lines && b in files[m].lines && a.seqno == b.seqno
    ensures k == m && a == b
  {
  }

  /** Every retained record is in the file of exactly one segment. */
  lemma RecordOnDisk(r: Ram, files: Files, st: PState, visible: Visible, cfg: Config, b: Bucket) returns (i: nat)
    requires Fits(r, files, st, visible, cfg) && b in r.records
    ensures i < |r.segs| && r.segs[i].first in files && b in files[r.segs[i].first].lines
    ensures forall k :: k in files && b in files[k].lines ==> k == r.segs[i].first
  {
    assert Covered(r.segs, b);
    i :| 0 <= i < |r.segs| && r.segs[i].first <= b.seqno <= r.segs[i].last;
    assert SegOk(r.segs[i], r.records, r.overCap, files);
    assert b in InSeg(r.records, r.segs[i]);
    forall k | k in files && b in files[k].lines ensures k == r.segs[i].first {
      OneLinePerSeq(files, cfg, k, r.segs[i].first, b, b);
    }
  }

  /** A line with a published sequence number is the published record. */
  lemma PublishedLine(r: Ram, files: Files, st: PState, visible: Visible, cfg: Config, k: nat, b: Bucket, n: nat)
    requires Fits(r, files, st, visible, cfg) && k in files && b in files[k].lines && b.seqno == n
    requires exists x :: x in r.records && x.seqno == n
    ensures Find(r.records, n) == b
  {
    var x := Find(r.records, n);
    var i := RecordOnDisk(r, files, st, visible, cfg, x);
    OneLinePerSeq(files, cfg, k, r.segs[i].first, b, x);
  }

  /** Published records: what they are, that they repeat what was published before,
      and that every line on disk agrees with them. */
  lemma PublishedFacts(r: Ram, files: Files, st: PState, visible: Visible, cfg: Config)
    requires Fits(r, files, st, visible, cfg)
    ensures forall k :: k in PublishedBy(r) ==> k.0 == r.id && k.1 < r.nextSeq
    ensures forall k :: k in files ==> Agreeing(r.id, files[k].lines, PublishedBy(r))
    ensures forall k :: k in visible && k in PublishedBy(r) ==> visible[k] == PublishedBy(r)[k]
  {
    var pub := PublishedBy(r);
    assert forall k :: k in pub ==> k.0 == r.id && k.1 < r.nextSeq && pub[k] == Find(r.records, k.1);
    forall k, b | k in files && b in files[k].lines && (r.id, b.seqno) in pub
      ensures pub[(r.id, b.seqno)] == b
    {
      PublishedLine(r, files, st, visible, cfg, k, b, b.seqno);
    }
    forall k | k in visible && k in pub ensures visible[k] == pub[k] {
      RepeatsPublished(r, files, st, visible, cfg, pub[k]);
    }
  }

  lemma RepeatsPublished(r: Ram, files: Files, st: PState, visible: Visible, cfg: Config, b: Bucket)
    requires Fits(r, files, st, visible, cfg) && b in r.records && (r.id, b.seqno) in visible
    ensures visible[(r.id, b.seqno)] == b
  {
  }

  lemma PublishFits(r: Ram, files: Files, st: PState, visible: Visible, cfg: Config, pub: Visible)
    requires Fits(r, files, st, visible, cfg) && Idle(r)
    requires forall k :: k in pub ==> k.0 == r.id && k.1 < r.nextSeq
    requires forall k :: k in files ==> Agreeing(r.id, files[k].lines, pub)
    ensures Fits(r, files, st, visible + pub, cfg)
  {
    PublishFilesFit(r.id, r.nextSeq, files, st, visible, cfg, pub);
    assert CountersOk(r.id, r.acked, r.reserved, r.nextSeq, files, st, visible + pub);
  }

  lemma PublishFilesFit(id: StreamId, n: nat, files: Files, st: PState, visible: Visible, cfg: Config, pub: Visible)
    requires FilesFit(id, files, st, visible, cfg) && n <= st.reserved + 1
    requires forall k :: k in files ==> TailIs(files[k].tail, n)
    requires forall k :: k in pub ==> k.0 == id && k.1 < n
    requires forall k :: k in files ==> Agreeing(id, files[k].lines, pub)
    ensures FilesFit(id, files, st, visible + pub, cfg)
  {
  }

  lemma OtherStreamVisible(id: StreamId, files: Files, st: PState, visible: Visible, more: Visible, cfg: Config)
    requires FilesFit(id, files, st, visible, cfg)
    requires forall k :: k in more ==> k.0 != id
    ensures FilesFit(id, files, st, visible + more, cfg)
  {
  }

  lemma PublishKeepsInv(s: Sys)
    requires Inv(s) && Running(s)
    ensures Inv(Published(s))
    ensures forall k :: k in s.visible ==> k in Published(s).visible && Published(s).visible[k] == s.visible[k]
  {
    OwnFits(s);
    var r0 := s.ram.value.(open := false);
    assert Keys(r0) == Keys(s.ram.value);
    assert PublishedBy(r0) == PublishedBy(s.ram.value);
    PublishedFacts(r0, RamFiles(s), s.disk.states[r0.id], s.visible, s.cfg);
    PublishStep(s, PublishedBy(r0));
  }

  lemma PublishStep(s: Sys, pub: Visible)
    requires Inv(s) && Running(s)
    requires forall k :: k in pub ==> k.0 == s.ram.value.id && k.1 < s.ram.value.nextSeq
    requires forall k :: k in RamFiles(s) ==> Agreeing(s.ram.value.id, RamFiles(s)[k].lines, pub)
    ensures Inv(s.(visible := s.visible + pub))
  {
    var r := s.ram.value;
    PublishFits(r.(open := false), RamFiles(s), s.disk.states[r.id], s.visible, s.cfg, pub);
    if s.disk.id.Some? && s.disk.id.value != r.id {
      var id := s.disk.id.value;
      OtherStreamVisible(id, FilesOf(s.disk, id), s.disk.states[id], s.visible, pub, s.cfg);
    }
  }

  // ---- crash ----

  lemma CrashFilesOk(before: Files, after: Files, cfg: Config)
    requires FilesOk(before, cfg) && CrashFiles(before, after)
    ensures FilesOk(after, cfg)
  {
    forall k | k in after ensures FileOk(k, after[k], cfg) {
      assert FileOk(k, before[k], cfg) && CrashLeaves(before[k], after[k]);
    }
    forall k, m | k in after && m in after && k < m && (after[m].lines != [] || Dirty(after[m]))
      ensures Below(after[k].lines, m) && !Dirty(after[k])
    {
      assert CrashLeaves(before[m], after[m]) && CrashLeaves(before[k], after[k]);
      assert before[m].lines != [] || Dirty(before[m]);
      assert Below(before[k].lines, m) && !Dirty(before[k]);
    }
  }

  lemma CrashFileFits(id: StreamId, f: SegFile, f': SegFile, visible: Visible, n: int)
    requires CrashLeaves(f, f') && Below(f.lines, n) && TailBelow(f.tail, n)
    requires Agreeing(id, f.lines, visible) && Unpublished(id, f.tail, visible)
    ensures Below(f'.lines, n) && f'.tail == {} && Agreeing(id, f'.lines, visible)
  {
  }

  lemma CrashFits(id: StreamId, before: Files, after: Files, st: PState, visible: Visible, cfg: Config)
    requires FilesFit(id, before, st, visible, cfg) && CrashFiles(before, after)
    ensures FilesFit(id, after, st, visible, cfg) && Clean(after)
  {
    CrashFilesOk(before, after, cfg);
    forall k | k in after
      ensures Below(after[k].lines, st.reserved + 1) && after[k].tail == {} && Agreeing(id, after[k].lines, visible)
    {
      CrashFileFits(id, before[k], after[k], visible, st.reserved + 1);
    }
  }

  lemma CrashKeepsInv(s: Sys, left: Files)
    requires Inv(s) && CanCrash(s, left)
    ensures Inv(Crashed(s, left))
  {
    if s.ram.Some? {
      RunningCrash(s, left);
    } else if s.disk.id.Some? {
      StreamFrame(s, Crashed(s, left), s.disk.id.value);
    }
  }

  lemma RunningCrash(s: Sys, left: Files)
    requires Inv(s) && s.ram.Some? && CrashFiles(RamFiles(s), left)
    ensures Inv(Crashed(s, left))
  {
    OwnFits(s);
    var r := s.ram.value;
    var s' := Crashed(s, left);
    CrashFits(r.id, RamFiles(s), left, s.disk.states[r.id], s.visible, s.cfg);
    assert FilesOf(s'.disk, r.id) == left;
    if s.disk.id.Some? && s.disk.id.value != r.id { StreamFrame(s, s', s.disk.id.value); }
  }

  // ---- recovery ----

  lemma ClosedStep(s: Sys, files': Files)
    requires Inv(s) && Closed(s)
    requires FilesFit(s.disk.id.value, files', s.disk.states[s.disk.id.value], s.visible, s.cfg) && Clean(files')
    requires s.rotating.Some? ==> s.rotating.value != s.disk.id.value || files' == map[]
    ensures Inv(s.(disk := s.disk.(segs := s.disk.segs[s.disk.id.value := files'])))
  {
    var s' := s.(disk := s.disk.(segs := s.disk.segs[s.disk.id.value := files']));
    assert FilesOf(s'.disk, s.disk.id.value) == files';
    assert forall id :: id != s.disk.id.value ==> FilesOf(s'.disk, id) == FilesOf(s.disk, id);
  }

  lemma TrimKeepsInv(s: Sys, file: nat, n: nat)
    requires Inv(s) && CanTrim(s, file, n)
    ensures Inv(Trimmed(s, file, n))
  {
    var id := s.disk.id.value;
    var files := OwnFiles(s);
    var lines := files[file].lines;
    assert FileOk(file, files[file], s.cfg);
    assert Inside(lines[..n], lines);
    ShrunkFilesFit(id, files, s.disk.states[id], s.visible, s.cfg, file, lines[..n]);
    ClosedStep(s, files[file := SegFile(lines[..n], {}, false)]);
  }

  lemma RemoveFileKeepsInv(s: Sys, file: nat)
    requires Inv(s) && Closed(s)
    ensures Inv(WithoutFile(s, s.disk.id.value, file))
  {
    var id := s.disk.id.value;
    RemovedFilesFit(id, OwnFiles(s), s.disk.states[id], s.visible, s.cfg, file);
    ClosedStep(s, OwnFiles(s) - {file});
  }

  lemma LastOf(s: seq<Bucket>)
    requires s != []
    ensures s[|s| - 1] in s && LastSeq(s) == s[|s| - 1].seqno
  {
  }

  /** Files in order, read in order, are ascending. */
  lemma {:induction false} ConcatOk(files: Files, keys: seq<nat>, cfg: Config)
    requires FilesOk(files, cfg) && SortedKeys(keys) && (forall k :: k in keys ==> k in files)
    ensures Ascending(Concat(files, keys))
    ensures forall b :: b in Concat(files, keys) <==> exists k :: k in keys && b in files[k].lines
  {
    if keys != [] {
      ConcatOk(files, keys[1..], cfg);
      var lines, rest := files[keys[0]].lines, Concat(files, keys[1..]);
      assert FileOk(keys[0], files[keys[0]], cfg);
      forall b | b in rest ensures Below(lines, b.seqno) && exists k :: k in keys && b in files[k].lines {
        var k :| k in keys[1..] && b in files[k].lines;
        LaterKey(keys, k);
        EarlierBelow(files, cfg, keys[0], k);
        assert FileOk(k, files[k], cfg);
      }
      forall k, b | k in keys && b in files[k].lines ensures b in lines + rest {
        assert k == keys[0] || k in keys[1..];
      }
    }
  }

  lemma LaterKey(keys: seq<nat>, k: nat)
    requires SortedKeys(keys) && keys != [] && k in keys[1..]
    ensures keys[0] < k && k in keys
  {
  }

  lemma LoadedRecord(files: Files, keys: seq<nat>, cfg: Config, i: nat, b: Bucket)
    requires FilesOk(files, cfg) && SortedKeys(keys) && i < |keys|
    requires forall k :: k in keys ==> k in files && files[k].lines != []
    requires b in Concat(files, keys) && keys[i] <= b.seqno <= LastSeq(files[keys[i]].lines)
    ensures b in files[keys[i]].lines
  {
    ConcatOk(files, keys, cfg);
    var k :| k in keys && b in files[k].lines;
    LastOf(files[keys[i]].lines);
    assert FileOk(k, files[k], cfg) && FileOk(keys[i], files[keys[i]], cfg);
    if k < keys[i] { EarlierBelow(files, cfg, k, keys[i]); }
    if keys[i] < k { EarlierBelow(files, cfg, keys[i], k); }
  }

  lemma LoadedSegOk(files: Files, keys: seq<nat>, cfg: Config, i: nat)
    requires FilesOk(files, cfg) && SortedKeys(keys) && i < |keys|
    requires forall k :: k in keys ==> k in files && files[k].lines != []
    ensures SegOk(SegsOf(files, keys)[i], Concat(files, keys), false, files)
  {
    var lines := files[keys[i]].lines;
    var g := SegOf(keys[i], lines);
    LastOf(lines);
    assert FileOk(keys[i], files[keys[i]], cfg);
    forall b | b in InSeg(Concat(files, keys), g) ensures b in lines {
      LoadedRecord(files, keys, cfg, i, b);
    }
  }

  lemma LoadedLayoutOk(files: Files, lo: nat, keys: seq<nat>, cfg: Config)
    requires FilesOk(files, cfg) && LoadKeys(files, lo, keys)
    requires forall k :: k in files ==> !Dirty(files[k])
    ensures LayoutOk(SegsOf(files, keys), files)
  {
    var segs := SegsOf(files, keys);
    forall i, j | 0 <= i < j < |segs| ensures segs[i].first < segs[j].first && segs[i].last < segs[j].first {
      assert keys[i] in keys && keys[j] in keys;
      LastOf(files[keys[i]].lines);
      assert Below(files[keys[i]].lines, keys[j]);
    }
    forall i, k | 0 <= i < |segs| && k in files && k < segs[i].first ensures Below(files[k].lines, segs[i].first) {
      assert keys[i] in keys;
    }
    forall k | k in files && segs != [] && k >= segs[0].first && files[k].lines != [] ensures IsFirst(segs, k) {
      assert keys[0] in keys;
      assert k in keys;
      var i :| 0 <= i < |keys| && keys[i] == k;
      assert segs[i].first == k;
    }
  }

  lemma LoadedCovered(files: Files, keys: seq<nat>, cfg: Config, k: nat, b: Bucket)
    requires FilesOk(files, cfg) && k in keys && k in files && b in files[k].lines
    ensures Covered(SegsOf(files, keys), b)
  {
  }

  lemma LoadedRecordsOk(files: Files, lo: nat, keys: seq<nat>, cfg: Config, n: nat)
    requires FilesOk(files, cfg) && LoadKeys(files, lo, keys)
    requires forall k :: k in files ==> Below(files[k].lines, n)
    ensures RecordsOk(SegsOf(files, keys), Concat(files, keys), n)
  {
    ConcatOk(files, keys, cfg);
    forall b | b in Concat(files, keys) ensures Covered(SegsOf(files, keys), b) && b.seqno < n {
      var k :| k in keys && b in files[k].lines;
      LoadedCovered(files, keys, cfg, k, b);
    }
  }

  lemma LoadedSegsOk(files: Files, lo: nat, keys: seq<nat>, cfg: Config)
    requires FilesOk(files, cfg) && LoadKeys(files, lo, keys)
    requires forall k :: k in files ==> !Dirty(files[k])
    ensures SegsOk(SegsOf(files, keys), Concat(files, keys), false, files)
  {
    LoadedLayoutOk(files, lo, keys, cfg);
    forall i | 0 <= i < |keys| ensures SegOk(SegsOf(files, keys)[i], Concat(files, keys), false, files) {
      LoadedSegOk(files, keys, cfg, i);
    }
  }

  lemma LastLoaded(files: Files, lo: nat, keys: seq<nat>, cfg: Config, n: nat)
    requires FilesOk(files, cfg) && LoadKeys(files, lo, keys)
    requires forall k :: k in files ==> Below(files[k].lines, n + 1)
    ensures LastSeq(Concat(files, keys)) <= n
  {
    var records := Concat(files, keys);
    ConcatOk(files, keys, cfg);
    if records != [] {
      LastOf(records);
      var k :| k in keys && records[|records| - 1] in files[k].lines;
    }
  }

  lemma LoadFits(id: StreamId, files: Files, st: PState, visible: Visible, cfg: Config, lo: nat, keys: seq<nat>)
    requires FilesFit(id, files, st, visible, cfg) && LoadKeys(files, lo, keys)
    requires forall k :: k in files ==> !Dirty(files[k])
    ensures Fits(RamFrom(id, st, files, keys), files, st, visible, cfg)
    ensures RamFrom(id, st, files, keys).nextSeq == st.reserved + 1
  {
    LastLoaded(files, lo, keys, cfg, st.reserved);
    LoadedSegsOk(files, lo, keys, cfg);
    LoadedRecordsOk(files, lo, keys, cfg, st.reserved + 1);
    LoadedCounters(id, files, st, visible, cfg);
  }

  lemma LoadedCounters(id: StreamId, files: Files, st: PState, visible: Visible, cfg: Config)
    requires FilesFit(id, files, st, visible, cfg)
    requires forall k :: k in files ==> !Dirty(files[k])
    ensures CountersOk(id, st.acked, st.reserved, st.reserved + 1, files, st, visible)
  {
  }

  lemma LoadKeepsInv(s: Sys, lo: nat)
    requires Inv(s) && CanLoad(s, lo)
    ensures Inv(Loaded(s, lo))
  {
    var id := s.disk.id.value;
    var files := OwnFiles(s);
    var s' := Loaded(s, lo);
    var keys :| LoadKeys(files, lo, keys) && s'.ram == Some(RamFrom(id, s.disk.states[id], files, keys));
    LoadFits(id, files, s.disk.states[id], s.visible, s.cfg, lo, keys);
    StreamFrame(s, s', id);
  }

  // ---- every run ----

  lemma StepKeepsInv(s: Sys, a: Action)
    requires Inv(s) && Enabled(s, a)
    ensures Inv(Step(s, a))
  {
    match a
    case NewState(id, w) => NewStateKeepsInv(s, id, w);
    case CommitIdentity(w) => CommitKeepsInv(s, w);
    case RemoveOrphans(gone) => OrphansKeepInv(s, gone);
    case Trim(file, n) => TrimKeepsInv(s, file, n);
    case RemoveFile(file) => RemoveFileKeepsInv(s, file);
    case Load(lo) => LoadKeepsInv(s, lo);
    case SetState(st, w) => SetStateKeepsInv(s, st, w);
    case CreateSeg(w) => CreateKeepsInv(s, w);
    case OpenLast => HandleKeepsInv(s, true);
    case CloseHandle => HandleKeepsInv(s, false);
    case Write(b, ok) => WriteKeepsInv(s, b, ok);
    case Sync(ok) => SyncKeepsInv(s, ok);
    case Expire(now) => ExpireKeepsInv(s, now);
    case RemoveSeg(i, ok) => RemoveSegKeepsInv(s, i, ok);
    case CompactSeg(i, w) => CompactKeepsInv(s, i, w);
    case CapRemove(ok) => CapRemoveKeepsInv(s, ok);
    case Settle => SettleKeepsInv(s);
    case Publish => PublishKeepsInv(s);
    case Crash(left) => CrashKeepsInv(s, left);
  }

  lemma StepKeepsVisible(s: Sys, a: Action)
    requires Inv(s) && Enabled(s, a)
    ensures forall k :: k in s.visible ==> k in Step(s, a).visible && Step(s, a).visible[k] == s.visible[k]
  {
    if a.Publish? { PublishKeepsInv(s); } else { OnlyPublishingShows(s, a); }
  }

  lemma OnlyPublishingShows(s: Sys, a: Action)
    requires Enabled(s, a) && !a.Publish?
    ensures Step(s, a).visible == s.visible
  {
  }

  lemma {:induction false} RunKeepsInv(states: seq<Sys>, actions: seq<Action>, n: nat)
    requires IsRun(states, actions) && n < |states|
    ensures Inv(states[n])
  {
    if n == 0 {
      InitialInv(states[0]);
    } else {
      RunKeepsInv(states, actions, n - 1);
      StepKeepsInv(states[n - 1], actions[n - 1]);
    }
  }

  /** A retained record is what was published under its number, if anything was. */
  lemma RecordsAgree(s: Sys)
    requires Inv(s)
    ensures s.ram.Some? ==>
              forall b :: b in s.ram.value.records && (s.ram.value.id, b.seqno) in s.visible ==>
                s.visible[(s.ram.value.id, b.seqno)] == b
  {
  }

  lemma {:induction false} VisibleStays(states: seq<Sys>, actions: seq<Action>, i: nat, j: nat, key: (StreamId, nat))
    requires IsRun(states, actions) && i <= j < |states| && key in states[i].visible
    ensures key in states[j].visible && states[j].visible[key] == states[i].visible[key]
  {
    if i < j {
      VisibleStays(states, actions, i, j - 1, key);
      RunKeepsInv(states, actions, j - 1);
      StepKeepsVisible(states[j - 1], actions[j - 1]);
    }
  }

  /** A (stream, sequence number) pair that was ever published is never given to a
      different bucket, over appends, failed writes, torn tails, restarts, crashes and
      identity rotations: neither in what is retained nor in what is published later. */
  lemma SequenceUniqueness(states: seq<Sys>, actions: seq<Action>, i: nat, j: nat, key: (StreamId, nat))
    requires IsRun(states, actions) && i <= j < |states| && key in states[i].visible
    ensures key in states[j].visible && states[j].visible[key] == states[i].visible[key]
    ensures states[j].ram.Some? && states[j].ram.value.id == key.0 ==>
              forall b :: b in states[j].ram.value.records && b.seqno == key.1 ==> b == states[i].visible[key]
  {
    VisibleStays(states, actions, i, j, key);
    RunKeepsInv(states, actions, j);
    RecordsAgree(states[j]);
  }
}
