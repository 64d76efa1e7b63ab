/** Retention: what expiry, deletion, compaction and the byte cap keep. */
module JournalRetention {
  import opened Common
  import opened JournalTypes
  import opened JournalMachine
  import opened JournalSafety

  lemma ExpiredSegOk(g: Seg, records: seq<Bucket>, kept: seq<Bucket>, overCap: bool, files: Files)
    requires SegOk(g, records, overCap, files)
    requires Ascending(records) && Ascending(kept) && Inside(kept, records)
    ensures SegOk(g, kept, overCap, files)
  {
    BetweenAscends(records, g.first, g.last);
    BetweenAscends(kept, g.first, g.last);
    AscendingInside(InSeg(kept, g), InSeg(records, g));
  }

  lemma FewerRecordsFit(r: Ram, kept: seq<Bucket>, files: Files, st: PState, visible: Visible, cfg: Config)
    requires Fits(r, files, st, visible, cfg) && Ascending(kept) && Inside(kept, r.records) && Idle(r)
    ensures Fits(r.(records := kept), files, st, visible, cfg)
  {
    forall i | 0 <= i < |r.segs| ensures SegOk(r.segs[i], kept, r.overCap, files) {
      ExpiredSegOk(r.segs[i], r.records, kept, r.overCap, files);
    }
  }

  lemma ExpireFits(r: Ram, files: Files, st: PState, visible: Visible, cfg: Config, now: int)
    requires Fits(r, files, st, visible, cfg) && Idle(r)
    ensures Fits(r.(records := Newest(LiveOnly(r.records, cfg, now), cfg.maxRecords)), files, st, visible, cfg)
  {
    var live := LiveOnly(r.records, cfg, now);
    LiveOnlyAscends(r.records, cfg, now);
    var kept := Newest(live, cfg.maxRecords);
    assert forall b :: b in kept ==> b in live;
    FewerRecordsFit(r, kept, files, st, visible, cfg);
  }

  lemma GiveUpFits(r: Ram, files: Files, st: PState, visible: Visible, cfg: Config)
    requires Fits(r, files, st, visible, cfg) && Idle(r)
    ensures Fits(r.(overCap := true), files, st, visible, cfg)
  {
  }

  lemma SettleFits(r: Ram, files: Files, st: PState, visible: Visible, cfg: Config)
    requires Fits(r, files, st, visible, cfg) && Idle(r) && Reconciled(r.segs, r.records)
    ensures Fits(r.(overCap := false), files, st, visible, cfg)
  {
  }

  // ---- deleting a segment ----

  lemma RemovedFilesFit(id: StreamId, files: Files, st: PState, visible: Visible, cfg: Config, key: nat)
    requires FilesFit(id, files, st, visible, cfg)
    ensures FilesFit(id, files - {key}, st, visible, cfg)
  {
  }

  lemma RemovedFilesAreSegs(segs: seq<Seg>, files: Files, i: nat)
    requires FilesAreSegs(segs, files) && SegsOrdered(segs) && i < |segs|
    ensures FilesAreSegs(Drop(segs, i), files - {segs[i].first})
  {
  }

  lemma RemovedLayoutOk(segs: seq<Seg>, files: Files, i: nat)
    requires LayoutOk(segs, files) && i < |segs|
    ensures LayoutOk(Drop(segs, i), files - {segs[i].first})
  {
    RemovedOrdered(segs, i);
    RemovedFilesAreSegs(segs, files, i);
    RemovedEarlierOlder(segs, files, i);
    RemovedOnlyLastDirty(segs, files, i);
  }

  lemma RemovedOrdered(segs: seq<Seg>, i: nat)
    requires SegsOrdered(segs) && i < |segs|
    ensures SegsOrdered(Drop(segs, i))
  {
  }

  lemma RemovedOnlyLastDirty(segs: seq<Seg>, files: Files, i: nat)
    requires OnlyLastDirty(segs, files) && i < |segs|
    ensures OnlyLastDirty(Drop(segs, i), files - {segs[i].first})
  {
    var segs' := Drop(segs, i);
    assert i != |segs| - 1 ==> segs'[|segs'| - 1] == segs[|segs| - 1];
  }

  lemma RemovedEarlierOlder(segs: seq<Seg>, files: Files, i: nat)
    requires EarlierOlder(segs, files) && i < |segs|
    ensures EarlierOlder(Drop(segs, i), files - {segs[i].first})
  {
    var segs' := Drop(segs, i);
    forall j, k | 0 <= j < |segs'| && k in files - {segs[i].first} && k < segs'[j].first
      ensures Below(files[k].lines, segs'[j].first)
    {
      assert segs'[j] == segs[if j < i then j else j + 1];
    }
  }

  lemma RemovedSegsOk(segs: seq<Seg>, records: seq<Bucket>, overCap: bool, files: Files, i: nat)
    requires SegsOk(segs, records, overCap, files) && i < |segs|
    ensures SegsOk(Drop(segs, i), records, overCap, files - {segs[i].first})
  {
    RemovedLayoutOk(segs, files, i);
    var segs' := Drop(segs, i);
    forall j | 0 <= j < |segs'|
      ensures SegOk(segs'[j], records, overCap, files - {segs[i].first})
    {
      var m := if j < i then j else j + 1;
      assert segs'[j] == segs[m];
      assert SegOk(segs[m], records, overCap, files);
    }
  }

  lemma RemovedRecordsOk(segs: seq<Seg>, records: seq<Bucket>, nextSeq: nat, i: nat)
    requires RecordsOk(segs, records, nextSeq) && i < |segs| && InSeg(records, segs[i]) == []
    ensures RecordsOk(Drop(segs, i), records, nextSeq)
  {
  }

  lemma RemoveSegFits(r: Ram, files: Files, st: PState, visible: Visible, cfg: Config, i: nat)
    requires Fits(r, files, st, visible, cfg) && Idle(r) && i < |r.segs| && InSeg(r.records, r.segs[i]) == []
    ensures Fits(r.(segs := Drop(r.segs, i)), files - {r.segs[i].first}, st, visible, cfg)
  {
    RemovedFilesFit(r.id, files, st, visible, cfg, r.segs[i].first);
    RemovedSegsOk(r.segs, r.records, r.overCap, files, i);
    RemovedRecordsOk(r.segs, r.records, r.nextSeq, i);
  }

  lemma NoneThrough(records: seq<Bucket>, g: Seg)
    requires Ascending(records)
    ensures var kept := DropThrough(records, g.last);
            Inside(kept, records) && Ascending(kept) && InSeg(kept, g) == []
  {
    var kept := DropThrough(records, g.last);
    DropThroughAscends(records, g.last);
    BetweenNone(kept, g.first, g.last);
  }

  /** The byte cap takes the oldest segment and its records with it. */
  lemma CapRemoveFits(r: Ram, files: Files, st: PState, visible: Visible, cfg: Config)
    requires Fits(r, files, st, visible, cfg) && Idle(r) && r.segs != []
    ensures Fits(r.(segs := r.segs[1..], records := DropThrough(r.records, r.segs[0].last)),
                 files - {r.segs[0].first}, st, visible, cfg)
  {
    var kept := DropThrough(r.records, r.segs[0].last);
    NoneThrough(r.records, r.segs[0]);
    FewerRecordsFit(r, kept, files, st, visible, cfg);
    RemoveSegFits(r.(records := kept), files, st, visible, cfg, 0);
    assert Drop(r.segs, 0) == r.segs[1..];
  }

  // ---- compaction ----

  /** A file may be rewritten with some of its own lines. */
  lemma ShrunkFilesFit(id: StreamId, files: Files, st: PState, visible: Visible, cfg: Config, key: nat, sub: seq<Bucket>)
    requires FilesFit(id, files, st, visible, cfg) && key in files
    requires Ascending(sub) && Inside(sub, files[key].lines)
    ensures FilesFit(id, files[key := SegFile(sub, {}, false)], st, visible, cfg)
  {
    ShrunkFilesOk(files, cfg, key, sub);
  }

  lemma ShrunkFilesOk(files: Files, cfg: Config, key: nat, sub: seq<Bucket>)
    requires FilesOk(files, cfg) && key in files
    requires Ascending(sub) && Inside(sub, files[key].lines)
    ensures FilesOk(files[key := SegFile(sub, {}, false)], cfg)
  {
    var files' := files[key := SegFile(sub, {}, false)];
    AscendingInside(sub, files[key].lines);
    assert sub != [] ==> sub[0] in files[key].lines;
    forall k, m | k in files' && m in files' && k < m && (files'[m].lines != [] || Dirty(files'[m]))
      ensures Below(files'[k].lines, m) && !Dirty(files'[k])
    {
      assert files[m].lines != [] || Dirty(files[m]);
      assert Below(files[k].lines, m) && !Dirty(files[k]);
    }
  }

  /** What is left of a segment, and that it is less than the counters say. */
  lemma SubFacts(g: Seg, records: seq<Bucket>, overCap: bool, files: Files)
    requires SegOk(g, records, overCap, files) && Ascending(records) && Ascending(files[g.first].lines)
    ensures Ascending(InSeg(records, g)) && |InSeg(records, g)| <= g.count
    ensures InSeg(records, g) != [] ==> files[g.first].lines != [] && g.first <= LastSeq(InSeg(records, g)) <= g.last
  {
    var sub := InSeg(records, g);
    BetweenAscends(records, g.first, g.last);
    AscendingInside(sub, files[g.first].lines);
    if sub != [] {
      assert sub[0] in files[g.first].lines;
      assert sub[|sub| - 1] in sub;
    }
  }

  lemma CompactedSegOk(g: Seg, records: seq<Bucket>, overCap: bool, files: Files)
    requires Ascending(records) && InSeg(records, g) != [] && g.first in files
    requires files[g.first] == SegFile(InSeg(records, g), {}, false)
    ensures SegOk(SegOf(g.first, InSeg(records, g)), records, overCap, files)
  {
    var sub := InSeg(records, g);
    BetweenAscends(records, g.first, g.last);
    assert sub[|sub| - 1] in sub;
    var g' := SegOf(g.first, sub);
    forall b | b in InSeg(records, g') ensures b in sub { }
  }

  lemma CompactedSegsOk(segs: seq<Seg>, records: seq<Bucket>, overCap: bool, files: Files, i: nat)
    requires SegsOk(segs, records, overCap, files) && i < |segs| && Ascending(records)
    requires segs[i].first in files && Ascending(files[segs[i].first].lines)
    requires InSeg(records, segs[i]) != []
    ensures var g := segs[i];
            var sub := InSeg(records, g);
            SegsOk(segs[i := SegOf(g.first, sub)], records, overCap, files[g.first := SegFile(sub, {}, false)])
  {
    var g := segs[i];
    var sub := InSeg(records, g);
    var segs' := segs[i := SegOf(g.first, sub)];
    var files' := files[g.first := SegFile(sub, {}, false)];
    assert SegOk(g, records, overCap, files);
    SubFacts(g, records, overCap, files);
    LayoutReplaced(segs, segs', files, i, SegFile(sub, {}, false));
    forall j | 0 <= j < |segs'| ensures SegOk(segs'[j], records, overCap, files') {
      if j == i { CompactedSegOk(g, records, overCap, files'); }
      else { assert SegOk(segs[j], records, overCap, files); }
    }
  }

  /** A compaction that failed after its rename showed leaves the old counters. */
  lemma HalfCompactedSegsOk(segs: seq<Seg>, records: seq<Bucket>, overCap: bool, files: Files, i: nat)
    requires SegsOk(segs, records, overCap, files) && i < |segs| && Ascending(records)
    requires segs[i].first in files && Ascending(files[segs[i].first].lines)
    requires InSeg(records, segs[i]) != [] && |InSeg(records, segs[i])| != segs[i].count
    ensures SegsOk(segs, records, true, files[segs[i].first := SegFile(InSeg(records, segs[i]), {}, false)])
  {
    var g := segs[i];
    var sub := InSeg(records, g);
    var files' := files[g.first := SegFile(sub, {}, false)];
    assert SegOk(g, records, overCap, files);
    SubFacts(g, records, overCap, files);
    assert segs == segs[i := segs[i]];
    LayoutReplaced(segs, segs, files, i, SegFile(sub, {}, false));
    forall j | 0 <= j < |segs| ensures SegOk(segs[j], records, true, files') {
      assert SegOk(segs[j], records, overCap, files);
    }
  }

  lemma CompactedRecordsOk(segs: seq<Seg>, records: seq<Bucket>, nextSeq: nat, i: nat)
    requires RecordsOk(segs, records, nextSeq) && i < |segs| && InSeg(records, segs[i]) != []
    ensures RecordsOk(segs[i := SegOf(segs[i].first, InSeg(records, segs[i]))], records, nextSeq)
  {
    var sub := InSeg(records, segs[i]);
    var segs' := segs[i := SegOf(segs[i].first, sub)];
    BetweenAscends(records, segs[i].first, segs[i].last);
    forall b | b in records ensures Covered(segs', b) {
      assert Covered(segs, b);
      var j :| 0 <= j < |segs| && segs[j].first <= b.seqno <= segs[j].last;
      if j == i { assert b in sub; }
      assert segs'[j].first <= b.seqno <= segs'[j].last;
    }
  }

  lemma CompactFits(r: Ram, files: Files, st: PState, visible: Visible, cfg: Config, i: nat)
    requires Fits(r, files, st, visible, cfg) && Idle(r) && i < |r.segs|
    requires InSeg(r.records, r.segs[i]) != [] && |InSeg(r.records, r.segs[i])| != r.segs[i].count
    ensures var g := r.segs[i];
            var sub := InSeg(r.records, g);
            var files' := files[g.first := SegFile(sub, {}, false)];
            && Fits(r.(segs := r.segs[i := SegOf(g.first, sub)]), files', st, visible, cfg)
            && Fits(r.(overCap := true), files', st, visible, cfg)
  {
    var g := r.segs[i];
    var sub := InSeg(r.records, g);
    assert SegOk(g, r.records, r.overCap, files);
    assert FileOk(g.first, files[g.first], cfg);
    BetweenAscends(r.records, g.first, g.last);
    ShrunkFilesFit(r.id, files, st, visible, cfg, g.first, sub);
    CompactedSegsOk(r.segs, r.records, r.overCap, files, i);
    HalfCompactedSegsOk(r.segs, r.records, r.overCap, files, i);
    CompactedRecordsOk(r.segs, r.records, r.nextSeq, i);
    ShrunkCounters(r, files, st, visible, g.first, sub);
  }

  lemma ShrunkCounters(r: Ram, files: Files, st: PState, visible: Visible, key: nat, sub: seq<Bucket>)
    requires CountersOk(r.id, r.acked, r.reserved, r.nextSeq, files, st, visible)
    requires key in files && Inside(sub, files[key].lines)
    ensures CountersOk(r.id, r.acked, r.reserved, r.nextSeq, files[key := SegFile(sub, {}, false)], st, visible)
  {
  }
}
