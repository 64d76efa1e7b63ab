/** What every single disk operation of the journal keeps. */
module JournalSafety {
  import opened Common
  import opened JournalTypes
  import opened JournalMachine

  // ---- the files of one stream ----

  ghost predicate Dirty(f: SegFile) {
    f.tail != {} || f.torn
  }

  ghost predicate FileOk(key: nat, f: SegFile, cfg: Config) {
    && Ascending(f.lines) && From(f.lines, key) && Short(f.lines)
    && |f.lines| <= cfg.segRecords
    && (f.tail != {} ==> |f.lines| < cfg.segRecords)
    && (forall t :: t in f.tail ==> key <= t.seqno && Below(f.lines, t.seqno) && LineBytes(t) <= MAX_LINE + 1)
  }

  /** Segments are disjoint and ordered, and nothing follows a dirty one. */
  ghost predicate FilesOk(files: Files, cfg: Config) {
    && (forall k :: k in files ==> FileOk(k, files[k], cfg))
    && (forall k, m :: k in files && m in files && k < m && (files[m].lines != [] || Dirty(files[m])) ==>
          Below(files[k].lines, m) && !Dirty(files[k]))
  }

  ghost predicate OnDisk(files: Files, b: Bucket) {
    exists k :: k in files && b in files[k].lines
  }

  ghost predicate InTail(files: Files, b: Bucket) {
    exists k :: k in files && b in files[k].tail
  }

  ghost predicate LinesIn(d: Disk, p: (StreamId, Bucket) -> bool) {
    forall id, b :: OnDisk(FilesOf(d, id), b) ==> p(id, b)
  }

  ghost predicate TailsIn(d: Disk, q: (StreamId, Bucket) -> bool) {
    forall id, b :: InTail(FilesOf(d, id), b) ==> q(id, b)
  }

  /** No line was added to any stream: whatever holds of all lines still does. */
  ghost predicate Fewer(before: Disk, after: Disk) {
    forall p: (StreamId, Bucket) -> bool, q: (StreamId, Bucket) -> bool {:trigger LinesIn(before, p), TailsIn(before, q)} ::
      LinesIn(before, p) && TailsIn(before, q) ==> LinesIn(after, p) && TailsIn(after, q)
  }

  /** At most this line was added, to this stream. */
  ghost predicate Added(before: Disk, after: Disk, id: StreamId, line: Bucket) {
    forall p: (StreamId, Bucket) -> bool, q: (StreamId, Bucket) -> bool {:trigger LinesIn(before, p), TailsIn(before, q)} ::
      LinesIn(before, p) && TailsIn(before, q) && p(id, line) && q(id, line) ==> LinesIn(after, p) && TailsIn(after, q)
  }

  lemma AddedMeans(before: Disk, after: Disk, id: StreamId, line: Bucket)
    requires Added(before, after, id, line)
    ensures forall i, b :: OnDisk(FilesOf(after, i), b) ==> OnDisk(FilesOf(before, i), b) || (i == id && b == line)
    ensures forall i, b :: InTail(FilesOf(after, i), b) ==> InTail(FilesOf(before, i), b) || (i == id && b == line)
  {
    var p: (StreamId, Bucket) -> bool := (i: StreamId, b: Bucket) => OnDisk(FilesOf(before, i), b) || (i == id && b == line);
    var q: (StreamId, Bucket) -> bool := (i: StreamId, b: Bucket) => InTail(FilesOf(before, i), b) || (i == id && b == line);
    assert LinesIn(before, p) && TailsIn(before, q);
    assert LinesIn(after, p) && TailsIn(after, q);
  }

  lemma FewerMeans(before: Disk, after: Disk)
    requires Fewer(before, after)
    ensures forall i, b :: OnDisk(FilesOf(after, i), b) ==> OnDisk(FilesOf(before, i), b)
    ensures forall i, b :: InTail(FilesOf(after, i), b) ==> InTail(FilesOf(before, i), b)
  {
    var p: (StreamId, Bucket) -> bool := (i: StreamId, b: Bucket) => OnDisk(FilesOf(before, i), b);
    var q: (StreamId, Bucket) -> bool := (i: StreamId, b: Bucket) => InTail(FilesOf(before, i), b);
    assert LinesIn(before, p) && TailsIn(before, q);
    assert LinesIn(after, p) && TailsIn(after, q);
  }

  type Visible = map<(StreamId, nat), Bucket>

  /** What was published under these sequence numbers is what the lines say. */
  ghost predicate Agreeing(id: StreamId, lines: seq<Bucket>, visible: Visible) {
    forall b :: b in lines && (id, b.seqno) in visible ==> visible[(id, b.seqno)] == b
  }

  ghost predicate Unpublished(id: StreamId, tail: set<Bucket>, visible: Visible) {
    forall t :: t in tail ==> (id, t.seqno) !in visible
  }

  ghost predicate TailBelow(tail: set<Bucket>, n: int) {
    forall t :: t in tail ==> t.seqno < n
  }

  ghost predicate PublishedBelow(id: StreamId, visible: Visible, n: int) {
    forall m :: (id, m) in visible ==> m < n
  }

  /** Every line on disk has a sequence number at or below the durable reservation,
      and agrees with what was ever published. */
  ghost predicate FilesFit(id: StreamId, files: Files, st: PState, visible: Visible, cfg: Config) {
    && st.acked <= st.reserved
    && FilesOk(files, cfg)
    && (forall k :: k in files ==>
          && 1 <= k <= st.reserved + 1
          && Below(files[k].lines, st.reserved + 1) && TailBelow(files[k].tail, st.reserved + 1)
          && Agreeing(id, files[k].lines, visible) && Unpublished(id, files[k].tail, visible))
    && PublishedBelow(id, visible, st.reserved + 1)
  }

  ghost predicate StreamOk(s: Sys, id: StreamId) {
    && id in s.ids && id in s.disk.states
    && FilesFit(id, FilesOf(s.disk, id), s.disk.states[id], s.visible, s.cfg)
  }

  // ---- the process against its files ----

  /** The file holds the retained records of its range; the segment's counters match
      it, unless a failed compaction already shows and must be repeated. */
  ghost predicate SegOk(g: Seg, records: seq<Bucket>, overCap: bool, files: Files) {
    && g.first in files
    && Below(files[g.first].lines, g.last + 1)
    && Inside(InSeg(records, g), files[g.first].lines)
    && (SegOf(g.first, files[g.first].lines) == g || (overCap && |InSeg(records, g)| < g.count))
  }

  ghost predicate IsFirst(segs: seq<Seg>, key: nat) {
    exists i :: 0 <= i < |segs| && segs[i].first == key
  }

  ghost predicate SegsOrdered(segs: seq<Seg>) {
    forall i, j :: 0 <= i < j < |segs| ==> segs[i].first < segs[j].first && segs[i].last < segs[j].first
  }

  /** Everything in earlier files is older than the segment. */
  ghost predicate EarlierOlder(segs: seq<Seg>, files: Files) {
    forall i, k :: 0 <= i < |segs| && k in files && k < segs[i].first ==> Below(files[k].lines, segs[i].first)
  }

  /** Every nonempty file from the first segment on is a segment. */
  ghost predicate FilesAreSegs(segs: seq<Seg>, files: Files) {
    forall k :: k in files && segs != [] && k >= segs[0].first && files[k].lines != [] ==> IsFirst(segs, k)
  }

  ghost predicate OnlyLastDirty(segs: seq<Seg>, files: Files) {
    forall k :: k in files && Dirty(files[k]) ==> !files[k].torn && segs != [] && k == segs[|segs| - 1].first
  }

  ghost predicate LayoutOk(segs: seq<Seg>, files: Files) {
    SegsOrdered(segs) && EarlierOlder(segs, files) && FilesAreSegs(segs, files) && OnlyLastDirty(segs, files)
  }

  ghost predicate SegsOk(segs: seq<Seg>, records: seq<Bucket>, overCap: bool, files: Files) {
    && LayoutOk(segs, files)
    && (forall i :: 0 <= i < |segs| ==> SegOk(segs[i], records, overCap, files))
  }

  ghost predicate Covered(segs: seq<Seg>, b: Bucket) {
    exists i :: 0 <= i < |segs| && segs[i].first <= b.seqno <= segs[i].last
  }

  ghost predicate RecordsOk(segs: seq<Seg>, records: seq<Bucket>, nextSeq: nat) {
    && Ascending(records) && Below(records, nextSeq)
    && (forall b :: b in records ==> Covered(segs, b))
  }

  ghost predicate TailIs(tail: set<Bucket>, n: int) {
    forall t :: t in tail ==> t.seqno == n
  }

  ghost predicate CountersOk(id: StreamId, acked: nat, reserved: nat, nextSeq: nat, files: Files, st: PState, visible: Visible) {
    && acked < nextSeq <= reserved + 1
    && acked <= reserved <= st.reserved
    && (forall k :: k in files ==>
          && k <= nextSeq && Below(files[k].lines, nextSeq)
          && TailIs(files[k].tail, nextSeq) && (files[k].tail != {} ==> nextSeq <= reserved))
    && PublishedBelow(id, visible, nextSeq)
  }

  ghost predicate InflightOk(r: Ram, files: Files, cfg: Config) {
    r.inflight.Some? ==>
      && r.segs != [] && !r.overCap && r.inflight.value.seqno == r.nextSeq
      && LastSeg(r).count < cfg.segRecords
      && LastSeg(r).first in files
      && r.inflight.value in files[LastSeg(r).first].tail
      && r.nextSeq <= r.reserved
  }

  ghost predicate CoreOk(r: Ram, files: Files, st: PState, visible: Visible, cfg: Config) {
    && CountersOk(r.id, r.acked, r.reserved, r.nextSeq, files, st, visible)
    && SegsOk(r.segs, r.records, r.overCap, files)
    && RecordsOk(r.segs, r.records, r.nextSeq)
    && InflightOk(r, files, cfg)
  }

  /** The append handle is of no consequence. */
  ghost predicate RamOk(s: Sys, r: Ram) {
    && StreamOk(s, r.id)
    && CoreOk(r.(open := false), FilesOf(s.disk, r.id), s.disk.states[r.id], s.visible, s.cfg)
  }

  ghost predicate HistoryOk(s: Sys) {
    && s.cfg.segRecords > 0
    && (forall id, n :: (id, n) in s.visible ==> id in s.ids)
    && (forall id :: id in s.disk.states ==> id in s.ids)
    && (forall id :: id in s.disk.segs ==> id in s.ids)
  }

  ghost predicate RotatingOk(s: Sys) {
    s.rotating.Some? ==>
      var id := s.rotating.value;
      && id in s.ids && id in s.disk.states && s.disk.states[id] == PState(0, 0)
      && FilesOf(s.disk, id) == map[] && (forall n :: (id, n) !in s.visible)
      && (s.ram.Some? ==> s.ram.value.id != id)
  }

  ghost predicate Clean(files: Files) {
    forall k :: k in files ==> files[k].tail == {}
  }

  ghost predicate Inv(s: Sys) {
    && HistoryOk(s)
    && RotatingOk(s)
    && (s.disk.id.Some? ==> StreamOk(s, s.disk.id.value))
    && (s.ram.Some? ==> RamOk(s, s.ram.value))
    && (s.disk.id.Some? && (s.ram.None? || s.ram.value.id != s.disk.id.value) ==> Clean(FilesOf(s.disk, s.disk.id.value)))
  }

  lemma InitialInv(s: Sys)
    requires Initial(s)
    ensures Inv(s)
  {
  }

  // ---- identity ----

  /** Only what concerns a stream matters to it. */
  lemma StreamFrame(s: Sys, s': Sys, id: StreamId)
    requires StreamOk(s, id)
    requires s'.cfg == s.cfg && s'.visible == s.visible && id in s'.ids
    requires id in s'.disk.states && s'.disk.states[id] == s.disk.states[id]
    requires FilesOf(s'.disk, id) == FilesOf(s.disk, id)
    ensures StreamOk(s', id)
  {
  }

  lemma RamFrame(s: Sys, s': Sys, r: Ram, r': Ram)
    requires RamOk(s, r) && r' == r.(open := r'.open)
    requires s'.cfg == s.cfg && s'.visible == s.visible && r.id in s'.ids
    requires r.id in s'.disk.states && s'.disk.states[r.id] == s.disk.states[r.id]
    requires FilesOf(s'.disk, r.id) == FilesOf(s.disk, r.id)
    ensures RamOk(s', r')
  {
  }

  lemma NewStateKeepsInv(s: Sys, id: StreamId, w: WriteOutcome)
    requires Inv(s) && CanNewState(s, id)
    ensures Inv(NewStateDone(s, id, w))
  {
    var s' := NewStateDone(s, id, w);
    if s.disk.id.Some? { StreamFrame(s, s', s.disk.id.value); }
    if s.ram.Some? { RamFrame(s, s', s.ram.value, s'.ram.value); }
  }

  lemma EmptyStreamFits(id: StreamId, visible: Visible, cfg: Config)
    requires forall n :: (id, n) !in visible
    ensures FilesFit(id, map[], PState(0, 0), visible, cfg)
    ensures CoreOk(Ram(id, [], false, None, [], 0, 0, 1, false), map[], PState(0, 0), visible, cfg)
  {
  }

  lemma CommitKeepsInv(s: Sys, w: WriteOutcome)
    requires Inv(s) && CanCommit(s)
    ensures Inv(CommitDone(s, w))
  {
    var s' := CommitDone(s, w);
    var id := s.rotating.value;
    EmptyStreamFits(id, s.visible, s.cfg);
    assert FilesOf(s'.disk, id) == map[];
    if w != Lost {
      assert StreamOk(s', id);
      assert Clean(FilesOf(s'.disk, id));
    } else if s.disk.id.Some? {
      StreamFrame(s, s', s.disk.id.value);
    }
    if s.ram.Some? {
      if w == Durable {
        assert RamOk(s', s'.ram.value);
      } else {
        RamFrame(s, s', s.ram.value, s'.ram.value);
      }
    }
  }

  lemma OrphansKeepInv(s: Sys, gone: set<StreamId>)
    requires Inv(s) && CanRemoveOrphans(s, gone)
    ensures Inv(OrphansRemoved(s, gone))
  {
    var s' := OrphansRemoved(s, gone);
    StreamFrame(s, s', s.disk.id.value);
    if s.ram.Some? { RamFrame(s, s', s.ram.value, s'.ram.value); }
  }

  /** A step of the process that touches only its own stream. */
  lemma OwnStream(s: Sys, s': Sys)
    requires Inv(s) && s.ram.Some? && s'.ram.Some? && s'.ram.value.id == s.ram.value.id
    requires s'.cfg == s.cfg && s'.visible == s.visible && s'.ids == s.ids && s'.rotating == s.rotating
    requires s'.disk.id == s.disk.id
    requires s'.disk.states.Keys == s.disk.states.Keys
    requires forall id :: id in s.disk.states && id != s.ram.value.id ==> s'.disk.states[id] == s.disk.states[id]
    requires forall id :: id != s.ram.value.id ==> FilesOf(s'.disk, id) == FilesOf(s.disk, id)
    requires forall id :: id in s'.disk.segs ==> id in s.ids
    requires (var r := s.ram.value;
              && r.id in s'.disk.states
              && FilesFit(r.id, FilesOf(s'.disk, r.id), s'.disk.states[r.id], s.visible, s.cfg)
              && CoreOk(s'.ram.value.(open := false), FilesOf(s'.disk, r.id), s'.disk.states[r.id], s.visible, s.cfg))
    ensures Inv(s')
  {
    var r := s.ram.value;
    if s.disk.id.Some? && s.disk.id.value != r.id {
      StreamFrame(s, s', s.disk.id.value);
    }
  }

  lemma SetStateKeepsInv(s: Sys, st: PState, w: WriteOutcome)
    requires Inv(s) && CanSetState(s, st)
    ensures Inv(StateSet(s, st, w))
  {
    var s' := StateSet(s, st, w);
    var r := s.ram.value;
    var files := FilesOf(s.disk, r.id);
    assert r.id in s.disk.states && s'.disk.segs == s.disk.segs && FilesOf(s'.disk, r.id) == files;
    StateWriteFits(r.(open := false), s'.ram.value.(open := false), files, s.disk.states[r.id], s'.disk.states[r.id], s.visible, s.cfg);
    OwnStream(s, s');
  }

  lemma StateWriteFits(r: Ram, r': Ram, files: Files, st: PState, st': PState, visible: Visible, cfg: Config)
    requires FilesFit(r.id, files, st, visible, cfg) && CoreOk(r, files, st, visible, cfg)
    requires r' == r.(acked := r'.acked, reserved := r'.reserved)
    requires r'.acked >= r.acked && r'.reserved >= r.reserved && r'.acked < r.nextSeq
    requires r'.reserved <= st'.reserved && st'.acked <= st'.reserved
    ensures FilesFit(r.id, files, st', visible, cfg) && CoreOk(r', files, st', visible, cfg)
  {
    FilesFitState(r.id, r.nextSeq, files, st, st', visible, cfg);
    assert CountersOk(r'.id, r'.acked, r'.reserved, r'.nextSeq, files, st', visible);
  }

  lemma FilesFitState(id: StreamId, nextSeq: nat, files: Files, st: PState, st': PState, visible: Visible, cfg: Config)
    requires FilesFit(id, files, st, visible, cfg)
    requires nextSeq <= st'.reserved + 1 && st'.acked <= st'.reserved
    requires forall k :: k in files ==>
               k <= nextSeq && Below(files[k].lines, nextSeq) && TailIs(files[k].tail, nextSeq) && (files[k].tail != {} ==> nextSeq <= st'.reserved)
    requires PublishedBelow(id, visible, nextSeq)
    ensures FilesFit(id, files, st', visible, cfg)
  {
  }

  /** The stream of the running process, as values. */
  ghost predicate Fits(r: Ram, files: Files, st: PState, visible: Visible, cfg: Config) {
    FilesFit(r.id, files, st, visible, cfg) && CoreOk(r, files, st, visible, cfg)
  }

  /** When the last segment is full there is nothing dirty, and a file named by the
      next sequence number could only be an empty leftover. */
  lemma FullMeansClean(r: Ram, files: Files, st: PState, visible: Visible, cfg: Config)
    requires Fits(r, files, st, visible, cfg) && !r.overCap && NeedsSegment(r, cfg)
    ensures forall k :: k in files ==> !Dirty(files[k])
    ensures r.nextSeq in files ==> files[r.nextSeq].lines == []
    ensures forall i :: 0 <= i < |r.segs| ==> r.segs[i].first <= r.nextSeq && r.segs[i].last < r.nextSeq
    ensures cfg.segRecords > 0 ==> forall i :: 0 <= i < |r.segs| ==> r.segs[i].first < r.nextSeq
  {
    LeftoverIsEmpty(r.nextSeq, files, cfg);
    if r.segs != [] { FullIsClean(r.segs, r.records, files, cfg); }
    forall i | 0 <= i < |r.segs|
      ensures r.segs[i].first <= r.nextSeq && r.segs[i].last < r.nextSeq && (cfg.segRecords > 0 ==> r.segs[i].first < r.nextSeq)
    {
      SegLastBelow(r.segs[i], r.records, files, r.nextSeq);
      if i == |r.segs| - 1 && cfg.segRecords > 0 {
        assert FileOk(r.segs[i].first, files[r.segs[i].first], cfg);
        LastIsOlder(r.segs[i], r.records, files, r.nextSeq);
      }
    }
  }

  lemma LeftoverIsEmpty(n: nat, files: Files, cfg: Config)
    requires FilesOk(files, cfg) && forall k :: k in files ==> Below(files[k].lines, n)
    ensures n in files ==> files[n].lines == []
  {
    if n in files {
      assert FileOk(n, files[n], cfg);
      EmptyRange(files[n].lines, n);
    }
  }

  /** A full last segment has no unfinished line, so nothing has. */
  lemma FullIsClean(segs: seq<Seg>, records: seq<Bucket>, files: Files, cfg: Config)
    requires SegsOk(segs, records, false, files) && FilesOk(files, cfg) && segs != [] && segs[|segs| - 1].count >= cfg.segRecords
    ensures forall k :: k in files ==> !Dirty(files[k])
  {
  }

  lemma LastIsOlder(g: Seg, records: seq<Bucket>, files: Files, n: nat)
    requires SegOk(g, records, false, files) && g.count > 0
    requires Below(files[g.first].lines, n) && From(files[g.first].lines, g.first)
    ensures g.first < n
  {
  }

  lemma EmptyRange(s: seq<Bucket>, n: nat)
    requires From(s, n) && Below(s, n)
    ensures s == []
  {
    var last := LastSeq(s);
    assert s == [] || exists b :: b in s && b.seqno == last;
  }

  lemma SegLastBelow(g: Seg, records: seq<Bucket>, files: Files, n: nat)
    requires SegOk(g, records, false, files) && n > 0
    requires forall k :: k in files ==> k <= n && Below(files[k].lines, n)
    ensures g.first <= n && g.last < n
  {
  }

  lemma FreshFileFits(id: StreamId, n: nat, files: Files, st: PState, visible: Visible, cfg: Config)
    requires FilesFit(id, files, st, visible, cfg)
    requires forall k :: k in files ==> !Dirty(files[k]) && k <= n
    requires n in files ==> files[n].lines == []
    requires 1 <= n <= st.reserved + 1
    ensures FilesFit(id, files[n := SegFile([], {}, false)], st, visible, cfg)
  {
    var files' := files[n := SegFile([], {}, false)];
    assert forall k :: k in files' && files'[k].lines != [] ==> k in files && files'[k] == files[k];
    assert forall k :: k in files' ==> !Dirty(files'[k]);
  }

  lemma CreateFits(r: Ram, files: Files, st: PState, visible: Visible, cfg: Config)
    requires Fits(r, files, st, visible, cfg) && cfg.segRecords > 0
    requires Idle(r) && !r.overCap && NeedsSegment(r, cfg)
    ensures Fits(r, files[r.nextSeq := SegFile([], {}, false)], st, visible, cfg)
    ensures Fits(r.(segs := r.segs + [Seg(r.nextSeq, 0, 0, 0)]), files[r.nextSeq := SegFile([], {}, false)], st, visible, cfg)
  {
    var files' := files[r.nextSeq := SegFile([], {}, false)];
    FullMeansClean(r, files, st, visible, cfg);
    FreshFileFits(r.id, r.nextSeq, files, st, visible, cfg);
    assert CountersOk(r.id, r.acked, r.reserved, r.nextSeq, files', st, visible);
    FreshSegsOk(r.segs, r.records, r.nextSeq, files);
    CoverGrows(r.segs, Seg(r.nextSeq, 0, 0, 0), r.records, r.nextSeq);
    CreatedHolds(r, files', st, visible, cfg);
  }

  lemma CreatedHolds(r: Ram, files': Files, st: PState, visible: Visible, cfg: Config)
    requires FilesFit(r.id, files', st, visible, cfg)
    requires CountersOk(r.id, r.acked, r.reserved, r.nextSeq, files', st, visible)
    requires SegsOk(r.segs, r.records, false, files') && Idle(r) && !r.overCap
    requires RecordsOk(r.segs, r.records, r.nextSeq)
    requires RecordsOk(r.segs + [Seg(r.nextSeq, 0, 0, 0)], r.records, r.nextSeq)
    requires r.nextSeq in files' && files'[r.nextSeq] == SegFile([], {}, false)
    requires forall k :: k in files' ==> !Dirty(files'[k])
    requires forall i :: 0 <= i < |r.segs| ==> r.segs[i].first < r.nextSeq && r.segs[i].last < r.nextSeq
    ensures Fits(r, files', st, visible, cfg)
    ensures Fits(r.(segs := r.segs + [Seg(r.nextSeq, 0, 0, 0)]), files', st, visible, cfg)
  {
    CreatedSegsOk(r.segs, r.records, r.nextSeq, files');
  }

  lemma FreshSegsOk(segs: seq<Seg>, records: seq<Bucket>, n: nat, files: Files)
    requires SegsOk(segs, records, false, files)
    requires forall k :: k in files ==> !Dirty(files[k])
    requires n in files ==> files[n].lines == []
    requires forall i :: 0 <= i < |segs| ==> segs[i].first < n
    ensures SegsOk(segs, records, false, files[n := SegFile([], {}, false)])
  {
    var files' := files[n := SegFile([], {}, false)];
    forall i | 0 <= i < |segs| ensures SegOk(segs[i], records, false, files') {
      assert SegOk(segs[i], records, false, files);
    }
  }

  lemma CoverGrows(segs: seq<Seg>, g: Seg, records: seq<Bucket>, nextSeq: nat)
    requires RecordsOk(segs, records, nextSeq)
    ensures RecordsOk(segs + [g], records, nextSeq)
  {
    forall b | b in records ensures Covered(segs + [g], b) {
      assert Covered(segs, b);
      var i :| 0 <= i < |segs| && segs[i].first <= b.seqno <= segs[i].last;
      assert (segs + [g])[i] == segs[i];
    }
  }

  lemma CreatedSegsOk(segs: seq<Seg>, records: seq<Bucket>, n: nat, files: Files)
    requires SegsOk(segs, records, false, files)
    requires n > 0 && n in files && files[n] == SegFile([], {}, false)
    requires forall k :: k in files ==> !Dirty(files[k]) && k <= n
    requires forall k :: k in files ==> Below(files[k].lines, n)
    requires forall i :: 0 <= i < |segs| ==> segs[i].first < n && segs[i].last < n
    ensures SegsOk(segs + [Seg(n, 0, 0, 0)], records, false, files)
  {
    var segs' := segs + [Seg(n, 0, 0, 0)];
    forall i | 0 <= i < |segs'| ensures SegOk(segs'[i], records, false, files) {
      if i < |segs| { assert SegOk(segs[i], records, false, files); }
    }
    forall k | k in files && k >= segs'[0].first && files[k].lines != []
      ensures IsFirst(segs', k)
    {
      if segs != [] {
        assert IsFirst(segs, k);
        var i :| 0 <= i < |segs| && segs[i].first == k;
        assert segs'[i].first == k;
      }
    }
  }

  // ---- append ----

  lemma SegsOkTail(segs: seq<Seg>, records: seq<Bucket>, files: Files, key: nat, tail: set<Bucket>)
    requires SegsOk(segs, records, false, files)
    requires segs != [] && key == segs[|segs| - 1].first && key in files && !files[key].torn
    ensures SegsOk(segs, records, false, files[key := files[key].(tail := tail)])
  {
    var files' := files[key := files[key].(tail := tail)];
    forall i | 0 <= i < |segs| ensures SegOk(segs[i], records, false, files') {
      assert SegOk(segs[i], records, false, files);
    }
  }

  lemma NothingAfterLast(segs: seq<Seg>, files: Files)
    requires LayoutOk(segs, files) && segs != []
    ensures forall m :: m in files && m > segs[|segs| - 1].first ==> files[m].lines == [] && !Dirty(files[m])
  {
  }

  lemma TailFilesOk(segs: seq<Seg>, files: Files, cfg: Config, t: Bucket)
    requires FilesOk(files, cfg) && LayoutOk(segs, files) && segs != []
    requires segs[|segs| - 1].first in files && |files[segs[|segs| - 1].first].lines| < cfg.segRecords
    requires segs[|segs| - 1].first <= t.seqno && Below(files[segs[|segs| - 1].first].lines, t.seqno)
    requires LineBytes(t) <= MAX_LINE + 1
    ensures var key := segs[|segs| - 1].first; FilesOk(files[key := files[key].(tail := files[key].tail + {t})], cfg)
  {
    var key := segs[|segs| - 1].first;
    var files' := files[key := files[key].(tail := files[key].tail + {t})];
    NothingAfterLast(segs, files);
    forall k | k in files' ensures FileOk(k, files'[k], cfg) { assert FileOk(k, files[k], cfg); }
    forall k, m | k in files' && m in files' && k < m && (files'[m].lines != [] || Dirty(files'[m]))
      ensures Below(files'[k].lines, m) && !Dirty(files'[k])
    {
    }
  }

  /** The last segment's file while it is not full. */
  lemma LastFile(r: Ram, files: Files, st: PState, visible: Visible, cfg: Config)
    requires CoreOk(r, files, st, visible, cfg) && !r.overCap && !NeedsSegment(r, cfg) && LastSeg(r).first in files
    ensures var key := LastSeg(r).first;
            key <= r.nextSeq && Below(files[key].lines, r.nextSeq) && |files[key].lines| < cfg.segRecords
    ensures r.reserved <= st.reserved && (r.id, r.nextSeq) !in visible
  {
  }

  lemma TailFilesFit(id: StreamId, segs: seq<Seg>, files: Files, st: PState, visible: Visible, cfg: Config, b: Bucket)
    requires FilesFit(id, files, st, visible, cfg) && LayoutOk(segs, files) && segs != []
    requires segs[|segs| - 1].first in files && |files[segs[|segs| - 1].first].lines| < cfg.segRecords
    requires segs[|segs| - 1].first <= b.seqno && Below(files[segs[|segs| - 1].first].lines, b.seqno)
    requires LineBytes(b) <= MAX_LINE + 1 && b.seqno <= st.reserved && (id, b.seqno) !in visible
    ensures var key := segs[|segs| - 1].first;
            FilesFit(id, files[key := files[key].(tail := files[key].tail + {b})], st, visible, cfg)
  {
    TailFilesOk(segs, files, cfg, b);
  }

  lemma TailFits(r: Ram, files: Files, st: PState, visible: Visible, cfg: Config, b: Bucket)
    requires Fits(r, files, st, visible, cfg) && !r.overCap && !NeedsSegment(r, cfg)
    requires b.seqno == r.nextSeq && r.nextSeq <= r.reserved && LastSeg(r).first in files && LineBytes(b) <= MAX_LINE + 1
    ensures FilesFit(r.id, files[LastSeg(r).first := files[LastSeg(r).first].(tail := files[LastSeg(r).first].tail + {b})], st, visible, cfg)
  {
    LastFile(r, files, st, visible, cfg);
    TailFilesFit(r.id, r.segs, files, st, visible, cfg, b);
  }

  lemma WriteFits(r: Ram, files: Files, st: PState, visible: Visible, cfg: Config, b: Bucket)
    requires Fits(r, files, st, visible, cfg) && !r.overCap && !NeedsSegment(r, cfg) && Idle(r)
    requires b.seqno == r.nextSeq && r.nextSeq <= r.reserved && LastSeg(r).first in files && LineBytes(b) <= MAX_LINE + 1
    ensures var files' := files[LastSeg(r).first := files[LastSeg(r).first].(tail := files[LastSeg(r).first].tail + {b})];
            Fits(r, files', st, visible, cfg) && Fits(r.(inflight := Some(b)), files', st, visible, cfg)
  {
    TailFits(r, files, st, visible, cfg, b);
    WrittenCore(r, files, st, visible, cfg, b);
  }

  lemma WrittenCore(r: Ram, files: Files, st: PState, visible: Visible, cfg: Config, b: Bucket)
    requires CoreOk(r, files, st, visible, cfg) && !r.overCap && !NeedsSegment(r, cfg) && Idle(r)
    requires b.seqno == r.nextSeq && r.nextSeq <= r.reserved && LastSeg(r).first in files
    ensures var files' := files[LastSeg(r).first := files[LastSeg(r).first].(tail := files[LastSeg(r).first].tail + {b})];
            CoreOk(r, files', st, visible, cfg) && CoreOk(r.(inflight := Some(b)), files', st, visible, cfg)
  {
    var key := LastSeg(r).first;
    assert !files[key].torn;
    SegsOkTail(r.segs, r.records, files, key, files[key].tail + {b});
    WrittenCounters(r, files, st, visible, key, b);
  }

  lemma WrittenCounters(r: Ram, files: Files, st: PState, visible: Visible, key: nat, b: Bucket)
    requires CountersOk(r.id, r.acked, r.reserved, r.nextSeq, files, st, visible)
    requires key in files && b.seqno == r.nextSeq <= r.reserved
    ensures CountersOk(r.id, r.acked, r.reserved, r.nextSeq, files[key := files[key].(tail := files[key].tail + {b})], st, visible)
  {
  }

  /** Retained records from the last segment on are all in the last segment. */
  lemma LateRecordsAreLast(segs: seq<Seg>, records: seq<Bucket>, files: Files, n: nat, b: Bucket)
    requires SegsOk(segs, records, false, files) && RecordsOk(segs, records, n) && segs != []
    requires b in records && b.seqno >= segs[|segs| - 1].first
    ensures b in InSeg(records, segs[|segs| - 1])
  {
    assert forall i :: 0 <= i < |segs| - 1 ==> segs[i].last < segs[|segs| - 1].first;
    assert Covered(segs, b);
  }

  /** Changing the contents of one segment's file keeps the layout. */
  lemma LayoutReplaced(segs: seq<Seg>, segs': seq<Seg>, files: Files, j: nat, f: SegFile)
    requires LayoutOk(segs, files) && j < |segs| && segs[j].first in files
    requires |segs'| == |segs| && segs' == segs[j := segs'[j]] && segs'[j].first == segs[j].first
    requires j + 1 < |segs| ==> segs'[j].last < segs[j + 1].first && segs'[j].last <= segs[j].last && Inside(f.lines, files[segs[j].first].lines)
    requires f.lines != [] || files[segs[j].first].lines == []
    requires !f.torn && (f.tail != {} ==> j + 1 == |segs|)
    ensures LayoutOk(segs', files[segs[j].first := f])
  {
    var files' := files[segs[j].first := f];
    NothingAfterLast(segs, files);
    forall k | k in files' && k >= segs'[0].first && files'[k].lines != [] ensures IsFirst(segs', k) {
      if k == segs[j].first { assert segs'[j].first == k; }
      else {
        assert IsFirst(segs, k);
        var i :| 0 <= i < |segs| && segs[i].first == k;
        assert segs'[i].first == k;
      }
    }
    forall i, k | 0 <= i < |segs'| && k in files' && k < segs'[i].first
      ensures Below(files'[k].lines, segs'[i].first)
    {
      assert Below(files[k].lines, segs[i].first);
    }
    forall x, y | 0 <= x < y < |segs'| ensures segs'[x].first < segs'[y].first && segs'[x].last < segs'[y].first {
      assert segs[x].first < segs[y].first && segs[x].last < segs[y].first;
    }
  }

  /** The fsynced line joins the last file, the last segment and the records. */
  lemma SyncedSegsOk(segs: seq<Seg>, records: seq<Bucket>, files: Files, b: Bucket)
    requires SegsOk(segs, records, false, files) && RecordsOk(segs, records, b.seqno) && segs != []
    requires var key := segs[|segs| - 1].first; key in files && key <= b.seqno && Below(files[key].lines, b.seqno)
    ensures var g := segs[|segs| - 1];
            SegsOk(segs[|segs| - 1 := Grown(g, b)], records + [b], false,
                   files[g.first := SegFile(files[g.first].lines + [b], {}, false)])
  {
    var g := segs[|segs| - 1];
    var lines := files[g.first].lines;
    var files' := files[g.first := SegFile(lines + [b], {}, false)];
    var segs' := segs[|segs| - 1 := Grown(g, b)];
    LayoutReplaced(segs, segs', files, |segs| - 1, SegFile(lines + [b], {}, false));
    forall i | 0 <= i < |segs'| ensures SegOk(segs'[i], records + [b], false, files') {
      assert SegOk(segs[i], records, false, files);
      if i < |segs| - 1 {
        SegOkAppend(segs[i], records, files, files', b);
      } else {
        GrownOk(segs, records, files, b);
      }
    }
  }

  lemma SegOkAppend(g: Seg, records: seq<Bucket>, files: Files, files': Files, b: Bucket)
    requires SegOk(g, records, false, files) && g.last < b.seqno
    requires g.first in files' && files'[g.first] == files[g.first]
    ensures SegOk(g, records + [b], false, files')
  {
  }

  lemma GrownOk(segs: seq<Seg>, records: seq<Bucket>, files: Files, b: Bucket)
    requires SegsOk(segs, records, false, files) && RecordsOk(segs, records, b.seqno) && segs != []
    requires var key := segs[|segs| - 1].first; key in files && key <= b.seqno && Below(files[key].lines, b.seqno)
    ensures var g := segs[|segs| - 1];
            SegOk(Grown(g, b), records + [b], false, files[g.first := SegFile(files[g.first].lines + [b], {}, false)])
  {
    var g := segs[|segs| - 1];
    var lines := files[g.first].lines;
    assert SegOk(g, records, false, files);
    BytesAppend(lines, [b]);
    BytesOne(b);
    forall x | x in InSeg(records + [b], Grown(g, b)) ensures x in lines + [b] {
      if x in records { LateRecordsAreLast(segs, records, files, b.seqno, x); }
    }
  }

  lemma SyncedFileOk(key: nat, f: SegFile, cfg: Config, b: Bucket)
    requires FileOk(key, f, cfg) && b in f.tail
    ensures FileOk(key, SegFile(f.lines + [b], {}, false), cfg)
  {
  }

  lemma SyncedFilesOk(segs: seq<Seg>, files: Files, cfg: Config, b: Bucket)
    requires FilesOk(files, cfg) && LayoutOk(segs, files) && segs != []
    requires segs[|segs| - 1].first in files && b in files[segs[|segs| - 1].first].tail
    ensures var key := segs[|segs| - 1].first; FilesOk(files[key := SegFile(files[key].lines + [b], {}, false)], cfg)
  {
    var key := segs[|segs| - 1].first;
    var files' := files[key := SegFile(files[key].lines + [b], {}, false)];
    NothingAfterLast(segs, files);
    SyncedFileOk(key, files[key], cfg, b);
    forall k, m | k in files' && m in files' && k < m && (files'[m].lines != [] || Dirty(files'[m]))
      ensures Below(files'[k].lines, m) && !Dirty(files'[k])
    {
      assert k != key;
      assert Below(files[k].lines, m) && !Dirty(files[k]);
    }
  }

  lemma SyncedFilesFit(id: StreamId, segs: seq<Seg>, files: Files, st: PState, visible: Visible, cfg: Config, b: Bucket)
    requires FilesFit(id, files, st, visible, cfg) && LayoutOk(segs, files) && segs != []
    requires segs[|segs| - 1].first in files && b in files[segs[|segs| - 1].first].tail
    ensures var key := segs[|segs| - 1].first;
            FilesFit(id, files[key := SegFile(files[key].lines + [b], {}, false)], st, visible, cfg)
  {
    SyncedFilesOk(segs, files, cfg, b);
  }

  lemma SyncedRecordsOk(segs: seq<Seg>, records: seq<Bucket>, b: Bucket)
    requires RecordsOk(segs, records, b.seqno) && segs != [] && segs[|segs| - 1].first <= b.seqno
    requires segs[|segs| - 1].last <= b.seqno
    ensures RecordsOk(segs[|segs| - 1 := Grown(segs[|segs| - 1], b)], records + [b], b.seqno + 1)
  {
    var segs' := segs[|segs| - 1 := Grown(segs[|segs| - 1], b)];
    forall x | x in records + [b] ensures Covered(segs', x) {
      if x in records {
        assert Covered(segs, x);
        var i :| 0 <= i < |segs| && segs[i].first <= x.seqno <= segs[i].last;
        assert segs'[i].first <= x.seqno <= segs'[i].last;
      } else {
        assert segs'[|segs| - 1].first <= x.seqno <= segs'[|segs| - 1].last;
      }
    }
  }

  /** What a written line tells about the last segment. */
  lemma InflightFacts(r: Ram, files: Files, st: PState, visible: Visible, cfg: Config)
    requires Fits(r, files, st, visible, cfg) && r.inflight.Some? && r.segs != []
    ensures LastSeg(r).first in files && LastSeg(r).first <= r.nextSeq && LastSeg(r).last < r.nextSeq
    ensures r.inflight.value in files[LastSeg(r).first].tail && Below(files[LastSeg(r).first].lines, r.nextSeq)
    ensures r.inflight.value.seqno == r.nextSeq <= r.reserved && !r.overCap
    ensures forall k :: k in files && k != LastSeg(r).first ==> files[k].tail == {}
  {
    assert SegOk(LastSeg(r), r.records, false, files);
    SegLastBelow(LastSeg(r), r.records, files, r.nextSeq);
  }

  lemma SyncFits(r: Ram, files: Files, st: PState, visible: Visible, cfg: Config)
    requires Fits(r, files, st, visible, cfg) && r.inflight.Some? && r.segs != []
    ensures LastSeg(r).first in files
    ensures var key := LastSeg(r).first;
            Fits(RamSynced(r), files[key := SegFile(files[key].lines + [r.inflight.value], {}, false)], st, visible, cfg)
  {
    InflightFacts(r, files, st, visible, cfg);
    SyncedFilesFit(r.id, r.segs, files, st, visible, cfg, r.inflight.value);
    SyncedRamCounters(r, files, st, visible);
    SyncedRamSegs(r, files);
    CoreFrom(RamSynced(r), SyncedAs(r, files), st, visible, cfg);
  }

  /** The core of a process with nothing in flight, from its parts. */
  lemma CoreFrom(r: Ram, files: Files, st: PState, visible: Visible, cfg: Config)
    requires CountersOk(r.id, r.acked, r.reserved, r.nextSeq, files, st, visible)
    requires SegsOk(r.segs, r.records, r.overCap, files) && RecordsOk(r.segs, r.records, r.nextSeq) && r.inflight.None?
    ensures CoreOk(r, files, st, visible, cfg)
  {
  }

  function SyncedAs(r: Ram, files: Files): Files
    requires r.inflight.Some? && r.segs != [] && LastSeg(r).first in files
  {
    files[LastSeg(r).first := SegFile(files[LastSeg(r).first].lines + [r.inflight.value], {}, false)]
  }

  lemma SyncedRamCounters(r: Ram, files: Files, st: PState, visible: Visible)
    requires CountersOk(r.id, r.acked, r.reserved, r.nextSeq, files, st, visible)
    requires r.inflight.Some? && r.segs != [] && LastSeg(r).first in files && r.inflight.value.seqno == r.nextSeq <= r.reserved
    requires forall k :: k in files && k != LastSeg(r).first ==> files[k].tail == {}
    ensures var r' := RamSynced(r); CountersOk(r'.id, r'.acked, r'.reserved, r'.nextSeq, SyncedAs(r, files), st, visible)
  {
  }

  lemma SyncedRamSegs(r: Ram, files: Files)
    requires SegsOk(r.segs, r.records, false, files) && RecordsOk(r.segs, r.records, r.nextSeq) && r.segs != [] && !r.overCap
    requires LastSeg(r).first in files && LastSeg(r).first <= r.nextSeq && LastSeg(r).last < r.nextSeq
    requires Below(files[LastSeg(r).first].lines, r.nextSeq) && r.inflight.Some? && r.inflight.value.seqno == r.nextSeq
    ensures var r' := RamSynced(r);
            SegsOk(r'.segs, r'.records, r'.overCap, SyncedAs(r, files)) && RecordsOk(r'.segs, r'.records, r'.nextSeq)
  {
    SyncedSegsOk(r.segs, r.records, files, r.inflight.value);
    SyncedRecordsOk(r.segs, r.records, r.inflight.value);
  }

  lemma UnsyncedFits(r: Ram, files: Files, st: PState, visible: Visible, cfg: Config)
    requires Fits(r, files, st, visible, cfg)
    ensures Fits(r.(inflight := None), files, st, visible, cfg)
  {
  }
}
