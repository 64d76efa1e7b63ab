/** The power journal at the granularity of single disk operations. A crash may fall
    between any two of them. Returned renames and unlinks persist; a failed atomic
    write may or may not have replaced the file; appended but unsynced lines may be
    lost, torn or survive. */
module JournalMachine {
  import opened Common
  import opened JournalTypes

  datatype Seg = Seg(first: nat, last: nat, count: nat, bytes: nat)

  /** The journal process. `open` is the append handle, `inflight` the line of the
      append that has been written but not yet fsynced. */
  datatype Ram = Ram(id: StreamId, segs: seq<Seg>, open: bool, inflight: Option<Bucket>,
                     records: seq<Bucket>, acked: nat, reserved: nat, nextSeq: nat, overCap: bool)

  /** `rotating` is the identity whose state file was just written; `ids` and
      `visible` are history: every identity ever drawn, and every record of every
      published snapshot by (stream, sequence number). */
  datatype Sys = Sys(cfg: Config, disk: Disk, ram: Option<Ram>, rotating: Option<StreamId>,
                     ids: set<StreamId>, visible: map<(StreamId, nat), Bucket>)

  datatype Action =
    | NewState(id: StreamId, w: WriteOutcome)
    | CommitIdentity(w: WriteOutcome)
    | RemoveOrphans(gone: set<StreamId>)
    | Trim(file: nat, n: nat)
    | RemoveFile(file: nat)
    | Load(lo: nat)
    | SetState(st: PState, w: WriteOutcome)
    | CreateSeg(w: WriteOutcome)
    | OpenLast
    | CloseHandle
    | Write(b: Bucket, ok: bool)
    | Sync(ok: bool)
    | Expire(now: int)
    | RemoveSeg(i: nat, ok: bool)
    | CompactSeg(i: nat, w: WriteOutcome)
    | CapRemove(ok: bool)
    | Settle
    | Publish
    | Crash(left: Files)

  // ---- reading a directory ----

  function Lines(files: Files, key: nat): seq<Bucket> {
    if key in files then files[key].lines else []
  }

  function Concat(files: Files, keys: seq<nat>): seq<Bucket> {
    if keys == [] then [] else Lines(files, keys[0]) + Concat(files, keys[1..])
  }

  ghost predicate SortedKeys(keys: seq<nat>) {
    forall i, j :: 0 <= i < j < |keys| ==> keys[i] < keys[j]
  }

  /** `keys` names the nonempty files from `lo` on, in order. */
  ghost predicate LoadKeys(files: Files, lo: nat, keys: seq<nat>) {
    && SortedKeys(keys)
    && (forall k :: k in keys <==> k in files && lo <= k && files[k].lines != [])
  }

  function LastSeq(s: seq<Bucket>): nat {
    if s == [] then 0 else s[|s| - 1].seqno
  }

  function SegOf(first: nat, lines: seq<Bucket>): Seg {
    Seg(first, LastSeq(lines), |lines|, Bytes(lines))
  }

  function SegsOf(files: Files, keys: seq<nat>): (segs: seq<Seg>)
    ensures |segs| == |keys|
    ensures forall i :: 0 <= i < |keys| ==> segs[i] == SegOf(keys[i], Lines(files, keys[i]))
  {
    if keys == [] then [] else [SegOf(keys[0], Lines(files, keys[0]))] + SegsOf(files, keys[1..])
  }

  function SegBytes(segs: seq<Seg>): nat {
    if segs == [] then 0 else segs[0].bytes + SegBytes(segs[1..])
  }

  /** The retained records that belong to a segment. */
  function InSeg(records: seq<Bucket>, s: Seg): seq<Bucket> {
    Between(records, s.first, s.last)
  }

  function Keys(r: Ram): set<(StreamId, nat)> {
    set b | b in r.records :: (r.id, b.seqno)
  }

  function Find(records: seq<Bucket>, seqno: nat): (b: Bucket)
    requires exists b :: b in records && b.seqno == seqno
    ensures b in records && b.seqno == seqno
  {
    if records[0].seqno == seqno then records[0] else Find(records[1..], seqno)
  }

  // ---- crashes ----

  ghost predicate CrashLeaves(before: SegFile, after: SegFile) {
    && after.tail == {}
    && (before.tail == {} ==> after == before)
    && (before.tail != {} ==>
          after.lines == before.lines || exists b :: b in before.tail && after.lines == before.lines + [b])
  }

  ghost predicate CrashFiles(before: Files, after: Files) {
    && after.Keys == before.Keys
    && forall k :: k in before ==> CrashLeaves(before[k], after[k])
  }

  // ---- steps ----

  function WithFile(s: Sys, id: StreamId, key: nat, f: SegFile): Sys {
    s.(disk := s.disk.(segs := s.disk.segs[id := FilesOf(s.disk, id)[key := f]]))
  }

  function WithoutFile(s: Sys, id: StreamId, key: nat): Sys {
    s.(disk := s.disk.(segs := s.disk.segs[id := FilesOf(s.disk, id) - {key}]))
  }

  predicate Idle(r: Ram) {
    r.inflight.None?
  }

  function LastSeg(r: Ram): Seg
    requires r.segs != []
  {
    r.segs[|r.segs| - 1]
  }

  predicate NeedsSegment(r: Ram, cfg: Config) {
    r.segs == [] || LastSeg(r).count >= cfg.segRecords
  }

  // ---- identity ----

  ghost predicate CanNewState(s: Sys, id: StreamId) {
    id !in s.ids && (s.ram.Some? ==> Idle(s.ram.value))
  }

  /** The new identity's state file is written first. */
  function NewStateDone(s: Sys, id: StreamId, w: WriteOutcome): Sys {
    Sys(s.cfg,
        if w == Lost then s.disk else s.disk.(states := s.disk.states[id := PState(0, 0)]),
        if s.ram.Some? then Some(s.ram.value.(open := false)) else None,
        if w == Durable then Some(id) else None,
        s.ids + {id}, s.visible)
  }

  ghost predicate CanCommit(s: Sys) {
    s.rotating.Some? && (s.ram.Some? ==> Idle(s.ram.value))
  }

  /** The one rename that makes the new identity current. */
  function CommitDone(s: Sys, w: WriteOutcome): Sys
    requires s.rotating.Some?
  {
    Sys(s.cfg,
        if w == Lost then s.disk else s.disk.(id := s.rotating),
        if w == Durable && s.ram.Some? then Some(Ram(s.rotating.value, [], false, None, [], 0, 0, 1, false)) else s.ram,
        None, s.ids, s.visible)
  }

  ghost predicate CanRemoveOrphans(s: Sys, gone: set<StreamId>) {
    && s.rotating.None? && s.disk.id.Some? && s.disk.id.value !in gone
    && (s.ram.Some? ==> s.ram.value.id == s.disk.id.value)
  }

  function OrphansRemoved(s: Sys, gone: set<StreamId>): Sys {
    s.(disk := s.disk.(states := s.disk.states - gone, segs := s.disk.segs - gone))
  }

  // ---- recovery, before anything is in memory ----

  ghost predicate Closed(s: Sys) {
    s.ram.None? && s.disk.id.Some?
  }

  function OwnFiles(s: Sys): Files
    requires s.disk.id.Some?
  {
    FilesOf(s.disk, s.disk.id.value)
  }

  ghost predicate CanTrim(s: Sys, file: nat, n: nat) {
    Closed(s) && file in OwnFiles(s) && n <= |OwnFiles(s)[file].lines|
  }

  function Trimmed(s: Sys, file: nat, n: nat): Sys
    requires s.disk.id.Some? && file in OwnFiles(s) && n <= |OwnFiles(s)[file].lines|
  {
    WithFile(s, s.disk.id.value, file, SegFile(OwnFiles(s)[file].lines[..n], {}, false))
  }

  ghost predicate CanLoad(s: Sys, lo: nat) {
    && Closed(s) && s.rotating.None? && s.disk.id.value in s.disk.states
    && (forall k :: k in OwnFiles(s) ==> !OwnFiles(s)[k].torn)
    && exists keys :: LoadKeys(OwnFiles(s), lo, keys)
  }

  function RamFrom(id: StreamId, st: PState, files: Files, keys: seq<nat>): Ram {
    var records := Concat(files, keys);
    Ram(id, SegsOf(files, keys), false, None, records, st.acked, st.reserved,
        Max(Max(st.acked, st.reserved), LastSeq(records)) + 1, false)
  }

  ghost function Loaded(s: Sys, lo: nat): Sys
    requires CanLoad(s, lo)
  {
    var keys :| LoadKeys(OwnFiles(s), lo, keys);
    s.(ram := Some(RamFrom(s.disk.id.value, s.disk.states[s.disk.id.value], OwnFiles(s), keys)))
  }

  // ---- counters and segments ----

  predicate Running(s: Sys) {
    s.ram.Some? && Idle(s.ram.value)
  }

  function RamFiles(s: Sys): Files
    requires s.ram.Some?
  {
    FilesOf(s.disk, s.ram.value.id)
  }

  function Reservation(r: Ram): PState {
    PState(r.acked, r.nextSeq + RESERVE)
  }

  predicate CanSetState(s: Sys, st: PState) {
    && Running(s)
    && var r := s.ram.value;
      || (st == Reservation(r) && r.nextSeq > r.reserved && r.nextSeq < MAX_SEQ)
      || (st.reserved == r.reserved && r.acked < st.acked < r.nextSeq)
  }

  function StateSet(s: Sys, st: PState, w: WriteOutcome): Sys
    requires s.ram.Some?
  {
    var r := s.ram.value;
    s.(disk := if w == Lost then s.disk else s.disk.(states := s.disk.states[r.id := st]),
       ram := Some(if w == Durable then r.(acked := st.acked, reserved := st.reserved) else r))
  }

  predicate CanCreateSeg(s: Sys) {
    && Running(s)
    && var r := s.ram.value;
      !r.open && !r.overCap && NeedsSegment(r, s.cfg) && r.nextSeq <= r.reserved
  }

  function SegCreated(s: Sys, w: WriteOutcome): Sys
    requires s.ram.Some?
  {
    var r := s.ram.value;
    var s1 := if w == Lost then s else WithFile(s, r.id, r.nextSeq, SegFile([], {}, false));
    s1.(ram := Some(if w == Durable then r.(segs := r.segs + [Seg(r.nextSeq, 0, 0, 0)], open := true) else r))
  }

  function HandleSet(s: Sys, open: bool): Sys
    requires s.ram.Some?
  {
    s.(ram := Some(s.ram.value.(open := open)))
  }

  // ---- append ----

  predicate LastFileThere(s: Sys)
    requires s.ram.Some?
  {
    s.ram.value.segs != [] && LastSeg(s.ram.value).first in RamFiles(s)
  }

  predicate CanWrite(s: Sys, b: Bucket) {
    && Running(s)
    && LastFileThere(s)
    && var r := s.ram.value;
      && r.open && !r.overCap && !NeedsSegment(r, s.cfg)
      && r.nextSeq <= r.reserved && r.nextSeq < MAX_SEQ
      && b.seqno == r.nextSeq && LineBytes(b) <= MAX_LINE + 1
  }

  /** The line is in the file, unsynced; a failed write may also have left it there. */
  function Written(s: Sys, b: Bucket, ok: bool): Sys
    requires s.ram.Some? && LastFileThere(s)
  {
    var r := s.ram.value;
    var f := RamFiles(s)[LastSeg(r).first];
    WithFile(s, r.id, LastSeg(r).first, f.(tail := f.tail + {b}))
      .(ram := Some(if ok then r.(inflight := Some(b)) else r.(open := false)))
  }

  predicate CanSync(s: Sys) {
    s.ram.Some? && s.ram.value.inflight.Some? && LastFileThere(s)
  }

  function Grown(g: Seg, b: Bucket): Seg {
    Seg(g.first, b.seqno, g.count + 1, g.bytes + LineBytes(b))
  }

  function RamSynced(r: Ram): Ram
    requires r.inflight.Some? && r.segs != []
  {
    var b := r.inflight.value;
    r.(inflight := None, nextSeq := r.nextSeq + 1, records := r.records + [b],
       segs := r.segs[|r.segs| - 1 := Grown(LastSeg(r), b)])
  }

  function Synced(s: Sys, ok: bool): Sys
    requires CanSync(s)
  {
    var r := s.ram.value;
    if !ok then s.(ram := Some(r.(inflight := None, open := false)))
    else WithFile(s, r.id, LastSeg(r).first, SegFile(RamFiles(s)[LastSeg(r).first].lines + [r.inflight.value], {}, false))
           .(ram := Some(RamSynced(r)))
  }

  // ---- retention ----

  function Expired(s: Sys, now: int): Sys
    requires s.ram.Some?
  {
    var r := s.ram.value;
    s.(ram := Some(r.(records := Newest(LiveOnly(r.records, s.cfg, now), s.cfg.maxRecords))))
  }

  predicate CanRemoveSeg(s: Sys, i: nat) {
    Running(s) && i < |s.ram.value.segs| && InSeg(s.ram.value.records, s.ram.value.segs[i]) == []
  }

  /** The handle is closed before the live segment is touched. */
  function Detached(r: Ram, i: nat): Ram {
    if i + 1 == |r.segs| then r.(open := false) else r
  }

  function SegRemoved(s: Sys, i: nat, ok: bool): Sys
    requires s.ram.Some? && i < |s.ram.value.segs|
  {
    var r := Detached(s.ram.value, i);
    if !ok then s.(ram := Some(r.(overCap := true)))
    else WithoutFile(s, r.id, r.segs[i].first).(ram := Some(r.(segs := Drop(r.segs, i))))
  }

  predicate CanCompact(s: Sys, i: nat) {
    && Running(s) && i < |s.ram.value.segs|
    && var sub := InSeg(s.ram.value.records, s.ram.value.segs[i]);
      sub != [] && |sub| != s.ram.value.segs[i].count
  }

  function Compacted(s: Sys, i: nat, w: WriteOutcome): Sys
    requires s.ram.Some? && i < |s.ram.value.segs|
  {
    var r := Detached(s.ram.value, i);
    var sub := InSeg(r.records, r.segs[i]);
    var s1 := if w == Lost then s else WithFile(s, r.id, r.segs[i].first, SegFile(sub, {}, false));
    s1.(ram := Some(if w == Durable then r.(segs := r.segs[i := SegOf(r.segs[i].first, sub)]) else r.(overCap := true)))
  }

  predicate CanCapRemove(s: Sys) {
    Running(s) && s.ram.value.segs != [] && SegBytes(s.ram.value.segs) > s.cfg.maxBytes
  }

  function CapRemoved(s: Sys, ok: bool): Sys
    requires s.ram.Some? && s.ram.value.segs != []
  {
    var r := Detached(s.ram.value, 0);
    if !ok then s.(ram := Some(r.(overCap := true)))
    else WithoutFile(s, r.id, r.segs[0].first)
           .(ram := Some(r.(segs := r.segs[1..], records := DropThrough(r.records, r.segs[0].last))))
  }

  /** Nothing is left to reconcile. */
  ghost predicate Reconciled(segs: seq<Seg>, records: seq<Bucket>) {
    forall i :: 0 <= i < |segs| ==> |InSeg(records, segs[i])| == segs[i].count
  }

  ghost predicate CanSettle(s: Sys) {
    && Running(s) && SegBytes(s.ram.value.segs) <= s.cfg.maxBytes
    && Reconciled(s.ram.value.segs, s.ram.value.records)
  }

  function Settled(s: Sys): Sys
    requires s.ram.Some?
  {
    s.(ram := Some(s.ram.value.(overCap := false)))
  }

  // ---- publication and crash ----

  function PublishedBy(r: Ram): map<(StreamId, nat), Bucket> {
    map k | k in Keys(r) :: Find(r.records, k.1)
  }

  function Published(s: Sys): Sys
    requires s.ram.Some?
  {
    s.(visible := s.visible + PublishedBy(s.ram.value))
  }

  ghost predicate CanCrash(s: Sys, left: Files) {
    s.ram.Some? ==> CrashFiles(RamFiles(s), left)
  }

  function Crashed(s: Sys, left: Files): Sys {
    var s1 := s.(ram := None, rotating := None);
    if s.ram.None? then s1
    else s1.(disk := s.disk.(segs := s.disk.segs[s.ram.value.id := left]))
  }

  // ---- the machine ----

  ghost predicate Enabled(s: Sys, a: Action) {
    match a
    case NewState(id, _) => CanNewState(s, id)
    case CommitIdentity(_) => CanCommit(s)
    case RemoveOrphans(gone) => CanRemoveOrphans(s, gone)
    case Trim(file, n) => CanTrim(s, file, n)
    case RemoveFile(_) => Closed(s)
    case Load(lo) => CanLoad(s, lo)
    case SetState(st, _) => CanSetState(s, st)
    case CreateSeg(_) => CanCreateSeg(s)
    case OpenLast => Running(s) && !s.ram.value.overCap && !NeedsSegment(s.ram.value, s.cfg)
    case CloseHandle => Running(s)
    case Write(b, _) => CanWrite(s, b)
    case Sync(_) => CanSync(s)
    case Expire(_) => Running(s)
    case RemoveSeg(i, _) => CanRemoveSeg(s, i)
    case CompactSeg(i, _) => CanCompact(s, i)
    case CapRemove(_) => CanCapRemove(s)
    case Settle => CanSettle(s)
    case Publish => Running(s)
    case Crash(left) => CanCrash(s, left)
  }

  ghost function Step(s: Sys, a: Action): Sys
    requires Enabled(s, a)
  {
    match a
    case NewState(id, w) => NewStateDone(s, id, w)
    case CommitIdentity(w) => CommitDone(s, w)
    case RemoveOrphans(gone) => OrphansRemoved(s, gone)
    case Trim(file, n) => Trimmed(s, file, n)
    case RemoveFile(file) => WithoutFile(s, s.disk.id.value, file)
    case Load(lo) => Loaded(s, lo)
    case SetState(st, w) => StateSet(s, st, w)
    case CreateSeg(w) => SegCreated(s, w)
    case OpenLast => HandleSet(s, true)
    case CloseHandle => HandleSet(s, false)
    case Write(b, ok) => Written(s, b, ok)
    case Sync(ok) => Synced(s, ok)
    case Expire(now) => Expired(s, now)
    case RemoveSeg(i, ok) => SegRemoved(s, i, ok)
    case CompactSeg(i, w) => Compacted(s, i, w)
    case CapRemove(ok) => CapRemoved(s, ok)
    case Settle => Settled(s)
    case Publish => Published(s)
    case Crash(left) => Crashed(s, left)
  }

  ghost predicate Initial(s: Sys) {
    && s.disk == Disk(None, map[], map[]) && s.ram.None? && s.rotating.None?
    && s.ids == {} && s.visible == map[] && s.cfg.segRecords > 0
  }

  ghost predicate IsRun(states: seq<Sys>, actions: seq<Action>) {
    && |states| == |actions| + 1
    && Initial(states[0])
    && forall i :: 0 <= i < |actions| ==> Enabled(states[i], actions[i]) && states[i + 1] == Step(states[i], actions[i])
  }
}
