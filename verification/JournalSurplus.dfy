/** A run of the journal, with the bounds the agent uses, after which recovery drops live
    records. While the wall clock wavers inside the tolerated skew, every segment ends in
    one record stamped ahead; a day later these are all that is left of 287 segments, and
    a few more segments put the directory over recovery's count of files. */
module JournalSurplus {
  import opened Common
  import opened JournalTypes
  import opened JournalMachine
  import opened JournalSafety
  import opened JournalRuns
  import opened JournalAgreement
  import opened JournalRecovery
  import opened JournalReach

  const AHEAD_MS := 840_000
  const LATER_MS := 86_400_001
  const DAY: nat := 2880
  const LAST: nat := 2901

  predicate StampedAhead(q: nat) {
    q % 10 == 0 || q > 2870
  }

  function Stamped(q: nat): Bucket {
    Bucket(q, 0, if q > DAY then LATER_MS else if StampedAhead(q) then AHEAD_MS else 0, true, 0, 1)
  }

  lemma StampedLines(q: nat)
    requires q < 10_000
    ensures LineBytes(Stamped(q)) <= 6
    ensures q <= DAY ==> Live(Stamped(q), DEFAULT_CONFIG, 0)
    ensures Live(Stamped(q), DEFAULT_CONFIG, LATER_MS) <==> StampedAhead(q)
  {
    assert q / 10 / 10 / 10 < 10;
    assert Digits(q / 10 / 10 / 10) == 1;
    assert Digits(q / 10 / 10) <= 2;
    assert Digits(q / 10) <= 3;
  }

  // ---- the process after n appends ----

  /** Segment j of n records, `thin` if only its last record is left. */
  predicate SegShape(g: Seg, j: nat, n: nat, thin: bool) {
    && g.first == 10 * j + 1 && g.last == (if n < 10 * j + 10 then n else 10 * j + 10) && g.first <= g.last
    && g.count == (if thin then 1 else g.last - 10 * j)
    && g.bytes <= 6 * g.count
  }

  predicate Wanted(q: nat, thin: bool) {
    thin ==> StampedAhead(q)
  }

  /** The retained records are those of the first n that are wanted. */
  ghost predicate Holds(records: seq<Bucket>, n: nat, thin: bool) {
    && Ascending(records)
    && forall b :: b in records <==> b == Stamped(b.seqno) && 1 <= b.seqno <= n && Wanted(b.seqno, thin)
  }

  ghost predicate SegsShape(segs: seq<Seg>, n: nat, m: nat) {
    && 10 * |segs| < n + 10 && n <= 10 * |segs|
    && forall j :: 0 <= j < |segs| ==> SegShape(segs[j], j, n, j < m)
  }

  /** After n appends; the records are thinned out, and the first m segments with them. */
  ghost predicate Filled(s: Sys, n: nat, thin: bool, m: nat) {
    && Reached(s) && s.cfg == DEFAULT_CONFIG && Running(s) && s.disk.id == Some(s.ram.value.id)
    && var r := s.ram.value;
      && !r.overCap && r.nextSeq == n + 1
      && Holds(r.records, n, thin)
      && SegsShape(r.segs, n, m)
  }

  // ---- counting ----

  function Run(lo: nat, n: nat): (s: seq<Bucket>)
    ensures |s| == n && forall i :: 0 <= i < n ==> s[i] == Stamped(lo + i)
  {
    seq(n, i requires 0 <= i < n => Stamped(lo + i))
  }

  /** The wanted records among the first n, once the others have expired. */
  function Thinned(n: nat): (s: seq<Bucket>)
    requires n >= DAY
    ensures |s| == n - 2583 && Ascending(s)
    ensures forall q: nat :: 1 <= q <= n && StampedAhead(q) ==> Stamped(q) in s
  {
    var s := seq(n - 2583, i requires 0 <= i < n - 2583 => if i < 287 then Stamped(10 * i + 10) else Stamped(i + 2584));
    assert forall q: nat :: 1 <= q <= n && StampedAhead(q) ==> Stamped(q) == s[if q <= 2870 then q / 10 - 1 else q - 2584];
    s
  }

  lemma FewEnough(records: seq<Bucket>, n: nat, thin: bool)
    requires Holds(records, n, thin) && n <= LAST && (thin ==> n >= DAY) && (!thin ==> n <= DAY)
    ensures |records| <= DAY
  {
    if thin {
      forall b | b in records ensures b in Thinned(n) { }
      AscendingInside(records, Thinned(n));
    } else {
      forall b | b in records ensures b in Run(1, n) { assert b == Run(1, n)[b.seqno - 1]; }
      AscendingInside(records, Run(1, n));
    }
  }

  /** The lines of a segment's file are as many as the segment counts. */
  lemma SegLines(s: Sys, j: nat)
    requires Reached(s) && Running(s) && !s.ram.value.overCap && j < |s.ram.value.segs|
    ensures var g := s.ram.value.segs[j];
            && g.first in RamFiles(s)
            && var lines := RamFiles(s)[g.first].lines;
              && Ascending(lines) && From(lines, g.first) && |lines| == g.count
              && Inside(InSeg(s.ram.value.records, g), lines)
    ensures Ascending(s.ram.value.records)
  {
    ReachedInv(s);
    OwnFits(s);
    var r := s.ram.value.(open := false);
    assert SegOk(r.segs[j], r.records, r.overCap, RamFiles(s));
    assert FileOk(r.segs[j].first, RamFiles(s)[r.segs[j].first], s.cfg);
  }

  /** A segment whose wanted records are as many as it counts needs no work. */
  lemma SegReconciled(s: Sys, n: nat, thin: bool, m: nat, j: nat)
    requires Filled(s, n, thin, m) && j < |s.ram.value.segs| && n <= LAST && (thin ==> m == 287 && n >= DAY) && (!thin ==> m == 0)
    ensures |InSeg(s.ram.value.records, s.ram.value.segs[j])| == s.ram.value.segs[j].count
  {
    SegLines(s, j);
    var g, records := s.ram.value.segs[j], s.ram.value.records;
    BetweenAscends(records, g.first, g.last);
    AscendingInside(InSeg(records, g), RamFiles(s)[g.first].lines);
    WantedInSeg(records, n, thin, m, g, j);
  }

  /** As many wanted records lie in a segment as it counts. */
  lemma WantedInSeg(records: seq<Bucket>, n: nat, thin: bool, m: nat, g: Seg, j: nat)
    requires Holds(records, n, thin) && SegShape(g, j, n, j < m) && n <= LAST
    requires (thin ==> m == 287 && n >= DAY) && (!thin ==> m == 0)
    ensures |InSeg(records, g)| >= g.count
  {
    var want := if j < m then [Stamped(10 * j + 10)] else Run(g.first, g.count);
    BetweenAscends(records, g.first, g.last);
    forall b | b in want ensures b in InSeg(records, g) { assert g.first <= b.seqno <= g.last; }
    AscendingInside(want, InSeg(records, g));
  }

  lemma {:induction false} SmallSegs(segs: seq<Seg>)
    requires forall g :: g in segs ==> g.bytes <= 60
    ensures SegBytes(segs) <= 60 * |segs|
  {
    if segs != [] { SmallSegs(segs[1..]); }
  }

  /** Enforcement has nothing left to do on disk. */
  lemma Settles(s: Sys, n: nat, thin: bool, m: nat) returns (s': Sys)
    requires Filled(s, n, thin, m) && n <= LAST && (thin ==> m == 287 && n >= DAY) && (!thin ==> m == 0)
    ensures Filled(s', n, thin, m) && Reconciled(s'.ram.value.segs, s'.ram.value.records)
    ensures SegBytes(s'.ram.value.segs) <= DEFAULT_CONFIG.maxBytes
  {
    var r := s.ram.value;
    forall j | 0 <= j < |r.segs| ensures |InSeg(r.records, r.segs[j])| == r.segs[j].count {
      SegReconciled(s, n, thin, m, j);
    }
    SmallSegs(r.segs);
    RanSettle(s);
    s' := Settled(s);
  }

  // ---- the steps of one append ----

  lemma Reserves(s: Sys, n: nat, thin: bool, m: nat) returns (s': Sys)
    requires Filled(s, n, thin, m) && n < LAST
    ensures Filled(s', n, thin, m) && n < s'.ram.value.reserved
    ensures s'.ram.value.segs == s.ram.value.segs
  {
    s' := s;
    if n + 1 > s.ram.value.reserved {
      RanSetState(s, Reservation(s.ram.value), Durable);
      s' := StateSet(s, Reservation(s.ram.value), Durable);
    }
  }

  /** The last segment has room and its file is open. */
  ghost predicate Ready(s: Sys, n: nat) {
    && Reached(s) && s.cfg == DEFAULT_CONFIG && Running(s) && s.disk.id == Some(s.ram.value.id)
    && var r := s.ram.value;
      && !r.overCap && r.nextSeq == n + 1 <= r.reserved && r.open
      && r.segs != [] && LastSeg(r).first in RamFiles(s)
      && 10 * |r.segs| < n + 11 && n + 1 <= 10 * |r.segs|
      && LastSeg(r).first == 10 * |r.segs| - 9 && LastSeg(r).count < 10
      && LastSeg(r).bytes <= 6 * LastSeg(r).count
  }

  lemma Reopens(s: Sys, n: nat, thin: bool, m: nat) returns (s': Sys)
    requires Filled(s, n, thin, m) && n < LAST && n % 10 != 0 && n < s.ram.value.reserved && m < |s.ram.value.segs|
    ensures Ready(s', n) && s'.ram.value.records == s.ram.value.records && s'.ram.value.segs == s.ram.value.segs
  {
    SegLines(s, |s.ram.value.segs| - 1);
    RanOpenLast(s);
    s' := HandleSet(s, true);
  }

  lemma Creates(s: Sys, n: nat, thin: bool, m: nat) returns (s': Sys)
    requires Filled(s, n, thin, m) && n < LAST && n % 10 == 0 && n < s.ram.value.reserved && (m > 0 ==> m < |s.ram.value.segs|)
    ensures Ready(s', n) && s'.ram.value.records == s.ram.value.records
    ensures s'.ram.value.segs == s.ram.value.segs + [Seg(n + 1, 0, 0, 0)]
  {
    RanCloseHandle(s);
    var s1 := HandleSet(s, false);
    RanCreateSeg(s1, Durable);
    s' := SegCreated(s1, Durable);
  }

  /** Write and sync. */
  lemma Lands(s: Sys, n: nat) returns (s': Sys)
    requires Ready(s, n) && n < LAST
    ensures Reached(s') && s'.cfg == DEFAULT_CONFIG && Running(s') && s'.disk.id == Some(s'.ram.value.id)
    ensures var (r, r') := (s.ram.value, s'.ram.value);
            && !r'.overCap && r'.nextSeq == n + 2 && r'.records == r.records + [Stamped(n + 1)]
            && r'.segs == r.segs[|r.segs| - 1 := Grown(LastSeg(r), Stamped(n + 1))]
  {
    StampedLines(n + 1);
    RanWrite(s, Stamped(n + 1), true);
    var s1 := Written(s, Stamped(n + 1), true);
    RanSync(s1, true);
    s' := Synced(s1, true);
  }

  lemma HoldsMore(records: seq<Bucket>, n: nat, thin: bool)
    requires Holds(records, n, thin) && (thin ==> n >= DAY)
    ensures Holds(records + [Stamped(n + 1)], n + 1, thin)
  {
  }

  lemma SegsMore(segs: seq<Seg>, open: seq<Seg>, n: nat, m: nat)
    requires SegsShape(segs, n, m) && n < LAST && (m > 0 ==> m == 287 && n >= DAY)
    requires open == if n % 10 == 0 then segs + [Seg(n + 1, 0, 0, 0)] else segs
    ensures open != [] && SegsShape(open[|open| - 1 := Grown(open[|open| - 1], Stamped(n + 1))], n + 1, m)
  {
    StampedLines(n + 1);
  }

  /** What one append leaves, before retention. */
  lemma Appends(s: Sys, n: nat, thin: bool, m: nat) returns (s': Sys)
    requires Filled(s, n, thin, m) && n < LAST && (thin ==> m == 287 && n >= DAY) && (!thin ==> m == 0)
    ensures Filled(s', n + 1, thin, m)
  {
    var s1 := Reserves(s, n, thin, m);
    var s2;
    if n % 10 == 0 { s2 := Creates(s1, n, thin, m); } else { s2 := Reopens(s1, n, thin, m); }
    s' := Lands(s2, n);
    SegsMore(s.ram.value.segs, s2.ram.value.segs, n, m);
    HoldsMore(s.ram.value.records, n, thin);
  }

  lemma LiveFew(records: seq<Bucket>, now: int)
    requires Ascending(records) && |records| <= DAY
    ensures var kept := Newest(LiveOnly(records, DEFAULT_CONFIG, now), DEFAULT_CONFIG.maxRecords);
            Ascending(kept) && forall b :: b in kept <==> b in records && Live(b, DEFAULT_CONFIG, now)
  {
    LiveOnlyAscends(records, DEFAULT_CONFIG, now);
    AscendingInside(LiveOnly(records, DEFAULT_CONFIG, now), records);
  }

  /** Retention by age and count; a day later it thins the records out. */
  lemma Expires(s: Sys, n: nat, thin: bool, m: nat, later: bool) returns (s': Sys)
    requires Filled(s, n, thin, m) && n <= LAST && (thin ==> n >= DAY && later) && (later ==> n >= DAY) && (!thin ==> n <= DAY)
    ensures Filled(s', n, later, m)
  {
    var now := if later then LATER_MS else 0;
    FewEnough(s.ram.value.records, n, thin);
    LiveFew(s.ram.value.records, now);
    forall q: nat | 1 <= q <= n ensures Live(Stamped(q), DEFAULT_CONFIG, now) <==> Wanted(q, later) { StampedLines(q); }
    RanExpire(s, now);
    s' := Expired(s, now);
  }

  /** One append with the enforcement that ends it. */
  lemma AppendsAndSettles(s: Sys, n: nat, thin: bool) returns (s': Sys)
    requires Filled(s, n, thin, if thin then 287 else 0) && n < LAST && (thin <==> n >= DAY)
    ensures Filled(s', n + 1, thin, if thin then 287 else 0)
  {
    var m := if thin then 287 else 0;
    s' := Appends(s, n, thin, m);
    s' := Expires(s', n + 1, thin, m, thin);
    s' := Settles(s', n + 1, thin, m);
  }

  // ---- the run ----

  lemma Starts() returns (s: Sys)
    ensures Filled(s, 0, false, 0)
  {
    s := Sys(DEFAULT_CONFIG, Disk(None, map[], map[]), None, None, {}, map[]);
    StartReached(s);
    RanNewState(s, 0, Durable);
    s := NewStateDone(s, 0, Durable);
    RanCommit(s, Durable);
    s := CommitDone(s, Durable);
    assert LoadKeys(OwnFiles(s), 0, []);
    RanLoad(s, 0);
    s := Loaded(s, 0);
    assert s.ram.value.segs == [] && s.ram.value.records == [];
  }

  lemma {:induction false} FirstDay(n: nat) returns (s: Sys)
    requires n <= DAY
    ensures Filled(s, n, false, 0)
  {
    if n == 0 {
      s := Starts();
    } else {
      s := FirstDay(n - 1);
      s := AppendsAndSettles(s, n - 1, false);
    }
  }

  lemma Tens(j: nat, q: nat)
    requires 10 * j < q <= 10 * j + 10 && q % 10 == 0
    ensures q == 10 * j + 10
  {
  }

  /** What the segment shrinks to. */
  lemma OneLeft(records: seq<Bucket>, g: Seg, j: nat)
    requires Holds(records, DAY, true) && j < 287 && SegShape(g, j, DAY, false)
    ensures InSeg(records, g) == [Stamped(10 * j + 10)]
  {
    BetweenAscends(records, g.first, g.last);
    assert g.last == 10 * j + 10;
    forall q: nat | 10 * j < q <= 10 * j + 10 && StampedAhead(q) ensures q == 10 * j + 10 { Tens(j, q); }
    forall b ensures b in InSeg(records, g) <==> b == Stamped(10 * j + 10) { }
    AscendingUnique(InSeg(records, g), [Stamped(10 * j + 10)]);
  }

  lemma {:induction false} Compacts(m: nat) returns (s: Sys)
    requires m <= 287
    ensures Filled(s, DAY, true, m)
  {
    if m == 0 {
      s := FirstDay(DAY);
      s := Expires(s, DAY, false, 0, true);
    } else {
      s := Compacts(m - 1);
      OneLeft(s.ram.value.records, s.ram.value.segs[m - 1], m - 1);
      StampedLines(10 * m);
      BytesOne(Stamped(10 * m));
      RanCompact(s, m - 1, Durable);
      s := Compacted(s, m - 1, Durable);
    }
  }

  lemma {:induction false} NextDay(n: nat) returns (s: Sys)
    requires DAY <= n <= LAST
    ensures Filled(s, n, true, 287)
  {
    if n == DAY {
      s := Compacts(287);
      s := Settles(s, n, true, 287);
    } else {
      s := NextDay(n - 1);
      s := AppendsAndSettles(s, n - 1, true);
    }
  }

  // ---- what recovery makes of it ----

  /** The directory as a crash leaves it when no unsynced line survives. */
  function Left(files: Files): Files {
    map k | k in files :: files[k].(tail := {})
  }

  function FirstKeys(n: nat): (r: set<nat>)
    ensures |r| == n && forall k :: k in r ==> k < 10 * n
  {
    if n == 0 then {} else FirstKeys(n - 1) + {10 * n - 9}
  }

  lemma {:induction false} FirstKeysIn(n: nat, keys: set<nat>)
    requires forall j :: 0 <= j < n ==> 10 * j + 1 in keys
    ensures FirstKeys(n) <= keys
  {
    if n > 0 {
      FirstKeysIn(n - 1, keys);
      assert 10 * (n - 1) + 1 in keys;
    }
  }

  lemma TooManyFiles(files: Files)
    requires forall j :: 0 <= j < 291 ==> 10 * j + 1 in files
    ensures |files| >= 291
  {
    FirstKeysIn(291, files.Keys);
    SubsetSize(FirstKeys(291), files.Keys);
    assert |files| == |files.Keys|;
  }

  lemma SubsetSize(a: set<nat>, b: set<nat>)
    requires a <= b
    ensures |a| <= |b|
  {
    assert b == a + (b - a);
  }

  /** Recovery does not read the oldest file when there are too many. */
  lemma OldestNotRead(files: Files, cfg: Config, b: Bucket)
    requires FilesOk(files, cfg) && cfg.segRecords > 0 && |files| > MaxSegs(cfg)
    requires 1 in files && b in files[1].lines && forall k :: k in files ==> 1 <= k
    ensures b !in Reopened(files, cfg)
  {
    RecoveredIsPrefix(files, Loadable(files, cfg), 0, cfg.maxBytes, cfg);
    forall k | k in Loadable(files, cfg) ensures k in files && b !in files[k].lines {
      NotTheOldest(files, cfg, k);
      if b in files[k].lines { OneLinePerSeq(files, cfg, 1, k, b, b); }
    }
    NotIn(files, Loadable(files, cfg), b);
  }

  lemma NotTheOldest(files: Files, cfg: Config, k: nat)
    requires cfg.segRecords > 0 && |files| > MaxSegs(cfg) && 1 in files && (forall m :: m in files ==> 1 <= m)
    requires k in Loadable(files, cfg)
    ensures k in files && k != 1
  {
    var keys, n := Listing(files.Keys), Surplus(files, cfg);
    KeysSuffix(files, n);
    var i :| 0 <= i < |keys[n..]| && keys[n..][i] == k;
    assert keys[0] < keys[n + i] && keys[0] in files;
  }

  lemma {:induction false} NotIn(files: Files, keys: seq<nat>, b: Bucket)
    requires forall k :: k in keys ==> k in files && b !in files[k].lines
    ensures b !in Concat(files, keys)
  {
    if keys != [] { NotIn(files, keys[1..], b); }
  }

  lemma SegmentFiles(s: Sys)
    requires Filled(s, LAST, true, 287)
    ensures |RamFiles(s)| >= 291 && 1 in RamFiles(s) && Stamped(10) in RamFiles(s)[1].lines
  {
    forall j | 0 <= j < 291 ensures 10 * j + 1 in RamFiles(s) {
      SegLines(s, j);
      assert s.ram.value.segs[j].first == 10 * j + 1;
    }
    TooManyFiles(RamFiles(s));
    SegLines(s, 0);
    assert Stamped(10) in InSeg(s.ram.value.records, s.ram.value.segs[0]);
  }

  lemma LeftKeepsLines(files: Files)
    ensures |Left(files)| == |files| && CrashFiles(files, Left(files))
  {
    assert Left(files).Keys == files.Keys;
    assert |Left(files)| == |Left(files).Keys| && |files| == |files.Keys|;
  }

  /** What is on disk when the process dies: a file of each segment, in order. */
  lemma LeftFiles(s: Sys)
    requires Reached(s) && Running(s)
    ensures var left := Left(RamFiles(s));
            && CanCrash(s, left) && FilesOk(left, s.cfg) && (forall k :: k in left ==> 1 <= k)
  {
    ReachedInv(s);
    OwnFits(s);
    var r := s.ram.value.(open := false);
    LeftKeepsLines(RamFiles(s));
    CrashedDirectory(r, RamFiles(s), Left(RamFiles(s)), s.disk.states[r.id], s.visible, s.cfg);
  }

  /** Recovery counts files, not records. This run ends in a settled journal, every
      record of it live and on disk within the bounds on count, age and bytes, and yet
      reopening after a crash refuses one of them. */
  lemma SurplusLosesLiveRecords() returns (s: Sys, left: Files, b: Bucket)
    ensures Reached(s) && s.cfg == DEFAULT_CONFIG && Running(s) && s.disk.id == Some(s.ram.value.id)
    ensures Enforced(RamFiles(s), s.ram.value.segs, s.ram.value.records, s.cfg, LATER_MS)
    ensures CanCrash(s, left) && (forall k :: k in left ==> left[k].lines == RamFiles(s)[k].lines)
    ensures b in s.ram.value.records && b !in Reopened(left, s.cfg)
  {
    s := NextDay(LAST);
    s := Settles(s, LAST, true, 287);
    left, b := Left(RamFiles(s)), Stamped(10);
    SettledBounds(s);
    SegmentFiles(s);
    LeftFiles(s);
    LeftKeepsLines(RamFiles(s));
    OldestNotRead(left, s.cfg, b);
  }

  lemma SettledBounds(s: Sys)
    requires Filled(s, LAST, true, 287)
    requires Reconciled(s.ram.value.segs, s.ram.value.records) && SegBytes(s.ram.value.segs) <= s.cfg.maxBytes
    ensures Enforced(RamFiles(s), s.ram.value.segs, s.ram.value.records, s.cfg, LATER_MS)
  {
    var records := s.ram.value.records;
    ReachedInv(s);
    OwnFits(s);
    SettledAgrees(s.ram.value.(open := false), RamFiles(s), s.disk.states[s.ram.value.id], s.visible, s.cfg);
    FewEnough(records, LAST, true);
    forall b | b in records ensures Live(b, s.cfg, LATER_MS) { StampedLines(b.seqno); }
  }
}
