/** When nothing is left to reconcile, the segments on disk hold exactly the retained
    records. */
module JournalAgreement {
  import opened Common
  import opened JournalTypes
  import opened JournalMachine
  import opened JournalSafety
  import opened JournalRetention
  import opened JournalRuns

  /** What the segments' files hold, in order. */
  function DiskRecords(files: Files, segs: seq<Seg>): seq<Bucket> {
    if segs == [] then [] else Lines(files, segs[0].first) + DiskRecords(files, segs[1..])
  }

  /** What one enforcement keeps before the byte cap. */
  function Kept(records: seq<Bucket>, cfg: Config, now: int): seq<Bucket> {
    Newest(LiveOnly(records, cfg, now), cfg.maxRecords)
  }

  ghost predicate AllLive(records: seq<Bucket>, cfg: Config, now: int) {
    forall b :: b in records ==> Live(b, cfg, now)
  }

  ghost predicate EndsWith(s: seq<Bucket>, t: seq<Bucket>) {
    |t| <= |s| && forall i {:trigger t[i]} :: 0 <= i < |t| ==> t[i] == s[|s| - |t| + i]
  }

  /** The disk and the memory agree and both are within every bound. */
  ghost predicate Enforced(files: Files, segs: seq<Seg>, records: seq<Bucket>, cfg: Config, now: int) {
    && DiskRecords(files, segs) == records
    && AllLive(records, cfg, now)
    && |records| <= cfg.maxRecords
    && Bytes(records) <= cfg.maxBytes
  }

  ghost predicate Oversized(s: seq<Bucket>, m: nat, cfg: Config) {
    m <= |s| && Bytes(s[|s| - m..]) > cfg.maxBytes
  }

  /** The byte cap dropped nothing it could have kept: what is missing from `kept` went
      with whole segments, and with the last of them the rest did not fit. */
  ghost predicate DroppedForBytes(kept: seq<Bucket>, records: seq<Bucket>, cfg: Config) {
    && EndsWith(kept, records)
    && (|records| < |kept| ==> exists m: nat :: |records| <= m <= |records| + cfg.segRecords && Oversized(kept, m, cfg))
  }

  lemma SegmentAgrees(g: Seg, records: seq<Bucket>, overCap: bool, files: Files)
    requires SegOk(g, records, overCap, files) && Ascending(records) && Ascending(files[g.first].lines)
    requires |InSeg(records, g)| == g.count
    ensures Lines(files, g.first) == InSeg(records, g) && g.bytes == Bytes(InSeg(records, g))
  {
    BetweenAscends(records, g.first, g.last);
    AscendingInside(InSeg(records, g), files[g.first].lines);
  }

  /** Ascending from a lower bound, read from the front. */
  ghost predicate Up(s: seq<Bucket>, lo: int) {
    s == [] || (lo <= s[0].seqno && Up(s[1..], s[0].seqno + 1))
  }

  lemma {:induction false} AscendingUp(s: seq<Bucket>, lo: int)
    requires Ascending(s) && forall i :: 0 <= i < |s| ==> lo <= s[i].seqno
    ensures Up(s, lo)
  {
    if s != [] { AscendingUp(s[1..], s[0].seqno + 1); }
  }

  lemma {:induction false} UpNone(s: seq<Bucket>, lo: int, hi: int)
    requires Up(s, hi + 1)
    ensures Between(s, lo, hi) == []
  {
    if s != [] { UpNone(s[1..], lo, hi); }
  }

  /** Splitting an ascending sequence at a segment's last number. */
  lemma {:induction false} SplitAt(s: seq<Bucket>, lo: int, last: int)
    requires Up(s, lo)
    ensures s == Between(s, lo, last) + DropThrough(s, last) && Up(DropThrough(s, last), last + 1)
  {
    if s != [] {
      if s[0].seqno <= last { SplitAt(s[1..], lo, last); } else { UpNone(s, lo, last); }
    }
  }

  /** A later segment's records are not among those dropped. */
  lemma {:induction false} BetweenDropped(records: seq<Bucket>, last: int, lo: int, hi: int)
    requires last < lo
    ensures Between(DropThrough(records, last), lo, hi) == Between(records, lo, hi)
  {
    if records != [] && records[0].seqno <= last { BetweenDropped(records[1..], last, lo, hi); }
  }

  /** Without the first segment's records, the other segments cover the rest. */
  lemma RestCovered(segs: seq<Seg>, b: Bucket)
    requires SegsOrdered(segs) && segs != [] && Covered(segs, b)
    ensures segs[0].first <= b.seqno && (b.seqno > segs[0].last ==> Covered(segs[1..], b))
  {
  }

  ghost predicate SegmentsMatch(segs: seq<Seg>, records: seq<Bucket>, files: Files) {
    forall i :: 0 <= i < |segs| ==>
      Lines(files, segs[i].first) == InSeg(records, segs[i]) && segs[i].bytes == Bytes(InSeg(records, segs[i]))
  }

  lemma RestMatches(segs: seq<Seg>, records: seq<Bucket>, files: Files)
    requires SegsOrdered(segs) && segs != [] && SegmentsMatch(segs, records, files)
    ensures SegsOrdered(segs[1..]) && SegmentsMatch(segs[1..], DropThrough(records, segs[0].last), files)
  {
    forall i | 0 <= i < |segs[1..]|
      ensures InSeg(DropThrough(records, segs[0].last), segs[1..][i]) == InSeg(records, segs[i + 1])
    {
      BetweenDropped(records, segs[0].last, segs[i + 1].first, segs[i + 1].last);
    }
  }

  /** Segments that agree one by one agree as a whole. */
  lemma {:induction false} SegmentsAgree(segs: seq<Seg>, records: seq<Bucket>, files: Files, lo: int)
    requires SegsOrdered(segs) && Up(records, lo) && (forall b :: b in records ==> Covered(segs, b))
    requires SegmentsMatch(segs, records, files)
    ensures DiskRecords(files, segs) == records && SegBytes(segs) == Bytes(records)
  {
    if segs == [] {
      assert forall b :: b !in records;
      BetweenNone(records, 0, 0);
      BetweenAll(records, 0, 0);
    } else {
      var rest := DropThrough(records, segs[0].last);
      InDropThrough(records, segs[0].last);
      forall b | b in records
        ensures segs[0].first <= b.seqno && (b.seqno > segs[0].last ==> Covered(segs[1..], b))
      {
        RestCovered(segs, b);
      }
      UpFrom(records, lo, segs[0].first);
      SplitAt(records, segs[0].first, segs[0].last);
      UpAbove(rest, segs[0].last);
      RestMatches(segs, records, files);
      SegmentsAgree(segs[1..], rest, files, segs[0].last + 1);
      BytesAppend(InSeg(records, segs[0]), rest);
    }
  }

  lemma {:induction false} InDropThrough(s: seq<Bucket>, hi: int)
    ensures forall b :: b in DropThrough(s, hi) ==> b in s
  {
    if s != [] && s[0].seqno <= hi { InDropThrough(s[1..], hi); }
  }

  lemma UpFrom(s: seq<Bucket>, lo: int, lo': int)
    requires Up(s, lo) && forall b :: b in s ==> lo' <= b.seqno
    ensures Up(s, lo')
  {
  }

  lemma {:induction false} UpAbove(s: seq<Bucket>, hi: int)
    requires Up(s, hi + 1)
    ensures forall b :: b in s ==> b.seqno > hi
  {
    if s != [] { UpAbove(s[1..], hi); }
  }

  lemma SettledAgrees(r: Ram, files: Files, st: PState, visible: Visible, cfg: Config)
    requires Fits(r, files, st, visible, cfg) && Reconciled(r.segs, r.records)
    ensures DiskRecords(files, r.segs) == r.records && SegBytes(r.segs) == Bytes(r.records)
    ensures forall i :: 0 <= i < |r.segs| ==> |InSeg(r.records, r.segs[i])| <= cfg.segRecords
  {
    forall i | 0 <= i < |r.segs|
      ensures Lines(files, r.segs[i].first) == InSeg(r.records, r.segs[i])
      ensures r.segs[i].bytes == Bytes(InSeg(r.records, r.segs[i]))
      ensures |InSeg(r.records, r.segs[i])| <= cfg.segRecords
    {
      assert SegOk(r.segs[i], r.records, r.overCap, files);
      assert FileOk(r.segs[i].first, files[r.segs[i].first], cfg);
      SegmentAgrees(r.segs[i], r.records, r.overCap, files);
    }
    AscendingUp(r.records, 0);
    SegmentsAgree(r.segs, r.records, files, 0);
  }

  // ---- the loops of one enforcement ----

  /** Narrowing a range to the last number in it loses nothing. */
  lemma {:induction false} BetweenTwice(s: seq<Bucket>, from: int, lo: int, hi: int)
    requires Up(s, from)
    ensures var sub := Between(s, lo, hi); sub != [] ==> Between(s, lo, LastSeq(sub)) == sub && LastSeq(sub) <= hi
  {
    if s != [] {
      BetweenTwice(s[1..], s[0].seqno + 1, lo, hi);
      var sub := Between(s[1..], lo, hi);
      if sub == [] {
        if lo <= s[0].seqno <= hi { UpNone(s[1..], lo, s[0].seqno); }
      } else {
        UpAbove(s[1..], s[0].seqno);
        assert sub[|sub| - 1] in sub;
      }
    }
  }

  lemma {:induction false} SegBytesSnoc(segs: seq<Seg>, g: Seg)
    ensures SegBytes(segs + [g]) == SegBytes(segs) + g.bytes
  {
    if segs == [] {
      assert segs + [g] == [g];
    } else {
      assert (segs + [g])[1..] == segs[1..] + [g];
      SegBytesSnoc(segs[1..], g);
    }
  }

  lemma OneMoreReconciled(segs: seq<Seg>, records: seq<Bucket>, i: nat, total: nat)
    requires i < |segs| && Reconciled(segs[..i], records) && total == SegBytes(segs[..i])
    requires |InSeg(records, segs[i])| == segs[i].count
    ensures Reconciled(segs[..i + 1], records) && total + segs[i].bytes == SegBytes(segs[..i + 1])
  {
    assert segs[..i + 1] == segs[..i] + [segs[i]];
    SegBytesSnoc(segs[..i], segs[i]);
  }

  /** Dropping the oldest segment leaves the others reconciled. */
  lemma DroppedReconciled(segs: seq<Seg>, records: seq<Bucket>)
    requires SegsOrdered(segs) && segs != [] && Reconciled(segs, records)
    ensures Reconciled(segs[1..], DropThrough(records, segs[0].last))
  {
    forall i | 0 <= i < |segs[1..]|
      ensures |InSeg(DropThrough(records, segs[0].last), segs[1..][i])| == segs[1..][i].count
    {
      BetweenDropped(records, segs[0].last, segs[i + 1].first, segs[i + 1].last);
      assert segs[1..][i] == segs[i + 1];
    }
  }

  lemma {:induction false} DropEnds(s: seq<Bucket>, hi: int)
    ensures EndsWith(s, DropThrough(s, hi))
  {
    if s != [] && s[0].seqno <= hi { DropEnds(s[1..], hi); }
  }

  /** How many records the oldest segment has. */
  lemma OldestCount(segs: seq<Seg>, records: seq<Bucket>)
    requires SegsOrdered(segs) && segs != [] && Ascending(records) && (forall b :: b in records ==> Covered(segs, b))
    ensures |records| == |InSeg(records, segs[0])| + |DropThrough(records, segs[0].last)|
  {
    forall b | b in records ensures segs[0].first <= b.seqno { RestCovered(segs, b); }
    AscendingUp(records, 0);
    UpFrom(records, 0, segs[0].first);
    SplitAt(records, segs[0].first, segs[0].last);
  }

  /** What goes with the oldest segment: the front of the records, no more than a
      segment holds. */
  lemma OldestFront(segs: seq<Seg>, records: seq<Bucket>, n: nat)
    requires SegsOrdered(segs) && segs != [] && Ascending(records) && Reconciled(segs, records)
    requires forall b :: b in records ==> Covered(segs, b)
    requires |InSeg(records, segs[0])| <= n
    ensures var fewer := DropThrough(records, segs[0].last);
            EndsWith(records, fewer) && |records| <= |fewer| + n && Reconciled(segs[1..], fewer)
  {
    DropEnds(records, segs[0].last);
    DroppedReconciled(segs, records);
    OldestCount(segs, records);
  }

  /** The records kept before the byte cap are live and within the count. */
  lemma KeptIsBounded(all: seq<Bucket>, cfg: Config, now: int)
    ensures var kept := Kept(all, cfg, now); AllLive(kept, cfg, now) && |kept| <= cfg.maxRecords && Inside(kept, all)
  {
  }

  /** So is what is left of them. */
  lemma StillBounded(kept: seq<Bucket>, records: seq<Bucket>, cfg: Config, now: int)
    requires EndsWith(kept, records)
    ensures Inside(records, kept)
    ensures AllLive(kept, cfg, now) ==> AllLive(records, cfg, now)
  {
  }

  lemma NothingDropped(kept: seq<Bucket>, cfg: Config)
    ensures DroppedForBytes(kept, kept, cfg)
  {
  }

  /** One more segment dropped, and it had to go. */
  lemma DropContinues(kept: seq<Bucket>, records: seq<Bucket>, fewer: seq<Bucket>, cfg: Config)
    requires EndsWith(kept, records) && EndsWith(records, fewer)
    requires |records| <= |fewer| + cfg.segRecords && Bytes(records) > cfg.maxBytes
    ensures DroppedForBytes(kept, fewer, cfg)
  {
    assert kept[|kept| - |records|..] == records;
    assert Oversized(kept, |records|, cfg);
  }

  // ---- which records are kept ----

  function LiveSet(records: seq<Bucket>, cfg: Config, now: int): set<Bucket> {
    set b | b in records && Live(b, cfg, now)
  }

  /** Every live record that is missing is older than every one that is kept. */
  ghost predicate OlderDropped(all: seq<Bucket>, kept: seq<Bucket>, cfg: Config, now: int) {
    && Inside(kept, all) && AllLive(kept, cfg, now)
    && forall b, k :: b in all && Live(b, cfg, now) && b !in kept && k in kept ==> b.seqno < k.seqno
  }

  /** As many live records as there are, up to the bound, and the newest of them. */
  ghost predicate KeptNewest(all: seq<Bucket>, kept: seq<Bucket>, cfg: Config, now: int) {
    && Ascending(kept) && OlderDropped(all, kept, cfg, now)
    && |kept| == (if |LiveSet(all, cfg, now)| < cfg.maxRecords then |LiveSet(all, cfg, now)| else cfg.maxRecords)
  }

  lemma {:induction false} AscendingSize(s: seq<Bucket>)
    requires Ascending(s)
    ensures |set b | b in s| == |s|
  {
    if s != [] {
      AscendingSize(s[1..]);
      assert (set b | b in s) == (set b | b in s[1..]) + {s[0]};
    }
  }

  lemma LiveCount(all: seq<Bucket>, cfg: Config, now: int)
    requires Ascending(all)
    ensures |LiveSet(all, cfg, now)| == |LiveOnly(all, cfg, now)|
  {
    LiveOnlyAscends(all, cfg, now);
    AscendingSize(LiveOnly(all, cfg, now));
    assert LiveSet(all, cfg, now) == set b | b in LiveOnly(all, cfg, now);
  }

  lemma KeepsNewest(all: seq<Bucket>, cfg: Config, now: int)
    requires Ascending(all)
    ensures KeptNewest(all, Kept(all, cfg, now), cfg, now)
  {
    var live, kept := LiveOnly(all, cfg, now), Kept(all, cfg, now);
    LiveOnlyAscends(all, cfg, now);
    LiveCount(all, cfg, now);
    KeptEnds(live, kept, cfg.maxRecords);
    SuffixIsNewer(live, kept);
  }

  lemma KeptEnds(live: seq<Bucket>, kept: seq<Bucket>, n: nat)
    requires kept == Newest(live, n)
    ensures EndsWith(live, kept) && |kept| == if |live| < n then |live| else n
  {
  }

  lemma SuffixIsNewer(s: seq<Bucket>, t: seq<Bucket>)
    requires Ascending(s) && EndsWith(s, t)
    ensures Ascending(t) && Inside(t, s)
    ensures forall b, k :: b in s && b !in t && k in t ==> b.seqno < k.seqno
  {
    forall b, k | b in s && b !in t && k in t ensures b.seqno < k.seqno {
      var i :| 0 <= i < |s| && s[i] == b;
      var j :| 0 <= j < |t| && t[j] == k;
      assert t[j] == s[|s| - |t| + j];
      assert i >= |s| - |t| ==> t[i - (|s| - |t|)] == b;
    }
  }

  /** Losing the oldest of what was kept loses nothing newer. */
  lemma StillNewest(all: seq<Bucket>, kept: seq<Bucket>, records: seq<Bucket>, cfg: Config, now: int)
    requires KeptNewest(all, kept, cfg, now) && EndsWith(kept, records)
    ensures OlderDropped(all, records, cfg, now)
  {
    forall b, k | b in all && Live(b, cfg, now) && b !in records && k in records ensures b.seqno < k.seqno {
      var j :| 0 <= j < |records| && records[j] == k;
      assert kept[|kept| - |records| + j] == k;
      if b in kept {
        var i :| 0 <= i < |kept| && kept[i] == b;
        assert i >= |kept| - |records| ==> records[i - (|kept| - |records|)] == b;
      }
    }
  }

  lemma {:induction false} BytesBound(s: seq<Bucket>)
    requires Short(s)
    ensures Bytes(s) <= |s| * (MAX_LINE + 1)
  {
    if s != [] { BytesBound(s[1..]); }
  }

  /** A suffix has no more bytes than the whole. */
  lemma SuffixFits(s: seq<Bucket>, n: nat)
    requires n <= |s|
    ensures Bytes(s[n..]) <= Bytes(s)
  {
    assert s == s[..n] + s[n..];
    BytesAppend(s[..n], s[n..]);
  }

  /** What fits the byte cap is not dropped for it. */
  lemma FittingStays(kept: seq<Bucket>, records: seq<Bucket>, cfg: Config)
    requires DroppedForBytes(kept, records, cfg) && Bytes(kept) <= cfg.maxBytes
    ensures records == kept
  {
    if |records| < |kept| {
      var m: nat :| |records| <= m <= |records| + cfg.segRecords && Oversized(kept, m, cfg);
      SuffixFits(kept, |kept| - m);
    } else {
      assert records == kept;
    }
  }

  lemma NewestFit(all: seq<Bucket>, cfg: Config, now: int)
    requires Bytes(LiveOnly(all, cfg, now)) <= cfg.maxBytes
    ensures Bytes(Kept(all, cfg, now)) <= cfg.maxBytes
  {
    var live := LiveOnly(all, cfg, now);
    if |live| > cfg.maxRecords { SuffixFits(live, |live| - cfg.maxRecords); }
  }

  /** The byte cap holds a whole segment of the longest lines. */
  predicate RoomForASegment(cfg: Config) {
    cfg.segRecords * (MAX_LINE + 1) <= cfg.maxBytes
  }

  /** The record appended last stays, if it is live. */
  lemma NewestStays(all: seq<Bucket>, line: Bucket, records: seq<Bucket>, cfg: Config, now: int)
    requires Ascending(all + [line]) && Short(all + [line]) && Live(line, cfg, now) && cfg.maxRecords > 0
    requires DroppedForBytes(Kept(all + [line], cfg, now), records, cfg) && RoomForASegment(cfg)
    ensures line in records
  {
    var kept := Kept(all + [line], cfg, now);
    KeepsNewest(all + [line], cfg, now);
    LastIsNewest(all, line, kept, cfg, now);
    SomethingStays(kept, records, cfg);
    assert records[|records| - 1] == kept[|kept| - 1];
  }

  lemma SomethingStays(kept: seq<Bucket>, records: seq<Bucket>, cfg: Config)
    requires DroppedForBytes(kept, records, cfg) && kept != [] && Short(kept) && RoomForASegment(cfg)
    ensures records != []
  {
    if records == [] {
      var m: nat :| 0 <= m <= cfg.segRecords && Oversized(kept, m, cfg);
      MulMono(m, cfg.segRecords, MAX_LINE + 1);
      BytesBound(kept[|kept| - m..]);
    }
  }

  lemma MulMono(a: nat, b: nat, n: nat)
    requires a <= b
    ensures a * n <= b * n
  {
  }

  lemma LastIsNewest(all: seq<Bucket>, line: Bucket, kept: seq<Bucket>, cfg: Config, now: int)
    requires Ascending(all + [line]) && KeptNewest(all + [line], kept, cfg, now) && Live(line, cfg, now) && cfg.maxRecords > 0
    ensures kept != [] && kept[|kept| - 1] == line
  {
    assert (all + [line])[|all|] == line;
    assert forall b :: b in all + [line] ==> b.seqno <= line.seqno;
    assert line in LiveSet(all + [line], cfg, now);
    assert |LiveSet(all + [line], cfg, now)| > 0;
    assert kept[0] in kept;
    var i :| 0 <= i < |kept| && kept[i] == line;
    assert kept[|kept| - 1] in kept;
  }
}
