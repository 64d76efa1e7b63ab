/** Reopening after a crash: what the bounded reader accepts, and that it recovers what
    was retained. */
module JournalRecovery {
  import opened Common
  import opened JournalTypes
  import opened JournalMachine
  import opened JournalSafety
  import opened JournalRetention
  import opened JournalRuns

  // ---- one segment ----

  /** How many lines the reader takes: it stops at the record cap, at the byte budget,
      at an overlong line, and at a line that does not ascend. */
  function Accepted(lines: seq<Bucket>, lastSeq: nat, room: nat, budget: int): (n: nat)
    ensures n <= |lines|
  {
    if room == 0 || budget <= 0 || lines == [] then 0
    else if LineBytes(lines[0]) > budget || LineBytes(lines[0]) > MAX_LINE + 1 || lines[0].seqno <= lastSeq then 0
    else 1 + Accepted(lines[1..], lines[0].seqno, room - 1, budget - LineBytes(lines[0]))
  }

  ghost predicate Readable(lines: seq<Bucket>, lastSeq: nat, room: nat, budget: int) {
    Ascending(lines) && From(lines, lastSeq + 1) && Short(lines) && |lines| <= room && Bytes(lines) <= budget
  }

  lemma {:induction false} BytesPositive(s: seq<Bucket>)
    requires s != []
    ensures Bytes(s) >= LineBytes(s[0]) > 0
  {
  }

  /** The reader takes the whole segment exactly when the segment is ascending, short
      enough in every line, and within the caps. */
  lemma {:induction false} AcceptsAll(lines: seq<Bucket>, lastSeq: nat, room: nat, budget: int)
    requires lines != []
    ensures Accepted(lines, lastSeq, room, budget) == |lines| <==> Readable(lines, lastSeq, room, budget)
  {
    BytesPositive(lines);
    var b, rest := lines[0], lines[1..];
    if room > 0 && budget > 0 && rest != [] {
      AcceptsAll(rest, b.seqno, room - 1, budget - LineBytes(b));
      assert Readable(lines, lastSeq, room, budget) ==> forall x :: x in rest ==> x.seqno > b.seqno;
      assert Readable(rest, b.seqno, room - 1, budget - LineBytes(b)) && lastSeq < b.seqno && LineBytes(b) <= MAX_LINE + 1
        ==> Readable(lines, lastSeq, room, budget);
    }
  }

  /** What the reader takes is an ascending prefix within the caps. */
  lemma {:induction false} AcceptedFits(lines: seq<Bucket>, lastSeq: nat, room: nat, budget: int)
    requires budget >= 0
    ensures Readable(lines[..Accepted(lines, lastSeq, room, budget)], lastSeq, room, budget)
  {
    var n := Accepted(lines, lastSeq, room, budget);
    if n > 0 {
      AcceptedFits(lines[1..], lines[0].seqno, room - 1, budget - LineBytes(lines[0]));
      assert lines[..n] == [lines[0]] + lines[1..][..n - 1];
      AcceptsAll(lines[..n], lastSeq, room, budget);
    }
  }

  lemma ReadableRest(lines: seq<Bucket>, lastSeq: nat, room: nat, budget: int)
    requires lines != [] && Readable(lines, lastSeq, room, budget)
    ensures room > 0 && Readable(lines[1..], lines[0].seqno, room - 1, budget - LineBytes(lines[0]))
  {
    FirstIsLeast(lines);
  }

  /** And it is the longest: one more line would break a cap or the order. */
  lemma {:induction false} AcceptsLongest(lines: seq<Bucket>, lastSeq: nat, room: nat, budget: int)
    requires Accepted(lines, lastSeq, room, budget) < |lines|
    ensures !Readable(lines[..Accepted(lines, lastSeq, room, budget) + 1], lastSeq, room, budget)
  {
    var n := Accepted(lines, lastSeq, room, budget);
    var more := lines[..n + 1];
    assert more[0] == lines[0] && Bytes(more) == LineBytes(more[0]) + Bytes(more[1..]);
    if n > 0 {
      assert more[1..] == lines[1..][..n];
      if Readable(more, lastSeq, room, budget) { ReadableRest(more, lastSeq, room, budget); }
      AcceptsLongest(lines[1..], lines[0].seqno, room - 1, budget - LineBytes(lines[0]));
    }
  }

  // ---- the segments in order ----

  /** Every segment taken whole is followed by the next; a cut one ends the reading. */
  function Recovered(files: Files, keys: seq<nat>, lastSeq: nat, budget: int, cfg: Config): seq<Bucket> {
    if keys == [] || keys[0] !in files then []
    else
      var f := files[keys[0]];
      var n := Accepted(f.lines, lastSeq, cfg.segRecords, budget);
      if n < |f.lines| || f.torn then f.lines[..n]
      else f.lines + Recovered(files, keys[1..], Max(lastSeq, LastSeq(f.lines)), budget - Bytes(f.lines), cfg)
  }

  ghost predicate Affordable(s: seq<Bucket>, budget: int) {
    Bytes(s) <= budget || s == []
  }

  lemma {:induction false} AllEmpty(files: Files, keys: seq<nat>)
    requires forall k :: k in keys && k in files ==> files[k].lines == []
    ensures Concat(files, keys) == []
  {
    if keys != [] { AllEmpty(files, keys[1..]); }
  }

  lemma {:induction false} ConcatPrefix(files: Files, keys: seq<nat>, n: nat)
    requires n <= |keys|
    ensures Concat(files, keys) == Concat(files, keys[..n]) + Concat(files, keys[n..])
  {
    if n > 0 {
      assert keys[..n] == [keys[0]] + keys[1..][..n - 1];
      assert keys[1..][n - 1..] == keys[n..];
      ConcatPrefix(files, keys[1..], n - 1);
    } else {
      assert keys[0..] == keys;
    }
  }

  /** `keys` names files of the directory, in order, whose lines are from `n` on. */
  ghost predicate Listed(files: Files, keys: seq<nat>, n: int) {
    SortedKeys(keys) && forall k :: k in keys ==> k in files && From(files[k].lines, n)
  }

  lemma ListedRest(files: Files, cfg: Config, keys: seq<nat>, lastSeq: nat)
    requires FilesOk(files, cfg) && Listed(files, keys, lastSeq + 1) && keys != []
    ensures Listed(files, keys[1..], Max(lastSeq, LastSeq(files[keys[0]].lines)) + 1)
  {
  }

  /** The files in order form one ascending log that only its end can tear. */
  ghost predicate Chain(files: Files, keys: seq<nat>, lastSeq: nat, cfg: Config) {
    keys == [] ||
    (&& keys[0] in files
     && var lines := files[keys[0]].lines;
       && Readable(lines, lastSeq, cfg.segRecords, Bytes(lines))
       && (files[keys[0]].torn ==> Concat(files, keys[1..]) == [])
       && Chain(files, keys[1..], Max(lastSeq, LastSeq(lines)), cfg))
  }

  lemma {:induction false} ListedIsChain(files: Files, keys: seq<nat>, lastSeq: nat, cfg: Config)
    requires FilesOk(files, cfg) && Listed(files, keys, lastSeq + 1)
    ensures Chain(files, keys, lastSeq, cfg)
  {
    if keys != [] {
      assert FileOk(keys[0], files[keys[0]], cfg);
      if files[keys[0]].torn { TornIsLast(files, keys, cfg); }
      ListedRest(files, cfg, keys, lastSeq);
      ListedIsChain(files, keys[1..], Max(lastSeq, LastSeq(files[keys[0]].lines)), cfg);
    }
  }

  lemma TornIsLast(files: Files, keys: seq<nat>, cfg: Config)
    requires FilesOk(files, cfg) && SortedKeys(keys) && (forall k :: k in keys ==> k in files)
    requires keys != [] && files[keys[0]].torn
    ensures Concat(files, keys[1..]) == []
  {
    forall k | k in keys[1..] ensures files[k].lines == [] {
      LaterKey(keys, k);
    }
    AllEmpty(files, keys[1..]);
  }

  lemma RecoversStep(files: Files, keys: seq<nat>, lastSeq: nat, budget: int, cfg: Config, rest: seq<Bucket>, got: seq<Bucket>)
    requires keys != [] && keys[0] in files && rest == Concat(files, keys[1..])
    requires var f := files[keys[0]];
             && Readable(f.lines, lastSeq, cfg.segRecords, Bytes(f.lines)) && (f.torn ==> rest == [])
             && got == Recovered(files, keys[1..], Max(lastSeq, LastSeq(f.lines)), budget - Bytes(f.lines), cfg)
             && (got == rest <==> Affordable(rest, budget - Bytes(f.lines)))
    ensures Recovered(files, keys, lastSeq, budget, cfg) == Concat(files, keys) <==> Affordable(Concat(files, keys), budget)
  {
    var f := files[keys[0]];
    var n := Accepted(f.lines, lastSeq, cfg.segRecords, budget);
    TakesWhole(f.lines, lastSeq, cfg.segRecords, budget);
    Glued(f, rest, got, n, budget);
    assert Concat(files, keys) == f.lines + rest;
  }

  /** With every line in place, recovery returns all of them exactly when they fit the
      byte cap. */
  lemma {:induction false} RecoversAll(files: Files, keys: seq<nat>, lastSeq: nat, budget: int, cfg: Config)
    requires Chain(files, keys, lastSeq, cfg)
    ensures Recovered(files, keys, lastSeq, budget, cfg) == Concat(files, keys) <==> Affordable(Concat(files, keys), budget)
  {
    if keys != [] {
      var f := files[keys[0]];
      var last, left := Max(lastSeq, LastSeq(f.lines)), budget - Bytes(f.lines);
      RecoversAll(files, keys[1..], last, left, cfg);
      RecoversStep(files, keys, lastSeq, budget, cfg, Concat(files, keys[1..]), Recovered(files, keys[1..], last, left, cfg));
    }
  }

  lemma TakesWhole(lines: seq<Bucket>, lastSeq: nat, room: nat, budget: int)
    requires Readable(lines, lastSeq, room, Bytes(lines))
    ensures Accepted(lines, lastSeq, room, budget) == |lines| <==> Affordable(lines, budget)
  {
  }

  lemma Glued(f: SegFile, rest: seq<Bucket>, got: seq<Bucket>, n: nat, budget: int)
    requires n <= |f.lines| && (n == |f.lines| <==> Affordable(f.lines, budget))
    requires got == rest <==> Affordable(rest, budget - Bytes(f.lines))
    requires f.torn ==> rest == []
    ensures var all := if n < |f.lines| || f.torn then f.lines[..n] else f.lines + got;
            all == f.lines + rest <==> Affordable(f.lines + rest, budget)
  {
    AffordBoth(f.lines, rest, budget);
    SamePrefix(f.lines, rest, got);
  }

  lemma SamePrefix(s: seq<Bucket>, t: seq<Bucket>, u: seq<Bucket>)
    ensures s + t == s + u <==> t == u
  {
    assert (s + t)[|s|..] == t && (s + u)[|s|..] == u;
  }

  lemma AffordBoth(s: seq<Bucket>, t: seq<Bucket>, budget: int)
    ensures Affordable(s + t, budget) <==> Affordable(s, budget) && Affordable(t, budget - Bytes(s))
  {
    BytesAppend(s, t);
    if t != [] { BytesPositive(t); } else { assert s + t == s; }
  }

  // ---- a crash and the reopening after it ----

  /** The files of a directory in order of their first sequence number. */
  function Listing(keys: set<nat>): (s: seq<nat>)
    ensures SortedKeys(s) && (forall k :: k in s <==> k in keys) && |s| == |keys|
  {
    if keys == {} then [] else
      LeastExists(keys);
      var k :| Least(keys, k);
      [k] + Listing(keys - {k})
  }

  lemma {:induction false} LeastExists(keys: set<nat>)
    requires keys != {}
    ensures exists k :: Least(keys, k)
  {
    var x :| x in keys;
    if keys == {x} {
      assert Least(keys, x);
    } else {
      LeastExists(keys - {x});
      var k :| Least(keys - {x}, k);
      assert forall m :: m in keys ==> m == x || m in keys - {x};
      assert Least(keys, if x < k then x else k);
    }
  }

  predicate Least(keys: set<nat>, k: nat) {
    k in keys && forall m :: m in keys ==> k <= m
  }

  function MaxSegs(cfg: Config): nat
    requires cfg.segRecords > 0
  {
    cfg.maxRecords / cfg.segRecords + 2
  }

  /** How many of the oldest files recovery refuses to load. */
  function Surplus(files: Files, cfg: Config): (n: nat)
    requires cfg.segRecords > 0
    ensures n <= |files|
  {
    if |files| > MaxSegs(cfg) then |files| - MaxSegs(cfg) else 0
  }

  function Reopened(files: Files, cfg: Config): seq<Bucket>
    requires cfg.segRecords > 0
  {
    Recovered(files, Listing(files.Keys)[Surplus(files, cfg)..], 0, cfg.maxBytes, cfg)
  }

  function AllLines(files: Files): seq<Bucket> {
    Concat(files, Listing(files.Keys))
  }

  lemma KeysSuffix(files: Files, n: nat)
    requires n <= |files|
    ensures var keys := Listing(files.Keys); |keys| == |files| && SortedKeys(keys[n..])
    ensures forall k :: k in Listing(files.Keys)[n..] ==> k in files
  {
    var keys := Listing(files.Keys);
    assert |files| == |files.Keys|;
    forall k | k in keys[n..] ensures k in files { assert k in keys; }
  }

  /** Reading in order gives every line there is, ascending. */
  lemma AllLinesAscend(files: Files, cfg: Config)
    requires FilesOk(files, cfg)
    ensures Ascending(AllLines(files))
    ensures forall b :: b in AllLines(files) <==> OnDisk(files, b)
  {
    ConcatOk(files, Listing(files.Keys), cfg);
  }

  lemma {:induction false} RecoveredIsPrefix(files: Files, keys: seq<nat>, lastSeq: nat, budget: int, cfg: Config)
    requires forall k :: k in keys ==> k in files
    ensures Recovered(files, keys, lastSeq, budget, cfg) <= Concat(files, keys)
  {
    if keys != [] {
      var lines := files[keys[0]].lines;
      RecoveredIsPrefix(files, keys[1..], Max(lastSeq, LastSeq(lines)), budget - Bytes(lines), cfg);
    }
  }

  /** The files recovery refuses as surplus, and those it reads. */
  function Refused(files: Files, cfg: Config): seq<nat>
    requires cfg.segRecords > 0
  {
    Listing(files.Keys)[..Surplus(files, cfg)]
  }

  function Loadable(files: Files, cfg: Config): seq<nat>
    requires cfg.segRecords > 0
  {
    Listing(files.Keys)[Surplus(files, cfg)..]
  }

  /** Nothing is refused while there are no more files than full segments of the most
      records, and two; beyond that, exactly so many of the newest files are read. */
  lemma RefusedAreSurplus(files: Files, cfg: Config)
    requires cfg.segRecords > 0
    ensures var most := cfg.maxRecords / cfg.segRecords + 2;
            && (|files| <= most ==> Refused(files, cfg) == [] && Loadable(files, cfg) == Listing(files.Keys))
            && (|files| > most ==> |Loadable(files, cfg)| == most)
    ensures forall k, m :: k in Refused(files, cfg) && m in Loadable(files, cfg) ==> k < m
    ensures forall k :: k in files <==> k in Refused(files, cfg) || k in Loadable(files, cfg)
  {
    var keys, n := Listing(files.Keys), Surplus(files, cfg);
    assert |files| == |files.Keys|;
    assert keys == keys[..n] + keys[n..];
  }

  /** Reopening recovers every line of the directory exactly when the files it refuses
      are empty and the rest fits the byte cap. */
  lemma ReopenIsComplete(files: Files, cfg: Config)
    requires FilesOk(files, cfg) && cfg.segRecords > 0 && 0 !in files
    ensures Reopened(files, cfg) == AllLines(files)
       <==> Concat(files, Refused(files, cfg)) == [] && Affordable(Concat(files, Loadable(files, cfg)), cfg.maxBytes)
  {
    var n := Surplus(files, cfg);
    KeysSuffix(files, n);
    ConcatPrefix(files, Listing(files.Keys), n);
    RecoveredIsPrefix(files, Loadable(files, cfg), 0, cfg.maxBytes, cfg);
    TwoParts(Concat(files, Refused(files, cfg)), Concat(files, Loadable(files, cfg)), Reopened(files, cfg));
    ReadsLoadable(files, cfg);
  }

  lemma TwoParts(s: seq<Bucket>, t: seq<Bucket>, r: seq<Bucket>)
    requires r <= t
    ensures r == s + t <==> s == [] && r == t
  {
  }

  lemma LinesFromOne(files: Files, cfg: Config)
    requires FilesOk(files, cfg) && 0 !in files
    ensures forall k :: k in files ==> From(files[k].lines, 1)
  {
  }

  lemma LoadableListed(files: Files, cfg: Config)
    requires cfg.segRecords > 0 && forall k :: k in files ==> From(files[k].lines, 1)
    ensures Listed(files, Loadable(files, cfg), 1)
  {
  }

  lemma ReadsLoadable(files: Files, cfg: Config)
    requires FilesOk(files, cfg) && cfg.segRecords > 0 && 0 !in files
    ensures var all := Concat(files, Loadable(files, cfg));
            Reopened(files, cfg) == all <==> Affordable(all, cfg.maxBytes)
  {
    LinesFromOne(files, cfg);
    LoadableListed(files, cfg);
    ListedIsChain(files, Loadable(files, cfg), 0, cfg);
    RecoversAll(files, Loadable(files, cfg), 0, cfg.maxBytes, cfg);
  }

  // ---- what a crash leaves ----

  /** A line of a crashed directory that was not confirmed is the line being written,
      under the sequence number that was next. */
  lemma CrashedLines(next: nat, before: Files, after: Files)
    requires CrashFiles(before, after)
    requires forall k :: k in before ==> TailIs(before[k].tail, next) && Below(before[k].lines, next)
    ensures forall b :: OnDisk(after, b) ==> OnDisk(before, b) || b.seqno == next
    ensures forall b :: OnDisk(before, b) ==> OnDisk(after, b) && b.seqno < next
  {
  }

  lemma RetainedSurvives(r: Ram, before: Files, after: Files, st: PState, visible: Visible, cfg: Config, b: Bucket)
    requires Fits(r, before, st, visible, cfg) && CrashFiles(before, after) && b in r.records
    ensures OnDisk(after, b)
  {
    var i := RecordOnDisk(r, before, st, visible, cfg, b);
    assert CrashLeaves(before[r.segs[i].first], after[r.segs[i].first]);
  }

  /** Every retained record is on disk; nothing else is but confirmed lines and, at
      most, the one line numbered next. */
  lemma CrashedDirectory(r: Ram, before: Files, after: Files, st: PState, visible: Visible, cfg: Config)
    requires Fits(r, before, st, visible, cfg) && CrashFiles(before, after)
    ensures FilesOk(after, cfg) && 0 !in after
    ensures forall b :: b in r.records ==> OnDisk(after, b)
    ensures forall b :: OnDisk(after, b) ==> OnDisk(before, b) || b.seqno == r.nextSeq
    ensures forall b :: OnDisk(before, b) ==> OnDisk(after, b) && b.seqno < r.nextSeq
  {
    CrashFilesOk(before, after, cfg);
    forall b | b in r.records ensures OnDisk(after, b) {
      RetainedSurvives(r, before, after, st, visible, cfg, b);
    }
    CrashedLines(r.nextSeq, before, after);
  }

  /** After a crash at any point the directory holds, ascending, every retained record
      and nothing else but confirmed lines and at most one unconfirmed line, which is
      numbered next. Reopening recovers all of it exactly when the files it refuses as
      surplus are empty and the rest fits the byte cap. */
  lemma CrashRecovery(s: Sys, left: Files)
    requires Inv(s) && s.ram.Some? && CanCrash(s, left)
    ensures var all := AllLines(left);
            && Ascending(all) && Inside(s.ram.value.records, all)
            && (forall b :: b in all ==> OnDisk(RamFiles(s), b) || b.seqno == s.ram.value.nextSeq)
            && (forall b :: OnDisk(RamFiles(s), b) ==> b in all && b.seqno < s.ram.value.nextSeq)
    ensures Reopened(left, s.cfg) == AllLines(left)
       <==> Concat(left, Refused(left, s.cfg)) == [] && Affordable(Concat(left, Loadable(left, s.cfg)), s.cfg.maxBytes)
  {
    OwnFits(s);
    var r := s.ram.value.(open := false);
    CrashedDirectory(r, RamFiles(s), left, s.disk.states[r.id], s.visible, s.cfg);
    AllLinesAscend(left, s.cfg);
    ReopenIsComplete(left, s.cfg);
  }
}
