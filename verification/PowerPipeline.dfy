/** From sample to journal: the window loop, the bounded queue and the journal worker
    (agent/power_history.go). No gap goes undeclared. */
module PowerPipeline {
  import opened Common
  import opened JournalTypes
  import opened JournalMachine
  import opened JournalSafety
  import opened JournalReach
  import opened JournalAgreement
  import A = PowerAccumulator
  import G = GpuWindow
  import J = PowerJournal

  const QUEUE_DEPTH: nat := 64

  // ---- what is on disk ----

  /** A line of a stream, whole or unfinished. */
  ghost predicate Line(d: Disk, id: StreamId, b: Bucket) {
    OnDisk(FilesOf(d, id), b) || InTail(FilesOf(d, id), b)
  }

  /** Of two lines of a stream with consecutive numbers, the later one is flagged or
      starts where the earlier ends. */
  ghost predicate Joined(d: Disk) {
    forall id, a, b :: Line(d, id, a) && Line(d, id, b) && b.seqno == a.seqno + 1 && !b.gapBefore ==> a.end == b.start
  }

  /** The lines of a stream numbered n end there. */
  ghost predicate Ends(d: Disk, id: StreamId, n: int, end: int) {
    forall a {:trigger Line(d, id, a)} :: Line(d, id, a) && a.seqno == n ==> a.end == end
  }

  lemma JoinedFewer(before: Disk, after: Disk)
    requires Joined(before) && Fewer(before, after)
    ensures Joined(after)
    ensures forall id, n, end :: Ends(before, id, n, end) ==> Ends(after, id, n, end)
  {
    FewerMeans(before, after);
    assert forall id, b :: Line(after, id, b) ==> Line(before, id, b);
  }

  /** An append keeps the joints, and the new number ends where the record does. */
  lemma Appended(before: Disk, after: Disk, id: StreamId, line: Bucket)
    requires Joined(before) && Added(before, after, id, line)
    requires line.gapBefore || Ends(before, id, line.seqno - 1, line.start)
    requires forall c :: OnDisk(FilesOf(before, id), c) ==> c.seqno < line.seqno
    requires forall c :: InTail(FilesOf(before, id), c) ==> c.seqno == line.seqno
    ensures Joined(after)
    ensures (forall c :: InTail(FilesOf(after, id), c) ==> c.seqno > line.seqno) ==> Ends(after, id, line.seqno, line.end)
  {
    JoinedAdded(before, after, id, line);
    AddedMeans(before, after, id, line);
  }

  lemma JoinedAdded(before: Disk, after: Disk, id: StreamId, line: Bucket)
    requires Joined(before) && Added(before, after, id, line)
    requires forall a :: Line(before, id, a) && line.seqno == a.seqno + 1 && !line.gapBefore ==> a.end == line.start
    requires forall c :: Line(before, id, c) ==> c.seqno <= line.seqno
    ensures Joined(after)
  {
    AddedMeans(before, after, id, line);
    assert forall i, b :: Line(after, i, b) ==> Line(before, i, b) || (i == id && b == line);
  }

  lemma JoinedCrash(d: Disk, id: StreamId, left: Files)
    requires Joined(d) && CrashFiles(FilesOf(d, id), left)
    ensures Joined(WithFiles(d, id, left))
  {
    var d' := WithFiles(d, id, left);
    assert forall i :: FilesOf(d', i) == if i == id then left else FilesOf(d, i);
    forall i, b | Line(d', i, b) ensures Line(d, i, b) {
      if i == id {
        var k :| k in left && (b in left[k].lines || b in left[k].tail);
        assert CrashLeaves(FilesOf(d, id)[k], left[k]);
      }
    }
  }

  // ---- the queue ----

  ghost predicate Follows(before: Option<Bucket>, b: Bucket) {
    !b.gapBefore ==> before.Some? && before.value.end == b.start
  }

  ghost function Before(taken: Option<Bucket>, queue: seq<Bucket>, i: nat): Option<Bucket>
    requires i <= |queue|
  {
    if i == 0 then taken else Some(queue[i - 1])
  }

  /** Each bucket of the queue follows the one before it, the first the one last taken. */
  ghost predicate Linked(taken: Option<Bucket>, queue: seq<Bucket>) {
    forall i {:trigger Before(taken, queue, i)} :: 0 <= i < |queue| ==> Follows(Before(taken, queue, i), queue[i])
  }

  lemma LinkedGrows(taken: Option<Bucket>, queue: seq<Bucket>, b: Bucket)
    requires Linked(taken, queue) && Follows(Before(taken, queue, |queue|), b)
    ensures Linked(taken, queue + [b])
  {
    var q := queue + [b];
    forall i | 0 <= i < |q| ensures Follows(Before(taken, q, i), q[i]) {
      if i < |queue| { assert Follows(Before(taken, queue, i), queue[i]); }
    }
  }

  lemma LinkedRest(taken: Option<Bucket>, queue: seq<Bucket>)
    requires Linked(taken, queue) && queue != []
    ensures Follows(taken, queue[0]) && Linked(Some(queue[0]), queue[1..])
  {
    assert Follows(Before(taken, queue, 0), queue[0]);
    forall i | 0 <= i < |queue[1..]| ensures Follows(Before(Some(queue[0]), queue[1..], i), queue[1..][i]) {
      assert Follows(Before(taken, queue, i + 1), queue[i + 1]);
    }
  }

  /** A completed window as a record, before it has a number. */
  function Record(c: A.Collected, gap: bool, data: int, bytes: nat): Bucket {
    Bucket(0, c.start, c.end, c.gapBefore || gap, data, bytes)
  }

  /** Unless one was dropped, the last queued bucket ends where the n-th window does. */
  ghost predicate UpTo(emitted: seq<A.Collected>, dropped: bool, last: Option<Bucket>, n: int) {
    && 0 <= n <= |emitted|
    && (!dropped && n > 0 ==> last.Some? && last.value.end == emitted[n - 1].end)
  }

  // ---- the ACK mailbox ----

  datatype Ack = Ack(stream: StreamId, through: nat)

  /** A newer acknowledgement, or one of another stream, replaces the waiting one. */
  function Offer(waiting: Option<Ack>, a: Ack): Option<Ack> {
    if waiting.None? || a.through > waiting.value.through || a.stream != waiting.value.stream then Some(a) else waiting
  }

  function OfferAll(waiting: Option<Ack>, acks: seq<Ack>): Option<Ack>
    decreases |acks|
  {
    if acks == [] then waiting else Offer(OfferAll(waiting, acks[..|acks| - 1]), acks[|acks| - 1])
  }

  /** The cursor after acknowledgements that are applied one by one. */
  function Cursor(acked: nat, acks: seq<Ack>): nat
    decreases |acks|
  {
    if acks == [] then acked else Max(Cursor(acked, acks[..|acks| - 1]), acks[|acks| - 1].through)
  }

  /** Keeping only the newest acknowledgement of a stream loses nothing: it moves the
      cursor where all of them would have. */
  lemma {:induction false} MailboxLosesNothing(stream: StreamId, acked: nat, acks: seq<Ack>)
    requires acks != [] && forall i :: 0 <= i < |acks| ==> acks[i].stream == stream
    ensures var a := OfferAll(None, acks);
            a.Some? && a.value.stream == stream && Cursor(acked, acks) == Max(acked, a.value.through)
    decreases |acks|
  {
    var front, last := acks[..|acks| - 1], acks[|acks| - 1];
    if front != [] {
      assert forall i :: 0 <= i < |front| ==> front[i] == acks[i];
      MailboxLosesNothing(stream, acked, front);
    }
  }

  class PowerHistory {
    var acc: A.PowerAccumulator
    var journal: J.PowerJournal
    var queue: seq<Bucket>
    var dropped: bool
    var writeFailed: bool

    /** The bucket the worker took last. */
    ghost var taken: Option<Bucket>

    /** Unless one was dropped, the end of the queue is the n-th emitted window. */
    ghost predicate QueuedUpTo(n: int) reads this`acc, this`dropped, this`taken, this`queue, acc {
      UpTo(acc.emitted, dropped, Before(taken, queue, |queue|), n)
    }

    /** Unless a write failed, the present stream's last number belongs to what was taken. */
    ghost predicate StoredLast() reads this`writeFailed, this`taken, this`journal, journal {
      !writeFailed && taken.Some? ==>
        Ends(journal.disk, journal.streamID, journal.nextSeq - 1, taken.value.end)
    }

    ghost predicate Stopped() reads this`journal, journal {
      journal.Valid() && journal.rotating.None? && Joined(journal.disk)
    }

    /** From the samples to the end of the queue. */
    ghost predicate Collecting() reads this`acc, this`dropped, this`taken, this`queue, acc {
      && acc.Valid() && |queue| <= QUEUE_DEPTH && Linked(taken, queue)
      && QueuedUpTo(|acc.emitted| - |acc.ready|)
    }

    /** From the queue to the disk. */
    ghost predicate Storing() reads this`writeFailed, this`taken, this`journal, journal {
      Stopped() && journal.loaded && StoredLast()
    }

    ghost predicate Valid() reads this, acc, journal {
      Collecting() && Storing()
    }

    /** Over an empty directory, not yet booted. */
    constructor (cfg: Config, window: nat, interval: nat)
      requires cfg.segRecords > 0 && window > 0 && interval > 0
      ensures Stopped() && !journal.loaded
    {
      acc := new A.PowerAccumulator(window, interval);
      journal := new J.PowerJournal(cfg);
      queue, dropped, writeFailed, taken := [], false, false, None;
    }

    /** Hands a completed bucket to the worker without blocking. */
    method Enqueue(c: A.Collected, data: int, bytes: nat, ghost n: nat)
      requires A.Chained(acc.emitted) && |queue| <= QUEUE_DEPTH && Linked(taken, queue)
      requires n < |acc.emitted| && c == acc.emitted[n] && QueuedUpTo(n)
      modifies this`queue, this`dropped
      ensures |queue| <= QUEUE_DEPTH && Linked(taken, queue) && QueuedUpTo(n + 1)
      ensures |old(queue)| < QUEUE_DEPTH ==>
                queue == old(queue) + [Bucket(0, c.start, c.end, c.gapBefore || old(dropped), data, bytes)] && !dropped
      ensures |old(queue)| >= QUEUE_DEPTH ==> queue == old(queue) && dropped
    {
      var b := Record(c, dropped, data, bytes);
      if n > 0 { A.ChainedAt(acc.emitted, n); }
      if |queue| < QUEUE_DEPTH {
        LinkedGrows(taken, queue, b);
        queue := queue + [b];
        dropped := false;
      } else {
        dropped := true;
      }
    }

    /** Of the first n windows as many as there is room for are at the end of the queue, in
        order; if not all of them, a drop is noted. */
    static ghost predicate Queued(before: seq<Bucket>, after: seq<Bucket>, out: seq<A.Collected>, sizes: nat -> nat, n: nat, dropped: bool)
      requires n <= |out| && |before| <= QUEUE_DEPTH
    {
      && |after| == (if |before| + n <= QUEUE_DEPTH then |before| + n else QUEUE_DEPTH)
      && (forall i :: 0 <= i < |before| ==> after[i] == before[i])
      && (forall i :: |before| <= i < |after| ==> Shows(after[i], out[i - |before|], sizes(i - |before|)))
      && (|before| + n > QUEUE_DEPTH && n > 0 ==> dropped)
    }

    static ghost predicate Shows(b: Bucket, c: A.Collected, bytes: nat) {
      b.start == c.start && b.end == c.end && b.bytes == bytes && (c.gapBefore ==> b.gapBefore)
    }

    /** One tick of the window loop. */
    method WindowTick(at: int, wallMS: int, sizes: nat -> nat) returns (out: seq<A.Collected>)
      requires Collecting() && acc.now <= at
      modifies this`queue, this`dropped, acc
      ensures Collecting() && acc.now == at && acc.ready == []
      ensures A.RolledTo(old(acc.Here()), acc.Here(), at, wallMS, acc.window, acc.expected)
      ensures |out| == |old(acc.ready)| + |acc.emitted| - |old(acc.emitted)| && A.Waiting(acc.emitted, out)
      ensures Queued(old(queue), queue, out, sizes, |out|, dropped)
    {
      ghost var n;
      out, n := Complete(at, wallMS);
      Drain(out, sizes, n);
    }

    /** Takes the completed windows out of the accumulator. */
    method Complete(at: int, wallMS: int) returns (out: seq<A.Collected>, ghost n: nat)
      requires Collecting() && acc.now <= at
      modifies acc
      ensures acc.Valid() && acc.now == at && acc.ready == [] && A.Waiting(acc.emitted, out) && n + |out| == |acc.emitted|
      ensures A.RolledTo(old(acc.Here()), acc.Here(), at, wallMS, acc.window, acc.expected)
      ensures |out| == |old(acc.ready)| + |acc.emitted| - |old(acc.emitted)|
      ensures QueuedUpTo(n)
    {
      n := |acc.emitted| - |acc.ready|;
      ghost var before := acc.emitted;
      out := acc.TickAt(at, wallMS);
      StillQueued(before, acc.emitted, Before(taken, queue, |queue|), n);
    }

    /** More windows do not change which one the queue ends with. */
    lemma StillQueued(before: seq<A.Collected>, after: seq<A.Collected>, last: Option<Bucket>, n: int)
      requires before <= after && UpTo(before, dropped, last, n)
      ensures UpTo(after, dropped, last, n)
    {
    }

    method Drain(out: seq<A.Collected>, sizes: nat -> nat, ghost n: nat)
      requires A.Chained(acc.emitted) && A.Waiting(acc.emitted, out) && n + |out| == |acc.emitted|
      requires |queue| <= QUEUE_DEPTH && Linked(taken, queue) && QueuedUpTo(n)
      modifies this`queue, this`dropped
      ensures |queue| <= QUEUE_DEPTH && Linked(taken, queue) && QueuedUpTo(|acc.emitted|)
      ensures Queued(old(queue), queue, out, sizes, |out|, dropped)
    {
      ghost var emitted := acc.emitted;
      for i := 0 to |out|
        invariant |queue| <= QUEUE_DEPTH && Linked(taken, queue) && acc.emitted == emitted && QueuedUpTo(n + i)
        invariant Queued(old(queue), queue, out, sizes, i, dropped)
      {
        A.WaitingAt(emitted, out, i);
        Enqueue(out[i], i, sizes(i), n + i);
      }
    }

    method AddGPU(t: G.GpuTick, at: int, wallMS: int)
      requires Collecting() && acc.now <= at
      modifies acc
      ensures Collecting() && acc.now == at
      ensures exists q :: A.RolledTo(old(acc.Here()), q, at, wallMS, acc.window, acc.expected)
                          && acc.Here() == q.(seen := q.seen.(ticks := q.seen.ticks + [t]))
    {
      acc.AddGPUAt(t, at, wallMS);
    }

    method AddDomain(d: A.Domain, at: int, wallMS: int, watts: real, source: A.Source)
      requires Collecting() && acc.now <= at
      modifies acc
      ensures Collecting() && acc.now == at
      ensures exists q :: A.RolledTo(old(acc.Here()), q, at, wallMS, acc.window, acc.expected)
                          && acc.Here() == q.(seen := A.WithSample(q.seen, d, A.Sample(source, watts)))
    {
      acc.AddDomainAt(d, at, wallMS, watts, source);
    }

    /** The worker takes one bucket and appends it; a failed write flags the next. */
    method TakeOne(now: int, id: StreamId)
      requires Valid() && queue != [] && id !in journal.ids
      modifies this`queue, this`taken, this`writeFailed, journal
      ensures Valid() && queue == old(queue)[1..]
      ensures Stored(old(queue)[0].(gapBefore := old(queue)[0].gapBefore || old(writeFailed)), now)
      ensures old(CanStore(queue[0])) ==> !writeFailed
    {
      var b := Take();
      if writeFailed { b := b.(gapBefore := true); }
      AppendBucket(b, now, id);
    }

    /** The front of the queue; whether it is flagged or not, the rest still follows it. */
    method Take() returns (b: Bucket)
      requires Collecting() && queue != []
      modifies this`queue, this`taken
      ensures Collecting() && taken == Some(b) && b == old(queue)[0] && Follows(old(taken), b)
      ensures queue == old(queue)[1..]
    {
      LinkedRest(taken, queue);
      b := queue[0];
      taken := Some(b);
      queue := queue[1..];
    }

    /** The disk works, there is a number left and the line is not too long. */
    ghost predicate CanStore(b: Bucket) reads this`journal, journal {
      !journal.failing && journal.nextSeq < MAX_SEQ && LineBytes(b.(seqno := journal.nextSeq)) - 1 <= MAX_LINE
    }

    /** Unless the write failed, the bucket has the last number, is retained if it is live,
        and was published. */
    ghost predicate Stored(b: Bucket, now: int) reads this`writeFailed, this`journal, journal {
      !writeFailed ==>
        && journal.nextSeq > 0
        && var rec := b.(seqno := journal.nextSeq - 1);
        && (Live(rec, journal.cfg, now) && journal.cfg.maxRecords > 0 && RoomForASegment(journal.cfg) ==>
              && rec in journal.records
              && (journal.streamID, rec.seqno) in journal.visible && journal.visible[(journal.streamID, rec.seqno)] == rec)
    }

    method AppendBucket(b: Bucket, now: int, id: StreamId)
      requires Stopped() && journal.loaded && id !in journal.ids && taken.Some? && taken.value.end == b.end
      requires b.gapBefore || (!writeFailed && Ends(journal.disk, journal.streamID, journal.nextSeq - 1, b.start))
      modifies this`writeFailed, journal
      ensures Storing()
      ensures Stored(b, now)
      ensures old(CanStore(b)) ==> !writeFailed
    {
      var ok := StoreBucket(b, now, id);
      writeFailed := !ok;
      if ok { var shot := journal.Snapshot(); }
    }

    /** The journal's part: the joints on disk stay declared, and what was stored is there. */
    method StoreBucket(b: Bucket, now: int, id: StreamId) returns (ok: bool)
      requires Stopped() && journal.loaded && id !in journal.ids
      requires b.gapBefore || Ends(journal.disk, journal.streamID, journal.nextSeq - 1, b.start)
      modifies journal
      ensures Stopped() && journal.loaded && (old(CanStore(b)) ==> ok)
      ensures ok ==> Ends(journal.disk, journal.streamID, journal.nextSeq - 1, b.end) && journal.nextSeq > 0
      ensures ok && Live(b.(seqno := journal.nextSeq - 1), journal.cfg, now) && journal.cfg.maxRecords > 0 && RoomForASegment(journal.cfg) ==>
                b.(seqno := journal.nextSeq - 1) in journal.records
    {
      ghost var d := journal.disk;
      journal.LinesAreNumbered();
      NoLinesYet(id);
      ghost var rec: Bucket;
      ok, rec := journal.Append(b, now, id);
      Appended(d, journal.disk, journal.streamID, rec);
      journal.LinesAreNumbered();
    }

    lemma NoLinesYet(id: StreamId)
      requires journal.Valid() && id !in journal.ids
      ensures FilesOf(journal.disk, id) == map[]
    {
      journal.FreshId(id);
    }

    ghost predicate Settled(now: int) reads this`journal, journal {
      !journal.overCap && Enforced(journal.Files(), journal.segs, journal.records, journal.cfg, now)
    }

    /** The periodic enforcement of the bounds. */
    method RetentionTick(now: int)
      requires Storing()
      modifies journal
      ensures Storing() && (journal.overCap || Settled(now))
      ensures !old(journal.failing) ==> Settled(now)
      ensures OlderDropped(old(journal.records), journal.records, journal.cfg, now)
    {
      ghost var d := journal.disk;
      var ok := journal.Enforce(now);
      JoinedFewer(d, journal.disk);
      var shot := journal.Snapshot();
    }

    method ApplyAck(stream: StreamId, through: nat)
      requires Storing()
      modifies journal
      ensures Storing()
      ensures !old(journal.failing) && stream == old(journal.streamID) && through < old(journal.nextSeq) ==>
                journal.acked == Max(old(journal.acked), through)
      ensures stream != old(journal.streamID) || through >= old(journal.nextSeq) ==> journal.acked == old(journal.acked)
    {
      ghost var d := journal.disk;
      var r := journal.Ack(stream, through);
      SameSegsAddNothing(d, journal.disk);
      JoinedFewer(d, journal.disk);
      if r == J.Moved { var shot := journal.Snapshot(); }
    }

    /** The process ends, wherever it is; nothing but the files survives. */
    method Crash(left: Files)
      requires Stopped() && CanCrash(journal.State(), left)
      modifies journal
      ensures Stopped() && !journal.loaded
    {
      if journal.loaded { JoinedCrash(journal.disk, journal.streamID, left); }
      journal.Crash(left);
    }

    /** A new process on the same directory: everything in memory starts over. */
    method Boot(now: int, id1: StreamId, id2: StreamId, window: nat, interval: nat) returns (ok: bool)
      requires Stopped() && !journal.loaded && id1 !in journal.ids && id2 !in journal.ids && id1 != id2
      requires window > 0 && interval > 0
      modifies this, journal
      ensures journal == old(journal) && (if ok then Valid() && fresh(acc) else Stopped())
      ensures !old(journal.failing) ==> ok
      ensures ok ==> queue == [] && acc.emitted == [] && acc.gapPending
    {
      ghost var d := journal.disk;
      ok := journal.Open(now, id1, id2);
      JoinedFewer(d, journal.disk);
      acc := new A.PowerAccumulator(window, interval);
      queue, dropped, writeFailed, taken := [], false, false, None;
    }

    /** Of two retained records with consecutive numbers, a later one that is not flagged
        starts where the earlier one ends. */
    lemma NoSilentGap(a: Bucket, b: Bucket)
      requires Valid() && a in journal.records && b in journal.records
      requires b.seqno == a.seqno + 1 && !b.gapBefore
      ensures b.start == a.end
    {
      journal.RetainedIsOnDisk(a);
      journal.RetainedIsOnDisk(b);
      assert Line(journal.disk, journal.streamID, a) && Line(journal.disk, journal.streamID, b);
    }
  }
}
