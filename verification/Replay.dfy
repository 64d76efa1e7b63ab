/** Replaying the journal to the hub: what one batch carries, and that a hub which
    acknowledges it drains the snapshot (agent/power_journal.go). */
module Replay {
  import opened Common
  import opened JournalTypes

  /** The published view. */
  datatype Snapshot = Snapshot(stream: StreamId, acked: nat, nextSeq: nat, records: seq<Bucket>)

  /** Bounds of one batch: count, encoded size, and the size of an empty batch. */
  datatype Bounds = Bounds(maxRecords: nat, maxBytes: nat, header: nat)

  datatype Batch = Batch(retainedFrom: nat, buckets: seq<Bucket>)

  /** What the journal guarantees of a snapshot. */
  ghost predicate Sound(s: Snapshot) {
    s.acked < s.nextSeq && Ascending(s.records) && Below(s.records, s.nextSeq)
  }

  function Replayable(records: seq<Bucket>, acked: nat, cfg: Config, now: int): (r: seq<Bucket>)
    ensures forall b :: b in r <==> b in records && b.seqno > acked && Live(b, cfg, now)
  {
    if records == [] then []
    else
      (if records[0].seqno > acked && Live(records[0], cfg, now) then [records[0]] else [])
      + Replayable(records[1..], acked, cfg, now)
  }

  ghost predicate Contiguous(s: seq<Bucket>) {
    forall i :: 0 < i < |s| ==> s[i].seqno == s[i - 1].seqno + 1
  }

  function Size(bounds: Bounds, s: seq<Bucket>): nat {
    bounds.header + Bytes(s)
  }

  /** The longest contiguous front within the count. */
  ghost predicate LongestRun(pending: seq<Bucket>, n: nat, max: nat) {
    && n <= |pending| && n <= max && Contiguous(pending[..n])
    && (n < |pending| && n < max ==> n > 0 && pending[n].seqno != pending[n - 1].seqno + 1)
  }

  /** A run halved until it fits or is a single record. */
  function Halved(bounds: Bounds, s: seq<Bucket>): seq<Bucket>
    decreases |s|
  {
    if Size(bounds, s) <= bounds.maxBytes || |s| <= 1 then s else Halved(bounds, s[..|s| / 2])
  }

  /** The batch made of a run of n: nothing when there is neither a run nor a gap. */
  ghost predicate MadeOf(s: Snapshot, run: seq<Bucket>, bounds: Bounds, batch: Option<Batch>) {
    var from := if run != [] then run[0].seqno else s.nextSeq;
    if run == [] && from <= s.acked + 1 then batch == None
    else
      && batch.Some? && batch.value.retainedFrom == from
      && batch.value.buckets == Halved(bounds, run)
  }

  /** The next batch: from the oldest contiguous run that may be sent, with everything
      below it declared lost. */
  ghost predicate IsNext(s: Snapshot, cfg: Config, now: int, bounds: Bounds, batch: Option<Batch>) {
    var pending := Replayable(s.records, s.acked, cfg, now);
    exists n: nat :: LongestRun(pending, n, bounds.maxRecords) && MadeOf(s, pending[..n], bounds, batch)
  }

  lemma {:induction false} ReplayableSnoc(s: seq<Bucket>, b: Bucket, acked: nat, cfg: Config, now: int)
    ensures Replayable(s + [b], acked, cfg, now)
         == Replayable(s, acked, cfg, now) + (if b.seqno > acked && Live(b, cfg, now) then [b] else [])
  {
    if s == [] {
      assert s + [b] == [b];
    } else {
      assert (s + [b])[1..] == s[1..] + [b];
      ReplayableSnoc(s[1..], b, acked, cfg, now);
    }
  }

  method Collect(s: Snapshot, cfg: Config, now: int) returns (pending: seq<Bucket>)
    ensures pending == Replayable(s.records, s.acked, cfg, now)
  {
    pending := [];
    for i := 0 to |s.records|
      invariant pending == Replayable(s.records[..i], s.acked, cfg, now)
    {
      ReplayableSnoc(s.records[..i], s.records[i], s.acked, cfg, now);
      assert s.records[..i + 1] == s.records[..i] + [s.records[i]];
      if s.records[i].seqno > s.acked && Live(s.records[i], cfg, now) { pending := pending + [s.records[i]]; }
    }
    assert s.records[..|s.records|] == s.records;
  }

  method RunLength(pending: seq<Bucket>, max: nat) returns (end: nat)
    ensures LongestRun(pending, end, max)
  {
    end := 0;
    while end < |pending| && end < max
      invariant end <= |pending| && end <= max && Contiguous(pending[..end])
    {
      if end > 0 && pending[end].seqno != pending[end - 1].seqno + 1 { break; }
      end := end + 1;
    }
  }

  method Halve(run: seq<Bucket>, bounds: Bounds) returns (fit: seq<Bucket>)
    ensures fit == Halved(bounds, run)
  {
    fit := run;
    while Size(bounds, fit) > bounds.maxBytes && |fit| > 1
      invariant Halved(bounds, fit) == Halved(bounds, run)
      decreases |fit|
    {
      fit := fit[..|fit| / 2];
    }
  }

  /** The bounds at read time, the contiguous run, and the halving until it fits. */
  method PendingBatch(s: Snapshot, cfg: Config, now: int, bounds: Bounds) returns (batch: Option<Batch>)
    ensures IsNext(s, cfg, now, bounds, batch)
  {
    var pending := Collect(s, cfg, now);
    var end := RunLength(pending, bounds.maxRecords);
    var run := pending[..end];
    var retainedFrom := if |run| > 0 then run[0].seqno else s.nextSeq;
    if |run| == 0 && retainedFrom <= s.acked + 1 {
      batch := None;
    } else {
      run := Halve(run, bounds);
      batch := Some(Batch(retainedFrom, run));
    }
    assert MadeOf(s, pending[..end], bounds, batch);
  }

  lemma {:induction false} ReplayableAscends(s: seq<Bucket>, acked: nat, cfg: Config, now: int)
    requires Ascending(s)
    ensures Ascending(Replayable(s, acked, cfg, now))
  {
    if s != [] {
      ReplayableAscends(s[1..], acked, cfg, now);
      forall b | b in Replayable(s[1..], acked, cfg, now) ensures s[0].seqno < b.seqno { assert b in s[1..]; }
    }
  }

  /** The halved run is a front of it that fits or is a single record, and each larger
      one on the way did not fit. */
  lemma {:induction false} HalvedFacts(bounds: Bounds, s: seq<Bucket>)
    ensures var fit := Halved(bounds, s);
            && fit <= s && (s != [] ==> fit != [])
            && (|fit| > 1 ==> Size(bounds, fit) <= bounds.maxBytes)
            && (fit != s ==> exists k :: |fit| < k <= |s| && k / 2 == |fit| && Size(bounds, s[..k]) > bounds.maxBytes)
    decreases |s|
  {
    assert s[..|s|] == s;
    if Size(bounds, s) > bounds.maxBytes && |s| > 1 {
      var half := s[..|s| / 2];
      HalvedFacts(bounds, half);
      assert forall k :: 0 <= k <= |half| ==> half[..k] == s[..k];
    }
  }

  // ---- what one batch promises ----

  /** The sequence number the hub acknowledges: the batch's end, or everything declared
      lost when it is empty. */
  function AckOf(b: Batch): int {
    if b.buckets == [] then b.retainedFrom - 1 else b.buckets[|b.buckets| - 1].seqno
  }

  /** One round covers the numbers above the cursor through its acknowledgement: first
      those declared lost, then the delivered ones, none skipped. */
  lemma BatchCovers(s: Snapshot, cfg: Config, now: int, bounds: Bounds, batch: Batch)
    requires Sound(s) && IsNext(s, cfg, now, bounds, Some(batch))
    ensures s.acked < AckOf(batch) < s.nextSeq && s.acked < batch.retainedFrom
    ensures forall i :: 0 <= i < |batch.buckets| ==>
              batch.buckets[i] in s.records && Live(batch.buckets[i], cfg, now)
              && batch.buckets[i].seqno == batch.retainedFrom + i
    ensures batch.buckets != [] ==> AckOf(batch) == batch.retainedFrom + |batch.buckets| - 1
    ensures |batch.buckets| <= bounds.maxRecords
    ensures |batch.buckets| > 1 ==> Size(bounds, batch.buckets) <= bounds.maxBytes
  {
    var pending := Replayable(s.records, s.acked, cfg, now);
    var n: nat :| LongestRun(pending, n, bounds.maxRecords) && MadeOf(s, pending[..n], bounds, Some(batch));
    HalvedFacts(bounds, pending[..n]);
    RunNumbers(batch.buckets);
    forall i | 0 <= i < |batch.buckets|
      ensures batch.buckets[i] in pending
    {
      assert batch.buckets[i] == pending[i];
    }
  }

  lemma {:induction false} RunNumbers(s: seq<Bucket>)
    requires Contiguous(s)
    ensures forall i :: 0 <= i < |s| ==> s[i].seqno == s[0].seqno + i
  {
    if |s| > 1 {
      var front := s[..|s| - 1];
      RunNumbers(front);
      assert s[|s| - 2] == front[|s| - 2];
    }
  }

  /** No live unacknowledged record is declared lost, exactly when the count bound lets a
      batch carry anything or nothing is pending. */
  lemma NothingLiveIsDeclaredLost(s: Snapshot, cfg: Config, now: int, bounds: Bounds, batch: Batch)
    requires Sound(s) && IsNext(s, cfg, now, bounds, Some(batch))
    ensures (forall b :: b in s.records && b.seqno > s.acked && Live(b, cfg, now) ==> batch.retainedFrom <= b.seqno)
       <==> bounds.maxRecords > 0 || Replayable(s.records, s.acked, cfg, now) == []
  {
    var pending := Replayable(s.records, s.acked, cfg, now);
    ReplayableAscends(s.records, s.acked, cfg, now);
    if pending != [] {
      assert pending[0] in pending;
      assert forall b :: b in pending ==> pending[0].seqno <= b.seqno;
    }
  }

  /** There is nothing to send exactly when nothing is pending and no gap is open. */
  lemma NothingToSend(s: Snapshot, cfg: Config, now: int, bounds: Bounds, batch: Option<Batch>)
    requires Sound(s) && IsNext(s, cfg, now, bounds, batch) && bounds.maxRecords > 0
    ensures batch == None <==> s.nextSeq == s.acked + 1
  {
  }

  // ---- draining a snapshot ----

  ghost predicate Carries(delivered: seq<Bucket>, n: nat) {
    exists b :: b in delivered && b.seqno == n
  }

  /** Every number above the cursor up to `upto` was delivered or declared lost, never
      both, and what is delivered is the record itself. */
  ghost predicate Accounted(s: Snapshot, delivered: seq<Bucket>, lost: set<nat>, upto: int) {
    && Ascending(delivered) && Inside(delivered, s.records)
    && (forall b :: b in delivered ==> s.acked < b.seqno <= upto)
    && (forall n :: n in lost ==> s.acked < n <= upto)
    && (forall n: nat :: s.acked < n <= upto ==> (n in lost <==> !Carries(delivered, n)))
  }

  /** Delivered while live; lost only when a round found it no longer live. */
  ghost predicate Justified(s: Snapshot, cfg: Config, delivered: seq<Bucket>, lost: set<nat>, clock: nat -> int, rounds: nat) {
    && (forall b :: b in delivered ==> exists i: nat :: i < rounds && Live(b, cfg, clock(i)))
    && (forall b :: b in s.records && b.seqno in lost ==> exists i: nat :: i < rounds && !Live(b, cfg, clock(i)))
  }

  /** The numbers declared lost by a batch over this cursor. */
  function Gap(acked: nat, retainedFrom: nat): (r: set<nat>)
    ensures forall n :: n in r <==> acked < n < retainedFrom
    decreases retainedFrom - acked
  {
    if retainedFrom <= acked + 1 then {} else {acked + 1} + Gap(acked + 1, retainedFrom)
  }

  lemma AccountsRound(s: Snapshot, acked: nat, batch: Batch, delivered: seq<Bucket>, lost: set<nat>)
    requires s.acked <= acked && Accounted(s, delivered, lost, acked) && Ascending(s.records)
    requires acked < batch.retainedFrom && Inside(batch.buckets, s.records)
    requires forall i :: 0 <= i < |batch.buckets| ==> batch.buckets[i].seqno == batch.retainedFrom + i
    requires AckOf(batch) == batch.retainedFrom + |batch.buckets| - 1
    ensures Accounted(s, delivered + batch.buckets, lost + Gap(acked, batch.retainedFrom), AckOf(batch))
  {
    var d, l := delivered + batch.buckets, lost + Gap(acked, batch.retainedFrom);
    assert forall b :: b in batch.buckets ==> batch.retainedFrom <= b.seqno <= AckOf(batch);
    forall n: nat | s.acked < n <= AckOf(batch) ensures n in l <==> !Carries(d, n) {
      CarriedBy(delivered, batch.buckets, n);
      CarriedFrom(batch, n);
      assert n > acked ==> !Carries(delivered, n);
    }
  }

  lemma CarriedFrom(batch: Batch, n: nat)
    requires forall i :: 0 <= i < |batch.buckets| ==> batch.buckets[i].seqno == batch.retainedFrom + i
    ensures Carries(batch.buckets, n) <==> batch.retainedFrom <= n < batch.retainedFrom + |batch.buckets|
  {
    if batch.retainedFrom <= n < batch.retainedFrom + |batch.buckets| {
      assert batch.buckets[n - batch.retainedFrom].seqno == n;
    }
  }

  lemma CarriedBy(s: seq<Bucket>, t: seq<Bucket>, n: nat)
    ensures Carries(s + t, n) <==> Carries(s, n) || Carries(t, n)
  {
  }

  /** A hub that acknowledges every batch drains the snapshot in at most as many rounds
      as there are numbers, whatever the clock does meanwhile: each number is delivered
      or declared lost, and no record is lost that stayed live. */
  method Drain(s: Snapshot, cfg: Config, bounds: Bounds, clock: nat -> int)
    returns (delivered: seq<Bucket>, lost: set<nat>, rounds: nat)
    requires Sound(s) && bounds.maxRecords > 0
    ensures Accounted(s, delivered, lost, s.nextSeq - 1)
    ensures Justified(s, cfg, delivered, lost, clock, rounds)
    ensures rounds <= s.nextSeq - 1 - s.acked
  {
    delivered, lost, rounds := [], {}, 0;
    var acked := s.acked;
    while true
      invariant s.acked <= acked < s.nextSeq && rounds <= acked - s.acked
      invariant Accounted(s, delivered, lost, acked)
      invariant Justified(s, cfg, delivered, lost, clock, rounds)
      decreases s.nextSeq - acked
    {
      var batch := PendingBatch(s.(acked := acked), cfg, clock(rounds), bounds);
      NothingToSend(s.(acked := acked), cfg, clock(rounds), bounds, batch);
      if batch == None { return; }
      var b := batch.value;
      BatchCovers(s.(acked := acked), cfg, clock(rounds), bounds, b);
      AccountsRound(s, acked, b, delivered, lost);
      NothingLiveIsDeclaredLost(s.(acked := acked), cfg, clock(rounds), bounds, b);
      JustifiesRound(s, cfg, delivered, lost, clock, rounds, b, acked);
      delivered := delivered + b.buckets;
      lost := lost + Gap(acked, b.retainedFrom);
      acked := AckOf(b);
      rounds := rounds + 1;
    }
  }

  lemma JustifiesRound(s: Snapshot, cfg: Config, delivered: seq<Bucket>, lost: set<nat>, clock: nat -> int, rounds: nat, batch: Batch, acked: nat)
    requires Justified(s, cfg, delivered, lost, clock, rounds)
    requires forall b :: b in batch.buckets ==> Live(b, cfg, clock(rounds))
    requires forall b :: b in s.records && b.seqno > acked && Live(b, cfg, clock(rounds)) ==> batch.retainedFrom <= b.seqno
    ensures Justified(s, cfg, delivered + batch.buckets, lost + Gap(acked, batch.retainedFrom), clock, rounds + 1)
  {
  }

  /** With the clock standing still, what is delivered is exactly the live
      unacknowledged records, in order. */
  lemma DrainsExactlyTheLive(s: Snapshot, cfg: Config, now: int, delivered: seq<Bucket>, lost: set<nat>, clock: nat -> int, rounds: nat)
    requires Sound(s) && Accounted(s, delivered, lost, s.nextSeq - 1)
    requires Justified(s, cfg, delivered, lost, clock, rounds) && forall i :: clock(i) == now
    ensures delivered == Replayable(s.records, s.acked, cfg, now)
  {
    ReplayableAscends(s.records, s.acked, cfg, now);
    forall b ensures b in delivered <==> b in Replayable(s.records, s.acked, cfg, now) {
      if b in s.records && b.seqno > s.acked && Live(b, cfg, now) {
        assert b.seqno !in lost;
        assert Carries(delivered, b.seqno);
        var x :| x in delivered && x.seqno == b.seqno;
        assert x == b;
      }
    }
    AscendingUnique(delivered, Replayable(s.records, s.acked, cfg, now));
  }
}
