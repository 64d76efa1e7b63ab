/** What the power journal stores: records, segment files, the directory, and the
    bounds it enforces (agent/power_journal.go). */
module JournalTypes {
  import opened Common

  /** `bytes` is the encoded size of everything but the sequence number. */
  datatype Bucket = Bucket(seqno: nat, start: int, end: int, gapBefore: bool, data: int, bytes: nat)

  type StreamId = nat

  datatype PState = PState(acked: nat, reserved: nat)

  /** A segment file: the fsynced lines, the whole lines that were appended since and
      may or may not be found after a crash, and whether a partial line follows. */
  datatype SegFile = SegFile(lines: seq<Bucket>, tail: set<Bucket>, torn: bool)

  type Files = map<nat, SegFile>

  /** The directory: the identity file, the state files and the segment files of
      every stream. */
  datatype Disk = Disk(id: Option<StreamId>, states: map<StreamId, PState>, segs: map<StreamId, Files>)

  datatype Config = Config(maxRecords: nat, maxBytes: nat, segRecords: nat, retention: nat)

  const RESERVE: nat := 64
  const MAX_LINE: nat := 65536
  const MAX_SEQ: nat := 9007199254740991
  const MAX_FUTURE_SKEW_MS := 900_000
  const DEFAULT_CONFIG := Config(2880, 33554432, 10, 86_400_000)

  function Digits(n: nat): (d: nat)
    ensures d >= 1
  {
    if n < 10 then 1 else 1 + Digits(n / 10)
  }

  /** One line with its newline. */
  function LineBytes(b: Bucket): (n: nat)
    ensures n >= 2
  {
    b.bytes + Digits(b.seqno) + 1
  }

  function Bytes(s: seq<Bucket>): nat {
    if s == [] then 0 else LineBytes(s[0]) + Bytes(s[1..])
  }

  predicate Live(b: Bucket, cfg: Config, now: int) {
    now - cfg.retention <= b.end <= now + MAX_FUTURE_SKEW_MS
  }

  ghost predicate Ascending(s: seq<Bucket>) {
    forall i, j :: 0 <= i < j < |s| ==> s[i].seqno < s[j].seqno
  }

  ghost predicate Below(s: seq<Bucket>, n: int) {
    forall b :: b in s ==> b.seqno < n
  }

  ghost predicate From(s: seq<Bucket>, n: int) {
    forall b :: b in s ==> n <= b.seqno
  }

  ghost predicate Inside(s: seq<Bucket>, t: seq<Bucket>) {
    forall b :: b in s ==> b in t
  }

  /** No line is longer than the writer accepts. */
  ghost predicate Short(s: seq<Bucket>) {
    forall b :: b in s ==> LineBytes(b) <= MAX_LINE + 1
  }

  function FilesOf(d: Disk, id: StreamId): Files {
    if id in d.segs then d.segs[id] else map[]
  }

  function Drop<T>(s: seq<T>, i: nat): (t: seq<T>)
    requires i < |s|
    ensures |t| == |s| - 1
    ensures forall j :: 0 <= j < i ==> t[j] == s[j]
    ensures forall j :: i <= j < |t| ==> t[j] == s[j + 1]
    ensures forall j :: 0 <= j < |s| && j != i ==> s[j] in t
  {
    var t := s[..i] + s[i + 1..];
    assert forall j :: 0 <= j < |s| && j != i ==> s[j] == t[if j < i then j else j - 1];
    t
  }

  function LiveOnly(s: seq<Bucket>, cfg: Config, now: int): (r: seq<Bucket>)
    ensures forall b :: b in r <==> b in s && Live(b, cfg, now)
  {
    if s == [] then []
    else if Live(s[0], cfg, now) then [s[0]] + LiveOnly(s[1..], cfg, now)
    else LiveOnly(s[1..], cfg, now)
  }

  function Newest(s: seq<Bucket>, n: nat): (r: seq<Bucket>)
    ensures |r| <= n
  {
    if |s| > n then s[|s| - n..] else s
  }

  /** The records whose sequence number lies in a range. */
  function Between(s: seq<Bucket>, lo: int, hi: int): (r: seq<Bucket>)
    ensures forall b :: b in r <==> b in s && lo <= b.seqno <= hi
  {
    if s == [] then []
    else if lo <= s[0].seqno <= hi then [s[0]] + Between(s[1..], lo, hi)
    else Between(s[1..], lo, hi)
  }

  /** Without the leading records up to a sequence number. */
  function DropThrough(s: seq<Bucket>, hi: int): seq<Bucket> {
    if s == [] || s[0].seqno > hi then s else DropThrough(s[1..], hi)
  }

  lemma {:induction false} DropThroughAscends(s: seq<Bucket>, hi: int)
    requires Ascending(s)
    ensures Ascending(DropThrough(s, hi)) && |DropThrough(s, hi)| <= |s|
    ensures forall b :: b in DropThrough(s, hi) <==> b in s && b.seqno > hi
  {
    if s != [] && s[0].seqno <= hi {
      DropThroughAscends(s[1..], hi);
    } else {
      assert forall b :: b in s ==> s[0].seqno <= b.seqno;
    }
  }

  lemma PrependAscends(b: Bucket, s: seq<Bucket>)
    requires Ascending(s) && forall x :: x in s ==> b.seqno < x.seqno
    ensures Ascending([b] + s)
  {
  }

  lemma FirstIsLeast(s: seq<Bucket>)
    requires Ascending(s) && s != []
    ensures forall x :: x in s[1..] ==> s[0].seqno < x.seqno
  {
  }

  lemma {:induction false} LiveOnlyAscends(s: seq<Bucket>, cfg: Config, now: int)
    requires Ascending(s)
    ensures Ascending(LiveOnly(s, cfg, now))
  {
    if s != [] {
      LiveOnlyAscends(s[1..], cfg, now);
      FirstIsLeast(s);
      PrependAscends(s[0], LiveOnly(s[1..], cfg, now));
    }
  }

  lemma {:induction false} LiveOnlySnoc(s: seq<Bucket>, b: Bucket, cfg: Config, now: int)
    ensures LiveOnly(s + [b], cfg, now) == LiveOnly(s, cfg, now) + (if Live(b, cfg, now) then [b] else [])
  {
    if s == [] {
      assert s + [b] == [b];
    } else {
      assert (s + [b])[1..] == s[1..] + [b];
      LiveOnlySnoc(s[1..], b, cfg, now);
    }
  }

  lemma {:induction false} BetweenAscends(s: seq<Bucket>, lo: int, hi: int)
    requires Ascending(s)
    ensures Ascending(Between(s, lo, hi)) && |Between(s, lo, hi)| <= |s|
  {
    if s != [] {
      BetweenAscends(s[1..], lo, hi);
      FirstIsLeast(s);
      PrependAscends(s[0], Between(s[1..], lo, hi));
    }
  }

  lemma {:induction false} BytesAppend(s: seq<Bucket>, t: seq<Bucket>)
    ensures Bytes(s + t) == Bytes(s) + Bytes(t)
  {
    if s == [] {
      assert s + t == t;
    } else {
      assert (s + t)[1..] == s[1..] + t;
      BytesAppend(s[1..], t);
    }
  }

  lemma BytesOne(b: Bucket)
    ensures Bytes([b]) == LineBytes(b)
  {
  }

  /** A range that keeps every element of an ascending sequence keeps all of it. */
  lemma {:induction false} BetweenAll(s: seq<Bucket>, lo: int, hi: int)
    requires forall b :: b in s ==> lo <= b.seqno <= hi
    ensures Between(s, lo, hi) == s
  {
    if s != [] { BetweenAll(s[1..], lo, hi); }
  }

  lemma {:induction false} BetweenNone(s: seq<Bucket>, lo: int, hi: int)
    requires forall b :: b in s ==> b.seqno < lo || b.seqno > hi
    ensures Between(s, lo, hi) == []
  {
    if s != [] { BetweenNone(s[1..], lo, hi); }
  }

  /** Ascending sequences with the same elements are equal. */
  lemma {:induction false} AscendingUnique(s: seq<Bucket>, t: seq<Bucket>)
    requires Ascending(s) && Ascending(t)
    requires forall b :: b in s <==> b in t
    ensures s == t
  {
    assert |t| > 0 ==> t[0] in s;
    if s != [] {
      assert s[0] in t;
      assert s[0] == t[0];
      forall b
        ensures b in s[1..] <==> b in t[1..]
      {
        if b in s[1..] { assert b in t && b != s[0]; }
        if b in t[1..] { assert b in s && b != t[0]; }
      }
      AscendingUnique(s[1..], t[1..]);
    }
  }

  /** An ascending sequence inside another is no longer, and equal when as long. */
  lemma {:induction false} AscendingInside(s: seq<Bucket>, t: seq<Bucket>)
    requires Ascending(s) && Ascending(t)
    requires forall b :: b in s ==> b in t
    ensures |s| <= |t|
    ensures |s| == |t| ==> s == t
  {
    assert |s| > 0 ==> s[0] in t;
    if s != [] {
      if s[0] == t[0] {
        forall b | b in s[1..] ensures b in t[1..] { assert b in s && b != s[0]; }
        AscendingInside(s[1..], t[1..]);
      } else {
        forall b | b in s ensures b in t[1..] {
          assert b in t;
          if b == t[0] { assert s[0] in t; }
        }
        AscendingInside(s, t[1..]);
      }
    }
  }

  /** In an ascending sequence a range of sequence numbers is one slice. */
  lemma BetweenIsSlice(s: seq<Bucket>, i: nat, j: nat, lo: int, hi: int)
    requires Ascending(s) && i <= j <= |s|
    requires forall k :: 0 <= k < i ==> s[k].seqno < lo
    requires forall k :: i <= k < j ==> lo <= s[k].seqno <= hi
    requires forall k :: j <= k < |s| ==> s[k].seqno > hi
    ensures Between(s, lo, hi) == s[i..j]
  {
    BetweenAscends(s, lo, hi);
    forall b
      ensures b in Between(s, lo, hi) <==> b in s[i..j]
    {
      if b in Between(s, lo, hi) {
        var k :| 0 <= k < |s| && s[k] == b;
        assert s[i..j][k - i] == b;
      }
    }
    AscendingUnique(Between(s, lo, hi), s[i..j]);
  }
}
