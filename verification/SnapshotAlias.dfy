/** The journal's record slice and the snapshots that alias it. A slice is a window on
    a shared backing array with room to grow behind it; appending within that room
    writes the shared array in place (agent/power_journal.go). */
module SnapshotAlias {
  import opened JournalTypes

  /** A published window. */
  datatype View = View(backing: array<Bucket>, off: nat, len: nat)

  function Window(v: View): seq<Bucket>
    requires v.off + v.len <= v.backing.Length
    reads v.backing
  {
    v.backing[v.off..v.off + v.len]
  }

  class RecordSlice {
    var backing: array<Bucket>
    var off: nat
    var len: nat

    /** Every published window and what it showed when it was published. */
    ghost var published: map<View, seq<Bucket>>

    /** Every published window still shows what it did, and none reaches beyond the end
        of the slice it shares a backing array with. */
    ghost predicate Valid()
      reads this, backing, set v | v in published :: v.backing
    {
      && off + len <= backing.Length
      && forall v :: v in published ==>
           && v.off + v.len <= v.backing.Length && Window(v) == published[v]
           && (v.backing == backing ==> v.off + v.len <= off + len)
    }

    function Records(): seq<Bucket>
      requires off + len <= backing.Length
      reads this, backing
    {
      backing[off..off + len]
    }

    constructor ()
      ensures Valid() && Records() == [] && published == map[] && fresh(backing)
    {
      backing, off, len := new Bucket[0], 0, 0;
      published := map[];
    }

    /** Go's append: in place while there is room, otherwise into a larger array. */
    method Append(b: Bucket)
      requires Valid()
      modifies this`backing, this`off, this`len, backing
      ensures Valid() && Records() == old(Records()) + [b]
      ensures backing == old(backing) || fresh(backing)
    {
      if off + len == backing.Length { Grow(); }
      backing[off + len] := b;
      len := len + 1;
    }

    /** Moves the records to a fresh array with some room. */
    method Grow()
      requires Valid()
      modifies this`backing, this`off
      ensures Valid() && Records() == old(Records()) && len == old(len)
      ensures off + len < backing.Length && fresh(backing)
    {
      var room: int := *;
      if room < 0 { room := 0; }
      var records, n := Records(), len;
      var bigger := new Bucket[n + 1 + room];
      for i := 0 to n
        invariant bigger[..i] == records[..i]
        modifies bigger
      {
        bigger[i] := records[i];
      }
      backing, off := bigger, 0;
    }

    /** The age filter: into a fresh array when anything expired. */
    method Expire(cfg: Config, now: int)
      requires Valid()
      modifies this`backing, this`off, this`len
      ensures Valid() && Records() == LiveOnly(old(Records()), cfg, now)
      ensures backing == old(backing) || fresh(backing)
    {
      var kept := KeepLive(cfg, now);
      if |kept| == len {
        SameWhenNoneExpired(Records(), cfg, now);
        return;
      }
      Replace(kept);
    }

    method KeepLive(cfg: Config, now: int) returns (kept: seq<Bucket>)
      requires Valid()
      ensures kept == LiveOnly(Records(), cfg, now)
    {
      kept := [];
      var n := len;
      for i := 0 to n
        invariant kept == LiveOnly(Records()[..i], cfg, now)
      {
        var b := backing[off + i];
        LiveOnlySnoc(Records()[..i], b, cfg, now);
        assert Records()[..i + 1] == Records()[..i] + [b];
        if Live(b, cfg, now) { kept := kept + [b]; }
      }
      assert Records()[..n] == Records();
    }

    /** Fresh backing: what the published windows share is left alone. */
    method Replace(records: seq<Bucket>)
      requires Valid()
      modifies this`backing, this`off, this`len
      ensures Valid() && Records() == records && fresh(backing)
    {
      var bigger := new Bucket[|records|];
      for i := 0 to |records|
        invariant bigger[..i] == records[..i]
        modifies bigger
      {
        bigger[i] := records[i];
      }
      backing, off, len := bigger, 0, |records|;
    }

    /** Re-slicing from the front: the newest records, or those behind a dropped segment. */
    method DropFront(n: nat)
      requires Valid() && n <= len
      modifies this`off, this`len
      ensures Valid() && Records() == old(Records())[n..]
    {
      off, len := off + n, len - n;
    }

    /** A copy when re-slicing left too much unused capacity, or nothing after a rotation. */
    method Compact(bound: nat)
      requires Valid()
      modifies this`backing, this`off, this`len
      ensures Valid() && Records() == old(Records())
      ensures backing == old(backing) || fresh(backing)
    {
      if backing.Length - off > bound { Replace(Records()); }
    }

    method Rotate()
      requires Valid()
      modifies this`backing, this`off, this`len
      ensures Valid() && Records() == [] && fresh(backing)
    {
      Replace([]);
    }

    /** The published window ends where the slice ends, without room to grow. */
    method Snapshot() returns (v: View)
      requires Valid()
      modifies this`published
      ensures Valid() && v in published && Window(v) == Records()
      ensures published == old(published)[v := Records()]
      ensures v in old(published) ==> old(published)[v] == Records()
    {
      v := View(backing, off, len);
      published := published[v := Records()];
    }
  }

  lemma {:induction false} SameWhenNoneExpired(s: seq<Bucket>, cfg: Config, now: int)
    ensures |LiveOnly(s, cfg, now)| <= |s|
    ensures |LiveOnly(s, cfg, now)| == |s| ==> LiveOnly(s, cfg, now) == s
  {
    if s != [] { SameWhenNoneExpired(s[1..], cfg, now); }
  }

  /** Whatever the journal does after publishing, the window shows the same records. */
  method PublishThenChange(j: RecordSlice, steps: seq<SliceStep>) returns (v: View)
    requires j.Valid()
    modifies j, j.backing
    ensures j.Valid() && v.off + v.len <= v.backing.Length && Window(v) == old(j.Records())
  {
    v := j.Snapshot();
    ghost var shown := j.Records();
    for i := 0 to |steps|
      invariant j.Valid() && v in j.published && j.published[v] == shown
      invariant j.backing == old(j.backing) || fresh(j.backing)
    {
      match steps[i]
      case Append(b) => j.Append(b);
      case Expire(cfg, now) => j.Expire(cfg, now);
      case DropFront(n) => if n <= j.len { j.DropFront(n); }
      case Compact(bound) => j.Compact(bound);
      case Rotate => j.Rotate();
      case Snapshot => var other := j.Snapshot(); assert v in j.published;
    }
  }

  datatype SliceStep =
    | Append(b: Bucket)
    | Expire(cfg: Config, now: int)
    | DropFront(n: nat)
    | Compact(bound: nat)
    | Rotate
    | Snapshot
}
