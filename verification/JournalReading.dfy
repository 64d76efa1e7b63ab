/** The bookkeeping of recovery's loops. */
module JournalReading {
  import opened Common
  import opened JournalTypes
  import opened JournalMachine
  import opened JournalSafety
  import opened JournalRuns
  import opened JournalRecovery

  /** The segments and records built so far are those of these files. */
  ghost predicate Has(files: Files, keys: seq<nat>, segs: seq<Seg>, records: seq<Bucket>) {
    segs == SegsOf(files, keys) && records == Concat(files, keys)
  }

  lemma {:induction false} ConcatSnoc(files: Files, keys: seq<nat>, k: nat)
    ensures Concat(files, keys + [k]) == Concat(files, keys) + Lines(files, k)
  {
    if keys == [] {
      assert [k][1..] == [] && keys + [k] == [k];
    } else {
      var rest := keys[1..];
      assert (keys + [k])[1..] == rest + [k];
      ConcatSnoc(files, rest, k);
      assert Lines(files, keys[0]) + (Concat(files, rest) + Lines(files, k)) == (Lines(files, keys[0]) + Concat(files, rest)) + Lines(files, k);
    }
  }

  lemma HasSnoc(files: Files, keys: seq<nat>, segs: seq<Seg>, records: seq<Bucket>, k: nat)
    requires Has(files, keys, segs, records)
    ensures Has(files, keys + [k], segs + [SegOf(k, Lines(files, k))], records + Lines(files, k))
  {
    ConcatSnoc(files, keys, k);
    assert SegsOf(files, keys + [k]) == segs + [SegOf(k, Lines(files, k))];
  }

  /** Other files do not matter. */
  lemma {:induction false} HasFrame(files: Files, files': Files, keys: seq<nat>)
    requires forall k :: k in keys ==> Lines(files, k) == Lines(files', k)
    ensures SegsOf(files, keys) == SegsOf(files', keys) && Concat(files, keys) == Concat(files', keys)
  {
    if keys != [] { HasFrame(files, files', keys[1..]); }
  }

  function NonEmpty(files: Files, keys: seq<nat>): (r: seq<nat>)
    ensures forall k :: k in r <==> k in keys && Lines(files, k) != []
  {
    if keys == [] then []
    else if Lines(files, keys[0]) == [] then NonEmpty(files, keys[1..])
    else [keys[0]] + NonEmpty(files, keys[1..])
  }

  lemma {:induction false} NonEmptySorted(files: Files, keys: seq<nat>)
    requires SortedKeys(keys)
    ensures SortedKeys(NonEmpty(files, keys)) && Concat(files, NonEmpty(files, keys)) == Concat(files, keys)
  {
    if keys != [] {
      NonEmptySorted(files, keys[1..]);
      forall k | k in NonEmpty(files, keys[1..]) ensures keys[0] < k { LaterKey(keys, k); }
    }
  }

  /** Dropping the segments without records. */
  function WithRecords(segs: seq<Seg>): seq<Seg> {
    if segs == [] then []
    else if segs[0].count == 0 then WithRecords(segs[1..])
    else [segs[0]] + WithRecords(segs[1..])
  }

  lemma {:induction false} WithRecordsOf(files: Files, keys: seq<nat>)
    ensures WithRecords(SegsOf(files, keys)) == SegsOf(files, NonEmpty(files, keys))
  {
    if keys != [] { WithRecordsOf(files, keys[1..]); }
  }

  lemma {:induction false} WithRecordsSnoc(segs: seq<Seg>, g: Seg)
    ensures WithRecords(segs + [g]) == WithRecords(segs) + (if g.count == 0 then [] else [g])
  {
    if segs == [] {
      assert [g][1..] == [];
    } else {
      assert (segs + [g])[1..] == segs[1..] + [g];
      WithRecordsSnoc(segs[1..], g);
    }
  }

  /** Two listings of the same files are the same. */
  lemma {:induction false} ListingUnique(s: seq<nat>, t: seq<nat>)
    requires SortedKeys(s) && SortedKeys(t) && (forall k :: k in s <==> k in t)
    ensures s == t
  {
    assert |s| > 0 ==> s[0] in t;
    assert |t| > 0 ==> t[0] in s;
    if s != [] && t != [] {
      forall k ensures k in s[1..] <==> k in t[1..] {
        if k in s[1..] { LaterKey(s, k); }
        if k in t[1..] { LaterKey(t, k); }
      }
      ListingUnique(s[1..], t[1..]);
    }
  }

  /** Reading one more segment. */
  lemma NextSegment(files: Files, keys: seq<nat>, m: nat, last: nat, left: int, cfg: Config)
    requires m < |keys| && keys[m] in files
    ensures var f := files[keys[m]];
            var n := Accepted(f.lines, last, cfg.segRecords, left);
            Recovered(files, keys[m..], last, left, cfg) ==
              if n < |f.lines| || f.torn then f.lines[..n]
              else f.lines + Recovered(files, keys[m + 1..], if n > 0 then f.lines[n - 1].seqno else last, left - Bytes(f.lines), cfg)
  {
    var f := files[keys[m]];
    assert keys[m..][1..] == keys[m + 1..];
    if f.lines != [] {
      AcceptsAll(f.lines, last, cfg.segRecords, left);
      if Accepted(f.lines, last, cfg.segRecords, left) == |f.lines| { LastOf(f.lines); }
    }
  }

  /** What has been read after the segment that was cut. */
  lemma CutHas(files: Files, files': Files, keys: seq<nat>, m: nat, n: nat, segs: seq<Seg>, records: seq<Bucket>)
    requires SortedKeys(keys) && m < |keys| && Has(files, keys[..m], segs, records)
    requires keys[m] in files && n <= |files[keys[m]].lines|
    requires forall k :: k in keys[..m] ==> Lines(files', k) == Lines(files, k)
    requires Lines(files', keys[m]) == files[keys[m]].lines[..n]
    ensures var lines := files[keys[m]].lines[..n];
            Has(files', keys[..m + 1], segs + [SegOf(keys[m], lines)], records + lines)
  {
    HasFrame(files, files', keys[..m]);
    HasSnoc(files', keys[..m], segs, records, keys[m]);
    assert keys[..m + 1] == keys[..m] + [keys[m]];
  }

  /** `after` lacks some of these files, those that are torn at least. */
  ghost predicate Thinned(before: Files, after: Files, keys: seq<nat>, must: bool) {
    && (forall k :: k in after ==> k in before && after[k] == before[k])
    && (forall k :: k in after && k in keys ==> !must && !after[k].torn)
    && (forall k :: k in before && k !in keys ==> k in after)
  }

  /** Of the files named, exactly the first m are left, none of them torn. */
  ghost predicate LeftWith(before: Files, after: Files, keys: seq<nat>, m: nat) {
    && m <= |keys|
    && (forall k :: k in after ==> k in before && (k in keys[..m] || k !in keys))
    && (forall k :: k in keys[..m] ==> k in after && !after[k].torn)
    && (forall k :: k in after && k !in keys ==> after[k] == before[k])
  }

  lemma SplitKeys(keys: seq<nat>, m: nat)
    requires SortedKeys(keys) && m < |keys|
    ensures forall k :: k in keys <==> k in keys[..m] || k == keys[m] || k in keys[m + 1..]
    ensures keys[m] !in keys[..m] && keys[m] !in keys[m + 1..] && (forall k :: k in keys[..m] ==> k !in keys[m + 1..])
    ensures keys[..m + 1] == keys[..m] + [keys[m]]
  {
  }

  lemma CutLeaves(F: Files, G: Files, keys: seq<nat>, m: nat, n: nat, segs: seq<Seg>, records: seq<Bucket>)
    requires SortedKeys(keys) && m < |keys| && (forall k :: k in keys ==> k in F) && n <= |F[keys[m]].lines|
    requires forall k :: k in keys[..m] ==> !F[k].torn
    requires Has(F, keys[..m], segs, records)
    requires Thinned(F[keys[m] := SegFile(F[keys[m]].lines[..n], {}, false)], G, keys[m + 1..], true)
    ensures LeftWith(F, G, keys, m + 1)
    ensures var lines := F[keys[m]].lines[..n];
            Has(G, keys[..m + 1], segs + [SegOf(keys[m], lines)], records + lines)
  {
    SplitKeys(keys, m);
    CutHas(F, G, keys, m, n, segs, records);
  }

  /** The first m segments were read whole; the rest is still to come. */
  ghost predicate ReadSoFar(F: Files, keys: seq<nat>, m: nat, last: nat, left: int, segs: seq<Seg>, records: seq<Bucket>, cfg: Config) {
    && m <= |keys| && Has(F, keys[..m], segs, records)
    && (forall k :: k in keys[..m] ==> k in F && !F[k].torn)
    && records + Recovered(F, keys[m..], last, left, cfg) == Recovered(F, keys, 0, cfg.maxBytes, cfg)
  }

  lemma ReadingStarts(F: Files, keys: seq<nat>, cfg: Config)
    ensures ReadSoFar(F, keys, 0, 0, cfg.maxBytes, [], [], cfg)
  {
  }

  lemma ReadingEnds(F: Files, keys: seq<nat>, last: nat, left: int, segs: seq<Seg>, records: seq<Bucket>, cfg: Config)
    requires ReadSoFar(F, keys, |keys|, last, left, segs, records, cfg) && forall k :: k in keys ==> k in F
    ensures LeftWith(F, F, keys, |keys|) && records == Recovered(F, keys, 0, cfg.maxBytes, cfg)
  {
  }

  lemma Associate(s: seq<Bucket>, t: seq<Bucket>, u: seq<Bucket>)
    ensures s + (t + u) == (s + t) + u
  {
  }

  lemma WholeRead(F: Files, keys: seq<nat>, m: nat, segs: seq<Seg>, records: seq<Bucket>)
    requires m < |keys| && Has(F, keys[..m], segs, records) && keys[m] in F && !F[keys[m]].torn
    requires forall k :: k in keys[..m] ==> k in F && !F[k].torn
    ensures Has(F, keys[..m + 1], segs + [SegOf(keys[m], F[keys[m]].lines)], records + F[keys[m]].lines)
    ensures forall k :: k in keys[..m + 1] ==> k in F && !F[k].torn
  {
    HasSnoc(F, keys[..m], segs, records, keys[m]);
    assert keys[..m + 1] == keys[..m] + [keys[m]];
  }

  lemma ReadingContinues(F: Files, keys: seq<nat>, m: nat, last: nat, left: int, segs: seq<Seg>, records: seq<Bucket>, cfg: Config)
    requires ReadSoFar(F, keys, m, last, left, segs, records, cfg) && m < |keys| && keys[m] in F
    requires Accepted(F[keys[m]].lines, last, cfg.segRecords, left) == |F[keys[m]].lines| && !F[keys[m]].torn
    ensures var lines := F[keys[m]].lines;
            ReadSoFar(F, keys, m + 1, if lines != [] then lines[|lines| - 1].seqno else last, left - Bytes(lines),
                      segs + [SegOf(keys[m], lines)], records + lines, cfg)
  {
    var lines := F[keys[m]].lines;
    NextSegment(F, keys, m, last, left, cfg);
    WholeRead(F, keys, m, segs, records);
    var last' := if lines != [] then lines[|lines| - 1].seqno else last;
    Associate(records, lines, Recovered(F, keys[m + 1..], last', left - Bytes(lines), cfg));
  }

  lemma ReadingCut(F: Files, keys: seq<nat>, m: nat, last: nat, left: int, segs: seq<Seg>, records: seq<Bucket>, cfg: Config)
    requires ReadSoFar(F, keys, m, last, left, segs, records, cfg) && m < |keys| && keys[m] in F
    requires Accepted(F[keys[m]].lines, last, cfg.segRecords, left) < |F[keys[m]].lines| || F[keys[m]].torn
    ensures records + F[keys[m]].lines[..Accepted(F[keys[m]].lines, last, cfg.segRecords, left)]
         == Recovered(F, keys, 0, cfg.maxBytes, cfg)
  {
  }

  function Empties(files: Files, keys: seq<nat>): (r: seq<nat>)
    ensures forall k :: k in r <==> k in keys && Lines(files, k) == []
  {
    if keys == [] then []
    else
      var k := keys[|keys| - 1];
      Empties(files, keys[..|keys| - 1]) + (if Lines(files, k) == [] then [k] else [])
  }

  /** One more segment sorted into those kept and those gone. */
  lemma SortedOut(files: Files, keys: seq<nat>, segs: seq<Seg>, i: nat)
    requires segs == SegsOf(files, keys) && i < |segs|
    ensures WithRecords(segs[..i + 1]) == WithRecords(segs[..i]) + (if segs[i].count == 0 then [] else [segs[i]])
    ensures Empties(files, keys[..i + 1]) == Empties(files, keys[..i]) + (if segs[i].count == 0 then [segs[i].first] else [])
  {
    assert segs[..i + 1] == segs[..i] + [segs[i]];
    assert keys[..i + 1] == keys[..i] + [keys[i]];
    WithRecordsSnoc(segs[..i], segs[i]);
  }

  function Lowest(files: Files, cfg: Config): nat
    requires cfg.segRecords > 0
  {
    if Loadable(files, cfg) == [] then 0 else Loadable(files, cfg)[0]
  }

  /** Every file is refused as surplus or loadable, and the loadable ones are the ones
      from the lowest on. */
  lemma RefusedOrLoadable(F: Files, cfg: Config, k: nat)
    requires cfg.segRecords > 0
    ensures k in F <==> k in Refused(F, cfg) || k in Loadable(F, cfg)
    ensures k in Loadable(F, cfg) ==> Lowest(F, cfg) <= k && k !in Refused(F, cfg)
    ensures k in F && Lowest(F, cfg) <= k ==> k in Loadable(F, cfg)
  {
    var keys, n := Listing(F.Keys), Surplus(F, cfg);
    assert |keys| == |F.Keys| == |F|;
    if n < |keys| { LowAndHigh(keys, n, k); }
  }

  lemma LowAndHigh(keys: seq<nat>, n: nat, k: nat)
    requires SortedKeys(keys) && n < |keys|
    ensures k in keys <==> k in keys[..n] || k in keys[n..]
    ensures k in keys[n..] ==> keys[n] <= k && k !in keys[..n]
    ensures k in keys && keys[n] <= k ==> k in keys[n..]
  {
  }

  lemma LoadableSorted(F: Files, cfg: Config, m: nat)
    requires cfg.segRecords > 0 && m <= |Loadable(F, cfg)|
    ensures SortedKeys(Loadable(F, cfg)) && SortedKeys(Loadable(F, cfg)[..m])
    ensures forall k :: k in Loadable(F, cfg)[..m] ==> k in Loadable(F, cfg)
  {
    KeysSuffix(F, Surplus(F, cfg));
  }

  /** The directory once surplus was refused, the rest read and the empty ones dropped. */
  ghost predicate CleanedUp(F: Files, F1: Files, F2: Files, G: Files, cfg: Config, m: nat)
    requires cfg.segRecords > 0
  {
    && Thinned(F, F1, Refused(F, cfg), false)
    && LeftWith(F1, F2, Loadable(F, cfg), m)
    && Thinned(F2, G, Empties(F2, Loadable(F, cfg)[..m]), false)
  }

  lemma CleanedFile(F: Files, F1: Files, F2: Files, G: Files, cfg: Config, m: nat, k: nat)
    requires cfg.segRecords > 0 && CleanedUp(F, F1, F2, G, cfg, m)
    ensures k in G ==> !G[k].torn
    ensures (k in G && Lowest(F, cfg) <= k && G[k].lines != []) <==> k in NonEmpty(F2, Loadable(F, cfg)[..m])
    ensures k in NonEmpty(F2, Loadable(F, cfg)[..m]) ==> Lines(G, k) == Lines(F2, k)
  {
    RefusedOrLoadable(F, cfg, k);
    LoadableSorted(F, cfg, m);
  }

  /** What was read is what loading will find. */
  lemma ReadyToLoad(F: Files, F1: Files, F2: Files, G: Files, cfg: Config, m: nat, segs: seq<Seg>, records: seq<Bucket>)
    requires cfg.segRecords > 0 && CleanedUp(F, F1, F2, G, cfg, m)
    requires Has(F2, Loadable(F, cfg)[..m], segs, records)
    ensures var keys := NonEmpty(F2, Loadable(F, cfg)[..m]);
            LoadKeys(G, Lowest(F, cfg), keys) && Has(G, keys, WithRecords(segs), records)
    ensures forall k :: k in G ==> !G[k].torn
  {
    var ks := Loadable(F, cfg)[..m];
    var keys := NonEmpty(F2, ks);
    LoadableSorted(F, cfg, m);
    NonEmptySorted(F2, ks);
    WithRecordsOf(F2, ks);
    forall k ensures k in G ==> !G[k].torn
             ensures (k in G && Lowest(F, cfg) <= k && G[k].lines != []) <==> k in keys
             ensures k in keys ==> Lines(G, k) == Lines(F2, k)
    {
      CleanedFile(F, F1, F2, G, cfg, m, k);
    }
    HasFrame(F2, G, keys);
  }

  lemma {:induction false} RecoveredFrame(F: Files, G: Files, keys: seq<nat>, last: nat, left: int, cfg: Config)
    requires forall k :: k in keys ==> k in F && k in G && F[k] == G[k]
    ensures Recovered(F, keys, last, left, cfg) == Recovered(G, keys, last, left, cfg)
  {
    if keys != [] {
      var lines := F[keys[0]].lines;
      RecoveredFrame(F, G, keys[1..], Max(last, LastSeq(lines)), left - Bytes(lines), cfg);
    }
  }

  /** Refusing surplus does not touch what is loadable. */
  lemma StillLoadable(F: Files, G: Files, cfg: Config)
    requires cfg.segRecords > 0 && Thinned(F, G, Refused(F, cfg), false)
    ensures SortedKeys(Loadable(F, cfg)) && forall k :: k in Loadable(F, cfg) ==> k in G
    ensures Recovered(G, Loadable(F, cfg), 0, cfg.maxBytes, cfg) == Reopened(F, cfg)
  {
    LoadableSorted(F, cfg, 0);
    forall k | k in Loadable(F, cfg) ensures k in F && k in G && F[k] == G[k] { RefusedOrLoadable(F, cfg, k); }
    RecoveredFrame(F, G, Loadable(F, cfg), 0, cfg.maxBytes, cfg);
  }

  lemma LoadedIs(s: Sys, lo: nat, keys: seq<nat>)
    requires CanLoad(s, lo) && LoadKeys(OwnFiles(s), lo, keys)
    ensures Loaded(s, lo).ram == Some(RamFrom(s.disk.id.value, s.disk.states[s.disk.id.value], OwnFiles(s), keys))
    ensures Loaded(s, lo) == s.(ram := Loaded(s, lo).ram)
  {
    var found :| LoadKeys(OwnFiles(s), lo, found)
              && Loaded(s, lo) == s.(ram := Some(RamFrom(s.disk.id.value, s.disk.states[s.disk.id.value], OwnFiles(s), found)));
    ListingUnique(found, keys);
  }
}
