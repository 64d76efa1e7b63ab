/** Folding stored windows into chart cells, and the capped newest-first read
    (hub/fleet_power.go). Times are milliseconds; energy is in watt-milliseconds. */
module FleetPower {
  import opened Common
  import opened FleetReading

  type Machine = nat

  datatype Record = Record(machine: Machine, start: int, end: int, expected: int, payload: Payload)

  /** The chart: where it starts, how wide a bin is, how many there are. */
  datatype Chart = Chart(start: int, width: int, bins: nat)

  datatype Key = Key(domain: Domain, kind: Kind, bin: int, machine: Machine)

  datatype Cell = Cell(wattMS: real, ms: int, samples: int, expected: int)

  const NO_CELL := Cell(0.0, 0, 0, 0)

  function Plus(a: Cell, b: Cell): Cell {
    Cell(a.wattMS + b.wattMS, a.ms + b.ms, a.samples + b.samples, a.expected + b.expected)
  }

  function EndOf(c: Chart): int {
    c.start + c.bins * c.width
  }

  /** Dafny's division floors here, and so does the source's: the dividend is not
      negative for a row inside the chart. */
  function Bin(c: Chart, end: int): int
    requires c.width > 0
  {
    (end - 1 - c.start) / c.width
  }

  predicate Accepted(c: Chart, r: Record) {
    c.start < r.end <= EndOf(c) && r.start < r.end
  }

  lemma BinInside(c: Chart, end: int)
    requires c.width > 0 && c.start < end <= EndOf(c)
    ensures 0 <= Bin(c, end) < c.bins
    ensures c.start + Bin(c, end) * c.width < end <= c.start + (Bin(c, end) + 1) * c.width
  {
  }

  lemma MulMono(a: int, b: int, w: int)
    requires a <= b && w > 0
    ensures a * w <= b * w
  {
  }

  // ---- the declarative sum ----

  /** What a record adds to a cell. */
  function Share(c: Chart, r: Record, k: Key): Option<Cell>
    requires c.width > 0
  {
    var x := ReadingFor(r.payload, k.domain, r.expected);
    if Accepted(c, r) && Bin(c, r.end) == k.bin && r.machine == k.machine && x.Counted? && x.kind == k.kind
    then Some(Cell(x.watts * (r.end - r.start) as real, r.end - r.start, x.samples, r.expected))
    else None
  }

  /** The sum over the records of what each adds. */
  function CellSum(c: Chart, records: seq<Record>, k: Key): Cell
    requires c.width > 0
  {
    if records == [] then NO_CELL
    else
      var rest := CellSum(c, records[..|records| - 1], k);
      match Share(c, records[|records| - 1], k)
      case None => rest
      case Some(x) => Plus(rest, x)
  }

  /** Some record adds to the cell. */
  predicate Touched(c: Chart, records: seq<Record>, k: Key)
    requires c.width > 0
  {
    exists i :: 0 <= i < |records| && Share(c, records[i], k).Some?
  }

  lemma CellSumLast(c: Chart, records: seq<Record>, r: Record, k: Key)
    requires c.width > 0
    ensures CellSum(c, records + [r], k) ==
            match Share(c, r, k) case None => CellSum(c, records, k) case Some(x) => Plus(CellSum(c, records, k), x)
  {
  }

  lemma CellSumSnoc(c: Chart, records: seq<Record>, r: Record, k: Key)
    requires c.width > 0
    ensures CellSum(c, records + [r], k) ==
            match Share(c, r, k) case None => CellSum(c, records, k) case Some(x) => Plus(CellSum(c, records, k), x)
    ensures Touched(c, records + [r], k) <==> Touched(c, records, k) || Share(c, r, k).Some?
  {
  }

  // ---- the order of the rows does not matter ----

  lemma {:induction false} CellSumWithout(c: Chart, records: seq<Record>, i: nat, k: Key)
    requires c.width > 0 && i < |records|
    ensures CellSum(c, records, k) ==
            match Share(c, records[i], k)
            case None => CellSum(c, records[..i] + records[i + 1..], k)
            case Some(x) => Plus(CellSum(c, records[..i] + records[i + 1..], k), x)
  {
    var last := |records| - 1;
    if i == last {
      assert records[..i] + records[i + 1..] == records[..last];
    } else {
      var front := records[..last];
      CellSumWithout(c, front, i, k);
      assert records == front + [records[last]];
      WithoutSnoc(c, records, front, records[last], front[..i] + front[i + 1..], i, k);
    }
  }

  lemma WithoutSnoc(c: Chart, records: seq<Record>, front: seq<Record>, x: Record, less: seq<Record>, i: nat, k: Key)
    requires c.width > 0 && records == front + [x] && i < |front| && less == front[..i] + front[i + 1..]
    requires CellSum(c, front, k) ==
             match Share(c, front[i], k) case None => CellSum(c, less, k) case Some(y) => Plus(CellSum(c, less, k), y)
    ensures CellSum(c, records, k) ==
            match Share(c, records[i], k)
            case None => CellSum(c, records[..i] + records[i + 1..], k)
            case Some(y) => Plus(CellSum(c, records[..i] + records[i + 1..], k), y)
  {
    assert records[..i] + records[i + 1..] == less + [x];
    CellSumLast(c, less, x, k);
    CellSumLast(c, front, x, k);
  }

  /** Reordering the records changes no cell. */
  lemma {:induction false} OrderIndependent(c: Chart, a: seq<Record>, b: seq<Record>, k: Key)
    requires c.width > 0 && multiset(a) == multiset(b)
    ensures CellSum(c, a, k) == CellSum(c, b, k) && (Touched(c, a, k) <==> Touched(c, b, k))
  {
    SameTouched(c, a, b, k);
    if a == [] {
      assert |multiset(b)| == |b| == 0;
    } else {
      var front, x := a[..|a| - 1], a[|a| - 1];
      var i := Matching(front, x, a, b);
      OrderIndependent(c, front, b[..i] + b[i + 1..], k);
      CellSumLast(c, front, x, k);
      CellSumWithout(c, b, i, k);
    }
  }

  /** The last record of one order in the other, and the two without it. */
  lemma Matching(front: seq<Record>, x: Record, a: seq<Record>, b: seq<Record>) returns (i: nat)
    requires a == front + [x] && multiset(a) == multiset(b)
    ensures i < |b| && b[i] == x && multiset(front) == multiset(b[..i] + b[i + 1..])
  {
    assert x in multiset(a);
    i :| 0 <= i < |b| && b[i] == x;
    assert b == b[..i] + [b[i]] + b[i + 1..];
    assert multiset(front) == multiset(a) - multiset{x};
  }

  /** So the chart does not depend on the order of the rows. */
  lemma ChartIsOrderIndependent(c: Chart, a: seq<Record>, b: seq<Record>, x: map<Key, Cell>, y: map<Key, Cell>)
    requires c.width > 0 && multiset(a) == multiset(b) && Sums(x, c, a) && Sums(y, c, b)
    ensures x == y
  {
    forall k ensures (k in x <==> k in y) && (k in x ==> x[k] == y[k]) { OrderIndependent(c, a, b, k); }
    assert x.Keys == y.Keys;
  }

  lemma SameTouched(c: Chart, a: seq<Record>, b: seq<Record>, k: Key)
    requires c.width > 0 && multiset(a) == multiset(b)
    ensures Touched(c, a, k) <==> Touched(c, b, k)
  {
    forall i | 0 <= i < |a| && Share(c, a[i], k).Some? ensures Touched(c, b, k) {
      assert a[i] in multiset(b);
      var j :| 0 <= j < |b| && b[j] == a[i];
    }
    forall i | 0 <= i < |b| && Share(c, b[i], k).Some? ensures Touched(c, a, k) {
      assert b[i] in multiset(a);
      var j :| 0 <= j < |a| && a[j] == b[i];
    }
  }

  // ---- the fold ----

  const DOMAINS: seq<Domain> := [System, Cpu, Dram, Gpu, CpuGpu]

  /** The cells are exactly the sums of these records. */
  ghost predicate Sums(cells: map<Key, Cell>, c: Chart, records: seq<Record>)
    requires c.width > 0
  {
    forall k :: (k in cells <==> Touched(c, records, k)) && (k in cells ==> cells[k] == CellSum(c, records, k))
  }

  /** As above, with one more record for the first n domains. */
  ghost predicate SumsPartly(cells: map<Key, Cell>, c: Chart, records: seq<Record>, r: Record, n: nat)
    requires c.width > 0 && n <= |DOMAINS|
  {
    forall k: Key ::
      var some := if k.domain in DOMAINS[..n] then records + [r] else records;
      (k in cells <==> Touched(c, some, k)) && (k in cells ==> cells[k] == CellSum(c, some, k))
  }

  /** Folds the records into cells, one pass, in whatever order they come. */
  method Aggregate(c: Chart, records: seq<Record>) returns (cells: map<Key, Cell>)
    requires c.width > 0
    ensures Sums(cells, c, records)
  {
    cells := map[];
    for i := 0 to |records|
      invariant Sums(cells, c, records[..i])
    {
      assert records[..i + 1] == records[..i] + [records[i]];
      cells := AddRecord(cells, c, records[..i], records[i]);
    }
    assert records[..|records|] == records;
  }

  method AddRecord(cells0: map<Key, Cell>, c: Chart, ghost before: seq<Record>, r: Record) returns (cells: map<Key, Cell>)
    requires c.width > 0 && Sums(cells0, c, before)
    ensures Sums(cells, c, before + [r])
  {
    cells := cells0;
    if !Accepted(c, r) {
      forall k ensures Share(c, r, k).None? { }
      SkippedSums(cells, c, before, r);
      return;
    }
    var bin := Bin(c, r.end);
    assert DOMAINS[..0] == [];
    for n := 0 to |DOMAINS|
      invariant SumsPartly(cells, c, before, r, n)
    {
      cells := AddReading(cells, c, before, r, n, bin);
    }
    assert DOMAINS[..|DOMAINS|] == DOMAINS;
    forall d: Domain ensures d in DOMAINS {
      var i := match d case System => 0 case Cpu => 1 case Dram => 2 case Gpu => 3 case CpuGpu => 4;
      assert DOMAINS[i] == d;
    }
  }

  lemma SkippedSums(cells: map<Key, Cell>, c: Chart, before: seq<Record>, r: Record)
    requires c.width > 0 && Sums(cells, c, before) && forall k :: Share(c, r, k).None?
    ensures Sums(cells, c, before + [r])
  {
    forall k ensures (k in cells <==> Touched(c, before + [r], k)) && (k in cells ==> cells[k] == CellSum(c, before + [r], k)) {
      CellSumSnoc(c, before, r, k);
    }
  }

  method AddReading(cells0: map<Key, Cell>, c: Chart, ghost before: seq<Record>, r: Record, n: nat, bin: int) returns (cells: map<Key, Cell>)
    requires c.width > 0 && n < |DOMAINS| && Accepted(c, r) && bin == Bin(c, r.end)
    requires SumsPartly(cells0, c, before, r, n)
    ensures SumsPartly(cells, c, before, r, n + 1)
  {
    cells := cells0;
    var d := DOMAINS[n];
    var x := ReadingFor(r.payload, d, r.expected);
    ghost var key := Key(d, Measured, bin, r.machine);
    if x.Counted? {
      var k := Key(d, x.kind, bin, r.machine);
      key := k;
      var add := Cell(x.watts * (r.end - r.start) as real, r.end - r.start, x.samples, r.expected);
      assert Share(c, r, k).Some? && Share(c, r, k).value.wattMS == add.wattMS;
      assert Share(c, r, k) == Some(add);
      cells := cells[k := Plus(if k in cells then cells[k] else NO_CELL, add)];
    }
    ReadingAdded(cells0, cells, c, before, r, n, key);
  }

  lemma ReadingAdded(cells0: map<Key, Cell>, cells: map<Key, Cell>, c: Chart, before: seq<Record>, r: Record, n: nat, key: Key)
    requires c.width > 0 && n < |DOMAINS| && key.domain == DOMAINS[n] && SumsPartly(cells0, c, before, r, n)
    requires match Share(c, r, key)
             case None => cells == cells0 && forall k: Key :: k.domain == DOMAINS[n] ==> Share(c, r, k).None?
             case Some(x) => cells == cells0[key := Plus(if key in cells0 then cells0[key] else NO_CELL, x)]
                             && forall k: Key :: k.domain == DOMAINS[n] && k != key ==> Share(c, r, k).None?
    ensures SumsPartly(cells, c, before, r, n + 1)
  {
    forall k: Key ensures
      var some := if k.domain in DOMAINS[..n + 1] then before + [r] else before;
      (k in cells <==> Touched(c, some, k)) && (k in cells ==> cells[k] == CellSum(c, some, k))
    {
      assert DOMAINS[..n + 1] == DOMAINS[..n] + [DOMAINS[n]];
      CellSumSnoc(c, before, r, k);
      if k.domain == DOMAINS[n] {
        NotYet(n);
        if !Touched(c, before, k) { UntouchedIsZero(c, before, k); }
      }
    }
  }

  lemma NotYet(n: nat)
    requires n < |DOMAINS|
    ensures DOMAINS[n] !in DOMAINS[..n]
  {
  }

  lemma {:induction false} UntouchedIsZero(c: Chart, records: seq<Record>, k: Key)
    requires c.width > 0 && !Touched(c, records, k)
    ensures CellSum(c, records, k) == NO_CELL
  {
    if records != [] {
      var front := records[..|records| - 1];
      assert forall i :: 0 <= i < |front| ==> front[i] == records[i];
      UntouchedIsZero(c, front, k);
    }
  }

  // ---- one bin of the chart ----

  /** The machines behind a bin, by their cells. */
  ghost predicate Behind(cells: map<Key, Cell>, d: Domain, kind: Kind, bin: int, k: Key) {
    k in cells && k.domain == d && k.kind == kind && k.bin == bin && cells[k].ms > 0
  }

  ghost function KeysBehind(cells: map<Key, Cell>, d: Domain, kind: Kind, bin: int): (r: set<Key>)
    ensures r <= cells.Keys && forall k :: k in r <==> Behind(cells, d, kind, bin, k)
  {
    set k | k in cells && Behind(cells, d, kind, bin, k)
  }

  /** What cells add to a bin: watts, and the time behind them. */
  datatype Tally = Tally(watts: real, ms: int)

  function Joined(a: Tally, b: Tally): Tally {
    Tally(a.watts + b.watts, a.ms + b.ms)
  }

  /** One machine's time-weighted mean. */
  function Mean(x: Cell): Tally {
    if x.ms <= 0 then Tally(0.0, 0) else Tally(x.wattMS / x.ms as real, x.ms)
  }

  ghost function MeanSum(cells: map<Key, Cell>, keys: set<Key>): Tally
    requires keys <= cells.Keys
  {
    if keys == {} then Tally(0.0, 0) else
      var k :| k in keys;
      Joined(Mean(cells[k]), MeanSum(cells, keys - {k}))
  }

  lemma Regrouped(a: Tally, b: Tally, c: Tally)
    ensures Joined(a, Joined(b, c)) == Joined(b, Joined(a, c))
  {
  }

  /** It does not matter which is added first. */
  lemma {:induction false} MeanSumWithout(cells: map<Key, Cell>, keys: set<Key>, x: Key)
    requires keys <= cells.Keys && x in keys
    ensures MeanSum(cells, keys) == Joined(Mean(cells[x]), MeanSum(cells, keys - {x}))
    decreases |keys|
  {
    var k :| k in keys && MeanSum(cells, keys) == Joined(Mean(cells[k]), MeanSum(cells, keys - {k}));
    if k != x {
      MeanSumWithout(cells, keys - {k}, x);
      MeanSumWithout(cells, keys - {x}, k);
      assert keys - {k} - {x} == keys - {x} - {k};
      Regrouped(Mean(cells[k]), Mean(cells[x]), MeanSum(cells, keys - {k} - {x}));
    }
  }

  datatype BinSum = BinSum(watts: Option<real>, machines: nat, ms: int)

  /** What the chart shows for these keys. */
  ghost function SumOver(cells: map<Key, Cell>, keys: set<Key>): BinSum
    requires keys <= cells.Keys
  {
    var sum := MeanSum(cells, keys);
    BinSum(if keys == {} then None else Some(sum.watts), |keys|, sum.ms)
  }

  /** Adds up one bin in whatever order the map gives its cells; nothing is zero watts
      because nobody reported. */
  method BucketSum(cells: map<Key, Cell>, d: Domain, kind: Kind, bin: int) returns (sum: BinSum)
    ensures sum == SumOver(cells, KeysBehind(cells, d, kind, bin))
  {
    ghost var keys := KeysBehind(cells, d, kind, bin);
    var tally, machines: nat := Tally(0.0, 0), 0;
    var left := cells.Keys;
    assert keys - left == {};
    while left != {}
      invariant left <= cells.Keys && tally == MeanSum(cells, keys - left) && machines == |keys - left|
    {
      var k :| k in left;
      if k.domain == d && k.kind == kind && k.bin == bin && cells[k].ms > 0 {
        tally, machines := AddMean(cells, keys, left, k, tally, machines);
      } else {
        OneLess(keys, left, k);
      }
      left := left - {k};
    }
    assert keys - left == keys;
    return BinSum(if machines == 0 then None else Some(tally.watts), machines, tally.ms);
  }

  method AddMean(cells: map<Key, Cell>, ghost keys: set<Key>, ghost left: set<Key>, k: Key, tally0: Tally, machines0: nat)
    returns (tally: Tally, machines: nat)
    requires keys <= cells.Keys && k in keys && k in left && cells[k].ms > 0
    requires tally0 == MeanSum(cells, keys - left) && machines0 == |keys - left|
    ensures tally == MeanSum(cells, keys - (left - {k})) && machines == |keys - (left - {k})|
  {
    OneMore(cells, keys, left, k);
    tally := Tally(tally0.watts + cells[k].wattMS / cells[k].ms as real, tally0.ms + cells[k].ms);
    machines := machines0 + 1;
  }

  lemma OneLess(keys: set<Key>, left: set<Key>, k: Key)
    requires k !in keys
    ensures keys - (left - {k}) == keys - left
  {
  }

  lemma OneMore(cells: map<Key, Cell>, keys: set<Key>, left: set<Key>, k: Key)
    requires keys <= cells.Keys && k in keys && k in left
    ensures MeanSum(cells, keys - (left - {k})) == Joined(Mean(cells[k]), MeanSum(cells, keys - left))
    ensures |keys - (left - {k})| == |keys - left| + 1
  {
    var more, done := keys - (left - {k}), keys - left;
    assert more == done + {k} && more - {k} == done;
    MeanSumWithout(cells, more, k);
  }

  /** So far the machine showed nothing but these watts. */
  ghost predicate Steady(x: Cell, watts: real, touched: bool) {
    x.wattMS == watts * x.ms as real && x.ms >= 0 && (x.ms > 0 <==> touched)
  }

  lemma SteadyStep(x: Cell, y: Cell, watts: real, touched: bool)
    requires Steady(x, watts, touched) && y.ms > 0 && y.wattMS == watts * y.ms as real
    ensures Steady(Plus(x, y), watts, true)
  {
    assert (x.ms + y.ms) as real == x.ms as real + y.ms as real;
  }

  /** A machine that draws the same in all its windows of a bin shows just that, however
      long and however many they are. */
  lemma {:induction false} SteadyMachine(c: Chart, records: seq<Record>, k: Key, watts: real)
    requires c.width > 0
    requires forall r :: r in records && Share(c, r, k).Some? ==> ReadingFor(r.payload, k.domain, r.expected).watts == watts
    ensures Steady(CellSum(c, records, k), watts, Touched(c, records, k))
    ensures Touched(c, records, k) ==> Mean(CellSum(c, records, k)).watts == watts
  {
    if records != [] {
      var front, r := records[..|records| - 1], records[|records| - 1];
      assert records == front + [r] && r in records;
      SteadyMachine(c, front, k, watts);
      SteadyLast(c, front, r, k, watts);
    }
    SteadyMean(CellSum(c, records, k), watts, Touched(c, records, k));
  }

  lemma SteadyLast(c: Chart, front: seq<Record>, r: Record, k: Key, watts: real)
    requires c.width > 0 && Steady(CellSum(c, front, k), watts, Touched(c, front, k))
    requires Share(c, r, k).Some? ==> ReadingFor(r.payload, k.domain, r.expected).watts == watts
    ensures Steady(CellSum(c, front + [r], k), watts, Touched(c, front + [r], k))
  {
    SteadyShare(c, r, k, watts);
    SteadySum(CellSum(c, front, k), Share(c, r, k), watts, Touched(c, front, k));
    CellSumSnoc(c, front, r, k);
  }

  lemma SteadyShare(c: Chart, r: Record, k: Key, watts: real)
    requires c.width > 0 && (Share(c, r, k).Some? ==> ReadingFor(r.payload, k.domain, r.expected).watts == watts)
    ensures match Share(c, r, k) case None => true case Some(y) => y.ms > 0 && y.wattMS == watts * y.ms as real
  {
  }

  lemma SteadySum(x: Cell, share: Option<Cell>, watts: real, touched: bool)
    requires Steady(x, watts, touched)
    requires match share case None => true case Some(y) => y.ms > 0 && y.wattMS == watts * y.ms as real
    ensures Steady(match share case None => x case Some(y) => Plus(x, y), watts, touched || share.Some?)
  {
    if share.Some? { SteadyStep(x, share.value, watts, touched); }
  }

  lemma SteadyMean(x: Cell, watts: real, touched: bool)
    requires Steady(x, watts, touched)
    ensures touched ==> Mean(x).watts == watts
  {
    if x.ms > 0 { Cancels(watts, x.ms as real); }
  }

  lemma Cancels(a: real, b: real)
    requires b > 0.0
    ensures a * b / b == a
  {
  }

  /** The instant before the end lies in the bin. */
  predicate EndsIn(c: Chart, end: int, bin: int) {
    c.start + bin * c.width < end <= c.start + (bin + 1) * c.width
  }

  lemma BinIs(c: Chart, end: int, bin: int)
    requires c.width > 0
    ensures Bin(c, end) == bin <==> EndsIn(c, end, bin)
  {
    var x := end - 1 - c.start;
    assert x == c.width * (x / c.width) + x % c.width;
    if EndsIn(c, end, bin) {
      if x / c.width < bin { MulMono(x / c.width + 1, bin, c.width); }
      if x / c.width > bin { MulMono(bin + 1, x / c.width, c.width); }
    }
  }

  /** How long a window counts in a cell: in full, if it is the machine's, has such a
      reading, and ends in the bin and in the chart. */
  function CountedTime(c: Chart, r: Record, k: Key): int {
    var x := ReadingFor(r.payload, k.domain, r.expected);
    if && r.machine == k.machine && x.Counted? && x.kind == k.kind && r.start < r.end
       && c.start < r.end <= c.start + c.bins * c.width && EndsIn(c, r.end, k.bin)
    then r.end - r.start else 0
  }

  lemma ShareTime(c: Chart, r: Record, k: Key)
    requires c.width > 0
    ensures CountedTime(c, r, k) == match Share(c, r, k) case None => 0 case Some(x) => x.ms
  {
    BinIs(c, r.end, k.bin);
  }

  function TimeIn(c: Chart, records: seq<Record>, k: Key): int {
    if records == [] then 0 else TimeIn(c, records[..|records| - 1], k) + CountedTime(c, records[|records| - 1], k)
  }

  /** The time behind a cell is that of the machine's windows ending in the bin. */
  lemma {:induction false} CellCounts(c: Chart, records: seq<Record>, k: Key)
    requires c.width > 0
    ensures CellSum(c, records, k).ms == TimeIn(c, records, k)
  {
    if records != [] {
      CellCounts(c, records[..|records| - 1], k);
      ShareTime(c, records[|records| - 1], k);
    }
  }

  // ---- the capped read ----

  /** A stored row; without a payload it does not decode. */
  datatype Row = Row(machine: Machine, start: int, end: int, expected: int, payload: Option<Payload>)

  function RecordOf(r: Row): seq<Record> {
    if r.payload.Some? then [Record(r.machine, r.start, r.end, r.expected, r.payload.value)] else []
  }

  /** The records of rows i to j. */
  function Decoded(rows: seq<Row>, i: nat, j: nat): seq<Record>
    requires j <= |rows|
  {
    if j <= i then [] else Decoded(rows, i, j - 1) + RecordOf(rows[j - 1])
  }

  lemma {:induction false} DecodedJoin(rows: seq<Row>, i: nat, j: nat)
    requires i <= j <= |rows|
    ensures Decoded(rows, 0, i) + Decoded(rows, i, j) == Decoded(rows, 0, j)
  {
    if i < j {
      DecodedJoin(rows, i, j - 1);
      assert Decoded(rows, 0, i) + (Decoded(rows, i, j - 1) + RecordOf(rows[j - 1]))
          == (Decoded(rows, 0, i) + Decoded(rows, i, j - 1)) + RecordOf(rows[j - 1]);
    }
  }

  /** What the query yields: rows inside the chart, newest first. */
  ghost predicate NewestFirst(c: Chart, rows: seq<Row>) {
    && (forall i, j :: 0 <= i < j < |rows| ==> rows[i].end >= rows[j].end)
    && (forall i :: 0 <= i < |rows| ==> c.start < rows[i].end <= EndOf(c))
  }

  /** The chart bin of each row. */
  function BinsOf(c: Chart, rows: seq<Row>): (bins: seq<int>)
    requires c.width > 0
    ensures |bins| == |rows| && forall i :: 0 <= i < |rows| ==> bins[i] == Bin(c, rows[i].end)
  {
    if rows == [] then [] else [Bin(c, rows[0].end)] + BinsOf(c, rows[1..])
  }

  lemma BinMono(c: Chart, a: int, b: int)
    requires c.width > 0 && a <= b
    ensures Bin(c, a) <= Bin(c, b)
  {
    DivMono(a - 1 - c.start, b - 1 - c.start, c.width);
  }

  lemma DivMono(a: int, b: int, w: int)
    requires w > 0 && a <= b
    ensures a / w <= b / w
  {
    assert a == w * (a / w) + a % w && b == w * (b / w) + b % w;
    if b / w < a / w { MulMono(b / w + 1, a / w, w); }
  }

  /** Newest first, the bins fall, and all are inside the chart. */
  ghost predicate Falling(bins: seq<int>) {
    && (forall i, j :: 0 <= i < j < |bins| ==> bins[i] >= bins[j])
    && forall i :: 0 <= i < |bins| ==> 0 <= bins[i]
  }

  lemma BinsFall(c: Chart, rows: seq<Row>)
    requires c.width > 0 && NewestFirst(c, rows)
    ensures Falling(BinsOf(c, rows))
  {
    forall i, j | 0 <= i < j < |rows| ensures Bin(c, rows[i].end) >= Bin(c, rows[j].end) { BinMono(c, rows[j].end, rows[i].end); }
    forall i | 0 <= i < |rows| ensures 0 <= Bin(c, rows[i].end) { BinInside(c, rows[i].end); }
  }

  /** The first m rows are exactly those of the bins from `first` on. */
  ghost predicate BinsFrom(bins: seq<int>, first: int, m: nat) {
    forall j :: 0 <= j < |bins| ==> (j < m <==> bins[j] >= first)
  }

  /** Every row from m on is of a bin that, taken in, makes more rows than the cap. */
  ghost predicate NoneMissed(bins: seq<int>, m: nat, cap: nat) {
    forall j :: m <= j < |bins| ==> cap < |bins| && bins[cap] >= bins[j]
  }

  /** Of the first i rows, those before `held` were yielded; the rest are one bin, held
      back. */
  ghost predicate Buffered(rows: seq<Row>, bins: seq<int>, i: nat, held: nat, index: int, records: seq<Record>, pending: seq<Record>) {
    && |bins| == |rows| && held <= i <= |rows| && (i == 0 <==> index == -1) && (i > 0 ==> held < i)
    && records == Decoded(rows, 0, held) && pending == Decoded(rows, held, i)
    && (forall j :: 0 <= j < held ==> bins[j] > index)
    && (forall j :: held <= j < i ==> bins[j] == index)
  }

  /** The capped cursor: it buffers one bin, and yields it only when the next bin, or the
      end of the rows, proves the cap did not split it. The reported chart starts with
      bin `first`, and every row from there on was read, within the cap. Nothing that could
      be read is left out: with any further bin there would be more rows than the cap. */
  method ReadCapped(c: Chart, all: seq<Row>, cap: nat) returns (records: seq<Record>, truncated: bool, first: int, ghost m: nat)
    requires c.width > 0 && NewestFirst(c, all) && cap > 0
    ensures m <= |all| && m <= cap && records == Decoded(all, 0, m)
    ensures BinsFrom(BinsOf(c, all), first, m) && 0 <= first
    ensures truncated <==> |all| > cap
    ensures !truncated ==> first == 0
    ensures NoneMissed(BinsOf(c, all), m, cap)
  {
    BinsFall(c, all);
    records, truncated, first, m := ReadRows(c, all, BinsOf(c, all), cap);
  }

  /** The cursor itself. The query asks for one row more than the cap, the last one looked
      at here. */
  method ReadRows(c: Chart, all: seq<Row>, ghost bins: seq<int>, cap: nat)
    returns (records: seq<Record>, truncated: bool, first: int, ghost m: nat)
    requires c.width > 0 && cap > 0 && Falling(bins) && |bins| == |all|
    requires forall i :: 0 <= i < |all| ==> bins[i] == Bin(c, all[i].end)
    ensures m <= |all| && m <= cap && records == Decoded(all, 0, m)
    ensures BinsFrom(bins, first, m) && 0 <= first && NoneMissed(bins, m, cap)
    ensures (truncated <==> |all| > cap) && (!truncated ==> first == 0)
  {
    records, truncated, first, m := [], false, 0, 0;
    var pending: seq<Record> := [];
    var pendingIndex := -1;
    ghost var held: nat := 0;
    for i := 0 to |all|
      invariant i <= cap && Buffered(all, bins, i, held, pendingIndex, records, pending)
    {
      var idx := Bin(c, all[i].end);
      if i + 1 > cap {
        truncated := true;
        records, first, m := StopAtCap(all, bins, i, idx, held, records, pending, pendingIndex);
        return;
      }
      records, pending, pendingIndex, held := BufferRow(all, bins, i, idx, held, records, pending, pendingIndex);
    }
    AllRead(all, bins, held, pendingIndex, records, pending);
    records, m := records + pending, |all|;
  }

  /** The bin that the cap cuts is withheld, and reported as not read. */
  method StopAtCap(all: seq<Row>, ghost bins: seq<int>, i: nat, idx: int, ghost held: nat,
                   records0: seq<Record>, pending: seq<Record>, index: int)
    returns (records: seq<Record>, first: int, ghost m: nat)
    requires 0 < i < |all| && |bins| == |all| && Falling(bins) && idx == bins[i]
    requires Buffered(all, bins, i, held, index, records0, pending)
    ensures m <= i && records == Decoded(all, 0, m) && BinsFrom(bins, first, m) && 0 <= first && NoneMissed(bins, m, i)
  {
    AtCap(all, bins, i, held, index, records0, pending);
    if idx == index {
      records, first, m := records0, index + 1, held;
    } else {
      records, first, m := records0 + pending, index, i;
    }
  }

  /** Without a row beyond the cap every bin is whole. */
  lemma AllRead(all: seq<Row>, bins: seq<int>, held: nat, index: int, records: seq<Record>, pending: seq<Record>)
    requires Buffered(all, bins, |all|, held, index, records, pending) && Falling(bins)
    ensures records + pending == Decoded(all, 0, |all|) && BinsFrom(bins, 0, |all|)
  {
    DecodedJoin(all, held, |all|);
  }

  /** The row beyond the cap cuts the held bin, or shows that it is whole. */
  lemma AtCap(all: seq<Row>, bins: seq<int>, i: nat, held: nat, index: int, records: seq<Record>, pending: seq<Record>)
    requires Buffered(all, bins, i, held, index, records, pending) && Falling(bins) && 0 < i < |all|
    ensures 0 <= index && records + pending == Decoded(all, 0, i)
    ensures if bins[i] == index then BinsFrom(bins, index + 1, held) else BinsFrom(bins, index, i)
    ensures NoneMissed(bins, if bins[i] == index then held else i, i)
  {
    assert bins[i - 1] == index;
    DecodedJoin(all, held, i);
  }

  /** One row of the cursor: an older bin lets the held one go. */
  method BufferRow(all: seq<Row>, ghost bins: seq<int>, i: nat, idx: int, ghost held0: nat,
                   records0: seq<Record>, pending0: seq<Record>, index0: int)
    returns (records: seq<Record>, pending: seq<Record>, index: int, ghost held: nat)
    requires i < |all| && |bins| == |all| && Falling(bins) && idx == bins[i]
    requires Buffered(all, bins, i, held0, index0, records0, pending0)
    ensures Buffered(all, bins, i + 1, held, index, records, pending)
  {
    records, pending, index, held := records0, pending0, index0, held0;
    if idx != index {
      DecodedJoin(all, held, i);
      if i > 0 { assert bins[i - 1] == index; }
      records, pending, index, held := records + pending, [], idx, i;
    }
    pending := pending + RecordOf(all[i]);
  }

  /** Rows of older bins add nothing to a reported one. */
  lemma {:induction false} CappedCellsAgree(c: Chart, rows: seq<Row>, first: int, m: nat, n: nat, k: Key)
    requires c.width > 0 && k.bin >= first && m <= n <= |rows| && BinsFrom(BinsOf(c, rows), first, m)
    ensures CellSum(c, Decoded(rows, 0, m), k) == CellSum(c, Decoded(rows, 0, n), k)
    ensures Touched(c, Decoded(rows, 0, m), k) <==> Touched(c, Decoded(rows, 0, n), k)
  {
    if m < n {
      CappedCellsAgree(c, rows, first, m, n - 1, k);
      assert BinsOf(c, rows)[n - 1] < first;
      OlderRowAddsNothing(c, Decoded(rows, 0, n - 1), rows[n - 1], k);
    }
  }

  lemma OlderRowAddsNothing(c: Chart, records: seq<Record>, r: Row, k: Key)
    requires c.width > 0 && Bin(c, r.end) < k.bin
    ensures CellSum(c, records + RecordOf(r), k) == CellSum(c, records, k)
    ensures Touched(c, records + RecordOf(r), k) <==> Touched(c, records, k)
  {
    if r.payload.Some? {
      CellSumSnoc(c, records, Record(r.machine, r.start, r.end, r.expected, r.payload.value), k);
    } else {
      assert records + RecordOf(r) == records;
    }
  }

  /** The same chart from the same cells: in every reported bin the capped read shows what
      the uncapped one does. */
  lemma CappedSumsAgree(c: Chart, rows: seq<Row>, first: int, m: nat, capped: map<Key, Cell>, full: map<Key, Cell>,
                        d: Domain, kind: Kind, bin: int)
    requires c.width > 0 && bin >= first && m <= |rows| && BinsFrom(BinsOf(c, rows), first, m)
    requires Sums(capped, c, Decoded(rows, 0, m)) && Sums(full, c, Decoded(rows, 0, |rows|))
    ensures SumOver(capped, KeysBehind(capped, d, kind, bin)) == SumOver(full, KeysBehind(full, d, kind, bin))
  {
    forall k: Key | k.bin == bin ensures (k in capped <==> k in full) && (k in capped ==> capped[k] == full[k]) {
      CappedCellsAgree(c, rows, first, m, |rows|, k);
    }
    SameKeys(capped, full, d, kind, bin);
    SameCells(capped, full, KeysBehind(capped, d, kind, bin));
  }

  lemma SameKeys(a: map<Key, Cell>, b: map<Key, Cell>, d: Domain, kind: Kind, bin: int)
    requires forall k: Key :: k.bin == bin ==> (k in a <==> k in b) && (k in a ==> a[k] == b[k])
    ensures KeysBehind(a, d, kind, bin) == KeysBehind(b, d, kind, bin)
  {
  }

  lemma {:induction false} SameCells(a: map<Key, Cell>, b: map<Key, Cell>, keys: set<Key>)
    requires keys <= a.Keys && keys <= b.Keys && forall k :: k in keys ==> a[k] == b[k]
    ensures MeanSum(a, keys) == MeanSum(b, keys)
    decreases |keys|
  {
    if keys != {} {
      var k :| k in keys;
      MeanSumWithout(a, keys, k);
      MeanSumWithout(b, keys, k);
      SameCells(a, b, keys - {k});
    }
  }
}
