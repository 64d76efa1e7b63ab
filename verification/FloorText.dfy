/** The floor file's text: what is written, and what is read back
    (agent/release_floor.go). */
module FloorText {
  import opened Common
  import opened ReleaseFloor

  // ---- text ----

  /** White space as Unicode has it. */
  predicate IsSpace(c: char) {
    if c < '\U{80}' then '\t' <= c <= '\r' || c == ' ' else IsWideSpace(c)
  }

  predicate IsWideSpace(c: char) {
    || c == '\U{85}' || c == '\U{A0}' || c == '\U{1680}' || '\U{2000}' <= c <= '\U{200A}'
    || c == '\U{2028}' || c == '\U{2029}' || c == '\U{202F}' || c == '\U{205F}' || c == '\U{3000}'
  }

  function TrimLeft(s: string): string {
    if s != "" && IsSpace(s[0]) then TrimLeft(s[1..]) else s
  }

  function TrimRight(s: string): string {
    if s != "" && IsSpace(s[|s| - 1]) then TrimRight(s[..|s| - 1]) else s
  }

  function TrimSpace(s: string): string {
    TrimRight(TrimLeft(s))
  }

  function Find(s: string, c: char): (i: nat)
    ensures i <= |s| && (i < |s| ==> s[i] == c) && forall j :: 0 <= j < i ==> s[j] != c
  {
    if s == "" || s[0] == c then 0 else 1 + Find(s[1..], c)
  }

  function SplitLines(s: string): (r: seq<string>)
    ensures r != []
    decreases |s|
  {
    var i := Find(s, '\n');
    if i == |s| then [s] else [s[..i]] + SplitLines(s[i + 1..])
  }

  function Unreturned(s: string): string {
    if s != "" && s[|s| - 1] == '\r' then s[..|s| - 1] else s
  }

  // ---- numbers ----

  function DigitChar(d: nat): (c: char)
    requires d < 10
    ensures '0' <= c <= '9'
  {
    '0' + d as char
  }

  predicate IsDigit(c: char) {
    '0' <= c <= '9'
  }

  /** Decimal printing. */
  function Decimal(n: nat): (s: string)
    ensures s != "" && forall i :: 0 <= i < |s| ==> IsDigit(s[i])
  {
    if n < 10 then [DigitChar(n)] else Decimal(n / 10) + [DigitChar(n % 10)]
  }

  function DigitValue(c: char): nat
    requires IsDigit(c)
  {
    (c - '0') as nat
  }

  /** The number a string of digits stands for. */
  function Value(s: string): nat
    requires forall i :: 0 <= i < |s| ==> IsDigit(s[i])
  {
    if s == "" then 0 else 10 * Value(s[..|s| - 1]) + DigitValue(s[|s| - 1])
  }

  const MAX_UINT64: nat := 18446744073709551615

  function ParseUint(s: string): Option<nat> {
    if s == "" || (exists i :: 0 <= i < |s| && !IsDigit(s[i])) then None
    else if Value(s) > MAX_UINT64 then None
    else Some(Value(s))
  }

  lemma {:induction false} ValueOfDecimal(n: nat)
    ensures Value(Decimal(n)) == n
  {
    if n >= 10 {
      ValueOfDecimal(n / 10);
      var s := Decimal(n);
      assert s[..|s| - 1] == Decimal(n / 10);
      assert s[|s| - 1] == DigitChar(n % 10);
    } else {
      assert Decimal(n)[..0] == "";
    }
  }

  // ---- lines ----

  datatype ParseError = Unparseable | DuplicateRelease | BadRelease | DuplicateSha | BadSha | Missing

  datatype Parsed = Ok(floor: Floor) | Err(error: ParseError)

  /** What was read so far, or the first error. */
  datatype Fields = Fields(release: Option<nat>, sha: Option<string>) | Corrupt(error: ParseError)

  datatype Line = Skipped | Bad | ReleaseLine(value: string) | ShaLine(value: string)

  /** Blank lines, comments and unknown keys are skipped. */
  function ReadLine(line: string): Line {
    var s := TrimSpace(Unreturned(line));
    if s == "" || s[0] == '#' then Skipped
    else
      var i := Find(s, '=');
      if i == |s| then Bad
      else
        var key, value := TrimSpace(s[..i]), TrimSpace(s[i + 1..]);
        if key == "release" then ReleaseLine(value)
        else if key == "sha256" then ShaLine(value)
        else Skipped
  }

  function GoodRelease(value: string): Option<nat> {
    var n := ParseUint(value);
    if n.Some? && 0 < n.value <= MAX_RELEASE then n else None
  }

  function Take(f: Fields, line: Line): Fields {
    if f.Corrupt? then f else
    match line
    case Skipped => f
    case Bad => Corrupt(Unparseable)
    case ReleaseLine(value) =>
      if f.release.Some? then Corrupt(DuplicateRelease)
      else if GoodRelease(value).None? then Corrupt(BadRelease)
      else f.(release := GoodRelease(value))
    case ShaLine(value) =>
      if f.sha.Some? then Corrupt(DuplicateSha)
      else if !IsHexSHA256(Lower(value)) then Corrupt(BadSha)
      else f.(sha := Some(Lower(value)))
  }

  function TakeAll(f: Fields, lines: seq<string>): Fields
    decreases |lines|
  {
    if lines == [] then f else TakeAll(Take(f, ReadLine(lines[0])), lines[1..])
  }

  function Finish(f: Fields): Parsed {
    match f
    case Corrupt(e) => Err(e)
    case Fields(release, sha) => if release.Some? && sha.Some? then Ok(Floor(release.value, sha.value)) else Err(Missing)
  }

  function Parse(data: string): Parsed {
    Finish(TakeAll(Fields(None, None), SplitLines(data)))
  }

  lemma {:induction false} TakeAllSnoc(f: Fields, lines: seq<string>, line: string)
    ensures TakeAll(f, lines + [line]) == Take(TakeAll(f, lines), ReadLine(line))
    decreases |lines|
  {
    if lines == [] {
      assert [line][1..] == [];
    } else {
      assert (lines + [line])[1..] == lines[1..] + [line];
      TakeAllSnoc(Take(f, ReadLine(lines[0])), lines[1..], line);
    }
  }

  /** The file is read line by line; the first error ends the reading. */
  method ParseReleaseFloor(data: string) returns (r: Parsed)
    ensures r == Parse(data)
  {
    var lines := SplitLines(data);
    var release: Option<nat>, sha: Option<string> := None, None;
    for i := 0 to |lines|
      invariant TakeAll(Fields(None, None), lines[..i]) == Fields(release, sha)
    {
      TakeAllSnoc(Fields(None, None), lines[..i], lines[i]);
      assert lines[..i + 1] == lines[..i] + [lines[i]];
      FirstErrorStays(lines, i + 1);
      match ReadLine(lines[i])
      case Skipped =>
      case Bad => return Err(Unparseable);
      case ReleaseLine(value) =>
        if release.Some? { return Err(DuplicateRelease); }
        var n := ParseUint(value);
        if n.None? || n.value == 0 || n.value > MAX_RELEASE { return Err(BadRelease); }
        release := n;
      case ShaLine(value) =>
        if sha.Some? { return Err(DuplicateSha); }
        var low := Lower(value);
        if !IsHexSHA256(low) { return Err(BadSha); }
        sha := Some(low);
    }
    assert lines[..|lines|] == lines;
    if release.None? || sha.None? { return Err(Missing); }
    return Ok(Floor(release.value, sha.value));
  }

  lemma {:induction false} CorruptStays(e: ParseError, lines: seq<string>)
    ensures TakeAll(Corrupt(e), lines) == Corrupt(e)
  {
    if lines != [] { CorruptStays(e, lines[1..]); }
  }

  lemma {:induction false} TakeAllSplit(f: Fields, lines: seq<string>, n: nat)
    requires n <= |lines|
    ensures TakeAll(f, lines) == TakeAll(TakeAll(f, lines[..n]), lines[n..])
    decreases |lines|
  {
    if n == 0 {
      assert lines[0..] == lines;
    } else {
      TakeAllSplit(Take(f, ReadLine(lines[0])), lines[1..], n - 1);
      assert lines[..n][1..] == lines[1..][..n - 1];
      assert lines[1..][n - 1..] == lines[n..];
    }
  }

  lemma FirstErrorStays(lines: seq<string>, n: nat)
    requires n <= |lines|
    ensures var f := TakeAll(Fields(None, None), lines[..n]);
            f.Corrupt? ==> TakeAll(Fields(None, None), lines) == f
  {
    TakeAllSplit(Fields(None, None), lines, n);
    var f := TakeAll(Fields(None, None), lines[..n]);
    if f.Corrupt? { CorruptStays(f.error, lines[n..]); }
  }

  // ---- what is read ----

  predicate ValidFloor(f: Floor) {
    0 < f.release <= MAX_RELEASE && IsHexSHA256(f.sha)
  }

  ghost predicate FieldsValid(f: Fields) {
    f.Fields? ==> (f.release.Some? ==> 0 < f.release.value <= MAX_RELEASE) && (f.sha.Some? ==> IsHexSHA256(f.sha.value))
  }

  lemma {:induction false} TakesValid(f: Fields, lines: seq<string>)
    requires FieldsValid(f)
    ensures FieldsValid(TakeAll(f, lines))
    decreases |lines|
  {
    if lines != [] { TakesValid(Take(f, ReadLine(lines[0])), lines[1..]); }
  }

  /** Whatever is read as a floor is one that could have been written. */
  lemma ParsedIsValid(data: string)
    ensures Parse(data).Ok? ==> ValidFloor(Parse(data).floor)
  {
    TakesValid(Fields(None, None), SplitLines(data));
  }

  // ---- what is written ----

  function Print(f: Floor): string {
    "release=" + Decimal(f.release) + "\n" + ("sha256=" + Lower(f.sha) + "\n")
  }

  lemma {:induction false} FindIn(s: string, c: char, i: nat)
    requires i < |s| && s[i] == c && forall j :: 0 <= j < i ==> s[j] != c
    ensures Find(s, c) == i
  {
  }

  lemma SplitFirst(a: string, b: string)
    requires forall j :: 0 <= j < |a| ==> a[j] != '\n'
    ensures SplitLines(a + "\n" + b) == [a] + SplitLines(b)
  {
    var s := a + "\n" + b;
    assert s[|a|] == '\n';
    FindIn(s, '\n', |a|);
    assert s[..|a|] == a && s[|a| + 1..] == b;
  }

  /** Text without space at its ends is left alone. */
  lemma NothingToTrim(s: string)
    requires s != "" ==> !IsSpace(s[0]) && !IsSpace(s[|s| - 1])
    ensures TrimSpace(s) == s
  {
  }

  /** A line `key=value` without spaces reads as its key and value. */
  lemma ReadsKeyValue(key: string, value: string)
    requires key != "" && value != "" && key[0] != '#'
    requires forall i :: 0 <= i < |key| ==> key[i] != '=' && !IsSpace(key[i])
    requires forall i :: 0 <= i < |value| ==> !IsSpace(value[i])
    ensures ReadLine(key + "=" + value) ==
            if key == "release" then ReleaseLine(value) else if key == "sha256" then ShaLine(value) else Skipped
  {
    var s := key + "=" + value;
    assert s[0] == key[0] && s[|s| - 1] == value[|value| - 1];
    assert s[|key|] == '=';
    NothingToTrim(s);
    FindIn(s, '=', |key|);
    assert s[..|key|] == key && s[|key| + 1..] == value;
    NothingToTrim(key);
    NothingToTrim(value);
  }

  lemma SplitsInTwo(a: string, b: string)
    requires forall j :: 0 <= j < |a| ==> a[j] != '\n'
    requires forall j :: 0 <= j < |b| ==> b[j] != '\n'
    ensures SplitLines(a + "\n" + (b + "\n")) == [a, b, ""]
  {
    SplitFirst(a, b + "\n");
    SplitFirst(b, "");
    assert b + "\n" + "" == b + "\n";
    assert SplitLines("") == [""];
  }

  lemma ReleaseLineReads(n: nat)
    requires 0 < n <= MAX_RELEASE
    ensures GivesRelease("release=" + Decimal(n), n) && NoNewline("release=" + Decimal(n))
  {
    ReadsKeyValue("release", Decimal(n));
    assert "release" + "=" == "release=";
    ValueOfDecimal(n);
  }

  lemma ShaLineReads(sha: string)
    requires IsHexSHA256(Lower(sha))
    ensures GivesSha("sha256=" + Lower(sha), Lower(sha)) && NoNewline("sha256=" + Lower(sha))
  {
    LowerTwice(sha);
    HexLineReads(Lower(sha));
  }

  lemma HexLineReads(h: string)
    requires IsHexSHA256(h) && Lower(h) == h
    ensures GivesSha("sha256=" + h, h) && NoNewline("sha256=" + h)
  {
    HexIsPlain(h);
    Prefixed("sha256", "sha256=", h);
  }

  lemma HexIsPlain(h: string)
    requires IsHexSHA256(h)
    ensures h != "" && NoSpace(h)
  {
  }

  predicate NoSpace(s: string) {
    forall i :: 0 <= i < |s| ==> !IsSpace(s[i])
  }

  lemma Prefixed(key: string, start: string, value: string)
    requires key == "sha256" && start == "sha256=" && value != "" && NoSpace(value)
    ensures ReadLine(start + value) == ShaLine(value) && NoNewline(start + value)
  {
    ReadsKeyValue(key, value);
    assert key + "=" == start;
  }

  predicate NoNewline(s: string) {
    forall j :: 0 <= j < |s| ==> s[j] != '\n'
  }

  /** Reading what was written gives the same floor back. */
  lemma RoundTrip(f: Floor)
    requires WellFormed(f)
    ensures Parse(Print(f)) == Ok(Stored(f))
  {
    ReleaseLineReads(f.release);
    ShaLineReads(f.sha);
    ReadsBoth("release=" + Decimal(f.release), "sha256=" + Lower(f.sha), Floor(f.release, Lower(f.sha)));
  }

  lemma ReadsBoth(l1: string, l2: string, f: Floor)
    requires GivesRelease(l1, f.release) && GivesSha(l2, f.sha) && NoNewline(l1) && NoNewline(l2)
    ensures Parse(l1 + "\n" + (l2 + "\n")) == Ok(f)
  {
    SplitsInTwo(l1, l2);
    assert ReadLine("") == Skipped;
    ReadsThese(Fields(None, None), [l1, l2, ""], 0, 1, f);
  }

  // ---- exactly which files are floors ----

  predicate GivesRelease(line: string, n: nat) {
    ReadLine(line).ReleaseLine? && GoodRelease(ReadLine(line).value) == Some(n)
  }

  predicate GivesSha(line: string, sha: string) {
    ReadLine(line).ShaLine? && Lower(ReadLine(line).value) == sha && IsHexSHA256(sha)
  }

  /** Line i gives the release, line j the SHA, and every other line is skipped. */
  ghost predicate OnlyThese(lines: seq<string>, i: int, j: int, f: Floor) {
    && 0 <= i < |lines| && 0 <= j < |lines|
    && GivesRelease(lines[i], f.release) && GivesSha(lines[j], f.sha)
    && forall k :: 0 <= k < |lines| && k != i && k != j ==> ReadLine(lines[k]) == Skipped
  }

  /** A file is a floor exactly when one line gives a good release, one a good SHA, and
      everything else is blank, a comment or an unknown key. */
  lemma ExactlyTheFloors(data: string, lines: seq<string>, f: Floor)
    requires lines == SplitLines(data)
    ensures Parse(data) == Ok(f) <==> exists i, j :: OnlyThese(lines, i, j, f)
  {
    OnlyTheseRead(lines, f);
  }

  lemma OnlyTheseRead(lines: seq<string>, f: Floor)
    ensures Finish(TakeAll(Fields(None, None), lines)) == Ok(f) <==> exists i, j :: OnlyThese(lines, i, j, f)
  {
    var i, j := ReadFrom(Fields(None, None), lines);
    if Finish(TakeAll(Fields(None, None), lines)) == Ok(f) { assert OnlyThese(lines, i, j, f); }
    if exists i1, j1 :: OnlyThese(lines, i1, j1, f) {
      var i1, j1 :| OnlyThese(lines, i1, j1, f);
      ReadsThese(Fields(None, None), lines, i1, j1, f);
    }
  }

  /** Where the fields read so far can only have come from. */
  lemma {:induction false} ReadFrom(f: Fields, lines: seq<string>) returns (i: int, j: int)
    requires f.Fields?
    ensures var r := TakeAll(f, lines);
            r.Fields? ==>
              && (r.release != f.release ==> f.release.None? && r.release.Some? && 0 <= i < |lines| && GivesRelease(lines[i], r.release.value))
              && (r.release == f.release ==> i == -1)
              && (r.sha != f.sha ==> f.sha.None? && r.sha.Some? && 0 <= j < |lines| && GivesSha(lines[j], r.sha.value))
              && (r.sha == f.sha ==> j == -1)
              && forall k :: 0 <= k < |lines| && k != i && k != j ==> ReadLine(lines[k]) == Skipped
    decreases |lines|
  {
    i, j := -1, -1;
    if lines != [] {
      var f1 := Take(f, ReadLine(lines[0]));
      if f1.Corrupt? { CorruptStays(f1.error, lines[1..]); return; }
      i, j := ReadFrom(f1, lines[1..]);
      i := if f1.release != f.release then 0 else if i == -1 then -1 else i + 1;
      j := if f1.sha != f.sha then 0 else if j == -1 then -1 else j + 1;
    }
  }

  lemma {:induction false} ReadsThese(f: Fields, lines: seq<string>, i: int, j: int, floor: Floor)
    requires f.Fields?
    requires -1 <= i < |lines| && -1 <= j < |lines|
    requires if i == -1 then f.release == Some(floor.release) else f.release.None? && GivesRelease(lines[i], floor.release)
    requires if j == -1 then f.sha == Some(floor.sha) else f.sha.None? && GivesSha(lines[j], floor.sha)
    requires forall k :: 0 <= k < |lines| && k != i && k != j ==> ReadLine(lines[k]) == Skipped
    ensures Finish(TakeAll(f, lines)) == Ok(floor)
    decreases |lines|
  {
    if lines != [] {
      var f1 := Take(f, ReadLine(lines[0]));
      ReadsThese(f1, lines[1..], if i <= 0 then -1 else i - 1, if j <= 0 then -1 else j - 1, floor);
    }
  }
}
