/** The release floor: which build may follow which, on the agent and on the hub
    (agent/release_floor.go, hub/release_policy.go). */
module ReleaseFloor {
  import opened Common

  /** A build's release number and the SHA-256 of its bytes, in hex. */
  datatype Floor = Floor(release: nat, sha: string)

  const MAX_RELEASE: nat := 9_999_999_999

  function LowerChar(c: char): char {
    if 'A' <= c <= 'Z' then c + ('a' - 'A') else c
  }

  function Lower(s: string): (r: string)
    ensures |r| == |s|
    ensures forall i :: 0 <= i < |s| ==> r[i] == LowerChar(s[i])
  {
    if s == "" then "" else [LowerChar(s[0])] + Lower(s[1..])
  }

  predicate EqualFold(a: string, b: string) {
    Lower(a) == Lower(b)
  }

  predicate IsHexSHA256(s: string) {
    |s| == 64 && forall i :: 0 <= i < |s| ==> '0' <= s[i] <= '9' || 'a' <= s[i] <= 'f'
  }

  /** What the writer accepts. */
  predicate WellFormed(f: Floor) {
    0 < f.release <= MAX_RELEASE && IsHexSHA256(Lower(f.sha))
  }

  /** What the file holds after f was written. */
  function Stored(f: Floor): Floor {
    Floor(f.release, Lower(f.sha))
  }

  lemma LowerTwice(s: string)
    ensures Lower(Lower(s)) == Lower(s)
  {
  }

  datatype Refusal = Permitted | Unnumbered | Conflict | Downgrade

  /** Whether a candidate may be installed over the floor. */
  function Permits(f: Floor, candidate: Floor): Refusal {
    if candidate.release == 0 then Unnumbered
    else if candidate.release > f.release then Permitted
    else if candidate.release == f.release && EqualFold(candidate.sha, f.sha) then Permitted
    else if candidate.release == f.release then Conflict
    else Downgrade
  }

  /** Whether the floor is consistent with this binary running. */
  function Covers(f: Floor, running: Floor): Refusal {
    if running.release == 0 then Unnumbered
    else if f.release > running.release then Permitted
    else if f.release == running.release && EqualFold(f.sha, running.sha) then Permitted
    else if f.release == running.release then Conflict
    else Downgrade
  }

  // ---- the order behind both ----

  /** The same build, or a higher release. */
  predicate AtLeast(x: Floor, f: Floor) {
    x.release > f.release || (x.release == f.release && EqualFold(x.sha, f.sha))
  }

  lemma OrderLaws(x: Floor, y: Floor, z: Floor)
    ensures AtLeast(x, x)
    ensures AtLeast(z, y) && AtLeast(y, x) ==> AtLeast(z, x)
    ensures AtLeast(x, y) && AtLeast(y, x) ==> x.release == y.release && EqualFold(x.sha, y.sha)
  {
  }

  /** One order decides both: an update goes up from the floor, and the floor is above
      what runs. A build permitted over a floor that covers the running one is therefore
      not below the running one either. */
  lemma GatesAgree(f: Floor, running: Floor, candidate: Floor)
    ensures Permits(f, candidate) == Permitted <==> candidate.release > 0 && AtLeast(candidate, f)
    ensures Covers(f, running) == Permitted <==> running.release > 0 && AtLeast(f, running)
    ensures Permits(f, candidate) == Permitted && Covers(f, running) == Permitted ==> Covers(candidate, running) == Permitted
  {
  }

  // ---- the hub's mirror ----

  datatype Report = Report(protocol: nat, release: nat, floorOk: bool, floorRelease: nat, floorSha: string)

  datatype Blocked = Announce | FloorUnreadable | ReleaseChanged | ReleaseMissing | BelowFloor | ReleaseConflict

  predicate IsHex(c: char) {
    '0' <= c <= '9' || 'a' <= c <= 'f' || 'A' <= c <= 'F'
  }

  /** What decoding accepts and yields 32 bytes for. */
  predicate DecodesTo32(s: string) {
    |s| == 64 && forall i :: 0 <= i < |s| ==> IsHex(s[i])
  }

  /** `served` is the hub's current build, `sha` the one the check began with. */
  function ReleaseAnnounceBlocked(report: Option<Report>, served: Floor, sha: string): Blocked {
    if report.None? || report.value.protocol < 2 then Announce else
    var r := report.value;
    if !r.floorOk || r.floorRelease == 0 || r.release == 0 || r.floorRelease < r.release || !DecodesTo32(r.floorSha) then FloorUnreadable
    else if served.sha != sha then ReleaseChanged
    else if served.release == 0 then ReleaseMissing
    else if served.release < r.floorRelease then BelowFloor
    else if served.release == r.floorRelease && !EqualFold(sha, r.floorSha) then ReleaseConflict
    else Announce
  }

  /** An accurate report of a usable floor. */
  predicate Accurate(r: Report, floor: Floor, running: Floor) {
    && r.protocol >= 2 && r.floorOk && r.release == running.release
    && r.floorRelease == floor.release && r.floorSha == floor.sha
    && floor.release > 0 && IsHexSHA256(floor.sha)
    && Covers(floor, running) == Permitted
  }

  /** For an accurate report the hub withholds exactly when the agent would refuse, and
      for the same reason. */
  lemma HubMirrorsAgent(r: Report, floor: Floor, running: Floor, served: Floor)
    requires Accurate(r, floor, running)
    ensures ReleaseAnnounceBlocked(Some(r), served, served.sha) ==
            match Permits(floor, served)
            case Permitted => Announce
            case Unnumbered => ReleaseMissing
            case Conflict => ReleaseConflict
            case Downgrade => BelowFloor
  {
  }

  /** A build is announced exactly to an agent that reports no floor at all, or a usable
      one that permits it, and only while it is the build the check began with. */
  lemma AnnouncedExactly(report: Option<Report>, served: Floor, sha: string)
    ensures ReleaseAnnounceBlocked(report, served, sha) == Announce <==>
              || report.None? || report.value.protocol < 2
              || (var r := report.value;
                  && r.floorOk && 0 < r.release <= r.floorRelease && DecodesTo32(r.floorSha)
                  && served.sha == sha && served.release > 0
                  && AtLeast(Floor(served.release, sha), Floor(r.floorRelease, r.floorSha)))
  {
  }

  /** A report that does not show a usable floor is never announced to. */
  lemma UnusableFloorIsWithheld(r: Report, served: Floor, sha: string)
    requires r.protocol >= 2
    ensures ReleaseAnnounceBlocked(Some(r), served, sha) == Announce ==>
              r.floorOk && 0 < r.release <= r.floorRelease && DecodesTo32(r.floorSha)
              && Permits(Floor(r.floorRelease, r.floorSha), Floor(served.release, sha)) == Permitted && served.sha == sha
  {
  }
}
