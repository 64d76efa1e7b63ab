/** The agent's floor file over boots, updates and crashes. A rename whose directory
    fsync failed is visible but may be undone by a power loss, so the file is kept at
    two levels: what is read, and what a power loss may leave. */
module FloorAgent {
  import opened Common
  import opened ReleaseFloor

  type File = Option<Floor>

  /** The file is absent below the floor, or holds at least it. */
  ghost predicate NotBelow(x: File, f: File) {
    f.Some? ==> x.Some? && AtLeast(x.value, f.value)
  }

  /** Whatever a power loss leaves is at least f. */
  ghost predicate Guaranteed(survivors: set<File>, f: File) {
    forall x :: x in survivors ==> NotBelow(x, f)
  }

  /** One swap of the update path: the build installed, the SHA that was announced, and
      what a power loss could have left of the floor at that moment. */
  datatype Swap = Swap(installed: Floor, announced: string, survivors: set<File>)

  /** What befalls one update: after how many of its steps the process dies, how the floor
      write ends, whether the swap works. */
  datatype Fate = Fate(lives: nat, raise: WriteOutcome, swap: bool)

  datatype UpdateResult = Refused | FloorNotRaised | NotInstalled | Installed | Died

  class FloorAgent {
    // the floor file
    var visible: File
    var survivors: set<File>

    // the process: the identity of the running binary and whether its boot was sound
    var booted: bool
    var self: Floor
    var bootOk: bool

    ghost var swaps: seq<Swap>

    /** Nothing that may survive is above what is read, and every swap was made under a
        durable floor equal to the installed build. */
    ghost predicate Valid() reads this {
      && visible in survivors
      && (forall x :: x in survivors ==> NotBelow(visible, x))
      && (forall w :: w in swaps ==> w.survivors == {Some(Stored(w.installed))} && EqualFold(w.installed.sha, w.announced))
    }

    /** Everything that was guaranteed still is, and was only added to. */
    twostate predicate Advanced() reads this {
      && (forall f :: Guaranteed(old(survivors), f) ==> Guaranteed(survivors, f))
      && NotBelow(visible, old(visible))
    }

    constructor ()
      ensures Valid() && visible == None && survivors == {None} && !booted && swaps == []
    {
      visible, survivors, booted, bootOk, self, swaps := None, {None}, false, false, Floor(0, ""), [];
    }

    /** Replaces the file: nothing changes, or the new floor shows without proof of
        durability, or it is durable. */
    method WriteReleaseFloor(f: Floor, w: WriteOutcome) returns (ok: bool)
      requires Valid() && NotBelow(Some(f), visible)
      modifies this`visible, this`survivors
      ensures Valid() && Advanced()
      ensures ok <==> WellFormed(f) && w == Durable
      ensures ok ==> visible == Some(Stored(f)) && survivors == {Some(Stored(f))}
      ensures !ok ==> if WellFormed(f) && w == Unproven
                      then visible == Some(Stored(f)) && survivors == old(survivors) + {Some(Stored(f))}
                      else visible == old(visible) && survivors == old(survivors)
    {
      if f.release == 0 || f.release > MAX_RELEASE || !IsHexSHA256(Lower(f.sha)) { return false; }
      StoredSame(f);
      RisesAbove(survivors, visible, Stored(f));
      if w != Lost { visible := Some(Stored(f)); }
      if w == Unproven { survivors := survivors + {visible}; }
      if w == Durable { survivors := {visible}; }
      return w == Durable;
    }

    lemma StoredSame(f: Floor)
      ensures AtLeast(Stored(f), f) && AtLeast(f, Stored(f))
    {
      LowerTwice(f.sha);
    }

    lemma RisesAbove(survivors: set<File>, visible: File, f: Floor)
      requires visible in survivors && (forall x :: x in survivors ==> NotBelow(visible, x)) && NotBelow(Some(f), visible)
      ensures forall x :: x in survivors ==> NotBelow(Some(f), x)
      ensures forall g :: Guaranteed(survivors, g) ==> NotBelow(Some(f), g)
    {
      forall g | Guaranteed(survivors, g) ensures NotBelow(Some(f), g) {
        assert NotBelow(visible, g);
      }
    }

    /** The file names another build of the very release that runs, or what runs has no
        number. */
    static predicate Conflicts(stored: File, self: Floor) {
      self.release == 0
      || (stored.Some? && stored.value.release == self.release && !EqualFold(stored.value.sha, self.sha))
    }

    /** Reconciles the stored floor with the running binary. */
    method SeedReleaseFloor(self: Floor, w: WriteOutcome) returns (floor: Option<Floor>)
      requires Valid()
      modifies this`visible, this`survivors
      ensures Valid() && Advanced()
      ensures floor.Some? ==> visible == floor && Covers(floor.value, self) == Permitted
      ensures old(visible).Some? && Covers(old(visible).value, self) == Permitted ==> floor == visible == old(visible)
      ensures Conflicts(old(visible), self) ==> floor == None && visible == old(visible) && survivors == old(survivors)
      ensures self.release > 0 && !Conflicts(old(visible), self)
              && (old(visible).None? || old(visible).value.release < self.release) ==>
                (floor.Some? <==> WellFormed(self) && w == Durable) && (floor.Some? ==> floor == Some(Stored(self)))
    {
      if self.release == 0 { return None; }
      if visible.Some? {
        if Covers(visible.value, self) == Permitted { return visible; }
        if visible.value.release == self.release { return None; }
      }
      StoredSame(self);
      var ok := WriteReleaseFloor(self, w);
      return if ok then visible else None;
    }

    /** Starts a process on any binary; `readable` says whether its own identity could be
        established. */
    method Boot(self: Floor, readable: bool, w: WriteOutcome)
      requires Valid()
      modifies this`visible, this`survivors, this`booted, this`self, this`bootOk
      ensures Valid() && Advanced() && booted && this.self == self
      ensures bootOk ==> visible.Some? && Covers(visible.value, self) == Permitted
      ensures readable && old(visible).Some? && Covers(old(visible).value, self) == Permitted ==> bootOk && visible == old(visible)
      ensures !readable || Conflicts(old(visible), self) ==> !bootOk && visible == old(visible) && survivors == old(survivors)
      ensures readable && !Conflicts(old(visible), self) && (old(visible).None? || old(visible).value.release < self.release) ==>
                (bootOk <==> WellFormed(self) && w == Durable)
    {
      this.self, booted, bootOk := self, true, false;
      if !readable { return; }
      var floor := SeedReleaseFloor(self, w);
      bootOk := floor.Some?;
    }

    /** The floor in force: only after a sound boot, and only while it covers what runs. */
    method CurrentReleaseFloor() returns (floor: Option<Floor>)
      requires Valid()
      ensures floor.Some? <==> booted && bootOk && visible.Some? && Covers(visible.value, self) == Permitted
      ensures floor.Some? ==> floor == visible
    {
      if !booted || !bootOk || visible.None? { return None; }
      if Covers(visible.value, self) != Permitted { return None; }
      return visible;
    }

    method VerifyCandidateRelease(candidate: Floor) returns (ok: bool)
      requires Valid()
      ensures ok <==> MayInstall(candidate)
    {
      var floor := CurrentReleaseFloor();
      if floor.None? { return false; }
      return Permits(floor.value, candidate) == Permitted;
    }

    /** The agent as it stands would accept this build. */
    predicate MayInstall(candidate: Floor) reads this {
      && booted && bootOk && visible.Some? && Covers(visible.value, self) == Permitted
      && Permits(visible.value, candidate) == Permitted
    }

    /** Always writes, so that success proves durability. */
    method RaiseReleaseFloor(candidate: Floor, w: WriteOutcome) returns (ok: bool)
      requires Valid()
      modifies this`visible, this`survivors
      ensures Valid() && Advanced()
      ensures ok ==> survivors == {Some(Stored(candidate))} && visible == Some(Stored(candidate))
      ensures !ok ==> visible == old(visible) || visible == Some(Stored(candidate))
      ensures ok <==> old(visible).Some? && AtLeast(candidate, old(visible).value) && WellFormed(candidate) && w == Durable
    {
      if visible.None? || Permits(visible.value, candidate) != Permitted { return false; }
      GatesAgree(visible.value, candidate, candidate);
      ok := WriteReleaseFloor(candidate, w);
    }

    /** The re-check of a build staged by an earlier process: refused unless the floor still
        permits it and the marker, if it names a release, names this one; then raised
        again, which proves the floor durable. */
    method CheckStagedRelease(staged: Floor, markerRelease: nat, w: WriteOutcome) returns (ok: bool)
      requires Valid()
      modifies this`visible, this`survivors
      ensures Valid() && Advanced()
      ensures ok ==> old(MayInstall(staged)) && (markerRelease != 0 ==> markerRelease == staged.release)
      ensures ok ==> survivors == {Some(Stored(staged))}
      ensures ok <==> old(MayInstall(staged)) && (markerRelease == 0 || markerRelease == staged.release) && WellFormed(staged) && w == Durable
      ensures !old(MayInstall(staged)) || (markerRelease != 0 && markerRelease != staged.release) ==>
                visible == old(visible) && survivors == old(survivors)
    {
      ok := VerifyCandidateRelease(staged);
      if !ok { return; }
      if markerRelease != 0 && markerRelease != staged.release { return false; }
      GatesAgree(visible.value, staged, staged);
      ok := RaiseReleaseFloor(staged, w);
    }

    /** Download, verify, raise the floor, snapshot, swap. `downloaded` is the build whose
        bytes arrived; the process may die between any two steps. */
    method PerformUpdate(downloaded: Floor, expectedSHA: string, fate: Fate) returns (r: UpdateResult)
      requires Valid()
      modifies this
      ensures Valid() && Advanced() && self == old(self)
      ensures swaps == if r == Installed then old(swaps) + [Swap(downloaded, expectedSHA, {Some(Stored(downloaded))})] else old(swaps)
      ensures r == Installed <==>
                && EqualFold(downloaded.sha, expectedSHA) && old(MayInstall(downloaded)) && WellFormed(downloaded)
                && fate.raise == Durable && fate.swap && fate.lives >= 3
      ensures r == Installed ==> visible == Some(Stored(downloaded)) && !booted
      ensures !EqualFold(downloaded.sha, expectedSHA) || !old(MayInstall(downloaded)) ==>
                (r == Refused || r == Died) && visible == old(visible) && survivors == old(survivors)
      ensures r == Refused <==> fate.lives > 0 && (!EqualFold(downloaded.sha, expectedSHA) || !old(MayInstall(downloaded)))
      ensures r == NotInstalled ==> survivors == {Some(Stored(downloaded))} && visible == Some(Stored(downloaded))
      ensures r == FloorNotRaised ==> fate.raise != Durable || !WellFormed(downloaded)
      ensures r == Died ==> !booted && fate.lives < 3
    {
      if fate.lives == 0 { booted := false; return Died; }
      if !EqualFold(downloaded.sha, expectedSHA) { return Refused; }
      var candidate := VerifyCandidateRelease(downloaded);
      if !candidate { return Refused; }
      if fate.lives == 1 { booted := false; return Died; }
      GatesAgree(visible.value, downloaded, downloaded);
      var raised := RaiseReleaseFloor(downloaded, fate.raise);
      if !raised { return FloorNotRaised; }
      if fate.lives == 2 { booted := false; return Died; }
      if !fate.swap { return NotInstalled; }
      swaps := swaps + [Swap(downloaded, expectedSHA, survivors)];
      booted := false;
      return Installed;
    }

    /** The process ends; with the power, the unproven renames are decided. */
    method Crash(power: bool, left: File)
      requires Valid() && (power ==> left in survivors)
      modifies this`booted, this`visible, this`survivors
      ensures Valid() && !booted
      ensures forall f :: Guaranteed(old(survivors), f) ==> Guaranteed(survivors, f)
      ensures power ==> visible == left && survivors == {left}
      ensures !power ==> visible == old(visible) && survivors == old(survivors)
    {
      booted := false;
      if power { visible, survivors := left, {left}; }
    }

    /** An update cut off between the raise and the swap: after any crash and a reboot of
        the old binary, the same build is accepted again. */
    method RetryAfterCrash(candidate: Floor, power: bool, w: WriteOutcome) returns (raised: bool)
      requires Valid() && MayInstall(candidate)
      modifies this
      ensures Valid() && (raised ==> self == old(self) && MayInstall(candidate))
      ensures raised <==> WellFormed(candidate) && w == Durable
    {
      GatesAgree(visible.value, self, candidate);
      StoredSame(candidate);
      raised := RaiseReleaseFloor(candidate, w);
      if !raised { return; }
      Crash(power, visible);
      Boot(self, true, w);
    }
  }

  datatype Event =
    | Boots(self: Floor, readable: bool, write: WriteOutcome)
    | Updates(downloaded: Floor, expectedSHA: string, fate: Fate)
    | Stages(staged: Floor, markerRelease: nat, write: WriteOutcome)
    | PowerLoss(left: File)
    | Restarts

  /** Over any run of boots of any binaries, updates, failed fsyncs, crashes and power
      losses, what the floor guarantees never goes back, and every swap of the update
      path was of the announced build, made under a durable floor equal to it. */
  method Life(agent: FloorAgent, events: seq<Event>)
    requires agent.Valid()
    modifies agent
    ensures agent.Valid()
    ensures forall f :: Guaranteed(old(agent.survivors), f) ==> Guaranteed(agent.survivors, f)
    ensures forall w :: w in agent.swaps ==> w.survivors == {Some(Stored(w.installed))} && EqualFold(w.installed.sha, w.announced)
  {
    for i := 0 to |events|
      invariant agent.Valid()
      invariant forall f :: Guaranteed(old(agent.survivors), f) ==> Guaranteed(agent.survivors, f)
    {
      match events[i]
      case Boots(self, readable, write) => agent.Boot(self, readable, write);
      case Updates(downloaded, expectedSHA, fate) => var r := agent.PerformUpdate(downloaded, expectedSHA, fate);
      case Stages(staged, markerRelease, write) => var ok := agent.CheckStagedRelease(staged, markerRelease, write);
      case PowerLoss(left) => if left in agent.survivors { agent.Crash(true, left); }
      case Restarts => agent.Crash(false, None);
    }
  }

  /** A guarantee is a release that never decreases, and a build that never changes while
      the release stays. */
  lemma GuaranteeMeans(survivors: set<File>, later: set<File>, f: Floor, g: Floor)
    requires survivors == {Some(f)} && later == {Some(g)}
    requires forall x :: Guaranteed(survivors, x) ==> Guaranteed(later, x)
    ensures g.release >= f.release && (g.release == f.release ==> EqualFold(g.sha, f.sha))
  {
    assert Guaranteed(survivors, Some(f));
    assert NotBelow(Some(g), Some(f));
  }
}
