/** The agent's two credential files, the handlers that change them
    (agent/credential_handoff.go) and the choice of what to dial with
    (agent/main.go). */
module CredentialAgent {
  import opened Common
  import opened CredentialStore

  /** File contents; "" is a missing or blank file. */
  datatype Dir = Dir(active: Secret, pending: Secret)

  /** `files` is what a running process reads. A rename whose directory fsync is
      unproven may still be undone by a power loss, so `survivors` holds every
      directory that could be found afterwards. */
  datatype Disk = Disk(files: Dir, survivors: set<Dir>)

  ghost predicate DiskOk(d: Disk) {
    d.files in d.survivors
  }

  function FileHash(secret: Secret): Option<Hash> {
    if secret == "" then None else Some(Sha256(secret))
  }

  /** The effect of one durable-rename outcome; `power` says whether an unproven
      rename can be undone. */
  function Written(d: Disk, files: Dir, w: WriteOutcome, power: bool): Disk {
    match w
    case Lost => d
    case Durable => Disk(files, {files})
    case Unproven => if power then Disk(files, d.survivors + {files}) else Disk(files, {files})
  }

  function PendingSaved(d: Disk, secret: Secret, w: WriteOutcome, power: bool): Disk {
    Written(d, Dir(d.files.active, secret), w, power)
  }

  datatype ConfirmAction = Reject | PromoteFile | KeepActive(dropPending: bool)

  function ConfirmActionFor(files: Dir, confirmed: Option<Hash>): ConfirmAction {
    if confirmed.None? then Reject
    else if FileHash(files.pending) == confirmed then PromoteFile
    else if FileHash(files.active) == confirmed then KeepActive(files.pending != "")
    else Reject
  }

  /** `w` is the outcome of the one file operation the action performs. The unlink
      of a stale pending file is best effort and never fsynced. */
  function Confirmed(d: Disk, confirmed: Option<Hash>, w: WriteOutcome, power: bool): Disk {
    match ConfirmActionFor(d.files, confirmed)
    case Reject => d
    case PromoteFile => Written(d, Dir(d.files.pending, ""), w, power)
    case KeepActive(drop) =>
      if drop && w != Lost then Written(d, Dir(d.files.active, ""), Unproven, power) else d
  }

  function ConfirmAccepted(d: Disk, confirmed: Option<Hash>, w: WriteOutcome): bool {
    match ConfirmActionFor(d.files, confirmed)
    case Reject => false
    case PromoteFile => w == Durable
    case KeepActive(_) => true
  }

  /** The active file changes only to the pending secret whose hash was confirmed;
      in every other case, and always when the handler reports an error without
      having renamed, the active secret is the old one. */
  lemma ConfirmationIsHashBound(d: Disk, confirmed: Option<Hash>, w: WriteOutcome, power: bool)
    ensures var d' := Confirmed(d, confirmed, w, power);
            && (d'.files.active != d.files.active ==>
                  confirmed == Some(Sha256(d'.files.active)) && d'.files.active == d.files.pending && d'.files.active != "")
            && (ConfirmAccepted(d, confirmed, w) ==> FileHash(d'.files.active) == confirmed)
            && (confirmed != FileHash(d.files.active) && confirmed != FileHash(d.files.pending) ==> d' == d)
  {
  }

  /** A confirmation of the pending file's hash that goes through leaves that secret as
      the only one; one of the active file's leaves the active one and drops the other. */
  lemma ConfirmationTakesEffect(d: Disk, w: WriteOutcome, power: bool)
    ensures d.files.pending != "" && w == Durable ==>
              var h := Some(Sha256(d.files.pending));
              Confirmed(d, h, w, power) == Disk(Dir(d.files.pending, ""), {Dir(d.files.pending, "")}) && ConfirmAccepted(d, h, w)
    ensures d.files.active != "" && d.files.pending != d.files.active && w != Lost ==>
              var h := Some(Sha256(d.files.active));
              Confirmed(d, h, w, power).files == Dir(d.files.active, "") && ConfirmAccepted(d, h, w)
    ensures d.files.pending != "" && w != Durable ==> !ConfirmAccepted(d, Some(Sha256(d.files.pending)), w)
  {
  }

  /** Which steps of an atomic write work. */
  datatype Steps = Steps(create: bool, write: bool, sync: bool, close: bool, rename: bool, dirSync: bool)

  class CredentialFiles {
    var files: Dir
    ghost var survivors: set<Dir>
    const power: bool

    constructor (files: Dir, power: bool)
      ensures Value() == Disk(files, {files}) && this.power == power
    {
      this.files, this.power := files, power;
      survivors := {files};
    }

    ghost function Value(): Disk
      reads this
    {
      Disk(files, survivors)
    }

    /** Rename, then fsync the directory. A failure of the fsync is reported although
        the rename already shows. */
    method DurableRename(next: Dir, rename: bool, dirSync: bool) returns (w: WriteOutcome)
      modifies this
      ensures Value() == old(Written(Value(), next, w, power))
      ensures w == if !rename then Lost else if dirSync then Durable else Unproven
      ensures !rename ==> files == old(files) && survivors == old(survivors)
      ensures rename ==> files == next && next in survivors
      ensures rename && (dirSync || !power) ==> survivors == {next}
      ensures rename && !dirSync && power ==> survivors == old(survivors) + {next}
    {
      if !rename { return Lost; }
      files := next;
      if dirSync {
        survivors := {next};
        return Durable;
      }
      survivors := if power then survivors + {next} else {next};
      return Unproven;
    }

    /** Everything before the rename works on a temporary file, which is removed on
        failure. */
    method WriteCredentialFileAtomic(next: Dir, s: Steps) returns (w: WriteOutcome)
      modifies this
      ensures Value() == old(Written(Value(), next, w, power))
      ensures w == Durable <==> s == Steps(true, true, true, true, true, true)
      ensures w == Unproven <==> s == Steps(true, true, true, true, true, false)
      ensures w == Lost ==> Value() == old(Value())
      ensures w != Lost ==> files == next
    {
      if !s.create { return Lost; }
      if !s.write { return Lost; }
      if !s.sync { return Lost; }
      if !s.close { return Lost; }
      w := DurableRename(next, s.rename, s.dirSync);
    }

    /** A commit frame leaves only after the pending file is durable, and the active
        file is not touched. */
    method HandleEnrolledFrame(secret: Secret, s: Steps, sendWorks: bool)
      returns (w: WriteOutcome, accepted: bool, commitSent: bool)
      modifies this
      ensures secret == "" ==> Value() == old(Value()) && !accepted && !commitSent
      ensures secret != "" ==> Value() == old(PendingSaved(Value(), secret, w, power))
      ensures files.active == old(files).active
      ensures secret != "" && s.create && s.write && s.sync && s.close && s.rename ==> files.pending == secret
      ensures commitSent <==> secret != "" && s == Steps(true, true, true, true, true, true) && sendWorks
      ensures commitSent ==> forall d :: d in survivors ==> d.pending == secret
      ensures accepted <==> commitSent
    {
      if secret == "" { return Lost, false, false; }
      w := WriteCredentialFileAtomic(Dir(files.active, secret), s);
      if w != Durable { return w, false, false; }
      if !sendWorks { return w, false, false; }
      return w, true, true;
    }

    method HandleEnrollmentConfirmed(confirmed: Option<Hash>, rename: bool, dirSync: bool, removed: bool)
      returns (accepted: bool, w: WriteOutcome)
      modifies this
      ensures Value() == old(Confirmed(Value(), confirmed, w, power))
      ensures accepted == old(ConfirmAccepted(Value(), confirmed, w))
      ensures old(files).pending != "" && confirmed == Some(Sha256(old(files).pending)) ==>
                && (accepted <==> rename && dirSync)
                && files == if rename then Dir(old(files).pending, "") else old(files)
      ensures old(files).active != "" && confirmed == Some(Sha256(old(files).active)) && old(files).pending != old(files).active ==>
                accepted && files == if removed then Dir(old(files).active, "") else old(files)
      ensures (old(files).pending == "" || confirmed != Some(Sha256(old(files).pending)))
              && (old(files).active == "" || confirmed != Some(Sha256(old(files).active))) ==>
                !accepted && Value() == old(Value())
    {
      if confirmed.None? { return false, Lost; }
      var pendingHash := FileHash(files.pending);
      if pendingHash.Some? && pendingHash == confirmed {
        w := DurableRename(Dir(files.pending, ""), rename, dirSync);
        return w == Durable, w;
      }
      var activeHash := FileHash(files.active);
      if activeHash.Some? && activeHash == confirmed {
        w := Lost;
        if pendingHash.Some? && removed {
          files := Dir(files.active, "");
          survivors := if power then survivors + {files} else {files};
          w := Unproven;
        }
        return true, w;
      }
      return false, Lost;
    }
  }

  // ---- what one iteration of the reconnect loop decides ----

  datatype Selection = Selection(secret: Secret, usedPending: bool)
  datatype AuthOutcome = Unknown | Rejected

  function SelectCandidate(pending: Secret, active: Secret, rejected: Secret): Selection {
    if pending != "" && pending != rejected then Selection(pending, true)
    else if active != "" then Selection(active, false)
    else if pending != "" then Selection(pending, true)
    else Selection("", false)
  }

  function NextRejected(current: Secret, sel: Selection, outcome: AuthOutcome, pendingOnDisk: Secret): Secret {
    if sel.usedPending && outcome == Rejected then sel.secret
    else if pendingOnDisk == "" then ""
    else current
  }

  predicate FallBackNow(usedPending: bool, outcome: AuthOutcome, haveActive: bool) {
    usedPending && outcome == Rejected && haveActive
  }
}
