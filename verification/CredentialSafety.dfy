/** Credential agreement over every run, and the exact conditions it needs. */
module CredentialSafety {
  import opened Common
  import opened CredentialStore
  import opened CredentialAgent
  import opened CredentialProtocol

  predicate Live(s: Sys, h: Hash) {
    Promotable(s.db, h, s.now)
  }

  /** A commit frame for `h` is on its way to a handler that still expects it. */
  predicate CommitFor(k: Conn, h: Hash) {
    k.committed && k.hub.Open? && k.hub.staged == Some(h)
  }

  /** Nothing the agent has sent or could dial with now can change the hub's active
      secret. */
  ghost predicate Quiet(s: Sys) {
    && !Live(s, Sha256(s.agent.disk.files.pending))
    && forall i, h :: 0 <= i < |s.conns| && CommitFor(s.conns[i], h) ==> !Live(s, h)
  }

  predicate RowOk(s: Sys) {
    && s.db.row.Some?
    && s.db.row.value.active != Sha256("")
    && s.db.row.value.active.secret in s.issued
    && (s.db.row.value.pending.Some? ==>
          && s.db.row.value.pending.value.hash != s.db.row.value.active
          && s.db.row.value.pending.value.hash != Sha256("")
          && s.db.row.value.pending.value.hash.secret in s.issued)
  }

  ghost predicate DiskKnown(s: Sys) {
    && DiskOk(s.agent.disk)
    && "" in s.issued && s.agent.rejected in s.issued
    && (forall d :: d in s.agent.disk.survivors ==> d.active in s.issued && d.pending in s.issued)
    && (!s.power ==> s.agent.disk.survivors == {s.agent.disk.files})
  }

  /** A secret still waiting to be promoted is never the agent's active one. */
  ghost predicate ActiveNotStaged(s: Sys) {
    forall d :: d in s.agent.disk.survivors ==> !Live(s, Sha256(d.active))
  }

  /** What the hub has sent on a connection fits where its handler stands. */
  predicate ConnOk(k: Conn, issued: set<Secret>) {
    && k.secret in issued
    && (k.enrolled.Some? ==> k.enrolled.value != "" && k.enrolled.value in issued)
    && (UnderAuth(k) || k.hub.Turned? || (k.hub.Open? && !k.hub.bound) ==>
          k.enrolled.None? && k.confirmed.None?)
    && (k.hub.Open? && !k.hub.bound ==> k.hub.staged.None?)
    && (k.hub.Open? && k.hub.staged.Some? ==>
          k.enrolled.Some? && k.hub.staged.value == Sha256(k.enrolled.value) && k.confirmed.None?)
    && (k.enrolled.Some? && k.confirmed.Some? ==> k.confirmed.value == Sha256(k.enrolled.value))
    && (k.committed ==> k.enrolled.Some?)
  }

  ghost predicate ConnsOk(s: Sys) {
    forall i :: 0 <= i < |s.conns| ==> ConnOk(s.conns[i], s.issued)
  }

  /** A commit frame that can still promote names the pending file, for certain. */
  ghost predicate CommitsProven(s: Sys) {
    forall i, h, d :: 0 <= i < |s.conns| && CommitFor(s.conns[i], h) && Live(s, h) && d in s.agent.disk.survivors ==>
      Sha256(d.pending) == h
  }

  /** A pending file that can still be promoted is there for certain, and so is that of
      a dial that can still be. */
  ghost predicate DialsProven(s: Sys) {
    && (Live(s, Sha256(s.agent.disk.files.pending)) ==> PendingFor(s, s.agent.disk.files.pending))
    && forall i :: 0 <= i < |s.conns| && UnderAuth(s.conns[i]) && Live(s, Sha256(s.conns[i].secret)) ==>
         PendingProven(s, i)
  }

  /** A refused secret cannot be promoted any more, nor can one whose promotion has just
      failed. */
  ghost predicate RefusedAreDead(s: Sys) {
    && (forall i :: 0 <= i < |s.conns| && (s.conns[i].hub.Turned? || s.conns[i].hub.Rechecking?) ==>
          !Live(s, Sha256(s.conns[i].secret)))
    && !Live(s, Sha256(s.agent.rejected))
  }

  /** An `enrolled` frame on the agent's own connection overwrites nothing needed. */
  ghost predicate EnrolledIsSafe(s: Sys, secret: Secret)
    requires s.db.row.Some?
  {
    && s.agent.rejected != secret
    && (Live(s, Sha256(s.agent.disk.files.pending)) ==> s.agent.disk.files.pending == secret)
    && (forall i, h :: 0 <= i < |s.conns| && CommitFor(s.conns[i], h) && Live(s, h) ==> h == Sha256(secret))
    && (forall d :: d in s.agent.disk.survivors ==>
          Sha256(d.active) == s.db.row.value.active
          || (s.db.row.value.active == Sha256(secret) && d.pending == secret))
  }

  ghost predicate LinkOk(s: Sys)
    requires s.db.row.Some?
  {
    !s.agent.link.Idle? ==>
      var c := s.agent.link.c;
      && c < |s.conns|
      && s.conns[c].secret == s.agent.link.sel.secret
      && (s.agent.link.Up? ==> s.conns[c].hub.Open? || s.conns[c].hub.Closed?)
      && (s.agent.link.Dialing? ==>
            var f := s.agent.disk.files;
            s.agent.link.seen == f.pending && s.agent.link.sel == SelectCandidate(f.pending, f.active, s.agent.rejected))
      && (s.conns[c].enrolled.Some? ==> EnrolledIsSafe(s, s.conns[c].enrolled.value))
      && (s.conns[c].confirmed.Some? ==> s.conns[c].confirmed.value == s.db.row.value.active && Quiet(s))
  }

  ghost predicate Inv(s: Sys) {
    && RowOk(s)
    && DiskKnown(s)
    && ActiveNotStaged(s)
    && ConnsOk(s)
    && AgreesAfterAnyCrash(s)
    && CommitsProven(s)
    && DialsProven(s)
    && RefusedAreDead(s)
    && LinkOk(s)
  }

  lemma InitialInv(s: Sys)
    requires Initial(s)
    ensures Inv(s)
  {
  }

  // ---- preservation, one actor at a time ----

  lemma EnvironmentKeepsInv(s: Sys, a: Action)
    requires Inv(s) && Enabled(s, a)
    requires a.Tick? || a.Mint? || a.Install? || a.Kill? || a.PowerLoss? || a.HubClose?
    ensures Inv(Step(s, a))
  {
    if a.Tick? || a.Mint? || a.Install? {
      QuietKeepsInv(s, a);
    } else if a.HubClose? {
      CloseKeepsInv(s, a);
    } else {
      EndKeepsInv(s, a);
    }
  }

  lemma QuietKeepsInv(s: Sys, a: Action)
    requires Inv(s) && Enabled(s, a) && (a.Tick? || a.Mint? || a.Install?)
    ensures Inv(Step(s, a))
  {
    var s' := Step(s, a);
    assert forall h :: Live(s', h) ==> Live(s, h);
  }

  lemma CloseKeepsInv(s: Sys, a: Action)
    requires Inv(s) && Enabled(s, a) && a.HubClose?
    ensures Inv(Step(s, a))
  {
    var s' := Step(s, a);
    assert forall h :: Live(s', h) ==> Live(s, h);
  }

  lemma EndKeepsInv(s: Sys, a: Action)
    requires Inv(s) && Enabled(s, a) && (a.Kill? || a.PowerLoss?)
    ensures Inv(Step(s, a))
  {
    var s' := Step(s, a);
    assert forall h :: Live(s', h) ==> Live(s, h);
  }

  lemma DialKeepsInv(s: Sys, a: Action)
    requires Inv(s) && Enabled(s, a)
    requires a.Dial?
    ensures Inv(Step(s, a))
  {
    var s' := Step(s, a);
    assert forall h :: Live(s', h) == Live(s, h);
    var n := |s.conns|;
    assert forall i :: 0 <= i < n ==> s'.conns[i] == s.conns[i];
    assert forall i, h :: 0 <= i < |s'.conns| && CommitFor(s'.conns[i], h) ==> i < n && CommitFor(s.conns[i], h);
  }

  lemma LinkChangeKeepsInv(s: Sys, a: Action)
    requires Inv(s) && Enabled(s, a)
    requires a.DialResult? || a.LinkLost?
    ensures Inv(Step(s, a))
  {
    var s' := Step(s, a);
    assert forall h :: Live(s', h) == Live(s, h);
  }

  lemma EnrolledKeepsInv(s: Sys, a: Action)
    requires Inv(s) && Enabled(s, a) && Allowed(s, a) && a.GetEnrolled?
    ensures Inv(Step(s, a))
  {
    var s' := Step(s, a);
    var c := s.agent.link.c;
    var t := s.conns[c].enrolled.value;
    var old_, new_ := s.agent.disk.survivors, s'.agent.disk.survivors;
    assert EnrolledIsSafe(s, t) && ConnOk(s.conns[c], s.issued);
    forall d | d in new_
      ensures d in old_ || d == Dir(s.agent.disk.files.active, t)
    {
    }
    assert ConnsOk(s') by {
      forall i | 0 <= i < |s'.conns| ensures ConnOk(s'.conns[i], s'.issued) { assert ConnOk(s.conns[i], s.issued); }
    }
    EnrolledCommits(s, a);
    EnrolledDials(s, a);
    assert LinkOk(s') by {
      if !s'.agent.link.Idle? {
        EnrolledStaysSafe(s, a);
      }
    }
  }

  lemma EnrolledCommits(s: Sys, a: Action)
    requires Inv(s) && Enabled(s, a) && Allowed(s, a) && a.GetEnrolled?
    ensures CommitsProven(Step(s, a))
  {
    var s' := Step(s, a);
    var c := s.agent.link.c;
    assert EnrolledIsSafe(s, s.conns[c].enrolled.value) && ConnOk(s.conns[c], s.issued);
    forall i, h, d | 0 <= i < |s'.conns| && CommitFor(s'.conns[i], h) && Live(s', h) && d in s'.agent.disk.survivors
      ensures Sha256(d.pending) == h
    {
      if CommitFor(s.conns[i], h) { assert Live(s, h); } else { assert i == c; }
    }
  }

  lemma EnrolledDials(s: Sys, a: Action)
    requires Inv(s) && Enabled(s, a) && Allowed(s, a) && a.GetEnrolled?
    ensures DialsProven(Step(s, a))
  {
    var s' := Step(s, a);
    assert EnrolledIsSafe(s, s.conns[s.agent.link.c].enrolled.value);
    forall i | 0 <= i < |s'.conns| && UnderAuth(s'.conns[i]) && Live(s', Sha256(s'.conns[i].secret))
      ensures PendingProven(s', i)
    {
      assert UnderAuth(s.conns[i]) && Live(s, Sha256(s.conns[i].secret)) && PendingProven(s, i);
      assert s.agent.disk.files in s.agent.disk.survivors;
    }
  }

  lemma EnrolledStaysSafe(s: Sys, a: Action)
    requires Inv(s) && Enabled(s, a) && Allowed(s, a) && a.GetEnrolled? && !Step(s, a).agent.link.Idle?
    ensures LinkOk(Step(s, a))
  {
    var s' := Step(s, a);
    var c := s.agent.link.c;
    var t := s.conns[c].enrolled.value;
    assert s'.agent.disk.survivors == {Dir(s.agent.disk.files.active, t)};
    assert EnrolledIsSafe(s, t) && ConnOk(s.conns[c], s.issued);
    assert EnrolledIsSafe(s', t) by {
      forall i, h | 0 <= i < |s'.conns| && CommitFor(s'.conns[i], h) && Live(s', h) ensures h == Sha256(t) {
        if CommitFor(s.conns[i], h) { assert Live(s, h); } else { assert i == c; }
      }
      assert s.agent.disk.files in s.agent.disk.survivors;
    }
    if s.conns[c].confirmed.Some? {
      assert Quiet(s') by {
        forall i, h | 0 <= i < |s'.conns| && CommitFor(s'.conns[i], h) ensures !Live(s', h) {
          if i != c { assert CommitFor(s.conns[i], h); }
        }
      }
    }
  }

  /** The agent's directory lost its pending file while nothing could still promote
      it, and holds the hub's active secret as its active file. */
  lemma PendingGoneKeepsInv(s: Sys, s': Sys)
    requires Inv(s) && Quiet(s) && s.agent.link.Up?
    requires s' == s.(agent := s'.agent) && s'.agent.rejected == s.agent.rejected && s'.agent.link == s.agent.link
    requires DiskKnown(s')
    requires s'.agent.disk.files.pending == ""
    requires forall d :: d in s'.agent.disk.survivors ==>
               d in s.agent.disk.survivors || (d.pending == "" && Sha256(d.active) == s.db.row.value.active)
    requires forall d :: d in s'.agent.disk.survivors && !s.power ==> d == s'.agent.disk.files
    ensures Inv(s') && Quiet(s')
  {
    assert forall x :: Live(s', x) == Live(s, x);
    assert s'.conns == s.conns;
    assert Quiet(s');
    assert DialsProven(s') by {
      forall i | 0 <= i < |s.conns| && UnderAuth(s.conns[i])
        ensures !Live(s', Sha256(s.conns[i].secret))
      {
        assert s.agent.disk.files in s.agent.disk.survivors;
        assert Live(s, Sha256(s.conns[i].secret)) ==> PendingProven(s, i);
      }
    }
    var c := s.agent.link.c;
    if s.conns[c].enrolled.Some? {
      assert EnrolledIsSafe(s, s.conns[c].enrolled.value);
      assert EnrolledIsSafe(s', s.conns[c].enrolled.value);
    }
  }

  lemma DroppingKeepsInv(s: Sys, s': Sys, outcome: AuthOutcome)
    requires Inv(s) && !s.agent.link.Dialing? && outcome == Unknown
    requires s' == s.(agent := s'.agent) && s'.agent.disk == s.agent.disk && s'.agent.link == Idle
    requires s'.agent.rejected == Dropped(s.agent, outcome).rejected
    ensures Inv(s')
  {
    assert forall x :: Live(s', x) == Live(s, x);
    assert s'.conns == s.conns;
  }

  lemma ConfirmedKeepsInv(s: Sys, a: Action)
    requires Inv(s) && Enabled(s, a) && a.GetConfirmed?
    ensures Inv(Step(s, a))
  {
    var s' := Step(s, a);
    var h := s.conns[s.agent.link.c].confirmed;
    var disk := Confirmed(s.agent.disk, h, a.w, s.power);
    var mid := s.(agent := s.agent.(disk := disk));
    assert Quiet(s) && ConnOk(s.conns[s.agent.link.c], s.issued);
    assert s.agent.disk.files in s.agent.disk.survivors;
    if disk != s.agent.disk {
      assert disk.files.pending == "" && Sha256(disk.files.active) == s.db.row.value.active;
      PendingGoneKeepsInv(s, mid);
    } else {
      assert mid == s;
    }
    if ConfirmAccepted(s.agent.disk, h, a.w) {
      assert s' == mid.(agent := mid.agent.(token := None));
      TokenIsIrrelevant(mid, s');
    } else {
      DroppingKeepsInv(mid, s', Unknown);
    }
  }

  lemma TokenIsIrrelevant(s: Sys, s': Sys)
    requires Inv(s) && s' == s.(agent := s.agent.(token := s'.agent.token))
    ensures Inv(s')
  {
    assert forall x :: Live(s', x) == Live(s, x);
    if !s.agent.link.Idle? && s.conns[s.agent.link.c].enrolled.Some? {
      assert EnrolledIsSafe(s, s.conns[s.agent.link.c].enrolled.value);
      assert EnrolledIsSafe(s', s.conns[s.agent.link.c].enrolled.value);
    }
  }

  /** The hub promoted `h`, which every surviving directory holds as its pending
      file and nothing on the agent's connection contradicts. */
  lemma PromotionKeepsInv(s: Sys, s': Sys, i: nat, h: Hash)
    requires Inv(s) && i < |s.conns| && Live(s, h) && h != Sha256("")
    requires forall d :: d in s.agent.disk.survivors ==> Sha256(d.pending) == h
    requires |s'.conns| == |s.conns| && s' == s.(db := s'.db, conns := s.conns[i := s'.conns[i]])
    requires s'.db.row == Some(Row(h, None))
    requires ConnOk(s'.conns[i], s.issued) && s'.conns[i].secret == s.conns[i].secret
    requires s'.conns[i].enrolled == s.conns[i].enrolled
    requires s'.conns[i].hub.Open? || s'.conns[i].hub.Closed? || s'.conns[i].hub.Turned?
    requires s.agent.link.Up? && s.agent.link.c == i ==> !s'.conns[i].hub.Turned?
    requires s'.conns[i].confirmed.Some? && s'.conns[i].confirmed != s.conns[i].confirmed ==> s'.conns[i].confirmed.value == h
    ensures Inv(s')
  {
    assert forall x :: !Live(s', x);
    assert s.agent.disk.files in s.agent.disk.survivors;
    assert ConnsOk(s') by {
      forall j | 0 <= j < |s'.conns| ensures ConnOk(s'.conns[j], s'.issued) { assert ConnOk(s.conns[j], s.issued); }
    }
    assert Quiet(s');
    if !s.agent.link.Idle? {
      var c := s.agent.link.c;
      assert s.conns[c].confirmed.None?;
      if s.conns[c].enrolled.Some? {
        var t := s.conns[c].enrolled.value;
        assert EnrolledIsSafe(s, t);
        assert h == Sha256(t);
        assert EnrolledIsSafe(s', t);
      }
    }
  }

  /** The hub changed one connection, and perhaps dropped an unusable pending row,
      without promoting anything. */
  lemma ConnChangeKeepsInv(s: Sys, s': Sys, i: nat)
    requires Inv(s) && i < |s.conns|
    requires |s'.conns| == |s.conns| && s' == s.(db := s'.db, conns := s.conns[i := s'.conns[i]])
    requires s'.db == s.db || (s'.db.row == Some(Row(s.db.row.value.active, None)))
    requires ConnOk(s'.conns[i], s.issued) && s'.conns[i].secret == s.conns[i].secret
    requires s'.conns[i].enrolled == s.conns[i].enrolled
    requires forall h :: CommitFor(s'.conns[i], h) ==> CommitFor(s.conns[i], h)
    requires UnderAuth(s'.conns[i]) ==> UnderAuth(s.conns[i])
    requires s'.conns[i].hub.Turned? || s'.conns[i].hub.Rechecking? ==>
               !Live(s', Sha256(s.conns[i].secret)) && UnderAuth(s.conns[i])
    requires s.conns[i].hub.Open? ==> s'.conns[i].hub.Open? || s'.conns[i].hub.Closed?
    requires s.conns[i].hub.Closed? ==> s'.conns[i].hub.Closed?
    requires s'.conns[i].confirmed == s.conns[i].confirmed
             || (UnderAuth(s.conns[i]) && s'.conns[i].confirmed == Some(Sha256(s.conns[i].secret))
                 && s.db.row.value.active == Sha256(s.conns[i].secret))
    ensures Inv(s')
  {
    assert forall x :: Live(s', x) ==> Live(s, x);
    assert forall j, h :: 0 <= j < |s'.conns| && CommitFor(s'.conns[j], h) ==> CommitFor(s.conns[j], h);
    assert ConnsOk(s') by {
      forall j | 0 <= j < |s'.conns| ensures ConnOk(s'.conns[j], s'.issued) { assert ConnOk(s.conns[j], s.issued); }
    }
    if !s.agent.link.Idle? {
      var c := s.agent.link.c;
      if s.conns[c].enrolled.Some? {
        assert EnrolledIsSafe(s, s.conns[c].enrolled.value);
        assert EnrolledIsSafe(s', s.conns[c].enrolled.value);
      }
      if s'.conns[c].confirmed.Some? {
        if s'.conns[c].confirmed == s.conns[c].confirmed { assert Quiet(s); }
        else { ActiveDialIsQuiet(s); }
        assert Quiet(s');
      }
    }
  }

  /** While the agent is dialing with the hub's active secret, nothing it sent
      earlier can still be promoted. */
  lemma ActiveDialIsQuiet(s: Sys)
    requires Inv(s) && s.agent.link.Dialing?
    requires s.db.row.value.active == Sha256(s.agent.link.sel.secret)
    ensures Quiet(s)
  {
  }

  lemma HubAuthKeepsInv(s: Sys, a: Action)
    requires Inv(s) && Enabled(s, a) && Allowed(s, a)
    requires a.HubLookup? || a.HubPending? || a.HubPromote? || a.HubRecheck? || a.HubDbError?
    ensures Inv(Step(s, a))
  {
    var s' := Step(s, a);
    var i := a.i;
    var h := Sha256(s.conns[i].secret);
    assert ConnOk(s.conns[i], s.issued);
    assert |s'.conns| == |s.conns| && s'.conns == s.conns[i := s'.conns[i]];
    if a.HubPromote? && Live(s, h) {
      assert PendingProven(s, i);
      PromotionKeepsInv(s, s', i, h);
    } else {
      ConnChangeKeepsInv(s, s', i);
    }
  }

  /** Staging a secret nobody holds yet changes nothing that could be promoted. */
  lemma StagingKeepsInv(s: Sys, s': Sys, i: nat, t: Secret)
    requires Inv(s) && Settled(s) && i < |s.conns| && t != "" && t !in s.issued
    requires s.conns[i].hub.Open? && !s.conns[i].hub.bound
    requires |s'.conns| == |s.conns|
    requires s' == s.(db := s'.db, conns := s.conns[i := s'.conns[i]], issued := s.issued + {t})
    requires s'.db.row.Some? && s'.db.row.value.active == s.db.row.value.active
    requires s'.db.row.value.pending.Some? && s'.db.row.value.pending.value.hash == Sha256(t)
    requires s'.conns[i] == s.conns[i].(hub := Closed)
             || s'.conns[i] == s.conns[i].(hub := Open(true, Some(Sha256(t)), true), enrolled := Some(t))
    ensures Inv(s')
  {
    assert forall h :: Live(s', h) ==> h == Sha256(t);
    assert ConnOk(s.conns[i], s.issued);
    assert ConnsOk(s') by {
      forall j | 0 <= j < |s'.conns| ensures ConnOk(s'.conns[j], s'.issued) { assert ConnOk(s.conns[j], s.issued); }
    }
    forall j, h | 0 <= j < |s'.conns| && CommitFor(s'.conns[j], h)
      ensures h.secret in s.issued && !Live(s', h)
    {
      assert ConnOk(s.conns[j], s.issued) && j != i;
    }
    assert s.agent.disk.files in s.agent.disk.survivors;
    assert Quiet(s');
    StagedDialsAreDead(s, s', t);
    if !s.agent.link.Idle? {
      var c := s.agent.link.c;
      if s'.conns[c].enrolled.Some? { assert EnrolledIsSafe(s', s'.conns[c].enrolled.value); }
    }
  }

  lemma StagedDialsAreDead(s: Sys, s': Sys, t: Secret)
    requires ConnsOk(s) && t !in s.issued && |s'.conns| == |s.conns| && s'.agent == s.agent && DiskKnown(s)
    requires forall j :: 0 <= j < |s.conns| ==> s'.conns[j].secret == s.conns[j].secret
    requires forall h :: Live(s', h) ==> h == Sha256(t)
    ensures DialsProven(s') && RefusedAreDead(s')
  {
  }

  lemma HubStageKeepsInv(s: Sys, a: Action)
    requires Inv(s) && Enabled(s, a) && Allowed(s, a) && a.HubFirstFrame?
    ensures Inv(Step(s, a))
  {
    var s' := Step(s, a);
    var i := a.i;
    assert ConnOk(s.conns[i], s.issued);
    assert |s'.conns| == |s.conns| && s'.conns == s.conns[i := s'.conns[i]];
    if Stages(s, i) {
      StagingKeepsInv(s, s', i, a.secret);
    } else {
      ConnChangeKeepsInv(s, s', i);
    }
  }

  lemma HubCommitKeepsInv(s: Sys, a: Action)
    requires Inv(s) && Enabled(s, a) && a.HubCommit?
    ensures Inv(Step(s, a))
  {
    var s' := Step(s, a);
    var i := a.i;
    assert ConnOk(s.conns[i], s.issued);
    assert |s'.conns| == |s.conns| && s'.conns == s.conns[i := s'.conns[i]];
    if s.conns[i].hub.staged.Some? && Live(s, s.conns[i].hub.staged.value) {
      assert CommitFor(s.conns[i], s.conns[i].hub.staged.value);
      PromotionKeepsInv(s, s', i, s.conns[i].hub.staged.value);
    } else {
      ConnChangeKeepsInv(s, s', i);
    }
  }

  lemma StepKeepsInv(s: Sys, a: Action)
    requires Inv(s) && Enabled(s, a) && Allowed(s, a)
    ensures Inv(Step(s, a))
  {
    match a
    case Tick(_) => EnvironmentKeepsInv(s, a);
    case Mint(_, _, _) => EnvironmentKeepsInv(s, a);
    case Install(_) => EnvironmentKeepsInv(s, a);
    case Kill => EnvironmentKeepsInv(s, a);
    case PowerLoss(_) => EnvironmentKeepsInv(s, a);
    case HubClose(_) => EnvironmentKeepsInv(s, a);
    case Dial => DialKeepsInv(s, a);
    case DialResult => LinkChangeKeepsInv(s, a);
    case LinkLost => LinkChangeKeepsInv(s, a);
    case GetEnrolled(_, _) => EnrolledKeepsInv(s, a);
    case GetConfirmed(_) => ConfirmedKeepsInv(s, a);
    case HubLookup(_, _) => HubAuthKeepsInv(s, a);
    case HubPending(_) => HubAuthKeepsInv(s, a);
    case HubPromote(_, _) => HubAuthKeepsInv(s, a);
    case HubRecheck(_, _) => HubAuthKeepsInv(s, a);
    case HubDbError(_) => HubAuthKeepsInv(s, a);
    case HubFirstFrame(_, _, _) => HubStageKeepsInv(s, a);
    case HubCommit(_, _) => HubCommitKeepsInv(s, a);
  }

  // ---- the results ----

  lemma {:induction false} RunKeepsInv(states: seq<Sys>, actions: seq<Action>, n: nat)
    requires IsRun(states, actions) && AllAllowed(states, actions) && n < |states|
    ensures Inv(states[n])
  {
    if n == 0 {
      InitialInv(states[0]);
    } else {
      RunKeepsInv(states, actions, n - 1);
      StepKeepsInv(states[n - 1], actions[n - 1]);
    }
  }

  /** Credential agreement: at every point of every allowed run, whichever directory
      a crash leaves behind holds a secret whose hash is the hub's active one. */
  lemma CredentialAgreement(states: seq<Sys>, actions: seq<Action>, n: nat)
    requires IsRun(states, actions) && AllAllowed(states, actions) && n < |states|
    ensures Agrees(states[n]) && AgreesAfterAnyCrash(states[n])
  {
    RunKeepsInv(states, actions, n);
  }

  /** A dialed secret the hub can promote is the agent's pending file at every point of
      every allowed run, whichever directory a crash leaves behind. */
  lemma PendingProvenAtEveryDial(states: seq<Sys>, actions: seq<Action>, n: nat, i: nat)
    requires IsRun(states, actions) && AllAllowed(states, actions) && n < |states|
    requires i < |states[n].conns| && UnderAuth(states[n].conns[i])
    requires Promotable(states[n].db, Sha256(states[n].conns[i].secret), states[n].now)
    ensures PendingProven(states[n], i)
  {
    RunKeepsInv(states, actions, n);
  }

  /** Starting a re-enrollment: the run "stage, then the agent saves the secret"
      keeps agreement exactly when it starts from agreement on the active file. */
  lemma StagingNeedsSettledAgreement(s: Sys, c: nat, secret: Secret)
    requires Inv(s) && !s.power && c < |s.conns| && s.agent.link.Up? && s.agent.link.c == c
    requires s.conns[c].hub.Open? && !s.conns[c].hub.bound && Stages(s, c)
    requires secret !in s.issued && secret != ""
    ensures var stage, save := HubFirstFrame(c, secret, true), GetEnrolled(Durable, true);
            Enabled(s, stage) && Enabled(Step(s, stage), save)
            && (Agrees(Step(Step(s, stage), save)) <==> Settled(s))
  {
    var s1 := Step(s, HubFirstFrame(c, secret, true));
    var s2 := Step(s1, GetEnrolled(Durable, true));
    assert s2.agent.disk.files == Dir(s.agent.disk.files.active, secret);
    assert s2.db.row.value.active == s.db.row.value.active;
    assert s.agent.disk.survivors == {s.agent.disk.files};
    assert Settled(s) <==> FileHash(s.agent.disk.files.active) == Some(s.db.row.value.active);
  }

  /** The agent saved the staged secret, lost its link and dials with it; `n` is that
      dial's connection. */
  ghost predicate Redialed(s: Sys, s2: Sys, n: nat, secret: Secret, w: WriteOutcome) {
    && |s2.conns| == n + 1 && n == |s.conns|
    && s2.conns[n] == Conn(secret, s.agent.token, Unseen, None, None, false)
    && s2.db == s.db && s2.now == s.now
    && s2.agent.disk == PendingSaved(s.agent.disk, secret, w, s.power)
  }

  lemma SaveThenDial(s: Sys, w: WriteOutcome) returns (s2: Sys)
    requires Inv(s) && Enabled(s, GetEnrolled(w, false)) && w != Lost
    ensures Leads(s, [GetEnrolled(w, false)] + [Dial], s2)
    ensures Redialed(s, s2, |s.conns|, s.conns[s.agent.link.c].enrolled.value, w)
  {
    var secret := s.conns[s.agent.link.c].enrolled.value;
    assert EnrolledIsSafe(s, secret) && ConnOk(s.conns[s.agent.link.c], s.issued);
    var s1 := Step(s, GetEnrolled(w, false));
    LeadsOn(s, [], s, GetEnrolled(w, false));
    assert s1.agent.disk.files.pending == secret && s1.agent.rejected != secret;
    s2 := Step(s1, Dial);
    LeadsOn(s, [GetEnrolled(w, false)], s1, Dial);
  }

  /** Judging a secret that can be promoted promotes it. */
  lemma JudgedPromotes(s: Sys, n: nat, sent: bool) returns (s': Sys)
    requires n < |s.conns| && s.conns[n].hub.Unseen?
    requires Live(s, Sha256(s.conns[n].secret)) && !IsActive(s.db, Sha256(s.conns[n].secret))
    ensures Enabled(s, HubLookup(n, sent)) && Enabled(Step(s, HubLookup(n, sent)), HubPending(n))
    ensures Enabled(Step(Step(s, HubLookup(n, sent)), HubPending(n)), HubPromote(n, sent))
    ensures s' == Step(Step(Step(s, HubLookup(n, sent)), HubPending(n)), HubPromote(n, sent))
    ensures s'.db.row == Some(Row(Sha256(s.conns[n].secret), None)) && s'.agent == s.agent
  {
    var s1 := Step(s, HubLookup(n, sent));
    assert s1.conns[n].hub == Checking;
    var s2 := Step(s1, HubPending(n));
    assert s2.conns[n].hub == Found;
    s' := Step(s2, HubPromote(n, sent));
  }

  /** Saving a staged secret and dialing with it: the promotion that follows keeps
      agreement, whatever a crash leaves behind, exactly when the directory fsync of the
      save succeeded, or no crash can undo the rename, or the file was already there. */
  lemma SaveNeedsProof(s: Sys, w: WriteOutcome, sent: bool) returns (s5: Sys)
    requires Inv(s) && Enabled(s, GetEnrolled(w, false)) && w != Lost
    requires Live(s, Sha256(s.conns[s.agent.link.c].enrolled.value))
    ensures var n := |s.conns|;
            Leads(s, [GetEnrolled(w, false)] + [Dial] + [HubLookup(n, sent)] + [HubPending(n)] + [HubPromote(n, sent)], s5)
    ensures AgreesAfterAnyCrash(s5)
       <==> w == Durable || !s.power || PendingFor(s, s.conns[s.agent.link.c].enrolled.value)
  {
    var n, secret := |s.conns|, s.conns[s.agent.link.c].enrolled.value;
    var s2 := SaveThenDial(s, w);
    s5 := JudgedPromotes(s2, n, sent);
    var before := [GetEnrolled(w, false)] + [Dial];
    LeadsOn(s, before, s2, HubLookup(n, sent));
    LeadsOn(s, before + [HubLookup(n, sent)], Step(s2, HubLookup(n, sent)), HubPending(n));
    LeadsOn(s, before + [HubLookup(n, sent)] + [HubPending(n)], Step(Step(s2, HubLookup(n, sent)), HubPending(n)), HubPromote(n, sent));
    assert ConnOk(s.conns[s.agent.link.c], s.issued);
    PromotedAgrees(s, s5.db, secret, w);
  }

  lemma PromotedAgrees(s: Sys, db: Db, secret: Secret, w: WriteOutcome)
    requires Inv(s) && Live(s, Sha256(secret)) && w != Lost && db.row == Some(Row(Sha256(secret), None)) && secret != ""
    ensures (forall d :: d in PendingSaved(s.agent.disk, secret, w, s.power).survivors ==> DirAgrees(db, d))
       <==> w == Durable || !s.power || PendingFor(s, secret)
  {
    var disk := PendingSaved(s.agent.disk, secret, w, s.power);
    forall d | d in s.agent.disk.survivors ensures d.active != secret { }
    if w == Unproven && s.power {
      forall d | d in s.agent.disk.survivors ensures d in disk.survivors { }
    }
  }

  // ---- a staged secret is not lost ----

  /** The step stages another secret. */
  predicate StagesAnother(s: Sys, a: Action) {
    a.HubFirstFrame? && a.i < |s.conns| && Stages(s, a.i)
  }

  /** Only time and a new staging take away what can be promoted: late frames, refusals,
      errors and crashes do not. */
  lemma StepKeepsPromotable(s: Sys, a: Action, h: Hash)
    requires Inv(s) && Enabled(s, a) && !a.Tick? && !StagesAnother(s, a)
    requires Promotable(s.db, h, s.now)
    ensures Promotable(Step(s, a).db, h, s.now) || IsActive(Step(s, a).db, h)
  {
  }

  /** A staged secret that has become active stays so until another is staged. */
  lemma StepKeepsActive(s: Sys, a: Action)
    requires Enabled(s, a) && !StagesAnother(s, a) && s.db.row.Some? && s.db.row.value.pending.None?
    ensures Step(s, a).db.row == s.db.row
  {
  }

  /** Either still staged under the same expiry, or active with nothing staged. */
  predicate StagedOrActive(db: Db, h: Hash, expires: int) {
    && db.row.Some?
    && (db.row.value.pending == Some(Pending(h, Some(expires)))
        || (db.row.value.active == h && db.row.value.pending.None?))
  }

  lemma StepKeepsStagedOrActive(s: Sys, a: Action, h: Hash, expires: int)
    requires Inv(s) && Enabled(s, a) && !StagesAnother(s, a) && s.now < expires && StagedOrActive(s.db, h, expires)
    ensures StagedOrActive(Step(s, a).db, h, expires)
  {
    if s.db.row.value.pending.None? { StepKeepsActive(s, a); }
  }

  lemma KeptOnce(states: seq<Sys>, actions: seq<Action>, n: nat, h: Hash, expires: int)
    requires IsRun(states, actions) && AllAllowed(states, actions) && n < |actions|
    requires !StagesAnother(states[n], actions[n]) && states[n].now < expires && StagedOrActive(states[n].db, h, expires)
    ensures StagedOrActive(states[n + 1].db, h, expires)
  {
    RunKeepsInv(states, actions, n);
    StepKeepsStagedOrActive(states[n], actions[n], h, expires);
  }

  /** Over every allowed run: until its expiry or a newer staging, a staged secret can be
      promoted or has become the active one. */
  lemma {:induction false} StagedSecretIsKept(states: seq<Sys>, actions: seq<Action>, m: nat, n: nat, h: Hash, expires: int)
    requires IsRun(states, actions) && AllAllowed(states, actions) && m <= n < |states|
    requires forall k :: m <= k < n ==> !StagesAnother(states[k], actions[k])
    requires forall k :: m <= k <= n ==> states[k].now < expires
    requires states[m].db.row.Some? && states[m].db.row.value.pending == Some(Pending(h, Some(expires)))
    ensures Promotable(states[n].db, h, states[n].now) || IsActive(states[n].db, h)
    ensures StagedOrActive(states[n].db, h, expires)
  {
    if m < n {
      StagedSecretIsKept(states, actions, m, n - 1, h, expires);
      KeptOnce(states, actions, n - 1, h, expires);
    }
  }

  // ---- what a re-enrollment is for ----

  lemma StageAndSave(s: Sys, c: nat, secret: Secret) returns (s2: Sys)
    requires Inv(s) && c < |s.conns| && s.agent.link.Up? && s.agent.link.c == c
    requires s.conns[c].hub.Open? && !s.conns[c].hub.bound && Stages(s, c) && secret !in s.issued && secret != ""
    ensures Leads(s, [HubFirstFrame(c, secret, true)] + [GetEnrolled(Durable, true)], s2)
    ensures s2.agent.link == s.agent.link && s2.now == s.now && s2.agent.disk.files == Dir(s.agent.disk.files.active, secret)
    ensures c < |s2.conns| && s2.conns[c].committed && s2.conns[c].hub == Open(true, Some(Sha256(secret)), true)
    ensures Promotable(s2.db, Sha256(secret), s.now)
  {
    var s1 := Step(s, HubFirstFrame(c, secret, true));
    LeadsOn(s, [], s, HubFirstFrame(c, secret, true));
    assert s1.conns[c].enrolled == Some(secret);
    s2 := Step(s1, GetEnrolled(Durable, true));
    LeadsOn(s, [HubFirstFrame(c, secret, true)], s1, GetEnrolled(Durable, true));
  }

  lemma CommitAndConfirm(s2: Sys, c: nat, secret: Secret) returns (s4: Sys)
    requires s2.agent.link.Up? && s2.agent.link.c == c && s2.agent.disk.files.pending == secret && secret != ""
    requires c < |s2.conns| && s2.conns[c].committed && s2.conns[c].hub == Open(true, Some(Sha256(secret)), true)
    requires Promotable(s2.db, Sha256(secret), s2.now)
    ensures Enabled(s2, HubCommit(c, true)) && Enabled(Step(s2, HubCommit(c, true)), GetConfirmed(Durable))
    ensures s4 == Step(Step(s2, HubCommit(c, true)), GetConfirmed(Durable))
    ensures s4.agent.disk == Disk(Dir(secret, ""), {Dir(secret, "")}) && s4.agent.token == None
    ensures s4.db.row == Some(Row(Sha256(secret), None))
  {
    var s3 := Step(s2, HubCommit(c, true));
    assert s3.conns[c].confirmed == Some(Sha256(secret));
    s4 := Step(s3, GetConfirmed(Durable));
  }

  /** Undisturbed, a re-enrollment replaces the secret on both sides: the hub holds only
      the new one, the agent's directory holds it as the active file for certain and
      nothing else, and the token is gone. */
  lemma HandoffCompletes(s: Sys, c: nat, secret: Secret) returns (s4: Sys)
    requires Inv(s) && c < |s.conns| && s.agent.link.Up? && s.agent.link.c == c
    requires s.conns[c].hub.Open? && !s.conns[c].hub.bound && Stages(s, c) && secret !in s.issued && secret != ""
    ensures Leads(s, [HubFirstFrame(c, secret, true)] + [GetEnrolled(Durable, true)] + [HubCommit(c, true)] + [GetConfirmed(Durable)], s4)
    ensures s4.agent.disk == Disk(Dir(secret, ""), {Dir(secret, "")}) && s4.agent.token == None
    ensures s4.db.row == Some(Row(Sha256(secret), None))
  {
    var before := [HubFirstFrame(c, secret, true)] + [GetEnrolled(Durable, true)];
    var s2 := StageAndSave(s, c, secret);
    s4 := CommitAndConfirm(s2, c, secret);
    LeadsOn(s, before, s2, HubCommit(c, true));
    LeadsOn(s, before + [HubCommit(c, true)], Step(s2, HubCommit(c, true)), GetConfirmed(Durable));
  }
}
