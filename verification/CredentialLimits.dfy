/** Runs that break agreement, one for each condition the theorem needs: each run
    meets every condition but the one it is about. */
module CredentialLimits {
  import opened Common
  import opened CredentialStore
  import opened CredentialAgent
  import opened CredentialProtocol
  import opened CredentialSafety
  import Reconnect

  /** An enrolled agent holding a fresh targeted token. */
  function Start(power: bool, a: Secret): Sys {
    var files := Dir(a, "");
    Sys(power, 7, 0, Db(map[0 := Token(false, Some(1000), Some(7))], Some(Row(Sha256(a), None))),
        [], Agent(Disk(files, {files}), "", Some(0), Idle), {"", a})
  }

  datatype History = History(states: seq<Sys>, actions: seq<Action>) {
    ghost predicate Valid() {
      IsRun(states, actions)
    }

    function Last(): Sys
      requires |states| > 0
    {
      states[|states| - 1]
    }

    /** Every step but those of this kind met its condition. */
    ghost predicate AllowedExcept(excused: Action -> bool)
      requires Valid()
    {
      forall i :: 0 <= i < |actions| && !excused(actions[i]) ==>
        Enabled(states[i], actions[i]) && Allowed(states[i], actions[i])
    }
  }

  lemma Extend(h: History, a: Action, excused: Action -> bool) returns (h': History)
    requires h.Valid() && h.AllowedExcept(excused) && Enabled(h.Last(), a)
    requires excused(a) || Allowed(h.Last(), a)
    ensures h'.Valid() && h'.AllowedExcept(excused) && h'.Last() == Step(h.Last(), a)
    ensures h'.states[0] == h.states[0]
  {
    h' := History(h.states + [Step(h.Last(), a)], h.actions + [a]);
    forall i | 0 <= i < |h'.actions|
      ensures Enabled(h'.states[i], h'.actions[i]) && h'.states[i + 1] == Step(h'.states[i], h'.actions[i])
      ensures !excused(h'.actions[i]) ==> Allowed(h'.states[i], h'.actions[i])
    {
      if i < |h.actions| {
        assert Enabled(h.states[i], h.actions[i]);
      }
    }
  }

  /** The first connection up to the `enrolled` frame: dialed with the active secret
      and the targeted token, "b" staged, the agent listening. */
  function Offered(power: bool, a: Secret, b: Secret): Sys {
    var files := Dir(a, "");
    var sel := Selection(a, false);
    Sys(power, 7, 0,
        Db(map[0 := Token(true, Some(1000), Some(7))], Some(Row(Sha256(a), Some(Pending(Sha256(b), Some(300000)))))),
        [Conn(a, Some(0), Open(true, Some(Sha256(b)), true), Some(b), None, false)],
        Agent(Disk(files, {files}), "", Some(0), Up(0, sel, "")), {"", a, b})
  }

  /** The agent dialed with the active secret and the hub answered. */
  function Linked(power: bool, a: Secret): Sys {
    var files := Dir(a, "");
    Sys(power, 7, 0, Db(map[0 := Token(false, Some(1000), Some(7))], Some(Row(Sha256(a), None))),
        [Conn(a, Some(0), Open(true, None, false), None, None, false)],
        Agent(Disk(files, {files}), "", Some(0), Up(0, Selection(a, false), "")), {"", a})
  }

  lemma LinkedIsReached(power: bool, a: Secret, excused: Action -> bool) returns (h: History)
    requires a != ""
    ensures h.Valid() && h.AllowedExcept(excused) && h.states[0] == Start(power, a) && h.Last() == Linked(power, a)
  {
    h := History([Start(power, a)], []);
    h := Extend(h, Dial, excused);
    assert h.Last().conns == [Conn(a, Some(0), Unseen, None, None, false)];
    h := Extend(h, HubLookup(0, true), excused);
    assert h.Last().conns == [Conn(a, Some(0), Open(true, None, false), None, None, false)];
    h := Extend(h, DialResult, excused);
    assert h.Last() == Linked(power, a);
  }

  lemma OfferedIsReached(power: bool, a: Secret, b: Secret, excused: Action -> bool) returns (h: History)
    requires a != "" && b != "" && a != b
    ensures h.Valid() && h.AllowedExcept(excused) && h.states[0] == Start(power, a) && h.Last() == Offered(power, a, b)
  {
    h := LinkedIsReached(power, a, excused);
    h := Extend(h, HubFirstFrame(0, b, true), excused);
    assert h.Last().issued == {"", a, b};
    assert h.Last() == Offered(power, a, b);
  }

  /** "b" shows in the pending file without proof, and the agent has dialed with it. */
  function Unproved(a: Secret, b: Secret): Sys {
    Offered(true, a, b).(
      conns := Offered(true, a, b).conns + [Conn(b, Some(0), Unseen, None, None, false)],
      agent := Agent(Disk(Dir(a, b), {Dir(a, ""), Dir(a, b)}), "", Some(0), Dialing(1, Selection(b, true), b)))
  }

  lemma UnprovedIsReached(a: Secret, b: Secret) returns (h: History)
    requires a != "" && b != "" && a != b
    ensures h.Valid() && h.AllowedExcept((x: Action) => x.GetEnrolled?) && h.states[0].power
    ensures h.Last() == Unproved(a, b)
  {
    var excused := (x: Action) => x.GetEnrolled?;
    h := OfferedIsReached(true, a, b, excused);
    h := Extend(h, GetEnrolled(Unproven, false), excused);
    assert h.Last().agent.disk == Disk(Dir(a, b), {Dir(a, ""), Dir(a, b)});
    h := Extend(h, Dial, excused);
    assert h.Last() == Unproved(a, b);
  }

  /** The pending rename shows but its directory fsync failed. The next dial is
      promoted with that file, and a power loss then undoes the rename. */
  lemma UnprovenPendingStrands(a: Secret, b: Secret) returns (h: History)
    requires a != "" && b != "" && a != b
    ensures h.Valid() && h.AllowedExcept((x: Action) => x.GetEnrolled?) && h.states[0].power
    ensures !Agrees(h.Last())
  {
    var excused := (x: Action) => x.GetEnrolled?;
    h := UnprovedIsReached(a, b);
    h := Extend(h, HubLookup(1, true), excused);
    h := Extend(h, HubPending(1), excused);
    h := Extend(h, HubPromote(1, true), excused);
    assert h.Last().db.row == Some(Row(Sha256(b), None));
    h := Extend(h, PowerLoss(Dir(a, "")), excused);
  }

  /** The agent saved "b" and sent its commit frame, lost the link, and dials with
      "b"; the hub's active lookup for that dial has just missed. */
  function Probing(a: Secret, b: Secret): Sys {
    var files := Dir(a, b);
    Offered(false, a, b).(
      conns := [Conn(a, Some(0), Open(true, Some(Sha256(b)), true), Some(b), None, true),
                Conn(b, Some(0), Checking, None, None, false)],
      agent := Agent(Disk(files, {files}), "", Some(0), Dialing(1, Selection(b, true), b)))
  }

  lemma ProbingIsReached(a: Secret, b: Secret, excused: Action -> bool) returns (h: History)
    requires a != "" && b != "" && a != b
    ensures h.Valid() && h.AllowedExcept(excused) && h.states[0] == Start(false, a)
    ensures h.Last() == Probing(a, b)
  {
    h := OfferedIsReached(false, a, b, excused);
    h := Extend(h, GetEnrolled(Durable, true), excused);
    h := Extend(h, LinkLost, excused);
    assert h.Last().agent == Agent(Disk(Dir(a, b), {Dir(a, b)}), "", Some(0), Idle);
    h := Extend(h, Dial, excused);
    assert |h.Last().conns| == 2 && h.Last().conns[1] == Conn(b, Some(0), Unseen, None, None, false);
    h := Extend(h, HubLookup(1, true), excused);
    assert h.Last() == Probing(a, b);
  }

  /** The dial with "b" ended in a refusal, and the agent has dialed with "a". */
  function FellBack(a: Secret, b: Secret): Sys {
    var files := Dir(a, b);
    Offered(false, a, b).(
      conns := [Conn(a, Some(0), Open(true, Some(Sha256(b)), true), Some(b), None, true),
                Conn(b, Some(0), Turned, None, None, false),
                Conn(a, Some(0), Unseen, None, None, false)],
      agent := Agent(Disk(files, {files}), b, Some(0), Dialing(2, Selection(a, false), b)))
  }

  lemma FellBackIsReached(a: Secret, b: Secret, excused: Action -> bool) returns (h: History)
    requires a != "" && b != "" && a != b && forall x: Action :: x.HubDbError? ==> excused(x)
    ensures h.Valid() && h.AllowedExcept(excused) && h.states[0] == Start(false, a) && h.Last() == FellBack(a, b)
  {
    h := ProbingIsReached(a, b, excused);
    h := Extend(h, HubDbError(1), excused);
    h := Extend(h, DialResult, excused);
    assert h.Last().agent.rejected == b && h.Last().agent.link == Idle;
    h := Extend(h, Dial, excused);
    assert h.Last() == FellBack(a, b);
  }

  /** The active secret was confirmed, and the pending file is gone. */
  lemma DroppedIsReached(a: Secret, b: Secret, excused: Action -> bool) returns (h: History)
    requires a != "" && b != "" && a != b && forall x: Action :: x.HubDbError? ==> excused(x)
    ensures h.Valid() && h.AllowedExcept(excused) && h.states[0] == Start(false, a)
    ensures h.Last().agent.disk.files == Dir(a, "") && h.Last().db == Offered(false, a, b).db && h.Last().now == 0 && h.Last().machine == 7
    ensures |h.Last().conns| > 0 && h.Last().conns[0] == FellBack(a, b).conns[0]
  {
    h := FellBackIsReached(a, b, excused);
    h := Extend(h, HubLookup(2, true), excused);
    assert h.Last().conns[2].confirmed == Some(Sha256(a));
    h := Extend(h, DialResult, excused);
    h := Extend(h, GetConfirmed(Unproven), excused);
  }

  /** A database error makes the hub refuse a secret it has not evaluated. The agent
      falls back, has its active secret confirmed and drops the pending file; then
      the commit frame of the first connection arrives. */
  lemma SpuriousRefusalStrands(a: Secret, b: Secret) returns (h: History)
    requires a != "" && b != "" && a != b
    ensures h.Valid() && h.AllowedExcept((x: Action) => x.HubDbError?) && !h.states[0].power
    ensures !Agrees(h.Last())
  {
    var excused := (x: Action) => x.HubDbError?;
    h := DroppedIsReached(a, b, excused);
    h := Extend(h, HubCommit(0, true), excused);
    assert h.Last().db.row == Some(Row(Sha256(b), None));
  }

  /** The hub is judging the agent's pending secret, whose commit frame is still on its
      way; the token is spent, and the active file is the hub's. */
  ghost predicate Judging(s: Sys, c: nat, j: nat) {
    && Inv(s) && Settled(s) && s.agent.link.Dialing? && s.agent.link.c == c && s.agent.link.sel.usedPending
    && j < |s.conns| && j != c && CommitFor(s.conns[j], Sha256(s.conns[c].secret))
    && UnderAuth(s.conns[c]) && !s.conns[c].hub.Unseen?
    && s.agent.token.Some? && !TokenValid(s.db, s.agent.token.value, s.now) && s.conns[c].token == s.agent.token
  }

  function FallBack(c: nat, n: nat): seq<Action> {
    [HubDbError(c)] + [DialResult] + [Dial] + [HubLookup(n, true)] + [DialResult]
  }

  /** After a database error: refused, fallen back, the active secret's connection up. */
  lemma RefusedThenBack(s: Sys, c: nat, j: nat) returns (s5: Sys)
    requires Judging(s, c, j)
    ensures Leads(s, FallBack(c, |s.conns|), s5)
    ensures s5.agent.disk == s.agent.disk && s5.db == s.db && s5.now == s.now && s5.power == s.power
    ensures s5.agent.link.Up? && s5.agent.link.c == |s.conns| && |s5.conns| == |s.conns| + 1
    ensures s5.conns[|s.conns|].confirmed == Some(Sha256(s.agent.disk.files.active)) && s5.conns[j] == s.conns[j]
  {
    var n, f := |s.conns|, s.agent.disk.files;
    assert ConnOk(s.conns[c], s.issued) && f in s.agent.disk.survivors;
    assert s.db.row.value.active == Sha256(f.active) && f.active != "";
    var s1 := Step(s, HubDbError(c));
    assert s1.conns[c].hub == Turned;
    LeadsOn(s, [], s, HubDbError(c));
    var s2 := Step(s1, DialResult);
    assert s2.agent.rejected == f.pending;
    LeadsOn(s, [HubDbError(c)], s1, DialResult);
    var s3 := Step(s2, Dial);
    assert s3.conns[n] == Conn(f.active, s.agent.token, Unseen, None, None, false);
    LeadsOn(s, [HubDbError(c)] + [DialResult], s2, Dial);
    var s4 := Step(s3, HubLookup(n, true));
    assert s4.conns[n].hub == Open(false, None, true);
    LeadsOn(s, [HubDbError(c)] + [DialResult] + [Dial], s3, HubLookup(n, true));
    s5 := Step(s4, DialResult);
    LeadsOn(s, [HubDbError(c)] + [DialResult] + [Dial] + [HubLookup(n, true)], s4, DialResult);
  }

  /** The confirmation of the active secret drops the pending file. */
  lemma ConfirmedActive(s5: Sys, w: WriteOutcome, a: Secret)
    requires s5.agent.link.Up? && s5.agent.link.c < |s5.conns| && w != Lost
    requires a != "" && s5.agent.disk.files.active == a && s5.conns[s5.agent.link.c].confirmed == Some(Sha256(a))
    ensures Enabled(s5, GetConfirmed(w))
    ensures var s6 := Step(s5, GetConfirmed(w));
            s6.agent.disk.files == Dir(a, "") && s6.conns == s5.conns && s6.db == s5.db && s6.now == s5.now
  {
  }

  /** A refusal caused by a database error, with the commit frame of the refused secret
      still to come: agreement survives the agent's fall back and that frame exactly
      when the refused secret could no longer be promoted. */
  lemma RefusalNeedsDeadSecret(s: Sys, c: nat, j: nat, w: WriteOutcome) returns (s7: Sys)
    requires Judging(s, c, j) && w != Lost
    ensures Leads(s, FallBack(c, |s.conns|) + [GetConfirmed(w)] + [HubCommit(j, true)], s7)
    ensures Agrees(s7) <==> !Promotable(s.db, Sha256(s.conns[c].secret), s.now)
  {
    var s5 := RefusedThenBack(s, c, j);
    var a, h := s.agent.disk.files.active, Sha256(s.conns[c].secret);
    assert ConnOk(s.conns[j], s.issued) && s.agent.disk.files in s.agent.disk.survivors;
    ConfirmedActive(s5, w, a);
    LeadsOn(s, FallBack(c, |s.conns|), s5, GetConfirmed(w));
    var s6 := Step(s5, GetConfirmed(w));
    assert s6.conns[j] == s.conns[j] && s6.conns[j].hub.staged == Some(h);
    s7 := Step(s6, HubCommit(j, true));
    LeadsOn(s, FallBack(c, |s.conns|) + [GetConfirmed(w)], s6, HubCommit(j, true));
    assert s7.agent.disk == s6.agent.disk;
    assert Live(s, h) ==> s7.db.row.value.active == h && h != Sha256(a);
  }

  /** A commit frame promotes "b" between the two lookups of a dial that carries "b":
      the dial is refused, every condition was met and agreement holds, yet the loop
      has ruled out the one secret the hub now knows and, until it restarts, never gets
      back. */
  lemma RacedLookupsStrandTheLoop(a: Secret, b: Secret) returns (h: History)
    requires a != "" && b != "" && a != b
    ensures h.Valid() && h.AllowedExcept((x: Action) => false) && Agrees(h.Last())
    ensures var s := h.Last();
            s.agent.link.Idle? && s.db.row.Some? && s.db.row.value.pending.None? && s.agent.disk.files.active != ""
            && !Reconnect.Convergent(Reconnect.LoopState(s.agent.disk.files, s.agent.rejected, s.db, 0))
    ensures forall attempts ::
              Reconnect.Loop(Reconnect.LoopState(h.Last().agent.disk.files, h.Last().agent.rejected, h.Last().db, 0), attempts, 0).StillTrying?
  {
    var excused := (x: Action) => false;
    h := ProbingIsReached(a, b, excused);
    h := Extend(h, HubCommit(0, true), excused);
    assert h.Last().db.row == Some(Row(Sha256(b), None));
    h := Extend(h, HubPending(1), excused);
    assert h.Last().conns[1].hub == Turned;
    h := Extend(h, DialResult, excused);
    assert h.Last().agent.rejected == b && h.Last().agent.disk.files == Dir(a, b);
    forall attempts
      ensures Reconnect.Loop(Reconnect.LoopState(Dir(a, b), b, h.Last().db, 0), attempts, 0).StillTrying?
    {
      Reconnect.RuledOutNeverReturns(Reconnect.LoopState(Dir(a, b), b, h.Last().db, 0), attempts, 0);
    }
  }
}
