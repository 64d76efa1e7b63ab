/** The agent's reconnect loop (agent/main.go): which secret each dial carries, and
    how soon the agent is back on a hub that knows one of its secrets. */
module Reconnect {
  import opened Common
  import opened CredentialStore
  import opened CredentialAgent

  /** What the network and the hub make of one dial. */
  datatype Attempt = Transport | Reached(now: int)

  /** The files and the hub row stay fixed while the loop keeps failing; only the
      remembered rejection changes. */
  datatype LoopState = LoopState(files: Dir, rejected: Secret, db: Db, waits: nat)

  datatype Result = Authenticated(dials: nat) | StillTrying(s: LoopState, dials: nat)

  predicate Knows(db: Db, secret: Secret, now: int) {
    Validate(db, secret, now).1.Accepted?
  }

  function Choice(s: LoopState): Selection {
    SelectCandidate(s.files.pending, s.files.active, s.rejected)
  }

  function OutcomeOf(s: LoopState, a: Attempt): AuthOutcome {
    if a.Reached? then Rejected else Unknown
  }

  /** One iteration whose dial did not authenticate; it sleeps unless it falls back. */
  function AfterFailure(s: LoopState, a: Attempt): LoopState {
    var sel := Choice(s);
    var outcome := OutcomeOf(s, a);
    var db := if a.Reached? then Validate(s.db, sel.secret, a.now).0 else s.db;
    var wait := if FallBackNow(sel.usedPending, outcome, s.files.active != "") then 0 else 1;
    LoopState(s.files, NextRejected(s.rejected, sel, outcome, s.files.pending), db, s.waits + wait)
  }

  /** The loop without a token; `dials` counts the dials that reached the hub. */
  function Loop(s: LoopState, attempts: seq<Attempt>, dials: nat): Result
    decreases |attempts|
  {
    if attempts == [] then StillTrying(s, dials)
    else if attempts[0].Reached? && Knows(s.db, Choice(s).secret, attempts[0].now) then Authenticated(dials + 1)
    else Loop(AfterFailure(s, attempts[0]), attempts[1..], dials + (if attempts[0].Reached? then 1 else 0))
  }

  /** The loop as the agent runs it, for as long as these attempts last. */
  method ConnectLoop(files: Dir, start: Secret, db: Db, attempts: seq<Attempt>) returns (r: Result)
    ensures r == Loop(LoopState(files, start, db, 0), attempts, 0)
  {
    var rejectedPendingSecret, hub, waits, dials, i := start, db, 0, 0, 0;
    while i < |attempts|
      invariant 0 <= i <= |attempts|
      invariant Loop(LoopState(files, start, db, 0), attempts, 0)
                == Loop(LoopState(files, rejectedPendingSecret, hub, waits), attempts[i..], dials)
    {
      ghost var rest := attempts[i..];
      assert rest[0] == attempts[i] && rest[1..] == attempts[i + 1..];
      var sel := SelectCandidate(files.pending, files.active, rejectedPendingSecret);
      var outcome := Unknown;
      if attempts[i].Reached? {
        var (hub', verdict) := Validate(hub, sel.secret, attempts[i].now);
        dials := dials + 1;
        if verdict.Accepted? { return Authenticated(dials); }
        hub, outcome := hub', Rejected;
      }
      var immediateRetry := FallBackNow(sel.usedPending, outcome, files.active != "");
      rejectedPendingSecret := NextRejected(rejectedPendingSecret, sel, outcome, files.pending);
      if !immediateRetry { waits := waits + 1; }
      i := i + 1;
    }
    r := StillTrying(LoopState(files, rejectedPendingSecret, hub, waits), dials);
  }

  function ReachedCount(attempts: seq<Attempt>): nat {
    if attempts == [] then 0 else (if attempts[0].Reached? then 1 else 0) + ReachedCount(attempts[1..])
  }

  predicate HubHolds(s: LoopState, secret: Secret) {
    secret != "" && IsActive(s.db, Sha256(secret))
  }

  /** The hub's active secret is one the loop has not ruled out. */
  predicate Convergent(s: LoopState) {
    HubHolds(s, s.files.active) || (HubHolds(s, s.files.pending) && s.rejected != s.files.pending)
  }

  /** A transport failure never changes which secret is tried, nor what is known. */
  lemma TransportFailureChangesNothing(s: LoopState)
    ensures AfterFailure(s, Transport).rejected == (if s.files.pending == "" then "" else s.rejected)
    ensures Choice(AfterFailure(s, Transport)) == Choice(s)
    ensures AfterFailure(s, Transport).waits == s.waits + 1
  {
  }

  /** A refused pending secret is set aside at once, without a wait, for the active one if
      there is one; any other failure waits. A later pending secret is tried first again. */
  lemma FallsBackAtOnce(s: LoopState, now: int, other: Secret)
    requires s.files.pending != "" && s.rejected != s.files.pending && s.files.active != ""
    ensures Choice(s) == Selection(s.files.pending, true)
    ensures var s' := AfterFailure(s, Reached(now));
            && s'.waits == s.waits && s'.rejected == s.files.pending && s'.files == s.files
            && Choice(s') == Selection(s.files.active, false)
            && (forall a :: AfterFailure(s', a).waits == s'.waits + 1 && AfterFailure(s', a).rejected == s.files.pending)
            && (other != "" && other != s.files.pending ==>
                  Choice(s'.(files := s.files.(pending := other))) == Selection(other, true))
  {
  }

  /** After an immediate retry the next iteration carries the active secret, so it
      cannot retry immediately again while the pending file is the same. */
  lemma NoTwoImmediateRetries(s: LoopState, a: Attempt, b: Attempt)
    requires AfterFailure(s, a).waits == s.waits
    ensures Choice(AfterFailure(s, a)) == Selection(s.files.active, false)
    ensures AfterFailure(AfterFailure(s, a), b).waits == s.waits + 1
  {
  }

  lemma FailureKeepsActive(s: LoopState, a: Attempt)
    requires s.db.row.Some?
    requires a.Reached? ==> !Knows(s.db, Choice(s).secret, a.now)
    ensures AfterFailure(s, a).db.row.Some?
    ensures AfterFailure(s, a).db.row.value.active == s.db.row.value.active
  {
  }

  /** Once the active file is the hub's and the pending file is out of the way, the
      next dial that reaches the hub succeeds. */
  lemma {:induction false} ActiveNeedsOneDial(s: LoopState, attempts: seq<Attempt>, dials: nat)
    requires HubHolds(s, s.files.active) && !Choice(s).usedPending
    ensures ReachedCount(attempts) >= 1 ==> Loop(s, attempts, dials) == Authenticated(dials + 1)
    decreases |attempts|
  {
    if attempts != [] && attempts[0].Transport? {
      TransportFailureChangesNothing(s);
      ActiveNeedsOneDial(AfterFailure(s, Transport), attempts[1..], dials);
    } else if attempts != [] {
      ValidateDecides(s.db, Choice(s).secret, attempts[0].now);
    }
  }

  /** From agreement, at most two dials that reach the hub authenticate the agent,
      however many transport failures lie between them. */
  lemma {:induction false} TwoDialsSuffice(s: LoopState, attempts: seq<Attempt>, dials: nat)
    requires s.db.row.Some? && Convergent(s)
    ensures ReachedCount(attempts) >= 2 ==>
              var r := Loop(s, attempts, dials);
              r.Authenticated? && r.dials <= dials + 2
    decreases |attempts|
  {
    if attempts == [] { return; }
    var sel := Choice(s);
    if attempts[0].Transport? {
      TransportFailureChangesNothing(s);
      TwoDialsSuffice(AfterFailure(s, Transport), attempts[1..], dials);
    } else {
      ValidateDecides(s.db, sel.secret, attempts[0].now);
      if !Knows(s.db, sel.secret, attempts[0].now) {
        FailureKeepsActive(s, attempts[0]);
        ActiveNeedsOneDial(AfterFailure(s, attempts[0]), attempts[1..], dials + 1);
      }
    }
  }

  /** The other half: when the loop has ruled out the only secret the hub holds, no
      number of dials authenticates it, although the secret is on its disk. */
  lemma {:induction false} RuledOutNeverReturns(s: LoopState, attempts: seq<Attempt>, dials: nat)
    requires s.db.row.Some? && s.db.row.value.pending.None?
    requires s.rejected == s.files.pending && s.files.active != ""
    requires !HubHolds(s, s.files.active)
    ensures Loop(s, attempts, dials).StillTrying?
    decreases |attempts|
  {
    if attempts != [] {
      ValidateDecides(s.db, s.files.active, if attempts[0].Reached? then attempts[0].now else 0);
      RuledOutNeverReturns(AfterFailure(s, attempts[0]), attempts[1..], dials + (if attempts[0].Reached? then 1 else 0));
    }
  }

  /** Exactly when the loop gets back: with agreement and nothing left to promote,
      two dials that reach the hub authenticate the agent if and only if the hub's
      secret is not the pending one the loop has ruled out. */
  lemma ConvergesExactlyWhenNotRuledOut(s: LoopState, attempts: seq<Attempt>)
    requires s.db.row.Some? && s.db.row.value.pending.None? && s.files.active != ""
    requires HubHolds(s, s.files.active) || HubHolds(s, s.files.pending)
    requires ReachedCount(attempts) >= 2
    ensures Loop(s, attempts, 0).Authenticated? <==> Convergent(s)
  {
    if Convergent(s) {
      TwoDialsSuffice(s, attempts, 0);
    } else {
      RuledOutNeverReturns(s, attempts, 0);
    }
  }
}
