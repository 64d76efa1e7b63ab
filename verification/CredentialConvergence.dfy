/** How soon the agent is back on the hub after any run of the protocol: what a refusal
    has to be about, and when the hub's two lookups make it so. */
module CredentialConvergence {
  import opened Common
  import opened CredentialStore
  import opened CredentialAgent
  import opened CredentialProtocol
  import opened CredentialSafety
  import Reconnect

  /** The step answers a dial with 401. */
  predicate TurnsAway(s: Sys, a: Action) {
    && (a.HubPending? || a.HubRecheck? || a.HubDbError?)
    && a.i < |s.conns| && UnderAuth(s.conns[a.i])
    && match a
       case HubPending(i) => !PendingIs(s.db, Sha256(s.conns[i].secret)) && AfterAuth(s, i, Refused, false).hub.Turned?
       case HubRecheck(i, sent) => !IsActive(s.db, Sha256(s.conns[i].secret)) && AfterAuth(s, i, Refused, sent).hub.Turned?
       case HubDbError(i) => AfterDbError(s, i).hub.Turned?
       case _ => false
  }

  /** A 401 is answered only for a secret that is not the hub's active one. */
  predicate Fair(s: Sys, a: Action) {
    TurnsAway(s, a) ==> !IsActive(s.db, Sha256(s.conns[a.i].secret))
  }

  ghost predicate AllFair(states: seq<Sys>, actions: seq<Action>)
    requires |states| == |actions| + 1
  {
    forall i :: 0 <= i < |actions| ==> Fair(states[i], actions[i])
  }

  /** What has been refused, on the hub and in the agent's memory, is not active. */
  ghost predicate RefusedAreInactive(s: Sys) {
    && (forall i :: 0 <= i < |s.conns| && s.conns[i].hub.Turned? ==> !IsActive(s.db, Sha256(s.conns[i].secret)))
    && !IsActive(s.db, Sha256(s.agent.rejected))
  }

  /** Only a secret that could be promoted becomes active. */
  lemma ActiveWasLive(s: Sys, a: Action, h: Hash)
    requires Inv(s) && Enabled(s, a) && IsActive(Step(s, a).db, h)
    ensures IsActive(s.db, h) || Live(s, h)
  {
  }

  predicate Judges(a: Action) {
    a.HubLookup? || a.HubPending? || a.HubPromote? || a.HubRecheck? || a.HubDbError?
  }

  /** Only judging a dial moves it towards a verdict. */
  lemma OthersJudgeNothing(s: Sys, a: Action, i: nat)
    requires Enabled(s, a) && !Judges(a) && i < |Step(s, a).conns|
    requires Step(s, a).conns[i].hub.Turned? || Step(s, a).conns[i].hub.Checking?
    ensures i < |s.conns| && s.conns[i].secret == Step(s, a).conns[i].secret && s.conns[i].hub == Step(s, a).conns[i].hub
  {
  }

  lemma NewlyTurned(s: Sys, a: Action, i: nat)
    requires Enabled(s, a) && i < |Step(s, a).conns| && Step(s, a).conns[i].hub.Turned?
    ensures i < |s.conns| && s.conns[i].secret == Step(s, a).conns[i].secret
    ensures s.conns[i].hub.Turned? || (TurnsAway(s, a) && a.i == i)
  {
    if !Judges(a) { OthersJudgeNothing(s, a, i); }
  }

  lemma NewlyRejected(s: Sys, a: Action)
    requires Enabled(s, a) && Inv(s) && Step(s, a).agent.rejected != s.agent.rejected
    ensures var t := Step(s, a).agent.rejected;
            t == "" || exists i :: 0 <= i < |s.conns| && s.conns[i].hub.Turned? && s.conns[i].secret == t
  {
    if a.DialResult? && s.agent.link.sel.usedPending && s.conns[s.agent.link.c].hub.Turned? {
      assert s.conns[s.agent.link.c].secret == Step(s, a).agent.rejected;
    }
  }

  lemma StepKeepsRefused(s: Sys, a: Action)
    requires Inv(s) && RefusedAreInactive(s) && Enabled(s, a) && Allowed(s, a) && Fair(s, a)
    ensures RefusedAreInactive(Step(s, a))
  {
    var s' := Step(s, a);
    forall i | 0 <= i < |s'.conns| && s'.conns[i].hub.Turned? ensures !IsActive(s'.db, Sha256(s'.conns[i].secret)) {
      NewlyTurned(s, a, i);
      TurnedStaysInactive(s, a, i);
    }
    if IsActive(s'.db, Sha256(s'.agent.rejected)) {
      ActiveWasLive(s, a, Sha256(s'.agent.rejected));
      if s'.agent.rejected != s.agent.rejected { NewlyRejected(s, a); }
    }
  }

  lemma TurnedStaysInactive(s: Sys, a: Action, i: nat)
    requires Inv(s) && RefusedAreInactive(s) && Enabled(s, a) && Allowed(s, a) && Fair(s, a) && i < |s.conns|
    requires s.conns[i].hub.Turned? || (TurnsAway(s, a) && a.i == i)
    ensures !IsActive(Step(s, a).db, Sha256(s.conns[i].secret))
  {
    var h := Sha256(s.conns[i].secret);
    if s.conns[i].hub.Turned? {
      assert !Live(s, h);
      if IsActive(Step(s, a).db, h) { ActiveWasLive(s, a, h); }
    }
  }

  lemma {:induction false} RunKeepsRefused(states: seq<Sys>, actions: seq<Action>, n: nat)
    requires IsRun(states, actions) && AllAllowed(states, actions) && AllFair(states, actions) && n < |states|
    ensures Inv(states[n]) && RefusedAreInactive(states[n])
  {
    if n == 0 {
      InitialInv(states[0]);
    } else {
      RunKeepsRefused(states, actions, n - 1);
      StepKeepsInv(states[n - 1], actions[n - 1]);
      StepKeepsRefused(states[n - 1], actions[n - 1]);
    }
  }

  // ---- convergence over runs ----

  /** The reconnect loop as it stands at this point of a run. */
  function LoopAt(s: Sys): Reconnect.LoopState {
    Reconnect.LoopState(s.agent.disk.files, s.agent.rejected, s.db, 0)
  }

  lemma InactiveRefusalsConverge(s: Sys, attempts: seq<Reconnect.Attempt>)
    requires Inv(s) && RefusedAreInactive(s) && Reconnect.ReachedCount(attempts) >= 2
    ensures var r := Reconnect.Loop(LoopAt(s), attempts, 0); r.Authenticated? && r.dials <= 2
  {
    assert s.agent.disk.files in s.agent.disk.survivors;
    assert Reconnect.Convergent(LoopAt(s));
    Reconnect.TwoDialsSuffice(LoopAt(s), attempts, 0);
  }

  /** At every point of every allowed run in which 401 was answered only for secrets the
      hub did not hold, two dials that reach the hub authenticate the agent, however many
      transport failures lie between them. */
  lemma ReconnectConverges(states: seq<Sys>, actions: seq<Action>, n: nat, attempts: seq<Reconnect.Attempt>)
    requires IsRun(states, actions) && AllAllowed(states, actions) && AllFair(states, actions) && n < |states|
    requires Reconnect.ReachedCount(attempts) >= 2
    ensures var r := Reconnect.Loop(LoopAt(states[n]), attempts, 0); r.Authenticated? && r.dials <= 2
  {
    RunKeepsRefused(states, actions, n);
    InactiveRefusalsConverge(states[n], attempts);
  }

  // ---- when a refusal is about an inactive secret ----

  /** The step makes the secret of this connection active while its handler stands
      between its two lookups. */
  predicate PromotesBetween(s: Sys, s': Sys, i: nat) {
    && i < |s.conns| && s.conns[i].hub.Checking?
    && !IsActive(s.db, Sha256(s.conns[i].secret)) && IsActive(s'.db, Sha256(s.conns[i].secret))
  }

  predicate FailsOnActive(s: Sys, a: Action) {
    a.HubDbError? && a.i < |s.conns| && IsActive(s.db, Sha256(s.conns[a.i].secret))
  }

  /** No lookup of an active secret failed in the database, and no promotion fell between
      the two lookups of a dial that was refused. */
  ghost predicate LookupsUndisturbed(states: seq<Sys>, actions: seq<Action>)
    requires |states| == |actions| + 1
  {
    && (forall k :: 0 <= k < |actions| ==> !FailsOnActive(states[k], actions[k]))
    && (forall k, n :: 0 <= k < n < |actions| && TurnsAway(states[n], actions[n]) ==>
          !PromotesBetween(states[k], states[k + 1], actions[n].i))
  }

  lemma EntersChecking(s: Sys, a: Action, i: nat)
    requires Enabled(s, a) && !FailsOnActive(s, a) && i < |Step(s, a).conns| && Step(s, a).conns[i].hub.Checking?
    ensures i < |s.conns| && s.conns[i].secret == Step(s, a).conns[i].secret
    ensures s.conns[i].hub.Checking? || !IsActive(Step(s, a).db, Sha256(s.conns[i].secret))
  {
    if !Judges(a) { OthersJudgeNothing(s, a, i); }
  }

  /** A secret that is active while its dial is between the two lookups was promoted
      there. */
  lemma {:induction false} PromotedThere(states: seq<Sys>, actions: seq<Action>, n: nat, i: nat) returns (k: nat)
    requires IsRun(states, actions) && n < |states| && forall m :: 0 <= m < |actions| ==> !FailsOnActive(states[m], actions[m])
    requires i < |states[n].conns| && states[n].conns[i].hub.Checking?
    requires IsActive(states[n].db, Sha256(states[n].conns[i].secret))
    ensures k < n && PromotesBetween(states[k], states[k + 1], i)
  {
    k := n - 1;
    EntersChecking(states[k], actions[k], i);
    if IsActive(states[k].db, Sha256(states[k].conns[i].secret)) {
      k := PromotedThere(states, actions, n - 1, i);
    }
  }

  /** So every refusal is about an inactive secret, and the loop converges, when no
      promotion falls between the two lookups of a refused dial. */
  lemma UndisturbedLookupsAreFair(states: seq<Sys>, actions: seq<Action>)
    requires IsRun(states, actions) && LookupsUndisturbed(states, actions)
    ensures AllFair(states, actions)
  {
    forall n | 0 <= n < |actions| ensures Fair(states[n], actions[n]) {
      var s, a := states[n], actions[n];
      if TurnsAway(s, a) && IsActive(s.db, Sha256(s.conns[a.i].secret)) {
        var k := PromotedThere(states, actions, n, a.i);
      }
    }
  }

  /** The refusal of the agent's pending secret, at the pending lookup: afterwards the
      loop gets back exactly when that secret was not the hub's active one. */
  lemma RefusalDecides(s: Sys, c: nat, attempts: seq<Reconnect.Attempt>) returns (s2: Sys)
    requires Inv(s) && s.agent.link.Dialing? && s.agent.link.c == c && s.agent.link.sel.usedPending
    requires s.conns[c].hub.Checking? && TurnsAway(s, HubPending(c)) && s.db.row.value.pending.None?
    requires s.agent.disk.files.active != "" && s.agent.disk.files.active != s.agent.disk.files.pending
    requires Reconnect.ReachedCount(attempts) >= 2
    ensures Leads(s, [HubPending(c)] + [DialResult], s2)
    ensures Reconnect.Loop(LoopAt(s2), attempts, 0).Authenticated? <==> !IsActive(s.db, Sha256(s.conns[c].secret))
  {
    var s1 := Step(s, HubPending(c));
    LeadsOn(s, [], s, HubPending(c));
    s2 := Step(s1, DialResult);
    LeadsOn(s, [HubPending(c)], s1, DialResult);
    assert s2.agent.rejected == s.agent.disk.files.pending == s.conns[c].secret;
    assert s.agent.disk.files in s.agent.disk.survivors;
    Reconnect.ConvergesExactlyWhenNotRuledOut(LoopAt(s2), attempts);
  }
}
