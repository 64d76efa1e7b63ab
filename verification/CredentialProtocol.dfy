/** The enrollment handoff as one state machine: hub database, hub connections,
    agent disk, agent memory and the frames between them. Every database
    transaction, file operation, frame delivery and crash is one step, and steps of
    the two sides interleave freely. A frame once sent stays available, so it may be
    lost, delayed or delivered twice. */
module CredentialProtocol {
  import opened Common
  import opened CredentialStore
  import opened CredentialAgent

  /** A handler judges a secret in up to four statements: the active lookup (`Unseen`),
      the pending lookup (`Checking`), the compare-and-swap (`Found`) and the second
      active lookup (`Rechecking`). */
  datatype HubConn =
    | Unseen
    | Checking
    | Found
    | Rechecking
    | Turned
    | Open(targeted: bool, staged: Option<Hash>, bound: bool)
    | Closed

  /** One dial: what the agent presented, where the hub's handler stands, and the
      frames sent on it. */
  datatype Conn = Conn(secret: Secret, token: Option<TokenId>, hub: HubConn,
                       enrolled: Option<Secret>, confirmed: Option<Hash>, committed: bool)

  datatype Link =
    | Idle
    | Dialing(c: nat, sel: Selection, seen: Secret)
    | Up(c: nat, sel: Selection, seen: Secret)

  datatype Agent = Agent(disk: Disk, rejected: Secret, token: Option<TokenId>, link: Link)

  /** `issued` collects every secret that exists anywhere; the hub draws fresh ones
      outside it. `power` selects the crash model: whether an unproven rename can be
      undone by a crash. */
  datatype Sys = Sys(power: bool, machine: MachineId, now: int, db: Db, conns: seq<Conn>, agent: Agent, issued: set<Secret>)

  datatype Action =
    | Tick(later: int)
    | Mint(tok: TokenId, expires: int, target: Option<MachineId>)
    | Install(tok: TokenId)
    | Dial
    | DialResult
    | LinkLost
    | GetEnrolled(w: WriteOutcome, sent: bool)
    | GetConfirmed(w: WriteOutcome)
    | Kill
    | PowerLoss(dir: Dir)
    | HubLookup(i: nat, sent: bool)
    | HubPending(i: nat)
    | HubPromote(i: nat, sent: bool)
    | HubRecheck(i: nat, sent: bool)
    | HubDbError(i: nat)
    | HubFirstFrame(i: nat, secret: Secret, sent: bool)
    | HubCommit(i: nat, sent: bool)
    | HubClose(i: nat)

  // ---- hub side of one connection ----

  /** The end of the handshake, once the secret has been judged. */
  function AfterAuth(s: Sys, i: nat, verdict: Verdict, sent: bool): Conn
    requires i < |s.conns|
  {
    var k := s.conns[i];
    var valid := k.token.Some? && TokenValid(s.db, k.token.value, s.now);
    var targeted := valid && TokenTargets(s.db, k.token.value, s.machine);
    if verdict.Refused? && !valid then k.(hub := Turned)
    else if verdict.Refused? then k.(hub := Open(targeted, None, false))
    else if targeted then k.(hub := Open(true, None, false))
    else if !verdict.promoted && k.token.None? then k.(hub := Open(false, None, true))
    else if !sent then k.(hub := Closed)
    else k.(hub := Open(false, None, true), confirmed := Some(Sha256(k.secret)))
  }

  /** The first lookup takes a database error for a miss; any other statement's error
      refuses the secret. */
  function AfterDbError(s: Sys, i: nat): Conn
    requires i < |s.conns|
  {
    if s.conns[i].hub.Unseen? then s.conns[i].(hub := Checking) else AfterAuth(s, i, Refused, false)
  }

  predicate UnderAuth(k: Conn) {
    k.hub.Unseen? || k.hub.Checking? || k.hub.Found? || k.hub.Rechecking?
  }

  function SetConn(s: Sys, i: nat, k: Conn): Sys
    requires i < |s.conns|
  {
    s.(conns := s.conns[i := k])
  }

  /** The first metrics frame on this connection stages a replacement secret. */
  predicate Stages(s: Sys, i: nat)
    requires i < |s.conns|
  {
    var k := s.conns[i];
    k.hub.Open? && k.hub.targeted && k.token.Some? && MayStage(s.db, k.token.value, s.machine, s.now)
  }

  // ---- agent side ----

  function Dropped(a: Agent, outcome: AuthOutcome): Agent {
    if a.link.Idle? then a
    else a.(link := Idle, rejected := NextRejected(a.rejected, a.link.sel, outcome, a.link.seen))
  }

  ghost predicate Enabled(s: Sys, a: Action) {
    match a
    case Tick(later) => s.now <= later
    case Mint(tok, _, _) => tok !in s.db.tokens
    case Install(_) => s.agent.link.Idle?
    case Dial => s.agent.link.Idle?
    case DialResult => s.agent.link.Dialing? && s.agent.link.c < |s.conns|
                       && (s.conns[s.agent.link.c].hub.Turned? || s.conns[s.agent.link.c].hub.Open?)
    case LinkLost => !s.agent.link.Idle?
    case GetEnrolled(_, _) => s.agent.link.Up? && s.agent.link.c < |s.conns| && s.conns[s.agent.link.c].enrolled.Some?
    case GetConfirmed(_) => s.agent.link.Up? && s.agent.link.c < |s.conns| && s.conns[s.agent.link.c].confirmed.Some?
    case Kill => true
    case PowerLoss(dir) => dir in s.agent.disk.survivors
    case HubLookup(i, _) => i < |s.conns| && s.conns[i].hub.Unseen?
    case HubPending(i) => i < |s.conns| && s.conns[i].hub.Checking?
    case HubPromote(i, _) => i < |s.conns| && s.conns[i].hub.Found?
    case HubRecheck(i, _) => i < |s.conns| && s.conns[i].hub.Rechecking?
    case HubDbError(i) => i < |s.conns| && UnderAuth(s.conns[i])
    case HubFirstFrame(i, secret, _) => i < |s.conns| && s.conns[i].hub.Open? && !s.conns[i].hub.bound
                                       && secret !in s.issued && secret != ""
    case HubCommit(i, _) => i < |s.conns| && s.conns[i].hub.Open? && s.conns[i].committed
    case HubClose(i) => i < |s.conns|
  }

  function Step(s: Sys, a: Action): Sys
    requires Enabled(s, a)
  {
    match a
    case Tick(later) => s.(now := later)
    case Mint(tok, expires, target) =>
      s.(db := s.db.(tokens := s.db.tokens[tok := Token(false, Some(expires), target)]))
    case Install(tok) => s.(agent := s.agent.(token := Some(tok)))
    case Dial =>
      var files := s.agent.disk.files;
      var sel := SelectCandidate(files.pending, files.active, s.agent.rejected);
      s.(conns := s.conns + [Conn(sel.secret, s.agent.token, Unseen, None, None, false)],
         agent := s.agent.(link := Dialing(|s.conns|, sel, files.pending)))
    case DialResult =>
      var l := s.agent.link;
      if s.conns[l.c].hub.Turned? then s.(agent := Dropped(s.agent, Rejected))
      else s.(agent := s.agent.(link := Up(l.c, l.sel, l.seen)))
    case LinkLost => s.(agent := Dropped(s.agent, Unknown))
    case GetEnrolled(w, sent) =>
      var c := s.agent.link.c;
      var agent := s.agent.(disk := PendingSaved(s.agent.disk, s.conns[c].enrolled.value, w, s.power));
      if w == Durable && sent then SetConn(s, c, s.conns[c].(committed := true)).(agent := agent)
      else s.(agent := Dropped(agent, Unknown))
    case GetConfirmed(w) =>
      var h := s.conns[s.agent.link.c].confirmed;
      var agent := s.agent.(disk := Confirmed(s.agent.disk, h, w, s.power));
      if ConfirmAccepted(s.agent.disk, h, w) then s.(agent := agent.(token := None))
      else s.(agent := Dropped(agent, Unknown))
    case Kill => s.(agent := s.agent.(link := Idle, rejected := ""))
    case PowerLoss(dir) => s.(agent := s.agent.(disk := Disk(dir, {dir}), link := Idle, rejected := ""))
    case HubLookup(i, sent) =>
      if IsActive(s.db, Sha256(s.conns[i].secret)) then SetConn(s, i, AfterAuth(s, i, Accepted(false), sent))
      else SetConn(s, i, s.conns[i].(hub := Checking))
    case HubPending(i) =>
      if PendingIs(s.db, Sha256(s.conns[i].secret)) then SetConn(s, i, s.conns[i].(hub := Found))
      else SetConn(s, i, AfterAuth(s, i, Refused, false))
    case HubPromote(i, sent) =>
      var (db, ok) := Promote(s.db, Sha256(s.conns[i].secret), s.now, s.now);
      if ok then SetConn(s, i, AfterAuth(s, i, Accepted(true), sent)).(db := db)
      else SetConn(s, i, s.conns[i].(hub := Rechecking)).(db := db)
    case HubRecheck(i, sent) =>
      SetConn(s, i, AfterAuth(s, i, if IsActive(s.db, Sha256(s.conns[i].secret)) then Accepted(false) else Refused, sent))
    case HubDbError(i) => SetConn(s, i, AfterDbError(s, i))
    case HubFirstFrame(i, secret, sent) =>
      var k := s.conns[i];
      if Stages(s, i) then
        var db := Staged(s.db, k.token.value, Sha256(secret), s.now);
        if sent then
          SetConn(s, i, k.(hub := Open(true, Some(Sha256(secret)), true), enrolled := Some(secret)))
            .(db := db, issued := s.issued + {secret})
        else SetConn(s, i, k.(hub := Closed)).(db := db, issued := s.issued + {secret})
      else SetConn(s, i, k.(hub := Closed))
    case HubCommit(i, sent) =>
      var k := s.conns[i];
      if k.hub.staged.None? then SetConn(s, i, k.(hub := Closed))
      else
        var (db, ok) := Promote(s.db, k.hub.staged.value, s.now, s.now);
        if !ok || !sent then SetConn(s, i, k.(hub := Closed)).(db := db)
        else SetConn(s, i, k.(hub := k.hub.(staged := None), confirmed := k.hub.staged)).(db := db)
    case HubClose(i) => SetConn(s, i, s.conns[i].(hub := Closed))
  }

  // ---- what is claimed, and of which runs ----

  /** The hub's active hash is the hash of a secret in this directory. */
  ghost predicate DirAgrees(db: Db, d: Dir) {
    && db.row.Some?
    && (FileHash(d.active) == Some(db.row.value.active) || FileHash(d.pending) == Some(db.row.value.active))
  }

  ghost predicate Agrees(s: Sys) {
    DirAgrees(s.db, s.agent.disk.files)
  }

  /** Every directory the agent could wake up with agrees. */
  ghost predicate AgreesAfterAnyCrash(s: Sys) {
    forall d :: d in s.agent.disk.survivors ==> DirAgrees(s.db, d)
  }

  /** The hub's active secret is the agent's active file, for certain. */
  ghost predicate Settled(s: Sys) {
    forall d :: d in s.agent.disk.survivors ==> s.db.row.Some? && FileHash(d.active) == Some(s.db.row.value.active)
  }

  ghost predicate PendingFor(s: Sys, secret: Secret) {
    forall d :: d in s.agent.disk.survivors ==> d.pending == secret
  }

  /** The dialed secret is the pending file, for certain. */
  ghost predicate PendingProven(s: Sys, i: nat)
    requires i < |s.conns|
  {
    PendingFor(s, s.conns[i].secret)
  }

  /** The three conditions a run must meet: a re-enrollment starts from agreement on
      the active file; a secret refused because of a database error is not one the hub
      could still promote; and, only if a crash can undo an unproven rename, the
      directory fsync of a pending file does not fail. */
  ghost predicate Allowed(s: Sys, a: Action)
    requires Enabled(s, a)
  {
    match a
    case HubFirstFrame(i, _, _) => Stages(s, i) ==> Settled(s)
    case HubDbError(i) => AfterDbError(s, i).hub.Turned? ==> !Promotable(s.db, Sha256(s.conns[i].secret), s.now)
    case GetEnrolled(w, _) => s.power ==> w != Unproven
    case _ => true
  }

  ghost predicate Initial(s: Sys) {
    && s.conns == [] && s.agent.link == Idle && s.agent.rejected == ""
    && s.agent.disk.survivors == {s.agent.disk.files}
    && s.agent.disk.files.active != ""
    && s.db.row.Some? && s.db.row.value.active == Sha256(s.agent.disk.files.active)
    && (s.db.row.value.pending.Some? ==>
          && s.db.row.value.pending.value.hash != s.db.row.value.active
          && s.db.row.value.pending.value.hash != Sha256("")
          && s.db.row.value.pending.value.hash.secret in s.issued)
    && s.agent.disk.files.active in s.issued && s.agent.disk.files.pending in s.issued && "" in s.issued
  }

  /** Taking these steps one after another, each of them enabled, ends in `s'`. */
  ghost predicate Leads(s: Sys, actions: seq<Action>, s': Sys)
    decreases |actions|
  {
    if actions == [] then s == s'
    else Enabled(s, actions[0]) && Leads(Step(s, actions[0]), actions[1..], s')
  }

  lemma {:induction false} LeadsOn(s: Sys, actions: seq<Action>, s': Sys, a: Action)
    requires Leads(s, actions, s') && Enabled(s', a)
    ensures Leads(s, actions + [a], Step(s', a))
    decreases |actions|
  {
    if actions == [] {
      assert [] + [a] == [a] && [a][1..] == [];
    } else {
      LeadsOn(Step(s, actions[0]), actions[1..], s', a);
      assert (actions + [a])[1..] == actions[1..] + [a];
    }
  }

  /** `states` is a run driven by `actions`. */
  ghost predicate IsRun(states: seq<Sys>, actions: seq<Action>) {
    && |states| == |actions| + 1
    && Initial(states[0])
    && forall i :: 0 <= i < |actions| ==> Enabled(states[i], actions[i]) && states[i + 1] == Step(states[i], actions[i])
  }

  ghost predicate AllAllowed(states: seq<Sys>, actions: seq<Action>)
    requires IsRun(states, actions)
  {
    forall i :: 0 <= i < |actions| ==> Enabled(states[i], actions[i]) && Allowed(states[i], actions[i])
  }
}
