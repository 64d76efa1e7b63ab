/** The staged rollout of one platform: its durable rows and the transactions on them
    (hub/agent_rollout.go). Times are milliseconds. */
module RolloutStore {
  import opened Common

  type Sha = nat
  type Machine = nat

  /** A slot belongs to a machine within a generation. */
  type Key = (nat, Machine)

  datatype SlotState = Reserved | Offered | Observed | Healthy | Failed | Withheld

  datatype Slot = Slot(stage: nat, attempt: nat, state: SlotState, resends: nat, graceUsed: bool, deadline: int)

  datatype Platform = Platform(generation: nat, candidate: Sha, stage: nat, active: bool)

  type Slots = map<Key, Slot>

  datatype Db = Db(platform: Option<Platform>, slots: Slots)

  datatype Reservation = Reservation(generation: nat, machine: Machine, stage: nat, attempt: nat, resend: bool)

  /** The empty SHA: no candidate binary. */
  const NONE: Sha := 0
  const ATTEMPT_MS := 600_000
  const GRACE_MS := 300_000
  const MAX_RESENDS: nat := 3

  function Capacity(stage: nat): (n: nat)
    ensures 1 <= n <= 2 && (n == 1 <==> stage == 0)
  {
    if stage == 0 then 1 else 2
  }

  predicate IsLive(s: SlotState) {
    s == Reserved || s == Offered || s == Observed
  }

  /** The slots of a generation that hold capacity. */
  function Live(slots: Slots, generation: nat): set<Key> {
    set k | k in slots && k.0 == generation && IsLive(slots[k].state)
  }

  // ---- transactions ----

  /** Creates the platform's row, or starts a new generation for a changed candidate. */
  function Load(p: Option<Platform>, candidate: Sha): Platform {
    match p
    case None => Platform(1, candidate, 0, true)
    case Some(st) => if st.candidate == candidate then st else Platform(st.generation + 1, candidate, 0, true)
  }

  function WithState(slots: Slots, k: Key, s: SlotState): Slots {
    if k in slots then slots[k := slots[k].(state := s)] else slots
  }

  /** A failed attempt halts the platform. */
  function FailSlot(db: Db, generation: nat, m: Machine): Db {
    Db(if db.platform.Some? && db.platform.value.generation == generation
       then Some(db.platform.value.(active := false)) else db.platform,
       WithState(db.slots, (generation, m), Failed))
  }

  datatype Reply = Reply(db: Db, reservation: Option<Reservation>)

  function Reserve(db: Db, m: Machine, candidate: Sha, now: int): Reply {
    if candidate == NONE then Reply(db, None) else
    var st := Load(db.platform, candidate);
    var db1 := Db(Some(st), db.slots);
    var k := (st.generation, m);
    if !st.active then Reply(db1, None)
    else if k in db.slots && db.slots[k].state == Reserved then Resend(db1, st, m, now)
    else if k in db.slots && db.slots[k].state != Withheld then Reply(db1, None)
    else Admit(Db(Some(st), db.slots - {k}), st, m, now)
  }

  /** Reserved but never marked offered: a bounded resend within the same attempt. */
  function Resend(db: Db, st: Platform, m: Machine, now: int): Reply
    requires (st.generation, m) in db.slots
  {
    var k := (st.generation, m);
    var s := db.slots[k];
    if now > s.deadline || s.resends >= MAX_RESENDS then Reply(FailSlot(db, st.generation, m), None)
    else Reply(db.(slots := db.slots[k := s.(resends := s.resends + 1)]),
               Some(Reservation(st.generation, m, st.stage, s.attempt, true)))
  }

  /** Takes a slot when the batch has room. */
  function Admit(db: Db, st: Platform, m: Machine, now: int): Reply {
    if |Live(db.slots, st.generation)| >= Capacity(st.stage) then Reply(db, None)
    else Reply(db.(slots := db.slots[(st.generation, m) := Slot(st.stage, 1, Reserved, 0, false, now + ATTEMPT_MS)]),
               Some(Reservation(st.generation, m, st.stage, 1, false)))
  }

  predicate Holds(slots: Slots, r: Reservation) {
    var k := (r.generation, r.machine);
    k in slots && slots[k].attempt == r.attempt && slots[k].state == Reserved
  }

  function Release(db: Db, r: Reservation): Db {
    if Holds(db.slots, r) then db.(slots := db.slots - {(r.generation, r.machine)}) else db
  }

  function MarkOffered(db: Db, r: Reservation): Db {
    if Holds(db.slots, r) then db.(slots := WithState(db.slots, (r.generation, r.machine), Offered)) else db
  }

  /** A hub-received report established that the machine runs the candidate. */
  function Observe(db: Db, m: Machine, generation: nat): Db {
    var k := (generation, m);
    if k in db.slots && (db.slots[k].state == Reserved || db.slots[k].state == Offered)
    then db.(slots := WithState(db.slots, k, Observed)) else db
  }

  /** An eligibility refusal; it never replaces an attempt. */
  function Withhold(db: Db, m: Machine, candidate: Sha, now: int): Db {
    var st := Load(db.platform, candidate);
    var k := (st.generation, m);
    Db(Some(st), if k in db.slots then db.slots else db.slots[k := Slot(st.stage, 0, Withheld, 0, false, now)])
  }

  function Promote(db: Db, generation: nat, m: Machine): Db {
    db.(slots := WithState(db.slots, (generation, m), Healthy))
  }

  predicate StageDone(slots: Slots, p: Platform) {
    && !(exists k | k in slots :: k.0 == p.generation && slots[k].stage == p.stage && IsLive(slots[k].state))
    && exists k | k in slots :: k.0 == p.generation && slots[k].stage == p.stage && slots[k].state == Healthy
  }

  /** One statement: the stage advances when it proved something and nothing of it is in
      flight. */
  function Advance(db: Db, st: Platform): Db {
    if db.platform.Some? && db.platform.value.generation == st.generation && db.platform.value.active
       && db.platform.value.stage == st.stage && StageDone(db.slots, db.platform.value)
    then db.(platform := Some(db.platform.value.(stage := st.stage + 1))) else db
  }

  function Reopened(s: Slot, now: int): Slot {
    Slot(s.stage, s.attempt + 1, Reserved, 0, false, now + ATTEMPT_MS)
  }

  /** Clears a halt and gives every failed slot of the generation a new attempt. */
  function Resume(db: Db, now: int): Db {
    match db.platform
    case None => db
    case Some(p) =>
      Db(Some(p.(active := true)),
         map k | k in db.slots :: if k.0 == p.generation && db.slots[k].state == Failed then Reopened(db.slots[k], now) else db.slots[k])
  }

  function Graced(s: Slot, now: int): Slot {
    if IsLive(s.state) && !s.graceUsed then s.(deadline := Max(s.deadline, now + GRACE_MS), graceUsed := true) else s
  }

  /** After a restart each live attempt gets its one extension. */
  function Reconcile(db: Db, now: int): Db {
    db.(slots := map k | k in db.slots :: Graced(db.slots[k], now))
  }

  /** Deleting a machine deletes its slots with it. */
  function Delete(db: Db, m: Machine): Db {
    db.(slots := map k | k in db.slots && k.1 != m :: db.slots[k])
  }
}
