/** The hub around the rollout rows: one scheduler goroutine ticks and announces, while
    reports, operator resumes, machine deletions and restarts fall between any two of
    its statements. */
module RolloutProtocol {
  import opened Common
  import opened RolloutStore

  /** A slot a tick has read and still has to decide. */
  datatype Due = Due(machine: Machine, deadline: int)

  /** Where the scheduler is. */
  datatype Pc =
    | Idle
    | Ticking(st: Platform, todo: seq<Due>)
    | Announcing(r: Reservation)
    | Sent(r: Reservation)

  /** `exposed` (which machines were ever sent a generation's candidate), `sends` (how
      often, within the present attempt) and `due` (the deadline the present attempt
      started with) are history. */
  datatype Sys = Sys(db: Db, pc: Pc, exposed: set<Key>, sends: map<Key, nat>, due: map<Key, int>)

  datatype Action =
    | BeginTick(todo: seq<Due>)
    | TickPromote
    | TickSkip(now: int)
    | TickFail(now: int)
    | TickAdvance
    | TickAbort
    | DoReserve(m: Machine, candidate: Sha, now: int)
    | DoWithhold(m: Machine, candidate: Sha, now: int)
    | Drop
    | Send
    | Mark
    | Unmarked
    | DoObserve(m: Machine, generation: nat)
    | DoResume(now: int)
    | DoDelete(m: Machine)
    | Restart(now: int)

  /** What a tick reads: every live slot of the generation, once. */
  ghost predicate Lists(todo: seq<Due>, slots: Slots, generation: nat) {
    && (forall i, j :: 0 <= i < j < |todo| ==> todo[i].machine != todo[j].machine)
    && (forall d :: d in todo ==> (generation, d.machine) in Live(slots, generation) && slots[(generation, d.machine)].deadline == d.deadline)
    && (forall k :: k in Live(slots, generation) ==> exists d :: d in todo && d.machine == k.1)
  }

  predicate IsTick(s: Sys) {
    s.pc.Ticking? && s.pc.todo != []
  }

  ghost predicate Enabled(s: Sys, a: Action) {
    match a
    case BeginTick(todo) =>
      s.pc.Idle? && s.db.platform.Some? && s.db.platform.value.active
      && Lists(todo, s.db.slots, s.db.platform.value.generation)
    case TickPromote => IsTick(s)
    case TickSkip(now) => IsTick(s) && now <= s.pc.todo[0].deadline
    case TickFail(now) => IsTick(s) && now > s.pc.todo[0].deadline
    case TickAdvance => s.pc.Ticking? && s.pc.todo == []
    case TickAbort => s.pc.Ticking?
    case DoReserve(_, _, _) => s.pc.Idle?
    case DoWithhold(_, _, _) => s.pc.Idle?
    case Drop => s.pc.Announcing?
    case Send => s.pc.Announcing? && s.db.platform.Some? && s.db.platform.value.generation == s.pc.r.generation
    case Mark => s.pc.Sent?
    case Unmarked => s.pc.Sent?
    case _ => true
  }

  function Popped(pc: Pc): Pc
    requires pc.Ticking? && pc.todo != []
  {
    Ticking(pc.st, pc.todo[1..])
  }

  function KeyOf(r: Reservation): Key {
    (r.generation, r.machine)
  }

  /** A fresh attempt starts its history; a resend continues it. */
  function ReserveDone(s: Sys, m: Machine, candidate: Sha, now: int): Sys {
    var reply := Reserve(s.db, m, candidate, now);
    match reply.reservation
    case None => s.(db := reply.db)
    case Some(r) =>
      if r.resend then s.(db := reply.db, pc := Announcing(r))
      else Sys(reply.db, Announcing(r), s.exposed, s.sends[KeyOf(r) := 0],
               s.due[KeyOf(r) := now + ATTEMPT_MS])
  }

  function Dropped(s: Sys): Sys
    requires s.pc.Announcing?
  {
    s.(db := if s.pc.r.resend then s.db else Release(s.db, s.pc.r), pc := Idle)
  }

  function SentTo(s: Sys): Sys
    requires s.pc.Announcing?
  {
    var k := KeyOf(s.pc.r);
    s.(pc := Sent(s.pc.r), exposed := s.exposed + {k},
       sends := if k in s.sends then s.sends[k := s.sends[k] + 1] else s.sends)
  }

  predicate Reopens(db: Db, k: Key) {
    db.platform.Some? && k.0 == db.platform.value.generation && k in db.slots && db.slots[k].state == Failed
  }

  function Resumed(s: Sys, now: int): Sys {
    Sys(Resume(s.db, now), s.pc, s.exposed,
        map k | k in s.sends :: if Reopens(s.db, k) then 0 else s.sends[k],
        map k | k in s.due :: if Reopens(s.db, k) then now + ATTEMPT_MS else s.due[k])
  }

  ghost function Step(s: Sys, a: Action): Sys
    requires Enabled(s, a)
  {
    match a
    case BeginTick(todo) => s.(pc := Ticking(s.db.platform.value, todo))
    case TickPromote => s.(db := Promote(s.db, s.pc.st.generation, s.pc.todo[0].machine), pc := Popped(s.pc))
    case TickSkip(_) => s.(pc := Popped(s.pc))
    case TickFail(_) => s.(db := FailSlot(s.db, s.pc.st.generation, s.pc.todo[0].machine), pc := Idle)
    case TickAdvance => s.(db := Advance(s.db, s.pc.st), pc := Idle)
    case TickAbort => s.(pc := Idle)
    case DoReserve(m, candidate, now) => ReserveDone(s, m, candidate, now)
    case DoWithhold(m, candidate, now) => s.(db := Withhold(s.db, m, candidate, now))
    case Drop => Dropped(s)
    case Send => SentTo(s)
    case Mark => s.(db := MarkOffered(s.db, s.pc.r), pc := Idle)
    case Unmarked => s.(pc := Idle)
    case DoObserve(m, generation) => s.(db := Observe(s.db, m, generation))
    case DoResume(now) => Resumed(s, now)
    case DoDelete(m) => s.(db := Delete(s.db, m))
    case Restart(now) => s.(db := Reconcile(s.db, now), pc := Idle)
  }

  ghost predicate Initial(s: Sys) {
    s == Sys(Db(None, map[]), Idle, {}, map[], map[])
  }

  ghost predicate IsRun(states: seq<Sys>, actions: seq<Action>) {
    && |states| == |actions| + 1 && Initial(states[0])
    && forall i :: 0 <= i < |actions| ==> Enabled(states[i], actions[i]) && states[i + 1] == Step(states[i], actions[i])
  }
}
