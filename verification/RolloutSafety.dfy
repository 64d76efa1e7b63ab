/** What every step of the rollout keeps: how much is in flight, at which stage, and how
    often and how long one attempt may be tried. */
module RolloutSafety {
  import opened Common
  import opened RolloutStore
  import opened RolloutProtocol

  predicate IsHeld(s: SlotState) {
    IsLive(s) || s == Failed
  }

  /** The slots of a generation that are in flight or failed. */
  function Held(slots: Slots, generation: nat): set<Key> {
    set k | k in slots && k.0 == generation && IsHeld(slots[k].state)
  }

  function Proven(slots: Slots, generation: nat): set<Key> {
    set k | k in slots && k.0 == generation && slots[k].state == Healthy
  }

  lemma SubsetSize(a: set<Key>, b: set<Key>)
    requires a <= b
    ensures |a| <= |b|
  {
    assert b == a + (b - a);
  }

  // ---- capacity and stage ----

  ghost predicate NoLaterGeneration(slots: Slots, generation: nat) {
    forall k :: k in slots ==> k.0 <= generation
  }

  /** What is in flight or failed is of the platform's stage, fits its capacity, and an
      active platform has no failed slot. */
  ghost predicate StageOk(slots: Slots, p: Platform) {
    && NoLaterGeneration(slots, p.generation)
    && (forall k :: k in Held(slots, p.generation) ==> slots[k].stage == p.stage)
    && (p.active ==> Held(slots, p.generation) == Live(slots, p.generation))
    && |Held(slots, p.generation)| <= Capacity(p.stage)
  }

  ghost predicate DbOk(db: Db) {
    if db.platform.None? then db.slots == map[] else StageOk(db.slots, db.platform.value)
  }

  lemma LoadKeeps(db: Db, candidate: Sha)
    requires DbOk(db)
    ensures StageOk(db.slots, Load(db.platform, candidate))
  {
  }

  /** Slots that change without gaining what is held keep the stage in order. */
  lemma FewerHeld(slots: Slots, slots': Slots, p: Platform, active: bool)
    requires StageOk(slots, p) && slots'.Keys <= slots.Keys
    requires forall k :: k in Held(slots', p.generation) ==> k in Held(slots, p.generation) && slots'[k].stage == slots[k].stage
    requires active ==> forall k :: k in slots' && k.0 == p.generation ==> slots'[k].state != Failed
    ensures StageOk(slots', p.(active := active))
  {
    SubsetSize(Held(slots', p.generation), Held(slots, p.generation));
    if active { assert Held(slots', p.generation) == Live(slots', p.generation); }
  }

  lemma ActiveHasNoFailed(slots: Slots, p: Platform)
    requires StageOk(slots, p) && p.active
    ensures forall k :: k in slots && k.0 == p.generation ==> slots[k].state != Failed
  {
    forall k | k in slots && k.0 == p.generation ensures slots[k].state != Failed {
      assert k in Held(slots, p.generation) <==> k in Live(slots, p.generation);
    }
  }

  lemma FailKeeps(db: Db, generation: nat, m: Machine)
    requires DbOk(db) && db.platform.Some? && db.platform.value.generation == generation
    requires (generation, m) in db.slots ==> IsHeld(db.slots[(generation, m)].state)
    ensures DbOk(FailSlot(db, generation, m))
  {
    FewerHeld(db.slots, WithState(db.slots, (generation, m), Failed), db.platform.value, false);
  }

  lemma AdmitKeeps(db: Db, st: Platform, m: Machine, now: int)
    requires StageOk(db.slots, st) && st.active && db.platform == Some(st) && (st.generation, m) !in db.slots
    ensures DbOk(Admit(db, st, m, now).db)
  {
    var k := (st.generation, m);
    if |Live(db.slots, st.generation)| < Capacity(st.stage) {
      var slots' := Admit(db, st, m, now).db.slots;
      assert Held(slots', st.generation) == Held(db.slots, st.generation) + {k};
      assert Live(slots', st.generation) == Live(db.slots, st.generation) + {k};
    }
  }

  lemma ReserveKeeps(db: Db, m: Machine, candidate: Sha, now: int)
    requires DbOk(db)
    ensures DbOk(Reserve(db, m, candidate, now).db)
  {
    if candidate != NONE {
      var st := Load(db.platform, candidate);
      var k := (st.generation, m);
      LoadKeeps(db, candidate);
      if st.active {
        if k in db.slots && db.slots[k].state == Reserved {
          ResendKeeps(Db(Some(st), db.slots), st, m, now);
        } else if k in db.slots && db.slots[k].state == Withheld {
          ActiveHasNoFailed(db.slots, st);
          FewerHeld(db.slots, db.slots - {k}, st, true);
          AdmitKeeps(Db(Some(st), db.slots - {k}), st, m, now);
        } else if k !in db.slots {
          assert db.slots - {k} == db.slots;
          AdmitKeeps(Db(Some(st), db.slots), st, m, now);
        }
      }
    }
  }

  lemma ResendKeeps(db: Db, st: Platform, m: Machine, now: int)
    requires DbOk(db) && db.platform == Some(st) && st.active
    requires (st.generation, m) in db.slots && db.slots[(st.generation, m)].state == Reserved
    ensures DbOk(Resend(db, st, m, now).db)
  {
    ActiveHasNoFailed(db.slots, st);
    if now > db.slots[(st.generation, m)].deadline || db.slots[(st.generation, m)].resends >= MAX_RESENDS {
      FailKeeps(db, st.generation, m);
    } else {
      FewerHeld(db.slots, Resend(db, st, m, now).db.slots, st, true);
    }
  }

  lemma WithholdKeeps(db: Db, m: Machine, candidate: Sha, now: int)
    requires DbOk(db)
    ensures DbOk(Withhold(db, m, candidate, now))
  {
    LoadKeeps(db, candidate);
    var st := Load(db.platform, candidate);
    var slots' := Withhold(db, m, candidate, now).slots;
    assert Held(slots', st.generation) == Held(db.slots, st.generation);
    assert Live(slots', st.generation) == Live(db.slots, st.generation);
  }

  lemma AdvanceKeeps(db: Db, st: Platform)
    requires DbOk(db)
    ensures DbOk(Advance(db, st))
  {
  }

  lemma ResumeKeeps(db: Db, now: int)
    requires DbOk(db)
    ensures DbOk(Resume(db, now))
  {
    if db.platform.Some? {
      FewerHeld(db.slots, Resume(db, now).slots, db.platform.value, true);
    }
  }

  lemma ReconcileKeeps(db: Db, now: int)
    requires DbOk(db)
    ensures DbOk(Reconcile(db, now))
  {
    if db.platform.Some? {
      var p := db.platform.value;
      if p.active { ActiveHasNoFailed(db.slots, p); }
      FewerHeld(db.slots, Reconcile(db, now).slots, p, p.active);
    } else {
      assert Reconcile(db, now).slots == map[];
    }
  }

  lemma DeleteKeeps(db: Db, m: Machine)
    requires DbOk(db)
    ensures DbOk(Delete(db, m))
  {
    if db.platform.Some? {
      var p := db.platform.value;
      if p.active { ActiveHasNoFailed(db.slots, p); }
      FewerHeld(db.slots, Delete(db, m).slots, p, p.active);
    } else {
      assert Delete(db, m).slots == map[];
    }
  }

  /** A slot that is in flight changes to another state that is not failed. */
  lemma StateKeeps(db: Db, k: Key, s: SlotState)
    requires DbOk(db) && db.platform.Some? && s != Failed && s != Withheld
    requires k in db.slots ==> IsLive(db.slots[k].state)
    ensures DbOk(db.(slots := WithState(db.slots, k, s)))
  {
    var p := db.platform.value;
    if p.active { ActiveHasNoFailed(db.slots, p); }
    FewerHeld(db.slots, WithState(db.slots, k, s), p, p.active);
  }

  lemma ReleaseKeeps(db: Db, r: Reservation)
    requires DbOk(db)
    ensures DbOk(Release(db, r))
  {
    if Holds(db.slots, r) {
      var p := db.platform.value;
      if p.active { ActiveHasNoFailed(db.slots, p); }
      FewerHeld(db.slots, Release(db, r).slots, p, p.active);
    }
  }

  lemma ObserveKeeps(db: Db, m: Machine, generation: nat)
    requires DbOk(db)
    ensures DbOk(Observe(db, m, generation))
  {
    if Observe(db, m, generation) != db { StateKeeps(db, (generation, m), Observed); }
  }

  // ---- attempts ----

  /** Sends that may still follow within the attempt. */
  function Allowance(slot: Slot): nat {
    slot.resends + if slot.attempt == 1 then 1 else 0
  }

  /** One send is under way for this slot. */
  predicate Pending(pc: Pc, k: Key) {
    pc.Announcing? && KeyOf(pc.r) == k
  }

  ghost predicate AttemptOk(k: Key, slot: Slot, pc: Pc, sends: map<Key, nat>, due: map<Key, int>) {
    slot.state != Withheld ==>
      && slot.attempt >= 1 && slot.resends <= MAX_RESENDS
      && k in sends && sends[k] + (if Pending(pc, k) then 1 else 0) <= Allowance(slot)
      && k in due && (if slot.graceUsed then due[k] <= slot.deadline else due[k] == slot.deadline)
  }

  ghost predicate AttemptsOk(slots: Slots, pc: Pc, sends: map<Key, nat>, due: map<Key, int>) {
    forall k :: k in slots ==> AttemptOk(k, slots[k], pc, sends, due)
  }

  // ---- the scheduler ----

  ghost predicate HeldBy(slots: Slots, r: Reservation) {
    var k := KeyOf(r);
    k in slots ==> IsLive(slots[k].state) && slots[k].attempt == r.attempt
  }

  ghost predicate PcOk(db: Db, pc: Pc) {
    match pc
    case Idle => true
    case Ticking(st, todo) =>
      && db.platform == Some(st) && st.active
      && (forall i, j :: 0 <= i < j < |todo| ==> todo[i].machine != todo[j].machine)
      && (forall d :: d in todo && (st.generation, d.machine) in db.slots ==> IsLive(db.slots[(st.generation, d.machine)].state))
    case Announcing(r) =>
      && db.platform.Some? && db.platform.value.generation == r.generation && HeldBy(db.slots, r) && (!r.resend ==> r.attempt == 1)
    case Sent(r) =>
      db.platform.Some? && db.platform.value.generation == r.generation && HeldBy(db.slots, r)
  }

  ghost predicate Inv(s: Sys) {
    DbOk(s.db) && PcOk(s.db, s.pc) && AttemptsOk(s.db.slots, s.pc, s.sends, s.due)
  }

  // ---- every step ----

  /** Slots that keep their attempt's numbers keep its bounds. */
  lemma AttemptsCarry(slots: Slots, slots': Slots, pc: Pc, pc': Pc, sends: map<Key, nat>, due: map<Key, int>)
    requires AttemptsOk(slots, pc, sends, due)
    requires forall k :: k in slots' && slots'[k].state != Withheld ==>
               k in slots && slots[k].state != Withheld && slots'[k] == slots[k].(state := slots'[k].state)
    requires forall k :: k in slots' && Pending(pc', k) ==> Pending(pc, k)
    ensures AttemptsOk(slots', pc', sends, due)
  {
  }

  lemma ResendStep(s: Sys, st: Platform, m: Machine, now: int)
    requires Inv(s) && s.pc.Idle? && s.db.platform == Some(st) && st.active
    requires (st.generation, m) in s.db.slots && s.db.slots[(st.generation, m)].state == Reserved
    ensures var reply := Resend(s.db, st, m, now);
            var pc := if reply.reservation.None? then Idle else Announcing(reply.reservation.value);
            PcOk(reply.db, pc) && AttemptsOk(reply.db.slots, pc, s.sends, s.due)
  {
    var reply := Resend(s.db, st, m, now);
    var pc := if reply.reservation.None? then Idle else Announcing(reply.reservation.value);
    forall k | k in reply.db.slots ensures AttemptOk(k, reply.db.slots[k], pc, s.sends, s.due) {
      assert AttemptOk(k, s.db.slots[k], s.pc, s.sends, s.due);
    }
  }

  lemma AdmitStep(db: Db, st: Platform, m: Machine, now: int, sends: map<Key, nat>, due: map<Key, int>)
    requires AttemptsOk(db.slots, Idle, sends, due) && db.platform == Some(st) && (st.generation, m) !in db.slots
    ensures var reply := Admit(db, st, m, now);
            match reply.reservation
            case None => AttemptsOk(reply.db.slots, Idle, sends, due)
            case Some(r) =>
              && !r.resend && PcOk(reply.db, Announcing(r))
              && AttemptsOk(reply.db.slots, Announcing(r), sends[KeyOf(r) := 0], due[KeyOf(r) := now + ATTEMPT_MS])
  {
  }

  lemma ReserveStep(s: Sys, m: Machine, candidate: Sha, now: int)
    requires Inv(s) && s.pc.Idle?
    ensures Inv(ReserveDone(s, m, candidate, now))
  {
    ReserveKeeps(s.db, m, candidate, now);
    if candidate != NONE {
      var st := Load(s.db.platform, candidate);
      var k := (st.generation, m);
      LoadKeeps(s.db, candidate);
      if st.active {
        if k in s.db.slots && s.db.slots[k].state == Reserved {
          ResendStep(s.(db := Db(Some(st), s.db.slots)), st, m, now);
        } else if k !in s.db.slots || s.db.slots[k].state == Withheld {
          AttemptsCarry(s.db.slots, s.db.slots - {k}, Idle, Idle, s.sends, s.due);
          AdmitStep(Db(Some(st), s.db.slots - {k}), st, m, now, s.sends, s.due);
        }
      }
    }
  }

  lemma WithholdStep(s: Sys, m: Machine, candidate: Sha, now: int)
    requires Inv(s) && s.pc.Idle?
    ensures Inv(s.(db := Withhold(s.db, m, candidate, now)))
  {
    WithholdKeeps(s.db, m, candidate, now);
    AttemptsCarry(s.db.slots, Withhold(s.db, m, candidate, now).slots, Idle, Idle, s.sends, s.due);
  }

  /** A tick step changes at most the state of one live slot. */
  lemma TickStep(s: Sys, a: Action)
    requires Inv(s) && Enabled(s, a)
    requires a.BeginTick? || a.TickPromote? || a.TickSkip? || a.TickFail? || a.TickAdvance? || a.TickAbort?
    ensures Inv(Step(s, a))
  {
    var s' := Step(s, a);
    match a
    case BeginTick(_) =>
    case TickPromote =>
      assert s.pc.todo[0] in s.pc.todo;
      StateKeeps(s.db, (s.pc.st.generation, s.pc.todo[0].machine), Healthy);
    case TickSkip(_) =>
    case TickFail(_) =>
      assert s.pc.todo[0] in s.pc.todo;
      FailKeeps(s.db, s.pc.st.generation, s.pc.todo[0].machine);
    case TickAdvance => AdvanceKeeps(s.db, s.pc.st);
    case TickAbort =>
    AttemptsCarry(s.db.slots, s'.db.slots, s.pc, s'.pc, s.sends, s.due);
  }

  lemma DropStep(s: Sys)
    requires Inv(s) && s.pc.Announcing?
    ensures Inv(Dropped(s))
  {
    ReleaseKeeps(s.db, s.pc.r);
    AttemptsCarry(s.db.slots, Dropped(s).db.slots, s.pc, Idle, s.sends, s.due);
  }

  lemma SendStep(s: Sys)
    requires Inv(s) && s.pc.Announcing?
    ensures Inv(SentTo(s))
  {
  }

  lemma MarkStep(s: Sys)
    requires Inv(s) && s.pc.Sent?
    ensures Inv(s.(db := MarkOffered(s.db, s.pc.r), pc := Idle)) && Inv(s.(pc := Idle))
  {
    AttemptsCarry(s.db.slots, s.db.slots, s.pc, Idle, s.sends, s.due);
    var db' := MarkOffered(s.db, s.pc.r);
    if db' != s.db { StateKeeps(s.db, KeyOf(s.pc.r), Offered); }
    AttemptsCarry(s.db.slots, db'.slots, s.pc, Idle, s.sends, s.due);
  }

  lemma ObserveStep(s: Sys, m: Machine, generation: nat)
    requires Inv(s)
    ensures Inv(s.(db := Observe(s.db, m, generation)))
  {
    ObserveKeeps(s.db, m, generation);
    AttemptsCarry(s.db.slots, Observe(s.db, m, generation).slots, s.pc, s.pc, s.sends, s.due);
  }

  lemma ResumeStep(s: Sys, now: int)
    requires Inv(s)
    ensures Inv(Resumed(s, now))
  {
    ResumeKeeps(s.db, now);
    var s' := Resumed(s, now);
    forall k | k in s'.db.slots ensures AttemptOk(k, s'.db.slots[k], s'.pc, s'.sends, s'.due) {
      assert AttemptOk(k, s.db.slots[k], s.pc, s.sends, s.due);
    }
  }

  lemma DeleteStep(s: Sys, m: Machine)
    requires Inv(s)
    ensures Inv(s.(db := Delete(s.db, m)))
  {
    DeleteKeeps(s.db, m);
    AttemptsCarry(s.db.slots, Delete(s.db, m).slots, s.pc, s.pc, s.sends, s.due);
  }

  lemma RestartStep(s: Sys, now: int)
    requires Inv(s)
    ensures Inv(s.(db := Reconcile(s.db, now), pc := Idle))
  {
    ReconcileKeeps(s.db, now);
    var slots' := Reconcile(s.db, now).slots;
    forall k | k in slots' ensures AttemptOk(k, slots'[k], Idle, s.sends, s.due) {
      assert AttemptOk(k, s.db.slots[k], s.pc, s.sends, s.due);
    }
  }

  lemma StepKeepsInv(s: Sys, a: Action)
    requires Inv(s) && Enabled(s, a)
    ensures Inv(Step(s, a))
  {
    match a
    case DoReserve(m, candidate, now) => ReserveStep(s, m, candidate, now);
    case DoWithhold(m, candidate, now) => WithholdStep(s, m, candidate, now);
    case Drop => DropStep(s);
    case Send => SendStep(s);
    case Mark => MarkStep(s);
    case Unmarked => MarkStep(s);
    case DoObserve(m, generation) => ObserveStep(s, m, generation);
    case DoResume(now) => ResumeStep(s, now);
    case DoDelete(m) => DeleteStep(s, m);
    case Restart(now) => RestartStep(s, now);
    case _ => TickStep(s, a);
  }

  lemma {:induction false} RunKeepsInv(states: seq<Sys>, actions: seq<Action>, n: nat)
    requires IsRun(states, actions) && n < |states|
    ensures Inv(states[n])
  {
    if n > 0 {
      RunKeepsInv(states, actions, n - 1);
      StepKeepsInv(states[n - 1], actions[n - 1]);
    }
  }
}
