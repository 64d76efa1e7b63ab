/** What the rollout promises over whole runs. */
module RolloutTheorems {
  import opened Common
  import opened RolloutStore
  import opened RolloutProtocol
  import opened RolloutSafety

  /** At every moment, what is in flight or failed in the current generation is of the
      platform's stage and fits its capacity, and an active platform has no failure. */
  lemma CapacityOverRuns(states: seq<Sys>, actions: seq<Action>, n: nat)
    requires IsRun(states, actions) && n < |states| && states[n].db.platform.Some?
    ensures var p := states[n].db.platform.value;
            var slots := states[n].db.slots;
            && |Held(slots, p.generation)| <= Capacity(p.stage)
            && (forall k :: k in slots && k.0 == p.generation && IsHeld(slots[k].state) ==> slots[k].stage == p.stage)
            && (p.active ==> forall k :: k in slots && k.0 == p.generation ==> slots[k].state != Failed)
  {
    RunKeepsInv(states, actions, n);
    var p, slots := states[n].db.platform.value, states[n].db.slots;
    forall k | k in slots && k.0 == p.generation && IsHeld(slots[k].state) ensures slots[k].stage == p.stage {
      assert k in Held(slots, p.generation);
    }
    if p.active { ActiveHasNoFailed(slots, p); }
  }

  // ---- blast radius ----

  predicate WasExposed(s: SlotState) {
    IsHeld(s) || s == Healthy
  }

  /** But for deleted machines: whoever was sent this generation's candidate has a slot
      that says so, and a fresh reservation is for someone who was not. While nothing was
      deleted, a stage beyond the canary's has a proven machine. */
  ghost predicate ExposureOk(s: Sys, gone: set<Machine>) {
    && (forall k :: k in s.exposed ==> s.db.platform.Some? && k.0 <= s.db.platform.value.generation)
    && (s.db.platform.Some? ==>
          && (forall k :: k in s.exposed && k.0 == s.db.platform.value.generation && k.1 !in gone ==>
                k in s.db.slots && WasExposed(s.db.slots[k].state))
          && (gone == {} && s.db.platform.value.stage > 0 ==> Proven(s.db.slots, s.db.platform.value.generation) != {}))
    && (s.pc.Announcing? && s.pc.r.machine !in gone ==>
          KeyOf(s.pc.r) in s.db.slots && (!s.pc.r.resend ==> KeyOf(s.pc.r) !in s.exposed))
  }

  /** A slot that was exposed stays exposed, a proven one stays proven. */
  ghost predicate KeepsExposed(slots: Slots, slots': Slots) {
    forall k :: k in slots && WasExposed(slots[k].state) ==>
      k in slots' && WasExposed(slots'[k].state) && (slots[k].state == Healthy ==> slots'[k].state == Healthy)
  }

  lemma ExposureCarries(s: Sys, s': Sys, gone: set<Machine>)
    requires ExposureOk(s, gone) && KeepsExposed(s.db.slots, s'.db.slots) && s'.exposed == s.exposed
    requires s'.db.platform.Some? == s.db.platform.Some?
    requires s.db.platform.Some? ==>
               s'.db.platform.value.generation == s.db.platform.value.generation && s'.db.platform.value.stage == s.db.platform.value.stage
    requires s'.pc.Announcing? ==> s'.pc == s.pc && (s.pc.r.machine !in gone ==> KeyOf(s.pc.r) in s'.db.slots)
    ensures ExposureOk(s', gone)
  {
  }

  lemma ProvenCarries(slots: Slots, slots': Slots)
    requires KeepsExposed(slots, slots')
    ensures forall g :: Proven(slots, g) <= Proven(slots', g)
  {
  }

  /** Nobody was sent the candidate of a generation that has just begun. */
  lemma LoadExposure(s: Sys, candidate: Sha, gone: set<Machine>)
    requires ExposureOk(s, gone) && DbOk(s.db) && s.pc.Idle?
    ensures ExposureOk(s.(db := Db(Some(Load(s.db.platform, candidate)), s.db.slots)), gone)
  {
  }

  lemma AdmitExposure(s: Sys, st: Platform, m: Machine, now: int, gone: set<Machine>)
    requires ExposureOk(s, gone) && s.pc.Idle? && s.db.platform == Some(st) && (st.generation, m) !in s.db.slots
    ensures var reply := Admit(s.db, st, m, now);
            match reply.reservation
            case None => reply.db == s.db
            case Some(r) => ExposureOk(s.(db := reply.db, pc := Announcing(r)), gone)
  {
    var reply := Admit(s.db, st, m, now);
    assert KeepsExposed(s.db.slots, reply.db.slots);
    ProvenCarries(s.db.slots, reply.db.slots);
  }

  lemma ResendExposure(s: Sys, st: Platform, m: Machine, now: int, gone: set<Machine>)
    requires ExposureOk(s, gone) && s.pc.Idle? && s.db.platform == Some(st)
    requires (st.generation, m) in s.db.slots && s.db.slots[(st.generation, m)].state == Reserved
    ensures var reply := Resend(s.db, st, m, now);
            match reply.reservation
            case None => ExposureOk(s.(db := reply.db), gone)
            case Some(r) => r.resend && ExposureOk(s.(db := reply.db, pc := Announcing(r)), gone)
  {
    var slots' := Resend(s.db, st, m, now).db.slots;
    assert KeepsExposed(s.db.slots, slots');
    ProvenCarries(s.db.slots, slots');
  }

  lemma ReserveExposure(s: Sys, m: Machine, candidate: Sha, now: int, gone: set<Machine>)
    requires Inv(s) && ExposureOk(s, gone) && s.pc.Idle?
    ensures ExposureOk(ReserveDone(s, m, candidate, now), gone)
  {
    if candidate != NONE {
      var st := Load(s.db.platform, candidate);
      var k := (st.generation, m);
      var s1 := s.(db := Db(Some(st), s.db.slots));
      LoadExposure(s, candidate, gone);
      if st.active {
        if k in s.db.slots && s.db.slots[k].state == Reserved {
          ResendExposure(s1, st, m, now, gone);
        } else if k !in s.db.slots || s.db.slots[k].state == Withheld {
          var s2 := s1.(db := Db(Some(st), s.db.slots - {k}));
          ExposureCarries(s1, s2, gone);
          AdmitExposure(s2, st, m, now, gone);
        }
      }
    }
  }

  lemma WithholdExposure(s: Sys, m: Machine, candidate: Sha, now: int, gone: set<Machine>)
    requires Inv(s) && ExposureOk(s, gone) && s.pc.Idle?
    ensures ExposureOk(s.(db := Withhold(s.db, m, candidate, now)), gone)
  {
    LoadExposure(s, candidate, gone);
    ExposureCarries(s.(db := Db(Some(Load(s.db.platform, candidate)), s.db.slots)), s.(db := Withhold(s.db, m, candidate, now)), gone);
  }

  lemma AdvanceExposure(s: Sys, gone: set<Machine>)
    requires Inv(s) && ExposureOk(s, gone) && s.pc.Ticking? && s.pc.todo == []
    ensures ExposureOk(s.(db := Advance(s.db, s.pc.st), pc := Idle), gone)
  {
    if Advance(s.db, s.pc.st) != s.db {
      var p := s.db.platform.value;
      var k :| k in s.db.slots && k.0 == p.generation && s.db.slots[k].stage == p.stage && s.db.slots[k].state == Healthy;
      assert k in Proven(s.db.slots, p.generation);
    }
  }

  lemma DropExposure(s: Sys, gone: set<Machine>)
    requires Inv(s) && ExposureOk(s, gone) && s.pc.Announcing?
    ensures ExposureOk(Dropped(s), gone)
  {
    var r := s.pc.r;
    if !r.resend && Holds(s.db.slots, r) {
      var slots' := s.db.slots - {KeyOf(r)};
      assert forall g :: Proven(slots', g) == Proven(s.db.slots, g);
    }
  }

  lemma StepKeepsExposure(s: Sys, a: Action, gone: set<Machine>)
    requires Inv(s) && ExposureOk(s, gone) && Enabled(s, a) && !a.DoDelete?
    ensures ExposureOk(Step(s, a), gone)
  {
    match a
    case DoReserve(m, candidate, now) => ReserveExposure(s, m, candidate, now, gone);
    case DoWithhold(m, candidate, now) => WithholdExposure(s, m, candidate, now, gone);
    case Drop => DropExposure(s, gone);
    case Send =>
    case TickAdvance => AdvanceExposure(s, gone);
    case TickPromote => PromoteExposure(s, a, gone);
    case TickFail(_) => PromoteExposure(s, a, gone);
    case _ => QuietExposure(s, a, gone);
  }

  lemma PromoteExposure(s: Sys, a: Action, gone: set<Machine>)
    requires Inv(s) && ExposureOk(s, gone) && Enabled(s, a) && (a.TickPromote? || a.TickFail?)
    ensures ExposureOk(Step(s, a), gone)
  {
    assert s.pc.todo[0] in s.pc.todo;
    ExposureCarries(s, Step(s, a), gone);
  }

  lemma MarkKeepsExposed(db: Db, r: Reservation)
    ensures KeepsExposed(db.slots, MarkOffered(db, r).slots)
  {
  }

  lemma ObserveKeepsExposed(db: Db, m: Machine, generation: nat)
    ensures KeepsExposed(db.slots, Observe(db, m, generation).slots)
  {
  }

  lemma ResumeKeepsExposed(db: Db, now: int)
    ensures KeepsExposed(db.slots, Resume(db, now).slots)
  {
  }

  lemma ReconcileKeepsExposed(db: Db, now: int)
    ensures KeepsExposed(db.slots, Reconcile(db, now).slots)
  {
  }

  lemma QuietExposure(s: Sys, a: Action, gone: set<Machine>)
    requires Inv(s) && ExposureOk(s, gone) && Enabled(s, a)
    requires a.BeginTick? || a.TickSkip? || a.TickAbort? || a.Mark? || a.Unmarked? || a.DoObserve? || a.DoResume? || a.Restart?
    ensures ExposureOk(Step(s, a), gone)
  {
    match a
    case Mark =>
      MarkKeepsExposed(s.db, s.pc.r);
      ExposureCarries(s, s.(db := MarkOffered(s.db, s.pc.r), pc := Idle), gone);
    case DoObserve(m, generation) =>
      ObserveKeepsExposed(s.db, m, generation);
      ExposureCarries(s, s.(db := Observe(s.db, m, generation)), gone);
    case DoResume(now) =>
      ResumeKeepsExposed(s.db, now);
      ExposureCarries(s, Resumed(s, now), gone);
    case Restart(now) =>
      ReconcileKeepsExposed(s.db, now);
      ExposureCarries(s, s.(db := Reconcile(s.db, now), pc := Idle), gone);
    case BeginTick(todo) => ExposureCarries(s, s.(pc := Ticking(s.db.platform.value, todo)), gone);
    case TickSkip(_) => ExposureCarries(s, s.(pc := Popped(s.pc)), gone);
    case TickAbort => ExposureCarries(s, s.(pc := Idle), gone);
    case Unmarked => ExposureCarries(s, s.(pc := Idle), gone);
    case _ =>
  }

  /** The machines deleted by the first n actions. */
  function Deleted(actions: seq<Action>, n: nat): set<Machine>
    requires n <= |actions|
  {
    if n == 0 then {}
    else if actions[n - 1].DoDelete? then Deleted(actions, n - 1) + {actions[n - 1].m}
    else Deleted(actions, n - 1)
  }

  /** A deletion takes only the deleted machine's slots away. */
  lemma DeleteExposure(s: Sys, m: Machine, gone: set<Machine>)
    requires ExposureOk(s, gone)
    ensures ExposureOk(s.(db := Delete(s.db, m)), gone + {m})
  {
  }

  lemma AnyStepKeepsExposure(s: Sys, a: Action, gone: set<Machine>)
    requires Inv(s) && ExposureOk(s, gone) && Enabled(s, a)
    ensures ExposureOk(Step(s, a), if a.DoDelete? then gone + {a.m} else gone)
  {
    if a.DoDelete? { DeleteExposure(s, a.m, gone); } else { StepKeepsExposure(s, a, gone); }
  }

  lemma {:induction false} RunKeepsExposure(states: seq<Sys>, actions: seq<Action>, n: nat)
    requires IsRun(states, actions) && n < |states|
    ensures Inv(states[n]) && ExposureOk(states[n], Deleted(actions, n))
  {
    RunKeepsInv(states, actions, n);
    if n > 0 {
      RunKeepsExposure(states, actions, n - 1);
      AnyStepKeepsExposure(states[n - 1], actions[n - 1], Deleted(actions, n - 1));
    }
  }

  /** The machines ever sent a generation's candidate. */
  function Exposed(s: Sys, generation: nat): set<Key> {
    set k | k in s.exposed && k.0 == generation
  }

  /** Those of them that were deleted. */
  function ExposedAndGone(s: Sys, generation: nat, gone: set<Machine>): set<Key> {
    set k | k in s.exposed && k.0 == generation && k.1 in gone
  }

  /** The machines ever sent the current candidate are at most those proven healthy, one
      batch, and the deleted ones among them; while nothing was deleted and nothing is
      proven, at most one. */
  lemma BlastRadius(states: seq<Sys>, actions: seq<Action>, n: nat)
    requires IsRun(states, actions) && n < |states| && states[n].db.platform.Some?
    ensures var s, gone := states[n], Deleted(actions, n);
            var p := s.db.platform.value;
            && |Exposed(s, p.generation)|
               <= |Proven(s.db.slots, p.generation)| + Capacity(p.stage) + |ExposedAndGone(s, p.generation, gone)|
            && (gone == {} && Proven(s.db.slots, p.generation) == {} ==> |Exposed(s, p.generation)| <= 1)
  {
    RunKeepsExposure(states, actions, n);
    var s, gone := states[n], Deleted(actions, n);
    var g := s.db.platform.value.generation;
    var known, lost := Proven(s.db.slots, g) + Held(s.db.slots, g), ExposedAndGone(s, g, gone);
    forall k | k in Exposed(s, g) ensures k in known + lost { }
    SubsetSize(Exposed(s, g), known + lost);
    assert |known + lost| <= |known| + |lost|;
    assert gone == {} ==> lost == {};
  }

  // ---- why deletions count ----

  ghost predicate Ends(actions: seq<Action>, s: Sys) {
    exists states :: IsRun(states, actions) && states[|actions|] == s
  }

  lemma OneMore(actions: seq<Action>, s: Sys, a: Action)
    requires Ends(actions, s) && Enabled(s, a)
    ensures Ends(actions + [a], Step(s, a))
  {
    var states :| IsRun(states, actions) && states[|actions|] == s;
    var states', actions' := states + [Step(s, a)], actions + [a];
    forall i | 0 <= i < |actions'|
      ensures Enabled(states'[i], actions'[i]) && states'[i + 1] == Step(states'[i], actions'[i])
    {
      if i < |actions| { assert states'[i] == states[i] && actions'[i] == actions[i]; }
    }
    assert IsRun(states', actions') && states'[|actions'|] == Step(s, a);
  }

  /** On a platform without slots, one machine is sent the build. */
  lemma SentOne(before: seq<Action>, s: Sys, m: Machine, candidate: Sha) returns (actions: seq<Action>, s': Sys)
    requires Ends(before, s) && candidate != NONE && s.pc.Idle? && s.db.slots == map[]
    requires s.db.platform == None || s.db.platform == Some(Platform(1, candidate, 0, true))
    ensures Ends(actions, s') && s'.pc.Idle? && s'.exposed == s.exposed + {(1, m)} && before <= actions
    ensures s'.db == Db(Some(Platform(1, candidate, 0, true)), map[(1, m) := Slot(0, 1, Reserved, 0, false, ATTEMPT_MS)])
  {
    var s1 := FreshlyReserved(s, m, candidate);
    OneMore(before, s, DoReserve(m, candidate, 0));
    actions := before + [DoReserve(m, candidate, 0)];
    OneMore(actions, s1, Send);
    OneMore(actions + [Send], SentTo(s1), Unmarked);
    actions := actions + [Send] + [Unmarked];
    s' := SentTo(s1).(pc := Idle);
  }

  /** Deleting the canary's machine frees its slot: a second machine is sent the build
      with nothing proven. */
  lemma DeletionWidensTheRadius(m1: Machine, m2: Machine, candidate: Sha) returns (actions: seq<Action>, s: Sys)
    requires m1 != m2 && candidate != NONE
    ensures Ends(actions, s) && s.db.platform.Some? && DoDelete(m1) in actions
    ensures Proven(s.db.slots, s.db.platform.value.generation) == {}
    ensures |Exposed(s, s.db.platform.value.generation)| == 2
  {
    var s0 := Sys(Db(None, map[]), Idle, {}, map[], map[]);
    assert IsRun([s0], []);
    assert Ends([], s0);
    var s1;
    actions, s1 := SentOne([], s0, m1, candidate);
    OneMore(actions, s1, DoDelete(m1));
    actions := actions + [DoDelete(m1)];
    var s2 := s1.(db := Delete(s1.db, m1));
    assert s2.db.slots == map[];
    assert actions[|actions| - 1] == DoDelete(m1);
    ghost var before := actions;
    actions, s := SentOne(actions, s2, m2, candidate);
    assert DoDelete(m1) in before;
    assert Exposed(s, 1) == {(1, m1), (1, m2)};
  }

  /** The first reservation on a platform without slots. */
  lemma FreshlyReserved(s: Sys, m: Machine, candidate: Sha) returns (s': Sys)
    requires candidate != NONE && s.pc.Idle? && s.db.slots == map[]
    requires s.db.platform == None || s.db.platform == Some(Platform(1, candidate, 0, true))
    ensures s' == ReserveDone(s, m, candidate, 0)
    ensures s'.db == Db(Some(Platform(1, candidate, 0, true)), map[(1, m) := Slot(0, 1, Reserved, 0, false, ATTEMPT_MS)])
    ensures s'.pc == Announcing(Reservation(1, m, 0, 1, false)) && s'.exposed == s.exposed
  {
    s' := ReserveDone(s, m, candidate, 0);
    assert s.db.slots - {(1, m)} == map[];
    assert Live(map[], 1) == {};
  }

  // ---- stages and generations ----

  /** One step never lowers the generation, changes the candidate only with a new one,
      and within one advances the stage by one at most, when a slot of that stage is
      healthy and none of the generation is in flight or failed. */
  lemma StageDiscipline(s: Sys, a: Action)
    requires Inv(s) && Enabled(s, a) && s.db.platform.Some?
    ensures Step(s, a).db.platform.Some?
    ensures var p, p' := s.db.platform.value, Step(s, a).db.platform.value;
            && p.generation <= p'.generation
            && (p'.candidate != p.candidate ==> p'.generation == p.generation + 1 && p'.stage == 0)
            && (p'.generation == p.generation && p'.stage != p.stage ==>
                  && p'.stage == p.stage + 1 && p.active && Held(s.db.slots, p.generation) == {}
                  && exists k :: k in Proven(s.db.slots, p.generation) && s.db.slots[k].stage == p.stage)
  {
    if a.TickAdvance? && Advance(s.db, s.pc.st) != s.db {
      var p := s.db.platform.value;
      var k :| k in s.db.slots && k.0 == p.generation && s.db.slots[k].stage == p.stage && s.db.slots[k].state == Healthy;
      assert k in Proven(s.db.slots, p.generation);
      assert forall x :: x in Live(s.db.slots, p.generation) ==> x in Held(s.db.slots, p.generation);
      assert Held(s.db.slots, p.generation) == {};
    }
  }

  /** A changed candidate means a later generation. */
  predicate NotBefore(p: Option<Platform>, p': Option<Platform>) {
    p.Some? ==> p'.Some? && p.value.generation <= p'.value.generation
                && (p.value.candidate != p'.value.candidate ==> p.value.generation < p'.value.generation)
  }

  lemma GenerationStep(s: Sys, a: Action)
    requires Inv(s) && Enabled(s, a)
    ensures NotBefore(s.db.platform, Step(s, a).db.platform)
  {
    if s.db.platform.Some? { StageDiscipline(s, a); }
  }

  lemma {:induction false} GenerationsNeverFall(states: seq<Sys>, actions: seq<Action>, i: nat, j: nat)
    requires IsRun(states, actions) && i <= j < |states|
    ensures NotBefore(states[i].db.platform, states[j].db.platform)
  {
    if i < j {
      GenerationsNeverFall(states, actions, i, j - 1);
      RunKeepsInv(states, actions, j - 1);
      GenerationStep(states[j - 1], actions[j - 1]);
    }
  }

  /** Going back to an earlier candidate is a new generation, of which no slot existed
      before: earlier progress is not revived. */
  lemma NothingIsRevived(states: seq<Sys>, actions: seq<Action>, i: nat, j: nat, l: nat)
    requires IsRun(states, actions) && i <= j <= l < |states|
    requires states[i].db.platform.Some? && states[j].db.platform.Some? && states[l].db.platform.Some?
    requires states[i].db.platform.value.candidate == states[l].db.platform.value.candidate
    requires states[j].db.platform.value.candidate != states[i].db.platform.value.candidate
    ensures states[l].db.platform.value.generation > states[i].db.platform.value.generation + 1
    ensures forall k :: k in states[j].db.slots ==> k.0 < states[l].db.platform.value.generation
  {
    GenerationsNeverFall(states, actions, i, j);
    GenerationsNeverFall(states, actions, j, l);
    RunKeepsInv(states, actions, j);
  }

  // ---- attempts ----

  /** In every run an attempt is sent at most four times and resent at most three. */
  lemma AttemptsAreBounded(states: seq<Sys>, actions: seq<Action>, n: nat, k: Key)
    requires IsRun(states, actions) && n < |states| && k in states[n].db.slots && states[n].db.slots[k].state != Withheld
    ensures states[n].db.slots[k].resends <= 3
    ensures k in states[n].sends && states[n].sends[k] <= 4
  {
    RunKeepsInv(states, actions, n);
    assert AttemptOk(k, states[n].db.slots[k], states[n].pc, states[n].sends, states[n].due);
  }

  /** The same attempt, later: the deadline is no earlier, moved only with the one grace,
      and the resends only grew. */
  predicate SameAttemptLater(slot: Slot, slot': Slot) {
    && slot'.attempt == slot.attempt ==>
         && slot.deadline <= slot'.deadline && slot.resends <= slot'.resends
         && (slot.graceUsed ==> slot'.graceUsed && slot'.deadline == slot.deadline)
         && (slot'.deadline != slot.deadline ==> slot'.graceUsed)
  }

  /** One step's effect on a slot; only an operator's resume of a failed one opens another
      attempt. */
  predicate SlotStep(slot: Slot, slot': Slot, resumed: bool) {
    && slot'.state != Withheld && slot.attempt <= slot'.attempt && SameAttemptLater(slot, slot')
    && (slot.attempt != slot'.attempt ==> resumed && slot.state == Failed && slot'.attempt == slot.attempt + 1)
  }

  /** Slots that were not withheld take such a step, if they stay. */
  ghost predicate SlotsStep(slots: Slots, slots': Slots, resumed: bool) {
    forall k :: k in slots && slots[k].state != Withheld && k in slots' ==> SlotStep(slots[k], slots'[k], resumed)
  }

  lemma ReserveSlots(db: Db, m: Machine, candidate: Sha, now: int)
    ensures SlotsStep(db.slots, Reserve(db, m, candidate, now).db.slots, false)
  {
  }

  lemma ResumeSlots(db: Db, now: int)
    ensures SlotsStep(db.slots, Resume(db, now).slots, true)
  {
  }

  lemma ReconcileSlots(db: Db, now: int)
    ensures SlotsStep(db.slots, Reconcile(db, now).slots, false)
  {
  }

  lemma StateSlots(slots: Slots, k: Key, s: SlotState)
    requires s != Withheld
    ensures SlotsStep(slots, WithState(slots, k, s), false) && SlotsStep(slots, slots, false)
  {
  }

  /** One step keeps an attempt's deadline and counts in order; only an operator's resume
      of a failed slot opens another attempt, with a larger number. */
  lemma AttemptStep(s: Sys, a: Action)
    requires Enabled(s, a)
    ensures SlotsStep(s.db.slots, Step(s, a).db.slots, a.DoResume?)
  {
    StateSlots(s.db.slots, (0, 0), Healthy);
    match a
    case TickPromote => StateSlots(s.db.slots, (s.pc.st.generation, s.pc.todo[0].machine), Healthy);
    case TickFail(_) => StateSlots(s.db.slots, (s.pc.st.generation, s.pc.todo[0].machine), Failed);
    case DoReserve(m, candidate, now) => ReserveSlots(s.db, m, candidate, now);
    case Mark => StateSlots(s.db.slots, KeyOf(s.pc.r), Offered);
    case DoObserve(m, generation) => StateSlots(s.db.slots, (generation, m), Observed);
    case DoResume(now) => ResumeSlots(s.db, now);
    case Restart(now) => ReconcileSlots(s.db, now);
    case _ =>
  }

  /** The slot was there, not withheld, all the way. */
  ghost predicate There(states: seq<Sys>, k: Key, i: nat, j: nat) {
    j < |states| && forall n :: i <= n <= j ==> k in states[n].db.slots && states[n].db.slots[k].state != Withheld
  }

  lemma NextAttempt(states: seq<Sys>, actions: seq<Action>, k: Key, j: nat)
    requires IsRun(states, actions) && 0 < j < |states| && There(states, k, j - 1, j)
    requires k in states[j - 1].db.slots && k in states[j].db.slots
    ensures states[j - 1].db.slots[k].attempt <= states[j].db.slots[k].attempt
    ensures SameAttemptLater(states[j - 1].db.slots[k], states[j].db.slots[k])
  {
    AttemptStep(states[j - 1], actions[j - 1]);
    assert SlotStep(states[j - 1].db.slots[k], states[j].db.slots[k], actions[j - 1].DoResume?);
  }

  /** While a slot exists, within one attempt the deadline never moves earlier and moves
      at most once, whatever ticks, triggers, crashes and restarts do. */
  lemma {:induction false} DeadlineMovesOnce(states: seq<Sys>, actions: seq<Action>, k: Key, i: nat, j: nat)
    requires IsRun(states, actions) && i <= j < |states| && There(states, k, i, j)
    ensures states[i].db.slots[k].attempt <= states[j].db.slots[k].attempt
    ensures SameAttemptLater(states[i].db.slots[k], states[j].db.slots[k])
  {
    if i < j {
      DeadlineMovesOnce(states, actions, k, i, j - 1);
      assert k in states[j].db.slots;
      NextAttempt(states, actions, k, j);
    }
  }
}
