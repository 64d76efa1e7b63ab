/** What each statement of the rollout achieves, by its consequences: who is admitted,
    what a failure halts, what a resume reopens, and that nothing else changes. */
module RolloutEffects {
  import opened Common
  import opened RolloutStore
  import opened RolloutProtocol
  import opened RolloutSafety

  /** At most this slot differs. */
  ghost predicate OthersKept(before: Slots, after: Slots, k: Key) {
    forall x :: x != k ==> (x in before <==> x in after) && (x in before ==> after[x] == before[x])
  }

  /** The machine could be sent the build were the platform active: its slot is waiting
      for a resend, or it has none that counts and the batch has room. */
  predicate Sendable(slots: Slots, generation: nat, stage: nat, m: Machine, now: int) {
    var k := (generation, m);
    if k in slots && slots[k].state != Withheld
    then slots[k].state == Reserved && now <= slots[k].deadline && slots[k].resends < 3
    else |Live(slots, generation)| < (if stage == 0 then 1 else 2)
  }

  /** The platform runs this candidate: as it was, or as a new generation if another one
      was running. */
  predicate RunsCandidate(before: Option<Platform>, p: Platform, candidate: Sha) {
    && p.candidate == candidate
    && match before
       case None => p.generation == 1 && p.stage == 0
       case Some(b) => if b.candidate == candidate then p.generation == b.generation && p.stage == b.stage
                       else p.generation == b.generation + 1 && p.stage == 0
  }

  predicate Halted(before: Option<Platform>, candidate: Sha) {
    before.Some? && before.value.candidate == candidate && !before.value.active
  }

  /** A reservation is made exactly when the platform is not halted and the machine can be
      sent the build; it is what the slot then says. */
  lemma ReserveDecides(db: Db, m: Machine, candidate: Sha, now: int)
    requires candidate != NONE
    ensures var (after, r) := (Reserve(db, m, candidate, now).db, Reserve(db, m, candidate, now).reservation);
            && after.platform.Some? && RunsCandidate(db.platform, after.platform.value, candidate)
            && var p := after.platform.value;
            && OthersKept(db.slots, after.slots, (p.generation, m))
            && (r.Some? <==> !Halted(db.platform, candidate) && Sendable(db.slots, p.generation, p.stage, m, now))
            && (r.Some? ==> p.active && Granted(db.slots, after.slots, p, m, now, r.value))
  {
    var st := Load(db.platform, candidate);
    var k := (st.generation, m);
    if k !in db.slots || db.slots[k].state == Withheld {
      assert Live(db.slots - {k}, st.generation) == Live(db.slots, st.generation);
    }
  }

  /** A first attempt of ten minutes, or one more send within the attempt there is. */
  predicate Granted(before: Slots, after: Slots, p: Platform, m: Machine, now: int, r: RolloutStore.Reservation) {
    var k := (p.generation, m);
    && k in after && after[k].state == Reserved && r.generation == p.generation && r.machine == m && r.stage == p.stage
    && r.attempt == after[k].attempt && (r.resend <==> k in before && before[k].state == Reserved)
    && (r.resend ==> after[k] == before[k].(resends := before[k].resends + 1))
    && (!r.resend ==> after[k].attempt == 1 && after[k].resends == 0 && after[k].deadline == now + 600_000 && after[k].stage == p.stage)
  }

  /** A slot waiting for a resend that has run out of time or of resends fails, and the
      platform halts. */
  lemma ExhaustedHalts(db: Db, m: Machine, candidate: Sha, now: int)
    requires candidate != NONE && db.platform.Some? && db.platform.value.candidate == candidate && db.platform.value.active
    requires var k := (db.platform.value.generation, m);
             k in db.slots && db.slots[k].state == Reserved && (now > db.slots[k].deadline || db.slots[k].resends >= 3)
    ensures var (p, k) := (db.platform.value, (db.platform.value.generation, m));
            var after := Reserve(db, m, candidate, now).db;
            && Reserve(db, m, candidate, now).reservation.None?
            && after.platform == Some(p.(active := false))
            && after.slots == db.slots[k := db.slots[k].(state := Failed)]
  {
  }

  /** Nothing is decided about a machine that was offered the build, runs it, has proven
      it or has failed; nor on a halted platform. */
  lemma ReserveLeavesDecided(db: Db, m: Machine, candidate: Sha, now: int)
    requires candidate != NONE && db.platform.Some? && db.platform.value.candidate == candidate
    requires var k := (db.platform.value.generation, m);
             !db.platform.value.active
             || (k in db.slots && db.slots[k].state in {Offered, Observed, Healthy, Failed})
    ensures Reserve(db, m, candidate, now) == Reply(db, None)
  {
  }

  /** A reservation given back before the send leaves the machine without a slot and every
      other slot as it was; so the machine can be reserved again. */
  lemma ReleaseUndoesReserve(db: Db, m: Machine, candidate: Sha, now: int)
    requires Reserve(db, m, candidate, now).reservation.Some? && !Reserve(db, m, candidate, now).reservation.value.resend
    ensures var (after, r) := (Reserve(db, m, candidate, now).db, Reserve(db, m, candidate, now).reservation.value);
            && Release(after, r).platform == after.platform
            && Release(after, r).slots == db.slots - {(r.generation, m)}
            && Reserve(Release(after, r), m, candidate, now).reservation == Some(r)
  {
    var after, r := Reserve(db, m, candidate, now).db, Reserve(db, m, candidate, now).reservation.value;
    var k := (r.generation, m);
    assert Release(after, r).slots == db.slots - {k};
    assert db.slots - {k} - {k} == db.slots - {k};
    assert Live(db.slots - {k}, r.generation) <= Live(after.slots, r.generation) - {k};
    ReserveDecides(db, m, candidate, now);
  }

  /** Once marked offered a reservation is neither sent nor given back again, and only its
      own slot changed. */
  lemma OfferedIsFinal(db: Db, r: RolloutStore.Reservation, now: int)
    requires Holds(db.slots, r) && db.platform.Some? && db.platform.value.generation == r.generation
    requires db.platform.value.candidate != NONE
    ensures var after := MarkOffered(db, r);
            && after.platform == db.platform
            && after.slots == db.slots[(r.generation, r.machine) := db.slots[(r.generation, r.machine)].(state := Offered)]
            && Reserve(after, r.machine, db.platform.value.candidate, now) == Reply(after, None)
            && Release(after, r) == after
  {
  }

  /** A mark or a give-back that comes too late, for another attempt or a decided slot,
      changes nothing. */
  lemma LateMarksAreIgnored(db: Db, r: RolloutStore.Reservation)
    requires var k := (r.generation, r.machine);
             k !in db.slots || db.slots[k].attempt != r.attempt || db.slots[k].state != Reserved
    ensures MarkOffered(db, r) == db && Release(db, r) == db
  {
  }

  /** A report that the machine runs the candidate turns its waiting slot into an observed
      one, which still holds capacity and keeps its deadline. */
  lemma ObservedHoldsCapacity(db: Db, m: Machine, generation: nat)
    ensures var (k, after) := ((generation, m), Observe(db, m, generation));
            && after.platform == db.platform && OthersKept(db.slots, after.slots, k)
            && Live(after.slots, generation) == Live(db.slots, generation)
            && (k in db.slots && db.slots[k].state in {Reserved, Offered} ==>
                  k in after.slots && after.slots[k] == db.slots[k].(state := Observed))
            && (k in db.slots && db.slots[k].state !in {Reserved, Offered} ==> after == db)
  {
  }

  /** A refusal is recorded without taking capacity, and as soon as there is room the
      machine is admitted after all. */
  lemma WithheldStaysEligible(db: Db, m: Machine, candidate: Sha, now: int, later: int)
    requires candidate != NONE
    ensures var after := Withhold(db, m, candidate, now);
            && after.platform.Some? && RunsCandidate(db.platform, after.platform.value, candidate)
            && var p := after.platform.value; var k := (p.generation, m);
            && OthersKept(db.slots, after.slots, k) && Live(after.slots, p.generation) == Live(db.slots, p.generation)
            && (k in db.slots ==> after.slots == db.slots)
            && (k !in db.slots ==> k in after.slots && after.slots[k].state == Withheld)
            && (k !in db.slots && p.active && |Live(db.slots, p.generation)| < Capacity(p.stage) ==>
                  Reserve(after, m, candidate, later).reservation.Some?)
  {
    var st := Load(db.platform, candidate);
    var k := (st.generation, m);
    if k !in db.slots {
      var after := Withhold(db, m, candidate, now);
      assert after.slots - {k} == db.slots;
      assert Live(after.slots, st.generation) == Live(db.slots, st.generation);
      ReserveDecides(after, m, candidate, later);
    }
  }

  /** A failed slot is failed, and halts the platform if it is of its generation; nothing
      else changes. */
  lemma FailureHalts(db: Db, generation: nat, m: Machine)
    ensures var (k, after) := ((generation, m), FailSlot(db, generation, m));
            && OthersKept(db.slots, after.slots, k) && (k in after.slots <==> k in db.slots)
            && (k in db.slots ==> after.slots[k] == db.slots[k].(state := Failed))
            && (db.platform.Some? && db.platform.value.generation == generation ==>
                  after.platform == Some(db.platform.value.(active := false)))
            && (db.platform.Some? && db.platform.value.generation != generation ==> after.platform == db.platform)
            && (db.platform.None? ==> after.platform.None?)
  {
  }

  /** After a failure of its generation the platform admits nobody until it is resumed or
      given another candidate. */
  lemma HaltedAdmitsNobody(db: Db, generation: nat, failed: Machine, m: Machine, now: int)
    requires db.platform.Some? && db.platform.value.generation == generation
    ensures var after := FailSlot(db, generation, failed);
            Reserve(after, m, db.platform.value.candidate, now) == Reply(after, None)
            || db.platform.value.candidate == NONE
  {
  }

  /** A tick that finds a slot out of time fails it and halts the platform. */
  lemma TimeoutHalts(s: Sys, now: int)
    requires Inv(s) && Enabled(s, TickFail(now))
    ensures var (k, after) := ((s.pc.st.generation, s.pc.todo[0].machine), Step(s, TickFail(now)));
            && after.pc.Idle? && after.db.platform.Some? && !after.db.platform.value.active
            && (k in s.db.slots ==> k in after.db.slots && after.db.slots[k].state == Failed)
            && OthersKept(s.db.slots, after.db.slots, k)
  {
    FailureHalts(s.db, s.pc.st.generation, s.pc.todo[0].machine);
  }

  /** Resuming clears the halt and opens the next attempt of every failed slot, with a full
      window, budget and grace; the machine is then sent the build again. */
  lemma ResumeReopens(db: Db, now: int, m: Machine, later: int)
    requires db.platform.Some? && db.platform.value.candidate != NONE
    ensures var (p, after) := (db.platform.value, Resume(db, now));
            && after.platform == Some(p.(active := true)) && after.slots.Keys == db.slots.Keys
            && (forall k :: k in db.slots && (k.0 != p.generation || db.slots[k].state != Failed) ==> after.slots[k] == db.slots[k])
            && (forall k :: k in db.slots && k.0 == p.generation && db.slots[k].state == Failed ==>
                  after.slots[k] == Slot(db.slots[k].stage, db.slots[k].attempt + 1, Reserved, 0, false, now + 600_000))
            && ((p.generation, m) in db.slots && db.slots[(p.generation, m)].state == Failed && later <= now + 600_000 ==>
                  Reserve(after, m, p.candidate, later).reservation
                    == Some(Reservation(p.generation, m, p.stage, db.slots[(p.generation, m)].attempt + 1, true)))
  {
  }

  /** A restart gives each live attempt at least five minutes, once; a second one gives
      nothing more. */
  lemma GraceIsGivenOnce(db: Db, now: int, later: int)
    ensures var after := Reconcile(db, now);
            && after.platform == db.platform && after.slots.Keys == db.slots.Keys
            && (forall k :: k in db.slots && IsLive(db.slots[k].state) && !db.slots[k].graceUsed ==>
                  && after.slots[k].deadline >= now + 300_000 && after.slots[k].deadline >= db.slots[k].deadline
                  && (after.slots[k].deadline == now + 300_000 || after.slots[k].deadline == db.slots[k].deadline)
                  && after.slots[k].graceUsed && after.slots[k].state == db.slots[k].state)
            && (forall k :: k in db.slots && (!IsLive(db.slots[k].state) || db.slots[k].graceUsed) ==> after.slots[k] == db.slots[k])
            && Reconcile(after, later) == after
  {
    var after := Reconcile(db, now);
    assert Reconcile(after, later).slots == after.slots;
  }

  /** A deleted machine has no slot in any generation, and nobody else loses one. */
  lemma DeletedIsGone(db: Db, m: Machine)
    ensures var after := Delete(db, m);
            && after.platform == db.platform
            && forall k :: (k in after.slots <==> k in db.slots && k.1 != m) && (k in after.slots ==> after.slots[k] == db.slots[k])
  {
  }

  /** A proven slot is healthy and no longer holds capacity. */
  lemma ProvenFreesCapacity(db: Db, generation: nat, m: Machine)
    requires (generation, m) in db.slots
    ensures var (k, after) := ((generation, m), Promote(db, generation, m));
            && after.platform == db.platform && after.slots == db.slots[k := db.slots[k].(state := Healthy)]
            && Live(after.slots, generation) == Live(db.slots, generation) - {k}
  {
  }

  /** The stage advances by one exactly when the platform is still active at it, some slot
      of it is healthy and none is in flight. */
  lemma AdvancesExactlyWhenDone(db: Db, st: Platform)
    ensures var after := Advance(db, st);
            && after.slots == db.slots
            && (after != db <==>
                  && db.platform.Some? && db.platform.value.active
                  && db.platform.value.generation == st.generation && db.platform.value.stage == st.stage
                  && (exists k :: k in db.slots && k.0 == st.generation && db.slots[k].stage == st.stage && db.slots[k].state == Healthy)
                  && (forall k :: k in Live(db.slots, st.generation) ==> db.slots[k].stage != st.stage))
            && (after != db ==> after.platform == Some(db.platform.value.(stage := st.stage + 1)))
  {
    assert forall k :: k in Live(db.slots, st.generation) <==> k in db.slots && k.0 == st.generation && IsLive(db.slots[k].state);
  }
}
