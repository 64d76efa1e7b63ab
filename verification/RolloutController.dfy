/** The controller's transactions as they change the rows, and the scheduler's two jobs,
    each a sequence of steps of the protocol with everybody else's steps between. */
module RolloutController {
  import opened Common
  import opened RolloutStore
  import opened RolloutProtocol
  import opened RolloutSafety
  import opened RolloutEffects
  import D = Dwell

  class RolloutController {
    var platform: Option<Platform>
    var slots: Slots
    ghost var pc: Pc
    ghost var exposed: set<Key>
    ghost var sends: map<Key, nat>
    ghost var due: map<Key, int>

    ghost function Rows(): Db reads this {
      Db(platform, slots)
    }

    ghost function State(): Sys reads this {
      Sys(Rows(), pc, exposed, sends, due)
    }

    ghost predicate Valid() reads this {
      Inv(State())
    }

    constructor ()
      ensures Valid() && Initial(State())
    {
      platform, slots, pc, exposed, sends, due := None, map[], Idle, {}, map[], map[];
    }

    // ---- single transactions ----

    method LoadPlatform(candidate: Sha) returns (st: Platform)
      modifies this`platform
      ensures st == Load(old(platform), candidate) && platform == Some(st)
    {
      if platform.None? {
        st := Platform(1, candidate, 0, true);
      } else {
        st := platform.value;
        if st.candidate != candidate {
          st := st.(generation := st.generation + 1, candidate := candidate, stage := 0, active := true);
        }
      }
      platform := Some(st);
    }

    method FailSlot(generation: nat, m: Machine)
      modifies this`platform, this`slots
      ensures Rows() == RolloutStore.FailSlot(old(Rows()), generation, m)
      ensures old(platform).Some? && old(platform).value.generation == generation ==>
                platform == Some(old(platform).value.(active := false))
      ensures (generation, m) in old(slots) ==> slots == old(slots)[(generation, m) := old(slots)[(generation, m)].(state := Failed)]
      ensures (generation, m) !in old(slots) ==> slots == old(slots)
    {
      if (generation, m) in slots {
        slots := slots[(generation, m) := slots[(generation, m)].(state := Failed)];
      }
      if platform.Some? && platform.value.generation == generation {
        platform := Some(platform.value.(active := false));
      }
    }

    /** One transaction: the capacity check, the stage and the insert see the same rows. */
    method Reserve(m: Machine, candidate: Sha, now: int) returns (r: Option<Reservation>)
      modifies this`platform, this`slots
      ensures Reply(Rows(), r) == RolloutStore.Reserve(old(Rows()), m, candidate, now)
    {
      if candidate == NONE { return None; }
      var st := LoadPlatform(candidate);
      if !st.active { return None; }
      var k := (st.generation, m);
      if k in slots {
        var slot := slots[k];
        match slot.state
        case Healthy => return None;
        case Failed => return None;
        case Offered => return None;
        case Observed => return None;
        case Withheld => slots := slots - {k};
        case Reserved =>
          if now > slot.deadline || slot.resends >= MAX_RESENDS {
            FailSlot(st.generation, m);
            return None;
          }
          slots := slots[k := slot.(resends := slot.resends + 1)];
          return Some(Reservation(st.generation, m, st.stage, slot.attempt, true));
      } else {
        assert slots - {k} == slots;
      }
      var outstanding := set x | x in slots && x.0 == st.generation && IsLive(slots[x].state);
      if |outstanding| >= Capacity(st.stage) { return None; }
      slots := slots[k := Slot(st.stage, 1, RolloutStore.Reserved, 0, false, now + ATTEMPT_MS)];
      return Some(Reservation(st.generation, m, st.stage, 1, false));
    }

    method ReleaseBeforeSend(r: Reservation)
      modifies this`slots
      ensures Rows() == Release(old(Rows()), r)
    {
      var k := (r.generation, r.machine);
      if k in slots && slots[k].attempt == r.attempt && slots[k].state == RolloutStore.Reserved { slots := slots - {k}; }
    }

    method MarkOffered(r: Reservation)
      modifies this`slots
      ensures Rows() == RolloutStore.MarkOffered(old(Rows()), r)
    {
      var k := (r.generation, r.machine);
      if k in slots && slots[k].attempt == r.attempt && slots[k].state == RolloutStore.Reserved {
        slots := slots[k := slots[k].(state := Offered)];
      }
    }

    method ObserveRunningCandidate(m: Machine, generation: nat)
      requires Valid()
      modifies this`slots
      ensures Valid() && Rows() == Observe(old(Rows()), m, generation)
    {
      ObserveStep(State(), m, generation);
      var k := (generation, m);
      if k in slots && (slots[k].state == RolloutStore.Reserved || slots[k].state == Offered) {
        slots := slots[k := slots[k].(state := Observed)];
      }
    }

    method Withhold(m: Machine, candidate: Sha, now: int)
      requires Valid() && pc.Idle?
      modifies this`platform, this`slots
      ensures Valid() && Rows() == RolloutStore.Withhold(old(Rows()), m, candidate, now)
    {
      WithholdStep(State(), m, candidate, now);
      var st := LoadPlatform(candidate);
      if (st.generation, m) !in slots {
        slots := slots[(st.generation, m) := Slot(st.stage, 0, Withheld, 0, false, now)];
      }
    }

    method Resume(now: int)
      requires Valid()
      modifies this`platform, this`slots, this`sends, this`due
      ensures Valid() && Rows() == RolloutStore.Resume(old(Rows()), now)
    {
      ResumeStep(State(), now);
      ghost var s := Resumed(State(), now);
      if platform.None? {
        SameHistory(State(), now);
        return;
      }
      var g := platform.value.generation;
      slots := map k | k in slots :: if k.0 == g && slots[k].state == Failed then Reopened(slots[k], now) else slots[k];
      platform := Some(platform.value.(active := true));
      sends, due := s.sends, s.due;
    }

    lemma SameHistory(s: Sys, now: int)
      requires s.db.platform.None?
      ensures Resumed(s, now) == s
    {
      assert Resumed(s, now).sends == s.sends && Resumed(s, now).due == s.due;
    }

    /** A restart forgets what the scheduler was doing and extends each live attempt
        once. */
    method ReconcileAfterRestart(now: int)
      requires Valid()
      modifies this`slots, this`pc
      ensures Valid() && pc == Idle && Rows() == Reconcile(old(Rows()), now)
    {
      RestartStep(State(), now);
      slots := map k | k in slots :: Graced(slots[k], now);
      pc := Idle;
    }

    method DeleteMachine(m: Machine)
      requires Valid()
      modifies this`slots
      ensures Valid() && Rows() == Delete(old(Rows()), m)
    {
      DeleteStep(State(), m);
      slots := map k | k in slots && k.1 != m :: slots[k];
    }

    // ---- everybody else ----

    /** Nobody but the scheduler makes a slot healthy. */
    static predicate NoneNewlyHealthy(before: Slots, after: Slots) {
      forall k :: k in after && after[k].state == Healthy ==> k in before && before[k].state == Healthy
    }

    /** The platform is halted or resumed at most. */
    static predicate SamePlatform(before: Option<Platform>, after: Option<Platform>) {
      && before.Some? == after.Some?
      && (before.Some? ==> after.value.(active := before.value.active) == before.value)
    }

    /** What happens between two statements of the scheduler: reports, operator resumes
        and machine deletions, in any number. */
    method Others(events: seq<Event>)
      requires Valid()
      modifies this`platform, this`slots, this`sends, this`due
      ensures Valid() && SamePlatform(old(platform), platform) && NoneNewlyHealthy(old(slots), slots)
      ensures events == [] ==> Rows() == old(Rows())
    {
      for i := 0 to |events|
        invariant Valid() && SamePlatform(old(platform), platform) && NoneNewlyHealthy(old(slots), slots)
        invariant i == 0 ==> Rows() == old(Rows())
      {
        match events[i]
        case Reported(m, generation) => ObserveRunningCandidate(m, generation);
        case OperatorResumed(now) => Resume(now);
        case Deleted(m) => DeleteMachine(m);
      }
    }

    // ---- the scheduler ----

    /** Reads every live slot of the generation. */
    method Outstanding(generation: nat) returns (todo: seq<Due>)
      ensures Lists(todo, slots, generation)
    {
      todo := [];
      var left := set k | k in slots && k.0 == generation && IsLive(slots[k].state);
      while left != {}
        invariant left <= Live(slots, generation)
        invariant forall i, j :: 0 <= i < j < |todo| ==> todo[i].machine != todo[j].machine
        invariant forall d :: d in todo ==>
                    (generation, d.machine) in Live(slots, generation) - left && slots[(generation, d.machine)].deadline == d.deadline
        invariant forall k :: k in Live(slots, generation) - left ==> exists d :: d in todo && d.machine == k.1
      {
        var k :| k in left;
        var d := Due(k.1, slots[k].deadline);
        ghost var before := todo;
        todo := todo + [d];
        left := left - {k};
        assert todo[|todo| - 1] == d;
        assert forall x :: x in before ==> x in todo;
      }
    }

    /** Promotes what has proven itself, fails what ran out of time, and advances the
        stage. `books` is the evidence of each connected machine, `events` what happens
        meanwhile. A slot becomes healthy only when the connection that owns its machine
        has proven this generation's candidate, and the stage moves only past a healthy
        slot with nothing of it in flight. */
    method Tick(now: int, books: map<Machine, D.DwellBook>, events: nat -> seq<Event>)
      requires Valid() && pc.Idle?
      requires BooksOk(books)
      modifies this
      ensures Valid() && pc.Idle? && exposed == old(exposed)
      ensures old(platform).None? || !old(platform).value.active ==> Rows() == old(Rows())
      ensures old(platform).Some? ==>
                OnlyProvenNew(old(slots), slots, old(platform).value.generation, old(ProvenMachines(books, platform.value, now)))
      ensures platform.Some? == old(platform).Some?
      ensures platform.Some? ==> AtMostAdvanced(old(platform).value, platform.value, slots)
      ensures old(platform).Some? && old(platform).value.active && Quiet(events) ==>
                TickDecides(old(slots), old(platform).value, slots, platform, old(ProvenMachines(books, platform.value, now)), now)
    {
      if platform.None? || !platform.value.active { return; }
      var st := platform.value;
      ghost var proven := ProvenMachines(books, st, now);
      var todo := Outstanding(st.generation);
      Begin(st, todo);
      var halted := JudgeAll(st, todo, now, books, events);
      if halted { return; }
      if Quiet(events) { NothingOverdue(old(slots), slots, st, todo, proven, now); }
      Close(st, events(|todo|));
    }

    /** The end of a tick that halted nothing. */
    method Close(st: Platform, events: seq<Event>)
      requires Valid() && pc == Ticking(st, []) && SamePlatform(Some(st), platform)
      modifies this
      ensures Valid() && pc.Idle? && exposed == old(exposed) && NoneNewlyHealthy(old(slots), slots)
      ensures platform.Some? && AtMostAdvanced(st, platform.value, slots)
      ensures events == [] && old(platform) == Some(st) && st.active ==>
                slots == old(slots) && platform == Some(AfterStage(old(slots), st))
    {
      Others(events);
      Finish(st);
    }

    static function AfterStage(slots: Slots, p: Platform): Platform {
      if StageDone(slots, p) then p.(stage := p.stage + 1) else p
    }

    /** Nothing happens meanwhile. */
    static ghost predicate Quiet(events: nat -> seq<Event>) {
      forall i :: events(i) == []
    }

    /** Undisturbed: an overdue slot, if there is one, fails and halts the platform; if
        there is none, exactly the proven ones are healthy and a finished stage advances. */
    static ghost predicate TickDecides(before: Slots, p: Platform, after: Slots, p': Option<Platform>, proven: set<Machine>, now: int) {
      if exists k :: Overdue(before, p.generation, proven, now, k)
      then p' == Some(p.(active := false)) && exists k :: Overdue(before, p.generation, proven, now, k) && k in after && after[k].state == Failed
      else p'.Some? && AllDecided(before, after, p, p'.value, proven)
    }

    /** Every listed slot in turn, up to the first that is out of time. */
    method JudgeAll(st: Platform, todo: seq<Due>, now: int, books: map<Machine, D.DwellBook>, events: nat -> seq<Event>)
      returns (halted: bool)
      requires Valid() && pc == Ticking(st, todo) && platform == Some(st) && Lists(todo, slots, st.generation)
      requires BooksOk(books)
      modifies this
      ensures Valid() && pc == (if halted then Idle else Ticking(st, [])) && exposed == old(exposed)
      ensures SamePlatform(Some(st), platform)
      ensures OnlyProvenNew(old(slots), slots, st.generation, old(ProvenMachines(books, st, now)))
      ensures Quiet(events) && !halted ==>
                platform == Some(st) && JudgedSoFar(old(slots), slots, st.generation, todo, |todo|, old(ProvenMachines(books, st, now)), now)
      ensures Quiet(events) && halted ==>
                platform == Some(st.(active := false))
                && exists k :: Overdue(old(slots), st.generation, old(ProvenMachines(books, st, now)), now, k) && k in slots && slots[k].state == Failed
    {
      ghost var proven := ProvenMachines(books, st, now);
      ghost var before := slots;
      assert todo[0..] == todo;
      for i := 0 to |todo|
        invariant Valid() && pc == Ticking(st, todo[i..]) && exposed == old(exposed)
        invariant BooksOk(books) && proven == ProvenMachines(books, st, now)
        invariant SamePlatform(Some(st), platform) && OnlyProvenNew(before, slots, st.generation, proven)
        invariant Quiet(events) ==> platform == Some(st) && JudgedSoFar(before, slots, st.generation, todo, i, proven, now)
      {
        ghost var mid := slots;
        halted := Judge(st, todo[i], todo[i + 1..], now, books, events(i));
        if halted {
          if Quiet(events) { FirstOverdue(before, mid, slots, st.generation, todo, i, proven, now); }
          return;
        }
        if Quiet(events) { JudgedOneMore(before, mid, slots, st.generation, todo, i, proven, now); }
      }
      halted := false;
    }

    lemma FirstOverdue(before: Slots, mid: Slots, after: Slots, generation: nat, todo: seq<Due>, n: nat, proven: set<Machine>, now: int)
      requires n < |todo| && Lists(todo, before, generation) && JudgedSoFar(before, mid, generation, todo, n, proven, now)
      requires Judged(mid, after, generation, todo[n], todo[n].machine in proven, true, now)
      ensures exists k :: Overdue(before, generation, proven, now, k) && k in after && after[k].state == Failed
    {
      assert todo[n] in todo;
      assert Overdue(before, generation, proven, now, (generation, todo[n].machine));
    }

    /** What a tick does for one slot, after whatever happened since the last one. */
    method Judge(st: Platform, d: Due, ghost rest: seq<Due>, now: int, books: map<Machine, D.DwellBook>, events: seq<Event>)
      returns (halted: bool)
      requires Valid() && pc.Ticking? && pc.st == st && pc.todo != [] && pc.todo[0] == d && pc.todo[1..] == rest
      requires BooksOk(books) && SamePlatform(Some(st), platform)
      modifies this
      ensures Valid() && pc == (if halted then Idle else Ticking(st, rest)) && exposed == old(exposed)
      ensures BooksOk(books) && ProvenMachines(books, st, now) == old(ProvenMachines(books, st, now))
      ensures SamePlatform(Some(st), platform)
      ensures OnlyProvenNew(old(slots), slots, st.generation, ProvenMachines(books, st, now))
      ensures events == [] ==> Judged(old(slots), slots, st.generation, d, d.machine in ProvenMachines(books, st, now), halted, now)
      ensures events == [] && !halted ==> platform == old(platform)
      ensures halted ==> platform.Some? && !platform.value.active
    {
      Others(events);
      var proven := false;
      if d.machine in books { proven := books[d.machine].DwellSatisfied(st.generation, st.candidate, now); }
      halted := Decide(st, d, rest, now, proven);
    }

    /** Undisturbed, a listed slot that is proven is healthy afterwards, one out of time is
        failed, and any other is as it was. */
    static ghost predicate Judged(before: Slots, after: Slots, generation: nat, d: Due, proven: bool, halted: bool, now: int) {
      var k := (generation, d.machine);
      && halted == (!proven && now > d.deadline)
      && (k in before ==>
            after == if proven then before[k := before[k].(state := Healthy)]
                     else if halted then before[k := before[k].(state := Failed)] else before)
    }

    /** The first n of these slots judged, none of them out of time. */
    static ghost predicate JudgedSoFar(before: Slots, after: Slots, generation: nat, todo: seq<Due>, n: nat, proven: set<Machine>, now: int)
      requires n <= |todo|
    {
      && after.Keys == before.Keys
      && (forall i :: 0 <= i < n ==> todo[i].machine in proven || now <= todo[i].deadline)
      && (forall i {:trigger todo[i]} :: 0 <= i < n && todo[i].machine in proven && (generation, todo[i].machine) in before ==>
            after[(generation, todo[i].machine)] == before[(generation, todo[i].machine)].(state := Healthy))
      && (forall k :: k in before && (k.0 != generation || k.1 !in proven || !ListedBelow(todo, n, k.1)) ==> after[k] == before[k])
    }

    static ghost predicate ListedBelow(todo: seq<Due>, n: nat, m: Machine)
      requires n <= |todo|
    {
      exists i :: 0 <= i < n && todo[i].machine == m
    }

    /** A live slot of the generation that is neither proven nor in time. */
    static ghost predicate Overdue(slots: Slots, generation: nat, proven: set<Machine>, now: int, k: Key) {
      k in Live(slots, generation) && k.1 !in proven && now > slots[k].deadline
    }

    /** An undisturbed tick in which nothing is overdue makes exactly the proven live slots
        healthy, and then advances a finished stage. */
    static ghost predicate AllDecided(before: Slots, after: Slots, p: Platform, p': Platform, proven: set<Machine>) {
      && after.Keys == before.Keys
      && (forall k :: k in before ==>
            after[k] == if k in Live(before, p.generation) && k.1 in proven then before[k].(state := Healthy) else before[k])
      && p' == AfterStage(after, p)
    }

    lemma NothingOverdue(before: Slots, after: Slots, p: Platform, todo: seq<Due>, proven: set<Machine>, now: int)
      requires Lists(todo, before, p.generation) && JudgedSoFar(before, after, p.generation, todo, |todo|, proven, now)
      ensures TickDecides(before, p, after, Some(AfterStage(after, p)), proven, now)
    {
      forall k | k in Live(before, p.generation) ensures ListedBelow(todo, |todo|, k.1) && !Overdue(before, p.generation, proven, now, k) {
        var d :| d in todo && d.machine == k.1;
        var i :| 0 <= i < |todo| && todo[i] == d;
        assert before[(p.generation, d.machine)].deadline == d.deadline;
      }
      forall k | k in before && k.0 == p.generation && ListedBelow(todo, |todo|, k.1) ensures k in Live(before, p.generation) {
        var i :| 0 <= i < |todo| && todo[i].machine == k.1;
        assert todo[i] in todo;
      }
    }

    lemma JudgedOneMore(before: Slots, mid: Slots, after: Slots, generation: nat, todo: seq<Due>, n: nat, proven: set<Machine>, now: int)
      requires n < |todo| && Lists(todo, before, generation) && JudgedSoFar(before, mid, generation, todo, n, proven, now)
      requires Judged(mid, after, generation, todo[n], todo[n].machine in proven, false, now)
      ensures JudgedSoFar(before, after, generation, todo, n + 1, proven, now)
    {
      assert todo[n] in todo;
      assert (generation, todo[n].machine) in mid;
      forall k | k in before && (k.0 != generation || k.1 !in proven || !ListedBelow(todo, n + 1, k.1)) ensures after[k] == before[k] {
        assert ListedBelow(todo, n, k.1) ==> ListedBelow(todo, n + 1, k.1);
        if k == (generation, todo[n].machine) { assert ListedBelow(todo, n + 1, k.1); }
      }
      assert mid[(generation, todo[n].machine)] == before[(generation, todo[n].machine)] by {
        assert !ListedBelow(todo, n, todo[n].machine);
      }
    }

    ghost predicate BooksOk(books: map<Machine, D.DwellBook>)
      reads books.Values
    {
      forall m :: m in books ==> books[m].Valid() && books[m].Timed()
    }

    /** The machines whose present connection has proven this candidate. */
    ghost function ProvenMachines(books: map<Machine, D.DwellBook>, st: Platform, now: int): set<Machine>
      reads books.Values
    {
      set m | m in books && books[m].Proven(st.generation, st.candidate, now)
    }

    /** Every healthy slot was healthy before, or its machine has proven itself. */
    static predicate OnlyProvenNew(before: Slots, after: Slots, generation: nat, proven: set<Machine>) {
      forall k :: k in after && after[k].state == Healthy ==>
        (k in before && before[k].state == Healthy) || (k.0 == generation && k.1 in proven)
    }

    static predicate AtMostAdvanced(p: Platform, p': Platform, slots: Slots) {
      && p'.generation == p.generation && p'.candidate == p.candidate
      && (p'.stage == p.stage || (p'.stage == p.stage + 1 && StageDone(slots, p'.(stage := p.stage))))
    }

    /** One slot of a tick: promoted when proven, failed when out of time, else left. */
    method Decide(st: Platform, d: Due, ghost rest: seq<Due>, now: int, proven: bool) returns (halted: bool)
      requires Valid() && pc.Ticking? && pc.st == st && pc.todo != [] && pc.todo[0] == d && pc.todo[1..] == rest
      modifies this
      ensures Valid() && halted == (!proven && now > d.deadline) && exposed == old(exposed)
      ensures pc == if halted then Idle else Ticking(st, rest)
      ensures Rows() == if proven then RolloutStore.Promote(old(Rows()), st.generation, d.machine)
                        else if halted then RolloutStore.FailSlot(old(Rows()), st.generation, d.machine) else old(Rows())
      ensures halted ==> platform.Some? && !platform.value.active
      ensures halted && (st.generation, d.machine) in old(slots) ==> slots[(st.generation, d.machine)].state == Failed
      ensures !halted ==> platform == old(platform)
      ensures proven ==> (st.generation, d.machine) in old(slots) ==>
                slots == old(slots)[(st.generation, d.machine) := old(slots)[(st.generation, d.machine)].(state := Healthy)]
      ensures !proven && !halted ==> slots == old(slots)
    {
      halted := !proven && now > d.deadline;
      if halted { TimeoutHalts(State(), now); }
      TickStep(State(), if proven then TickPromote else if halted then TickFail(now) else TickSkip(now));
      if proven { Promote(st.generation, d.machine); }
      if halted { FailSlot(st.generation, d.machine); }
      pc := if halted then Idle else Ticking(st, rest);
    }

    method Finish(st: Platform)
      requires Valid() && pc == Ticking(st, [])
      modifies this`platform, this`pc
      ensures Valid() && pc.Idle? && Rows() == RolloutStore.Advance(old(Rows()), st)
    {
      TickStep(State(), TickAdvance);
      Advance(st);
      pc := Idle;
    }

    ghost method Begin(st: Platform, todo: seq<Due>)
      requires Valid() && pc.Idle? && platform == Some(st) && st.active && Lists(todo, slots, st.generation)
      modifies this`pc
      ensures Valid() && pc == Ticking(st, todo)
    {
      TickStep(State(), BeginTick(todo));
      pc := Ticking(st, todo);
    }

    method Promote(generation: nat, m: Machine)
      modifies this`slots
      ensures Rows() == RolloutStore.Promote(old(Rows()), generation, m)
    {
      if (generation, m) in slots { slots := slots[(generation, m) := slots[(generation, m)].(state := Healthy)]; }
    }

    /** One statement, with both conditions inside it. */
    method Advance(st: Platform)
      modifies this`platform
      ensures Rows() == RolloutStore.Advance(old(Rows()), st)
    {
      if platform.Some? && platform.value.generation == st.generation && platform.value.active
         && platform.value.stage == st.stage && StageDone(slots, platform.value)
      {
        platform := Some(platform.value.(stage := st.stage + 1));
      }
    }

    /** The machine can be sent the build as the rows stand. */
    static predicate MaySend(db: Db, p: Platform, m: Machine, candidate: Sha, now: int) {
      !Halted(db.platform, candidate) && Sendable(db.slots, p.generation, p.stage, m, now)
    }

    /** Undisturbed: a machine that may be sent the build is sent it if the recheck passes,
        and its slot then says whether the write returned; otherwise a fresh reservation
        leaves no slot behind. */
    static ghost predicate Announced(before: Db, exposed: set<Key>, after: Db, exposed': set<Key>, m: Machine, candidate: Sha, now: int,
                                     sound: bool, written: bool)
    {
      && after.platform.Some? && RunsCandidate(before.platform, after.platform.value, candidate)
      && var p := after.platform.value; var k := (p.generation, m);
      && exposed' == (if MaySend(before, p, m, candidate, now) && sound then exposed + {k} else exposed)
      && (MaySend(before, p, m, candidate, now) && sound ==>
            k in after.slots && after.slots[k].state == if written then Offered else RolloutStore.Reserved)
      && (MaySend(before, p, m, candidate, now) && !sound && k !in before.slots ==> k !in after.slots)
    }

    /** Reserve, recheck at the send boundary, write, mark. `sound` answers the recheck of
        pause, candidate and registry, `written` whether the write returned. */
    method Announce(m: Machine, candidate: Sha, now: int, sound: bool, written: bool, before: seq<Event>, after: seq<Event>)
      requires Valid() && pc.Idle?
      modifies this
      ensures Valid() && pc.Idle?
      ensures exposed == old(exposed) || (sound && platform.Some? && exposed == old(exposed) + {(platform.value.generation, m)})
      ensures before == [] && after == [] && candidate != NONE ==>
                Announced(old(Rows()), old(exposed), Rows(), exposed, m, candidate, now, sound, written)
    {
      var r := ReserveForSend(m, candidate, now);
      if candidate != NONE { ReserveDecides(old(Rows()), m, candidate, now); }
      if r.None? { return; }
      Others(before);
      if !sound || platform.None? || platform.value.generation != r.value.generation {
        GiveUp(r.value);
        return;
      }
      SendAndMark(r.value, written, after);
    }

    method GiveUp(r: Reservation)
      requires Valid() && pc == Announcing(r)
      modifies this`slots, this`pc
      ensures Valid() && pc.Idle? && Rows() == if r.resend then old(Rows()) else Release(old(Rows()), r)
    {
      DropStep(State());
      if !r.resend { ReleaseBeforeSend(r); }
      pc := Idle;
    }

    method SendAndMark(r: Reservation, written: bool, after: seq<Event>)
      requires Valid() && pc == Announcing(r) && platform.Some? && platform.value.generation == r.generation
      modifies this
      ensures Valid() && pc.Idle? && exposed == old(exposed) + {KeyOf(r)} && platform.Some? && platform.value.generation == r.generation
      ensures after == [] ==> Rows() == if written then RolloutStore.MarkOffered(old(Rows()), r) else old(Rows())
    {
      Send();
      Others(after);
      MarkStep(State());
      if written { MarkOffered(r); }
      pc := Idle;
    }

    method ReserveForSend(m: Machine, candidate: Sha, now: int) returns (r: Option<Reservation>)
      requires Valid() && pc.Idle?
      modifies this`platform, this`slots, this`pc, this`sends, this`due
      ensures Valid() && State() == ReserveDone(old(State()), m, candidate, now)
      ensures r.None? ==> pc.Idle?
      ensures r.Some? ==> pc == Announcing(r.value) && r.value.machine == m
    {
      ReserveStep(State(), m, candidate, now);
      ghost var s := State();
      r := Reserve(m, candidate, now);
      if r.Some? {
        pc := Announcing(r.value);
        if !r.value.resend {
          sends, due := sends[KeyOf(r.value) := 0], due[KeyOf(r.value) := now + ATTEMPT_MS];
        }
      }
    }

    ghost method Send()
      requires Valid() && pc.Announcing?
      modifies this`pc, this`exposed, this`sends
      ensures Valid() && State() == SentTo(old(State()))
    {
      SendStep(State());
      var s := SentTo(State());
      pc, exposed, sends := s.pc, s.exposed, s.sends;
    }
  }

  datatype Event = Reported(m: Machine, generation: nat) | OperatorResumed(now: int) | Deleted(m: Machine)
}
