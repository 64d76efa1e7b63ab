/** The hub's credential rows and install tokens for one machine, and the
    transactions that change them (hub/agentws.go). */
module CredentialStore {
  import opened Common

  type Secret = string
  type TokenId = nat
  type MachineId = nat

  /** SHA-256 as an injective function: a hash is the application itself. */
  datatype Hash = Sha256(secret: Secret)

  /** `expires == None` stands for a NULL or unparseable expiry. */
  datatype Pending = Pending(hash: Hash, expires: Option<int>)
  datatype Row = Row(active: Hash, pending: Option<Pending>)
  datatype Token = Token(used: bool, expires: Option<int>, target: Option<MachineId>)
  datatype Db = Db(tokens: map<TokenId, Token>, row: Option<Row>)

  datatype Verdict = Accepted(promoted: bool) | Refused

  const PENDING_WINDOW_MS := 300_000

  predicate TokenValid(db: Db, token: TokenId, now: int) {
    && token in db.tokens
    && !db.tokens[token].used
    && db.tokens[token].expires.Some?
    && now <= db.tokens[token].expires.value
  }

  predicate TokenTargets(db: Db, token: TokenId, machine: MachineId) {
    token in db.tokens && db.tokens[token].target == Some(machine)
  }

  /** The stored expiry is RFC 3339 text, which keeps whole seconds only. */
  function PendingDeadline(now: int): int {
    (now + PENDING_WINDOW_MS) / 1000 * 1000
  }

  predicate MayStage(db: Db, token: TokenId, machine: MachineId, now: int) {
    TokenValid(db, token, now) && TokenTargets(db, token, machine) && db.row.Some?
  }

  function Staged(db: Db, token: TokenId, hash: Hash, now: int): Db
    requires token in db.tokens && db.row.Some?
  {
    db.(tokens := db.tokens[token := db.tokens[token].(used := true)],
        row := Some(db.row.value.(pending := Some(Pending(hash, Some(PendingDeadline(now)))))))
  }

  /** The staged hash can be promoted at `now`. */
  predicate Promotable(db: Db, hash: Hash, now: int) {
    && PendingIs(db, hash)
    && db.row.value.pending.value.expires.Some?
    && now < db.row.value.pending.value.expires.value
  }

  predicate PendingIs(db: Db, hash: Hash) {
    db.row.Some? && db.row.value.pending.Some? && db.row.value.pending.value.hash == hash
  }

  predicate IsActive(db: Db, hash: Hash) {
    db.row.Some? && db.row.value.active == hash
  }

  /** The compare-and-swap: `goNow` is the pre-filter's clock, `dbNow` the one
      SQLite reads while it applies the update. */
  function Promote(db: Db, hash: Hash, goNow: int, dbNow: int): (r: (Db, bool))
    ensures r.1 <==> Promotable(db, hash, goNow) && Promotable(db, hash, dbNow)
    ensures r.1 ==> r.0.row == Some(Row(hash, None))
    ensures !r.1 && db.row.Some? ==> r.0.row.Some? && r.0.row.value.active == db.row.value.active
    ensures !r.1 && !Promotable(db, hash, goNow) ==> !Promotable(r.0, hash, goNow)
    ensures r.0.tokens == db.tokens
  {
    if !PendingIs(db, hash) then (db, false)
    else if db.row.value.pending.value.expires.None? || goNow >= db.row.value.pending.value.expires.value then
      (db.(row := Some(db.row.value.(pending := None))), false)
    else if dbNow >= db.row.value.pending.value.expires.value then (db, false)
    else (db.(row := Some(Row(hash, None))), true)
  }

  /** What follows a missed active lookup: the pending lookup, the
      compare-and-swap, and the second active lookup. */
  function TryPending(db: Db, secret: Secret, now: int): (r: (Db, Verdict))
    ensures r.1 == Accepted(true) <==> Promotable(db, Sha256(secret), now)
    ensures r.1.Accepted? && !r.1.promoted ==> IsActive(db, Sha256(secret))
    ensures r.1.Refused? ==> !Promotable(r.0, Sha256(secret), now)
  {
    var h := Sha256(secret);
    if !PendingIs(db, h) then (db, Refused)
    else
      var (db', ok) := Promote(db, h, now, now);
      if ok then (db', Accepted(true))
      else if IsActive(db', h) then (db', Accepted(false))
      else (db', Refused)
  }

  /** The two lookups run without interference. */
  function Validate(db: Db, secret: Secret, now: int): (Db, Verdict) {
    if IsActive(db, Sha256(secret)) then (db, Accepted(false)) else TryPending(db, secret, now)
  }

  /** The verdict of the four statements, by the database each of them finds. */
  function Judged(seen: seq<Db>, h: Hash, now: int): Verdict
    requires |seen| == 4
  {
    if IsActive(seen[0], h) then Accepted(false)
    else if !PendingIs(seen[1], h) then Refused
    else if Promote(seen[2], h, now, now).1 then Accepted(true)
    else if IsActive(seen[3], h) then Accepted(false)
    else Refused
  }

  /** Nothing else changed the database meanwhile. */
  predicate Undisturbed(seen: seq<Db>, h: Hash, now: int)
    requires |seen| == 4
  {
    seen[1] == seen[0] && seen[2] == seen[0] && seen[3] == Promote(seen[2], h, now, now).0
  }

  /** A secret is accepted exactly when it is active or still promotable, and
      accepting it leaves it active. */
  lemma ValidateDecides(db: Db, secret: Secret, now: int)
    ensures Validate(db, secret, now).1.Accepted? <==>
              IsActive(db, Sha256(secret)) || Promotable(db, Sha256(secret), now)
    ensures Validate(db, secret, now).1.Accepted? ==> IsActive(Validate(db, secret, now).0, Sha256(secret))
    ensures Validate(db, secret, now).1.Refused? && db.row.Some? ==>
              && Validate(db, secret, now).0.row.Some?
              && Validate(db, secret, now).0.row.value.active == db.row.value.active
  {
  }

  /** The active lookup and the pending lookup are separate statements. A commit
      frame that promotes the secret between them makes the second lookup miss, so
      the hub refuses the very secret it has just made active. */
  lemma RacedLookupsRefuseTheActiveSecret(db: Db, secret: Secret, now: int)
    requires Promotable(db, Sha256(secret), now) && !IsActive(db, Sha256(secret))
    ensures Promote(db, Sha256(secret), now, now).1
    ensures var between := Promote(db, Sha256(secret), now, now).0;
            IsActive(between, Sha256(secret)) && TryPending(between, secret, now).1.Refused?
  {
  }

  /** Staging spends the token and leaves the active secret and every other token alone;
      the staged secret can be promoted for five minutes, to the second. */
  lemma StagedForFiveMinutes(db: Db, token: TokenId, hash: Hash, now: int, t: int)
    requires token in db.tokens && db.row.Some?
    ensures var after := Staged(db, token, hash, now);
            && after.row.Some? && after.row.value.active == db.row.value.active && PendingIs(after, hash)
            && after.tokens.Keys == db.tokens.Keys && !TokenValid(after, token, t)
            && (forall k :: k in db.tokens && k != token ==> after.tokens[k] == db.tokens[k])
            && (t <= now + 299_000 ==> Promotable(after, hash, t))
            && (t >= now + 300_000 ==> !Promotable(after, hash, t))
  {
  }

  /** A swap that fails changes nothing, but for a staged secret of the same hash that is
      no longer valid, which it clears; whatever else is staged is left to its owner. */
  lemma FailedSwapChangesLittle(db: Db, hash: Hash, goNow: int, dbNow: int)
    ensures var (after, ok) := Promote(db, hash, goNow, dbNow);
            && (!PendingIs(db, hash) ==> !ok && after == db)
            && (PendingIs(db, hash) && !Promotable(db, hash, goNow) ==>
                  !ok && after.tokens == db.tokens && after.row == Some(Row(db.row.value.active, None)))
            && (Promotable(db, hash, goNow) && !Promotable(db, hash, dbNow) ==> !ok && after == db)
            && forall other, t :: other != hash && Promotable(db, other, t) ==> Promotable(after, other, t)
  {
  }

  /** Of two promotions of one staged hash only the first can succeed, and a newer
      staging makes every promotion of the older hash fail. */
  lemma PromotionHappensOnce(db: Db, hash: Hash, other: Hash, token: TokenId, t0: int, t1: int)
    requires token in db.tokens && db.row.Some?
    ensures Promote(db, hash, t0, t0).1 ==> !Promote(Promote(db, hash, t0, t0).0, hash, t1, t1).1
    ensures other != hash ==> !Promote(Staged(db, token, other, t0), hash, t1, t1).1
    ensures Promote(Staged(db, token, hash, t0), hash, t1, t1).1 <==> t1 < PendingDeadline(t0)
    ensures Staged(db, token, hash, t0).row.value.active == db.row.value.active
  {
  }

  /** The database as the hub's methods update it. */
  class Store {
    const machine: MachineId
    var tokens: map<TokenId, Token>
    var row: Option<Row>

    constructor (machine: MachineId)
      ensures this.machine == machine && Value() == Db(map[], None)
    {
      this.machine := machine;
      tokens, row := map[], None;
    }

    ghost function Value(): Db
      reads this
    {
      Db(tokens, row)
    }

    /** One transaction: every check is repeated inside it. */
    method StageTargetedCredential(token: TokenId, hash: Hash, now: int) returns (ok: bool)
      modifies this
      ensures ok <==> old(MayStage(Value(), token, machine, now))
      ensures ok ==> Value() == old(Staged(Value(), token, hash, now))
      ensures ok ==> row.Some? && row.value.active == old(row).value.active && PendingIs(Value(), hash)
      ensures ok ==> token in tokens && tokens[token].used && Promotable(Value(), hash, now)
      ensures !ok ==> Value() == old(Value())
    {
      if token !in tokens || tokens[token].used { return false; }
      if tokens[token].expires.None? || now > tokens[token].expires.value { return false; }
      if tokens[token].target != Some(machine) { return false; }
      if row.None? { return false; }
      tokens := tokens[token := tokens[token].(used := true)];
      row := Some(row.value.(pending := Some(Pending(hash, Some((now + PENDING_WINDOW_MS) / 1000 * 1000)))));
      return true;
    }

    method PromotePendingCredentialCASAt(hash: Hash, goNow: int, dbNow: int) returns (promoted: bool)
      modifies this
      ensures (Value(), promoted) == old(Promote(Value(), hash, goNow, dbNow))
      ensures promoted <==> old(Promotable(Value(), hash, goNow) && Promotable(Value(), hash, dbNow))
      ensures promoted ==> row == Some(Row(hash, None)) && tokens == old(tokens)
      ensures !promoted && !old(PendingIs(Value(), hash)) ==> row == old(row) && tokens == old(tokens)
      ensures !promoted && old(PendingIs(Value(), hash)) ==>
                && tokens == old(tokens)
                && row == if old(Promotable(Value(), hash, goNow)) then old(row) else Some(Row(old(row).value.active, None))
    {
      if row.None? { return false; }
      var pending := row.value.pending;
      if pending.None? || pending.value.hash != hash { return false; }
      if pending.value.expires.None? || goNow >= pending.value.expires.value {
        row := Some(row.value.(pending := None));
        return false;
      }
      if dbNow >= pending.value.expires.value { return false; }
      row := Some(Row(hash, None));
      return true;
    }

    /** What other connections do between two statements of this one. */
    method Others()
      modifies this
    {
      tokens, row := *, *;
    }

    /** Four statements, with anything between them; `seen` is the database each of them
        found. Left alone they are `Validate`. */
    method ValidateAgentSecret(secret: Secret, now: int) returns (verdict: Verdict, ghost seen: seq<Db>)
      modifies this
      ensures |seen| == 4 && verdict == Judged(seen, Sha256(secret), now)
      ensures seen[0] == old(Value())
      ensures verdict == Accepted(true) ==> Value() == Promote(seen[2], Sha256(secret), now, now).0
      ensures verdict == Accepted(false) ==> IsActive(Value(), Sha256(secret))
      ensures Undisturbed(seen, Sha256(secret), now) ==> verdict == Validate(seen[0], secret, now).1
    {
      var h := Sha256(secret);
      seen := [Value(), Value(), Value(), Value()];
      if row.Some? && row.value.active == h { return Accepted(false), seen; }
      Others();
      seen := seen[1 := Value()];
      if row.None? || row.value.pending.None? || row.value.pending.value.hash != h { return Refused, seen; }
      Others();
      seen := seen[2 := Value()];
      var promoted := PromotePendingCredentialCASAt(h, now, now);
      if promoted { return Accepted(true), seen; }
      Others();
      seen := seen[3 := Value()];
      if row.Some? && row.value.active == h { return Accepted(false), seen; }
      return Refused, seen;
    }

    /** First enrollment: never replaces an existing credential. */
    method ConsumeTokenAndStoreCredential(token: TokenId, hash: Hash, now: int) returns (ok: bool)
      modifies this
      ensures ok <==> old(TokenValid(Value(), token, now)) && old(row).None?
                      && (old(tokens[token].target).None? || old(tokens[token].target) == Some(machine))
      ensures ok ==> row == Some(Row(hash, None)) && tokens == old(tokens)[token := old(tokens[token]).(used := true)]
      ensures !ok ==> Value() == old(Value())
    {
      if token !in tokens || tokens[token].used { return false; }
      if tokens[token].expires.None? || now > tokens[token].expires.value { return false; }
      if tokens[token].target.Some? && tokens[token].target != Some(machine) { return false; }
      if row.Some? { return false; }
      tokens := tokens[token := tokens[token].(used := true)];
      row := Some(Row(hash, None));
      return true;
    }
  }
}
