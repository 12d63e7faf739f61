/** The two token repositories and the session use cases, as objects that change their state. */
module RefreshTokenSessions {
  import opened Wrappers
  import opened RefreshTokens

  /** `PgRefreshTokenRepository`: each method is one SQL statement over the table. */
  class PgRefreshTokenRepository {
    var rows: Table

    constructor ()
      ensures rows == map[]
    {
      rows := map[];
    }

    method Insert(id: Id, record: Token)
      requires id !in rows
      modifies this
      ensures rows == old(rows)[id := record]
    {
      rows := rows[id := record];
    }

    method FindById(id: Id) returns (r: Option<Token>)
      ensures r == if id in rows then Some(rows[id]) else None
    {
      r := if id in rows then Some(rows[id]) else None;
    }

    method FindRowByHash(hash: Hash) returns (r: Option<Id>)
      requires UniqueHashes(rows)
      ensures r == FindByHash(rows, hash)
    {
      var matching := set id | id in rows && rows[id].tokenHash == hash;
      if matching == {} {
        r := None;
        assert forall id | id in rows && rows[id].tokenHash == hash :: id in matching;
      } else {
        var id :| id in matching;
        r := Some(id);
      }
    }

    method MarkRowRevoked(id: Id, replacedById: Option<Id>, now: int)
      modifies this
      ensures rows == MarkRevoked(Sql, old(rows), id, replacedById, now)
    {
      if id in rows {
        rows := rows[id := rows[id].(revokedAt := Some(now), replacedById := replacedById)];
      }
    }

    method RevokeFamilyRows(f: FamilyId, now: int)
      modifies this
      ensures rows == RevokeFamily(Sql, old(rows), f, now)
    {
      var hit := map id | id in rows && rows[id].familyId == f && rows[id].revokedAt.None? :: rows[id].(revokedAt := Some(now));
      rows := rows + hit;
    }

    method RevokeUserRows(u: UserId, now: int)
      modifies this
      ensures rows == RevokeAllForUser(old(rows), u, now)
    {
      var hit := map id | id in rows && rows[id].userId == u && rows[id].revokedAt.None? :: rows[id].(revokedAt := Some(now));
      rows := rows + hit;
    }
  }

  /** `InMemoryRefreshTokenRepo`: a map that its methods walk entry by entry. */
  class InMemoryRefreshTokenRepo {
    var store: Table

    constructor ()
      ensures store == map[]
    {
      store := map[];
    }

    method Insert(id: Id, record: Token)
      modifies this
      ensures store == old(store)[id := record]
    {
      store := store[id := record];
    }

    method FindById(id: Id) returns (r: Option<Token>)
      ensures r == if id in store then Some(store[id]) else None
    {
      r := if id in store then Some(store[id]) else None;
    }

    method FindRowByHash(hash: Hash) returns (r: Option<Id>)
      requires UniqueHashes(store)
      ensures r == FindByHash(store, hash)
    {
      var todo := store.Keys;
      while todo != {}
        invariant todo <= store.Keys
        invariant forall id | id in store && id !in todo :: store[id].tokenHash != hash
        decreases |todo|
      {
        var id :| id in todo;
        if store[id].tokenHash == hash { return Some(id); }
        todo := todo - {id};
      }
      r := None;
    }

    method MarkRowRevoked(id: Id, replacedById: Option<Id>, now: int)
      modifies this
      ensures store == MarkRevoked(InMemory, old(store), id, replacedById, now)
    {
      if id in store {
        store := store[id := store[id].(revokedAt := Some(now))];
        if replacedById.Some? { store := store[id := store[id].(replacedById := replacedById)]; }
      }
    }

    method RevokeFamilyRows(f: FamilyId, now: int)
      modifies this
      ensures store == RevokeFamily(InMemory, old(store), f, now)
    {
      var todo := store.Keys;
      while todo != {}
        invariant store.Keys == old(store).Keys && todo <= store.Keys
        invariant forall id | id in todo :: store[id] == old(store)[id]
        invariant forall id | id in store && id !in todo :: store[id] == RevokeFamily(InMemory, old(store), f, now)[id]
        decreases |todo|
      {
        var id :| id in todo;
        if store[id].familyId == f { store := store[id := store[id].(revokedAt := Some(now))]; }
        todo := todo - {id};
      }
    }

    method RevokeUserRows(u: UserId, now: int)
      modifies this
      ensures store == RevokeAllForUser(old(store), u, now)
    {
      var todo := store.Keys;
      while todo != {}
        invariant store.Keys == old(store).Keys && todo <= store.Keys
        invariant forall id | id in todo :: store[id] == old(store)[id]
        invariant forall id | id in store && id !in todo :: store[id] == RevokeAllForUser(old(store), u, now)[id]
        decreases |todo|
      {
        var id :| id in todo;
        if store[id].userId == u && store[id].revokedAt.None? { store := store[id := store[id].(revokedAt := Some(now))]; }
        todo := todo - {id};
      }
    }
  }

  /** The port the use cases call: either repository. */
  datatype RefreshTokenRepository = Pg(pg: PgRefreshTokenRepository) | Mem(mem: InMemoryRefreshTokenRepo) {
    ghost function Repr(): object {
      match this case Pg(r) => r case Mem(r) => r
    }

    function Kind(): Backend {
      if Pg? then Sql else InMemory
    }

    function Rows(): Table
      reads Repr()
    {
      match this case Pg(r) => r.rows case Mem(r) => r.store
    }

    method Insert(id: Id, record: Token)
      requires id !in Rows()
      modifies Repr()
      ensures Rows() == old(Rows())[id := record]
    {
      match this
      case Pg(r) => r.Insert(id, record);
      case Mem(r) => r.Insert(id, record);
    }

    method FindById(id: Id) returns (r: Option<Token>)
      ensures r == if id in Rows() then Some(Rows()[id]) else None
    {
      match this
      case Pg(repo) => r := repo.FindById(id);
      case Mem(repo) => r := repo.FindById(id);
    }

    method FindRowByHash(hash: Hash) returns (r: Option<Id>)
      requires UniqueHashes(Rows())
      ensures r == FindByHash(Rows(), hash)
    {
      match this
      case Pg(repo) => r := repo.FindRowByHash(hash);
      case Mem(repo) => r := repo.FindRowByHash(hash);
    }

    method MarkRowRevoked(id: Id, replacedById: Option<Id>, now: int)
      modifies Repr()
      ensures Rows() == MarkRevoked(Kind(), old(Rows()), id, replacedById, now)
    {
      match this
      case Pg(r) => r.MarkRowRevoked(id, replacedById, now);
      case Mem(r) => r.MarkRowRevoked(id, replacedById, now);
    }

    method RevokeFamilyRows(f: FamilyId, now: int)
      modifies Repr()
      ensures Rows() == RevokeFamily(Kind(), old(Rows()), f, now)
    {
      match this
      case Pg(r) => r.RevokeFamilyRows(f, now);
      case Mem(r) => r.RevokeFamilyRows(f, now);
    }

    method RevokeUserRows(u: UserId, now: int)
      modifies Repr()
      ensures Rows() == RevokeAllForUser(old(Rows()), u, now)
    {
      match this
      case Pg(r) => r.RevokeUserRows(u, now);
      case Mem(r) => r.RevokeUserRows(u, now);
    }
  }

  datatype EmailTokenKind = ForVerification | ForReset

  datatype EmailToken = EmailToken(userId: UserId, kind: EmailTokenKind, expiresAt: int, usedAt: Option<int>)

  /** Whose token of this kind the hash is, if it is still unused and has time left. */
  function UsableFor(rows: map<Hash, EmailToken>, hash: Hash, kind: EmailTokenKind, now: int): Option<UserId> {
    if hash in rows && rows[hash].kind == kind && rows[hash].usedAt.None? && rows[hash].expiresAt > now
    then Some(rows[hash].userId) else None
  }

  type EmailTokens = map<Hash, EmailToken>

  function UseUp(rows: EmailTokens, hash: Hash, kind: EmailTokenKind, now: int): EmailTokens {
    if UsableFor(rows, hash, kind, now).Some? then rows[hash := rows[hash].(usedAt := Some(now))] else rows
  }

  datatype Attempt = Attempt(hash: Hash, kind: EmailTokenKind, now: int)

  /** How many attempts on the token `hash` are let through. */
  function LetThrough(rows: EmailTokens, attempts: seq<Attempt>, hash: Hash): nat
    decreases |attempts|
  {
    if attempts == [] then 0
    else
      var a := attempts[0];
      (if a.hash == hash && UsableFor(rows, a.hash, a.kind, a.now).Some? then 1 else 0)
      + LetThrough(UseUp(rows, a.hash, a.kind, a.now), attempts[1..], hash)
  }

  /** Some attempt on the token is for its own purpose and in time. */
  predicate TriedInTime(row: EmailToken, attempts: seq<Attempt>, hash: Hash) {
    exists i :: 0 <= i < |attempts| && attempts[i].hash == hash && attempts[i].kind == row.kind && attempts[i].now < row.expiresAt
  }

  /** Over any attempts an unused token is let through once if one of them was for its purpose and in time, and otherwise never. */
  lemma {:induction false} TokenWorksOnce(rows: EmailTokens, attempts: seq<Attempt>, hash: Hash)
    requires hash in rows
    ensures LetThrough(rows, attempts, hash) == if rows[hash].usedAt.None? && TriedInTime(rows[hash], attempts, hash) then 1 else 0
    decreases |attempts|
  {
    if attempts != [] {
      var a := attempts[0];
      var rows' := UseUp(rows, a.hash, a.kind, a.now);
      TokenWorksOnce(rows', attempts[1..], hash);
      var first := a.hash == hash && a.kind == rows[hash].kind && a.now < rows[hash].expiresAt;
      if TriedInTime(rows[hash], attempts[1..], hash) {
        var i :| 0 <= i < |attempts[1..]| && attempts[1..][i].hash == hash && attempts[1..][i].kind == rows[hash].kind && attempts[1..][i].now < rows[hash].expiresAt;
        assert attempts[i + 1] == attempts[1..][i];
      }
      if TriedInTime(rows[hash], attempts, hash) && !first {
        var i :| 0 <= i < |attempts| && attempts[i].hash == hash && attempts[i].kind == rows[hash].kind && attempts[i].now < rows[hash].expiresAt;
        assert attempts[1..][i - 1] == attempts[i];
      }
    }
  }

  /** Whoever is let through is the owner. */
  lemma OwnerLetThrough(rows: EmailTokens, hash: Hash, kind: EmailTokenKind, now: int)
    requires UsableFor(rows, hash, kind, now).Some?
    ensures hash in rows && UsableFor(rows, hash, kind, now).value == rows[hash].userId
  {
  }

  /** E-mailed tokens under their unique hashes. */
  class PgEmailTokenRepository {
    var rows: map<Hash, EmailToken>

    constructor ()
      ensures rows == map[]
    {
      rows := map[];
    }

    /** One statement that finds a usable token and marks it used: no second call finds it again. */
    method Consume(hash: Hash, kind: EmailTokenKind, now: int) returns (owner: Option<UserId>)
      modifies this
      ensures owner == UsableFor(old(rows), hash, kind, now)
      ensures rows == UseUp(old(rows), hash, kind, now)
      ensures forall later :: owner.Some? ==> UsableFor(rows, hash, kind, later).None?
    {
      if hash !in rows { return None; }
      var row := rows[hash];
      if row.kind != kind || row.usedAt.Some? || row.expiresAt <= now { return None; }
      rows := rows[hash := row.(usedAt := Some(now))];
      owner := Some(row.userId);
    }
  }

  class Users {
    var passwordHashes: map<UserId, string>

    constructor (passwordHashes: map<UserId, string>)
      ensures this.passwordHashes == passwordHashes
    {
      this.passwordHashes := passwordHashes;
    }

    method UpdatePassword(u: UserId, passwordHash: string)
      modifies this
      ensures passwordHashes == if u in old(passwordHashes) then old(passwordHashes)[u := passwordHash] else old(passwordHashes)
    {
      if u in passwordHashes { passwordHashes := passwordHashes[u := passwordHash]; }
    }
  }

  /** The session use cases over one repository. Fresh ids and hashes arrive as arguments. */
  class Sessions {
    const repo: RefreshTokenRepository
    const emailTokens: PgEmailTokenRepository
    const users: Users
    const cfg: Config

    constructor (repo: RefreshTokenRepository, emailTokens: PgEmailTokenRepository, users: Users, cfg: Config)
      ensures this.repo == repo && this.emailTokens == emailTokens && this.users == users && this.cfg == cfg
    {
      this.repo, this.emailTokens, this.users, this.cfg := repo, emailTokens, users, cfg;
    }

    method CreateSession(user: UserId, id: Id, family: FamilyId, hash: Hash, meta: Meta, now: int) returns (o: Outcome)
      requires Fresh(repo.Rows(), Login(user, id, family, hash, meta))
      modifies repo.Repr()
      ensures (repo.Rows(), o) == Step(repo.Kind(), cfg, old(repo.Rows()), Request(now, Login(user, id, family, hash, meta)))
    {
      repo.Insert(id, Token(user, hash, family, None, None, meta.userAgent, meta.ip, now + cfg.refreshTtlSec * 1000, None));
      o := Issued(user, hash);
    }

    method Refresh(presented: Hash, newId: Id, newHash: Hash, meta: Meta, now: int) returns (o: Outcome)
      requires UniqueHashes(repo.Rows()) && Fresh(repo.Rows(), RefreshTokens.Refresh(presented, newId, newHash, meta))
      modifies repo.Repr()
      ensures (repo.Rows(), o)
              == Step(repo.Kind(), cfg, old(repo.Rows()), Request(now, RefreshTokens.Refresh(presented, newId, newHash, meta)))
    {
      var found := repo.FindRowByHash(presented);
      if found.None? { return InvalidToken; }
      var id := found.value;
      var row := repo.FindById(id);
      var current := row.value;

      if current.revokedAt.Some? {
        if current.replacedById.Some? && cfg.graceWindowSec > 0 {
          var ageMs := now - current.revokedAt.value;
          if ageMs <= cfg.graceWindowSec * 1000 {
            var replacement := repo.FindById(current.replacedById.value);
            if replacement.Some? && replacement.value.revokedAt.None? && replacement.value.expiresAt > now {
              o := Rotate(current.replacedById.value, replacement.value, newId, newHash, meta, now);
              return;
            }
          }
        }
        if current.replacedById.Some? { repo.RevokeFamilyRows(current.familyId, now); }
        return InvalidToken;
      }
      if current.expiresAt < now { return ExpiredToken; }
      o := Rotate(id, current, newId, newHash, meta, now);
    }

    method Rotate(id: Id, current: Token, newId: Id, newHash: Hash, meta: Meta, now: int) returns (o: Outcome)
      requires id in repo.Rows() && repo.Rows()[id] == current && newId !in repo.Rows()
      modifies repo.Repr()
      ensures repo.Rows() == RotateToken(repo.Kind(), cfg, old(repo.Rows()), id, newId, newHash, meta, now)
      ensures o == Issued(current.userId, newHash)
    {
      repo.Insert(newId, Token(current.userId, newHash, current.familyId, Some(id), None,
                               OrElse(meta.userAgent, current.userAgent), OrElse(meta.ip, current.ip),
                               now + cfg.refreshTtlSec * 1000, None));
      repo.MarkRowRevoked(id, Some(newId), now);
      o := Issued(current.userId, newHash);
    }

    method RevokeSession(presented: Hash, now: int)
      requires UniqueHashes(repo.Rows())
      modifies repo.Repr()
      ensures repo.Rows() == Step(repo.Kind(), cfg, old(repo.Rows()), Request(now, Logout(presented))).0
    {
      var found := repo.FindRowByHash(presented);
      if found.None? { return; }
      var row := repo.FindById(found.value);
      if row.value.revokedAt.Some? { return; }
      repo.MarkRowRevoked(found.value, None, now);
    }

    /** A usable token is used up, the password of its user changes, and all the user's sessions end. */
    method ConfirmPasswordReset(presented: Hash, newPasswordHash: string, now: int) returns (o: Outcome)
      modifies repo.Repr(), emailTokens, users
      ensures var consumed := UsableFor(old(emailTokens.rows), presented, ForReset, now);
              && (repo.Rows(), o) == Step(repo.Kind(), cfg, old(repo.Rows()), Request(now, Reset(consumed)))
              && (consumed.None? ==> users.passwordHashes == old(users.passwordHashes) && emailTokens.rows == old(emailTokens.rows))
              && (consumed.Some? ==>
                    && (forall later :: UsableFor(emailTokens.rows, presented, ForReset, later).None?)
                    && users.passwordHashes.Keys == old(users.passwordHashes).Keys
                    && forall u | u in users.passwordHashes ::
                         users.passwordHashes[u] == if u == consumed.value then newPasswordHash else old(users.passwordHashes)[u])
    {
      var owner := emailTokens.Consume(presented, ForReset, now);
      if owner.None? { return InvalidToken; }
      users.UpdatePassword(owner.value, newPasswordHash);
      repo.RevokeUserRows(owner.value, now);
      o := Done;
    }
  }
}
