/**
 The refresh-token table and the four calls that change it: login, refresh, logout and
 password reset. Times are milliseconds. A token is identified with its hash: the program
 only ever looks a raw token up by hashing it.

 Two repositories implement the table, one in SQL and one in memory. They differ in two
 updates, so the table functions take the backend as a parameter.
 */
module RefreshTokens {
  import opened Wrappers

  // Identifiers and hashes are compared and generated, never inspected: numbers stand for them.
  type Id = nat
  type UserId = nat
  type FamilyId = nat
  type Hash = nat

  datatype Meta = Meta(userAgent: Option<string>, ip: Option<string>)

  datatype Token = Token(
    userId: UserId,
    tokenHash: Hash,
    familyId: FamilyId,
    parentId: Option<Id>,
    replacedById: Option<Id>,
    userAgent: Option<string>,
    ip: Option<string>,
    expiresAt: int,
    revokedAt: Option<int>)

  type Table = map<Id, Token>

  datatype Backend = Sql | InMemory

  datatype Config = Config(refreshTtlSec: int, graceWindowSec: int)

  // ---------- The table ----------

  /** Token hashes are unique: a constraint in SQL, freshness of generated tokens in memory. */
  ghost predicate UniqueHashes(t: Table) {
    forall i, j | i in t && j in t && t[i].tokenHash == t[j].tokenHash :: i == j
  }

  ghost function FindByHash(t: Table, h: Hash): (r: Option<Id>)
    ensures r.Some? ==> r.value in t && t[r.value].tokenHash == h
    ensures r.None? ==> forall id | id in t :: t[id].tokenHash != h
  {
    if id :| id in t && t[id].tokenHash == h then Some(id) else None
  }

  /** SQL writes both columns; the in-memory version keeps the old link when given none. */
  function MarkRevoked(b: Backend, t: Table, id: Id, replacedById: Option<Id>, now: int): Table {
    if id !in t then t
    else
      var link := match b
        case Sql => replacedById
        case InMemory => if replacedById.Some? then replacedById else t[id].replacedById;
      t[id := t[id].(revokedAt := Some(now), replacedById := link)]
  }

  /** SQL stamps only the rows still active; the in-memory version overwrites every stamp of the family. */
  function RevokeFamily(b: Backend, t: Table, f: FamilyId, now: int): Table {
    map id | id in t ::
      if t[id].familyId == f && (b.InMemory? || t[id].revokedAt.None?)
      then t[id].(revokedAt := Some(now)) else t[id]
  }

  function RevokeAllForUser(t: Table, u: UserId, now: int): Table {
    map id | id in t ::
      if t[id].userId == u && t[id].revokedAt.None?
      then t[id].(revokedAt := Some(now)) else t[id]
  }

  function OrElse<T>(a: Option<T>, b: Option<T>): Option<T> {
    if a.Some? then a else b
  }

  // ---------- The calls ----------

  datatype Op =
    | Login(user: UserId, id: Id, family: FamilyId, hash: Hash, meta: Meta)
    | Refresh(presented: Hash, id: Id, hash: Hash, meta: Meta)
    | Logout(presented: Hash)
    | Reset(consumed: Option<UserId>)

  datatype Request = Request(now: int, op: Op)

  datatype Outcome =
    | Issued(user: UserId, hash: Hash)
    | InvalidToken
    | ExpiredToken
    | Done

  function NewSession(cfg: Config, user: UserId, family: FamilyId, hash: Hash, meta: Meta, now: int): Token {
    Token(user, hash, family, None, None, meta.userAgent, meta.ip, now + cfg.refreshTtlSec * 1000, None)
  }

  function Successor(cfg: Config, current: Token, currentId: Id, hash: Hash, meta: Meta, now: int): Token {
    Token(current.userId, hash, current.familyId, Some(currentId), None,
          OrElse(meta.userAgent, current.userAgent), OrElse(meta.ip, current.ip),
          now + cfg.refreshTtlSec * 1000, None)
  }

  /** What a refresh decides before it writes anything. */
  datatype Verdict =
    | Rotate(id: Id)
    | RefuseFamily(family: FamilyId)
    | Refuse(why: Outcome)

  predicate GraceApplies(cfg: Config, t: Table, current: Token, now: int) {
    && current.revokedAt.Some? && current.replacedById.Some?
    && cfg.graceWindowSec > 0
    && now - current.revokedAt.value <= cfg.graceWindowSec * 1000
    && current.replacedById.value in t
    && t[current.replacedById.value].revokedAt.None?
    && t[current.replacedById.value].expiresAt > now
  }

  ghost function Judge(cfg: Config, t: Table, presented: Hash, now: int): (v: Verdict)
    ensures v.Rotate? ==> v.id in t && t[v.id].revokedAt.None?
  {
    match FindByHash(t, presented)
    case None => Refuse(InvalidToken)
    case Some(id) =>
      var current := t[id];
      if current.revokedAt.Some? then
        if GraceApplies(cfg, t, current, now) then Rotate(current.replacedById.value)
        else if current.replacedById.Some? then RefuseFamily(current.familyId)
        else Refuse(InvalidToken)
      else if current.expiresAt < now then Refuse(ExpiredToken)
      else Rotate(id)
  }

  function RotateToken(b: Backend, cfg: Config, t: Table, id: Id, newId: Id, hash: Hash, meta: Meta, now: int): Table
    requires id in t
  {
    MarkRevoked(b, t[newId := Successor(cfg, t[id], id, hash, meta, now)], id, Some(newId), now)
  }

  ghost function RefreshStep(b: Backend, cfg: Config, t: Table, presented: Hash, newId: Id, hash: Hash, meta: Meta, now: int)
    : (Table, Outcome)
  {
    match Judge(cfg, t, presented, now)
    case Rotate(id) => (RotateToken(b, cfg, t, id, newId, hash, meta, now), Issued(t[id].userId, hash))
    case RefuseFamily(f) => (RevokeFamily(b, t, f, now), InvalidToken)
    case Refuse(why) => (t, why)
  }

  ghost function LogoutStep(b: Backend, t: Table, presented: Hash, now: int): Table {
    match FindByHash(t, presented)
    case None => t
    case Some(id) => if t[id].revokedAt.Some? then t else MarkRevoked(b, t, id, None, now)
  }

  ghost function Step(b: Backend, cfg: Config, t: Table, r: Request): (Table, Outcome) {
    match r.op
    case Login(u, id, f, h, m) => (t[id := NewSession(cfg, u, f, h, m, r.now)], Issued(u, h))
    case Refresh(p, id, h, m) => RefreshStep(b, cfg, t, p, id, h, m, r.now)
    case Logout(p) => (LogoutStep(b, t, p, r.now), Done)
    case Reset(None) => (t, InvalidToken)
    case Reset(Some(u)) => (RevokeAllForUser(t, u, r.now), Done)
  }

  // ---------- Runs ----------

  /** Generated ids, family ids and token hashes have not been used before. */
  ghost predicate Fresh(t: Table, op: Op) {
    match op
    case Login(_, id, f, h, _) =>
      id !in t && forall i | i in t :: t[i].tokenHash != h && t[i].familyId != f
    case Refresh(_, id, h, _) =>
      id !in t && forall i | i in t :: t[i].tokenHash != h
    case _ => true
  }

  ghost predicate ValidRun(b: Backend, cfg: Config, t: Table, rs: seq<Request>)
    decreases |rs|
  {
    rs == [] || (Fresh(t, rs[0].op) && ValidRun(b, cfg, Step(b, cfg, t, rs[0]).0, rs[1..]))
  }

  ghost function Run(b: Backend, cfg: Config, t: Table, rs: seq<Request>): Table
    decreases |rs|
  {
    if rs == [] then t else Run(b, cfg, Step(b, cfg, t, rs[0]).0, rs[1..])
  }

  ghost function Outcomes(b: Backend, cfg: Config, t: Table, rs: seq<Request>): seq<Outcome>
    decreases |rs|
  {
    if rs == [] then []
    else [Step(b, cfg, t, rs[0]).1] + Outcomes(b, cfg, Step(b, cfg, t, rs[0]).0, rs[1..])
  }
}
