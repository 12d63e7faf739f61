/**
 The SQL and the in-memory repositories cannot be told apart by their callers, although the
 in-memory one overwrites revocation stamps that the SQL one keeps.
 */
module RefreshTokenSimulation {
  import opened Wrappers
  import opened RefreshTokens
  import opened RefreshTokenChains
  import opened RefreshTokenSafety

  // ---------- Where the two differ ----------

  /** Marking a row revoked differs exactly when no link is given and the row has one. */
  lemma MarkingDiffersIff(t: Table, id: Id, replacedById: Option<Id>, now: int)
    ensures MarkRevoked(Sql, t, id, replacedById, now) != MarkRevoked(InMemory, t, id, replacedById, now)
            <==> id in t && replacedById.None? && t[id].replacedById.Some?
  {
    var sql, mem := MarkRevoked(Sql, t, id, replacedById, now), MarkRevoked(InMemory, t, id, replacedById, now);
    if id in t { assert sql == mem <==> sql[id] == mem[id]; }
  }

  /** Revoking a family differs exactly when one of its rows was revoked at another time. */
  lemma RevokingDiffersIff(t: Table, f: FamilyId, now: int)
    ensures RevokeFamily(Sql, t, f, now) != RevokeFamily(InMemory, t, f, now)
            <==> exists id :: id in t && t[id].familyId == f && t[id].revokedAt.Some? && t[id].revokedAt != Some(now)
  {
    var sql, mem := RevokeFamily(Sql, t, f, now), RevokeFamily(InMemory, t, f, now);
    if id :| id in t && t[id].familyId == f && t[id].revokedAt.Some? && t[id].revokedAt != Some(now) {
      assert sql[id] != mem[id];
    } else {
      forall id | id in t ensures sql[id] == mem[id] {}
      assert sql == mem;
    }
  }

  // ---------- The relation between them ----------

  /** Equal rows, except that the stamps of two revoked rows may differ where the family is dead. */
  ghost predicate RowsAgree(sql: Table, mem: Table, id: Id)
    requires id in sql && id in mem
  {
    && SameLinks(sql[id], mem[id])
    && (sql[id].revokedAt.Some? <==> mem[id].revokedAt.Some?)
    && (sql[id].revokedAt != mem[id].revokedAt ==> Dead(sql, sql[id].familyId))
  }

  ghost predicate Agree(sql: Table, mem: Table) {
    && sql.Keys == mem.Keys
    && (forall id | id in sql :: RowsAgree(sql, mem, id))
  }

  lemma SameLookup(sql: Table, mem: Table, ch: Chains, h: Hash)
    requires Agree(sql, mem) && Chained(sql, ch)
    ensures FindByHash(mem, h) == FindByHash(sql, h)
  {
  }

  /** Both sides decide every refresh the same way: a stamp that differs is only read in a dead family. */
  lemma SameVerdict(cfg: Config, sql: Table, mem: Table, ch: Chains, h: Hash, now: int)
    requires Agree(sql, mem) && Chained(sql, ch)
    ensures Judge(cfg, mem, h, now) == Judge(cfg, sql, h, now)
  {
    SameLookup(sql, mem, ch, h);
    if FindByHash(sql, h).Some? {
      var id := FindByHash(sql, h).value;
      if sql[id].replacedById.Some? {
        ReplacementInFamily(sql, ch, id);
        assert RowsAgree(sql, mem, sql[id].replacedById.value);
      }
    }
  }

  lemma RotationAgrees(cfg: Config, sql: Table, mem: Table, ch: Chains, id: Id, newId: Id, h: Hash, m: Meta, now: int)
    requires Agree(sql, mem) && Chained(sql, ch)
    requires id in sql && sql[id].revokedAt.None? && newId !in sql
    ensures Agree(RotateToken(Sql, cfg, sql, id, newId, h, m, now), RotateToken(InMemory, cfg, mem, id, newId, h, m, now))
  {
    var sql' := RotateToken(Sql, cfg, sql, id, newId, h, m, now);
    var mem' := RotateToken(InMemory, cfg, mem, id, newId, h, m, now);
    forall x | x in sql' ensures RowsAgree(sql', mem', x) {
      if x != newId { assert RowsAgree(sql, mem, x); }
    }
  }

  lemma RefusalAgrees(sql: Table, mem: Table, f: FamilyId, now: int)
    requires Agree(sql, mem)
    ensures Agree(RevokeFamily(Sql, sql, f, now), RevokeFamily(InMemory, mem, f, now))
  {
  }

  lemma ResetAgrees(sql: Table, mem: Table, u: UserId, now: int)
    requires Agree(sql, mem)
    ensures Agree(RevokeAllForUser(sql, u, now), RevokeAllForUser(mem, u, now))
  {
  }

  lemma StampAgrees(sql: Table, mem: Table, id: Id, now: int)
    requires Agree(sql, mem) && id in sql
    requires sql[id].revokedAt.None? && sql[id].replacedById.None?
    ensures Agree(MarkRevoked(Sql, sql, id, None, now), MarkRevoked(InMemory, mem, id, None, now))
  {
  }

  lemma LogoutAgrees(sql: Table, mem: Table, ch: Chains, p: Hash, now: int)
    requires Agree(sql, mem) && Chained(sql, ch)
    ensures Agree(LogoutStep(Sql, sql, p, now), LogoutStep(InMemory, mem, p, now))
  {
    SameLookup(sql, mem, ch, p);
    if FindByHash(sql, p).Some? {
      var id := FindByHash(sql, p).value;
      if sql[id].revokedAt.None? {
        UnrevokedIsTail(sql, ch, id);
        StampAgrees(sql, mem, id, now);
      }
    }
  }

  lemma StepAgrees(cfg: Config, sql: Table, mem: Table, ch: Chains, r: Request)
    requires Agree(sql, mem) && Chained(sql, ch) && Fresh(sql, r.op)
    ensures Agree(Step(Sql, cfg, sql, r).0, Step(InMemory, cfg, mem, r).0)
    ensures Step(Sql, cfg, sql, r).1 == Step(InMemory, cfg, mem, r).1
  {
    match r.op
    case Login(u, id, f, h, m) =>
      LoginAgrees(cfg, sql, mem, u, id, f, h, m, r.now);
    case Refresh(p, newId, h, m) =>
      SameVerdict(cfg, sql, mem, ch, p, r.now);
      match Judge(cfg, sql, p, r.now) {
        case Rotate(id) =>
          RotationAgrees(cfg, sql, mem, ch, id, newId, h, m, r.now);
        case RefuseFamily(f) => RefusalAgrees(sql, mem, f, r.now);
        case Refuse(_) =>
      }
    case Logout(p) => LogoutAgrees(sql, mem, ch, p, r.now);
    case Reset(None) =>
    case Reset(Some(u)) => ResetAgrees(sql, mem, u, r.now);
  }

  lemma LoginAgrees(cfg: Config, sql: Table, mem: Table, u: UserId, id: Id, f: FamilyId, h: Hash, m: Meta, now: int)
    requires Agree(sql, mem) && Fresh(sql, Login(u, id, f, h, m))
    ensures Agree(sql[id := NewSession(cfg, u, f, h, m, now)], mem[id := NewSession(cfg, u, f, h, m, now)])
  {
  }

  lemma FreshAgrees(sql: Table, mem: Table, op: Op)
    requires Agree(sql, mem) && Fresh(sql, op)
    ensures Fresh(mem, op)
  {
  }

  lemma {:induction false} RunsAgree(cfg: Config, sql: Table, mem: Table, ch: Chains, rs: seq<Request>)
    requires Agree(sql, mem) && Chained(sql, ch) && ValidRun(Sql, cfg, sql, rs)
    ensures ValidRun(InMemory, cfg, mem, rs)
    ensures Outcomes(Sql, cfg, sql, rs) == Outcomes(InMemory, cfg, mem, rs)
    ensures Agree(Run(Sql, cfg, sql, rs), Run(InMemory, cfg, mem, rs))
    decreases |rs|
  {
    if rs != [] {
      FreshAgrees(sql, mem, rs[0].op);
      StepAgrees(cfg, sql, mem, ch, rs[0]);
      StepKeepsChains(Sql, cfg, sql, ch, rs[0]);
      RunsAgree(cfg, Step(Sql, cfg, sql, rs[0]).0, Step(InMemory, cfg, mem, rs[0]).0, Extend(cfg, sql, ch, rs[0]), rs[1..]);
    }
  }

  /** From empty tables every sequence of calls gives the same outcomes on either repository. */
  lemma RepositoriesIndistinguishable(cfg: Config, rs: seq<Request>)
    requires ValidRun(Sql, cfg, map[], rs)
    ensures Outcomes(Sql, cfg, map[], rs) == Outcomes(InMemory, cfg, map[], rs)
  {
    RunsAgree(cfg, map[], map[], map[], rs);
  }
}
