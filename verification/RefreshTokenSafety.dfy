/** Safety over whole runs: how often a token can be used, and that a dead family stays dead. */
module RefreshTokenSafety {
  import opened Wrappers
  import opened RefreshTokens
  import opened RefreshTokenChains

  // ---------- What one step does to rows that exist ----------

  /** A row's identity never changes, revocation is final, and a revoked row's link is final. */
  ghost predicate Continues(before: Token, after: Token) {
    && after.(revokedAt := before.revokedAt, replacedById := before.replacedById) == before
    && (before.revokedAt.Some? ==> after.revokedAt.Some? && after.replacedById == before.replacedById)
  }

  lemma RevokingContinues(t: Table, t': Table, id: Id)
    requires OnlyRevokes(t, t') && id in t
    ensures id in t' && Continues(t[id], t'[id])
  {
    assert SameLinks(t[id], t'[id]);
  }

  lemma RotationContinues(b: Backend, cfg: Config, t: Table, cur: Id, newId: Id, hash: Hash, meta: Meta, now: int, id: Id)
    requires cur in t && t[cur].revokedAt.None? && newId !in t && id in t
    ensures id in RotateToken(b, cfg, t, cur, newId, hash, meta, now)
    ensures Continues(t[id], RotateToken(b, cfg, t, cur, newId, hash, meta, now)[id])
  {
  }

  lemma RefreshContinues(b: Backend, cfg: Config, t: Table, p: Hash, newId: Id, hash: Hash, meta: Meta, now: int, id: Id)
    requires newId !in t && id in t
    ensures var t' := RefreshStep(b, cfg, t, p, newId, hash, meta, now).0;
            id in t' && Continues(t[id], t'[id])
  {
    match Judge(cfg, t, p, now)
    case Rotate(cur) => RotationContinues(b, cfg, t, cur, newId, hash, meta, now, id);
    case RefuseFamily(f) =>
      RevocationsOnlyRevoke(b, t, f, 0, now);
      RevokingContinues(t, RevokeFamily(b, t, f, now), id);
    case Refuse(_) =>
  }

  /** No call removes a row, and what it does to one only continues it. */
  lemma RowHistory(b: Backend, cfg: Config, t: Table, ch: Chains, r: Request, id: Id)
    requires Chained(t, ch) && Fresh(t, r.op) && id in t
    ensures id in Step(b, cfg, t, r).0 && Continues(t[id], Step(b, cfg, t, r).0[id])
  {
    match r.op
    case Login(_, _, _, _, _) =>
    case Refresh(p, newId, h, m) => RefreshContinues(b, cfg, t, p, newId, h, m, r.now, id);
    case Logout(p) =>
      LogoutOnlyRevokes(b, t, ch, p, r.now);
      RevokingContinues(t, LogoutStep(b, t, p, r.now), id);
    case Reset(None) =>
    case Reset(Some(u)) =>
      RevocationsOnlyRevoke(b, t, 0, u, r.now);
      RevokingContinues(t, RevokeAllForUser(t, u, r.now), id);
  }

  lemma HashStaysFound(b: Backend, cfg: Config, t: Table, ch: Chains, r: Request, h: Hash)
    requires Chained(t, ch) && Fresh(t, r.op) && FindByHash(t, h).Some?
    ensures FindByHash(Step(b, cfg, t, r).0, h) == FindByHash(t, h)
  {
    var id := FindByHash(t, h).value;
    RowHistory(b, cfg, t, ch, r, id);
    StepKeepsChains(b, cfg, t, ch, r);
  }

  // ---------- How often one token can be used ----------

  /** The request is a successful refresh that presented the token `h`. */
  ghost predicate Uses(b: Backend, cfg: Config, t: Table, r: Request, h: Hash) {
    r.op.Refresh? && r.op.presented == h && Step(b, cfg, t, r).1.Issued?
  }

  ghost function UseCount(b: Backend, cfg: Config, t: Table, rs: seq<Request>, h: Hash): nat
    decreases |rs|
  {
    if rs == [] then 0
    else (if Uses(b, cfg, t, rs[0], h) then 1 else 0) + UseCount(b, cfg, Step(b, cfg, t, rs[0]).0, rs[1..], h)
  }

  /** The successful refreshes still open to `h`: two before its rotation, one while its replacement is active. */
  ghost function Allowance(cfg: Config, t: Table, h: Hash): nat {
    match FindByHash(t, h)
    case None => if cfg.graceWindowSec > 0 then 2 else 1
    case Some(id) =>
      if t[id].revokedAt.None? then (if cfg.graceWindowSec > 0 then 2 else 1)
      else if cfg.graceWindowSec > 0 && t[id].replacedById.Some? && t[id].replacedById.value in t
              && t[t[id].replacedById.value].revokedAt.None? then 1
      else 0
  }

  lemma UseSpendsAllowance(b: Backend, cfg: Config, t: Table, ch: Chains, r: Request, h: Hash)
    requires Chained(t, ch) && Fresh(t, r.op)
    ensures Allowance(cfg, Step(b, cfg, t, r).0, h) + (if Uses(b, cfg, t, r, h) then 1 else 0) <= Allowance(cfg, t, h)
  {
    match FindByHash(t, h)
    case None =>
    case Some(id) =>
      HashStaysFound(b, cfg, t, ch, r, h);
      RowHistory(b, cfg, t, ch, r, id);
      if t[id].revokedAt.Some? {
        RevokedUseSpends(b, cfg, t, ch, r, id);
      } else if Uses(b, cfg, t, r, h) {
        assert Judge(cfg, t, h, r.now) == Rotate(id);
      }
  }

  /** A revoked token is used only through its replacement, which that use revokes. */
  lemma RevokedUseSpends(b: Backend, cfg: Config, t: Table, ch: Chains, r: Request, id: Id)
    requires Chained(t, ch) && Fresh(t, r.op) && id in t && t[id].revokedAt.Some?
    ensures Allowance(cfg, Step(b, cfg, t, r).0, t[id].tokenHash) + (if Uses(b, cfg, t, r, t[id].tokenHash) then 1 else 0)
            <= Allowance(cfg, t, t[id].tokenHash)
  {
    assert FindByHash(t, t[id].tokenHash) == Some(id);
    HashStaysFound(b, cfg, t, ch, r, t[id].tokenHash);
    RowHistory(b, cfg, t, ch, r, id);
    if t[id].replacedById.Some? {
      var next := t[id].replacedById.value;
      ReplacementInFamily(t, ch, id);
      RowHistory(b, cfg, t, ch, r, next);
      if Uses(b, cfg, t, r, t[id].tokenHash) { assert Judge(cfg, t, t[id].tokenHash, r.now) == Rotate(next); }
    }
  }

  lemma {:induction false} UsesWithinAllowance(b: Backend, cfg: Config, t: Table, ch: Chains, rs: seq<Request>, h: Hash)
    requires Chained(t, ch) && ValidRun(b, cfg, t, rs)
    ensures UseCount(b, cfg, t, rs, h) <= Allowance(cfg, t, h)
    decreases |rs|
  {
    if rs != [] {
      UseSpendsAllowance(b, cfg, t, ch, rs[0], h);
      StepKeepsChains(b, cfg, t, ch, rs[0]);
      UsesWithinAllowance(b, cfg, Step(b, cfg, t, rs[0]).0, Extend(cfg, t, ch, rs[0]), rs[1..], h);
    }
  }

  /** Over any whole run one token yields at most two sessions, and at most one without a grace window. */
  lemma TokenUsedAtMostTwice(b: Backend, cfg: Config, rs: seq<Request>, h: Hash)
    requires ValidRun(b, cfg, map[], rs)
    ensures UseCount(b, cfg, map[], rs, h) <= 2
    ensures cfg.graceWindowSec <= 0 ==> UseCount(b, cfg, map[], rs, h) <= 1
  {
    UsesWithinAllowance(b, cfg, map[], map[], rs, h);
  }

  lemma UnreplacedUsable(cfg: Config, t: Table, id: Id, h: Hash, now: int)
    requires id in t && FindByHash(t, h) == Some(id) && t[id].replacedById.None?
    ensures Judge(cfg, t, h, now).Rotate? <==> t[id].revokedAt.None? && now <= t[id].expiresAt
  {
  }

  lemma ReplacedUsable(cfg: Config, t: Table, id: Id, next: Id, h: Hash, now: int)
    requires id in t && next in t && FindByHash(t, h) == Some(id)
    requires t[id].revokedAt.Some? && t[id].replacedById == Some(next)
    ensures Judge(cfg, t, h, now).Rotate? <==>
              && t[next].revokedAt.None? && now < t[next].expiresAt
              && cfg.graceWindowSec > 0 && now - t[id].revokedAt.value <= cfg.graceWindowSec * 1000
  {
  }

  /** The place of the token in its chain, its expiry and the grace window decide. */
  predicate Usable(cfg: Config, t: Table, c: seq<Id>, i: nat, now: int)
    requires i < |c| && c[i] in t && c[|c| - 1] in t
  {
    var tail := t[c[|c| - 1]];
    && tail.revokedAt.None?
    && ((i == |c| - 1 && now <= tail.expiresAt)
        || (i == |c| - 2 && t[c[i]].revokedAt.Some? && now < tail.expiresAt
            && cfg.graceWindowSec > 0 && now - t[c[i]].revokedAt.value <= cfg.graceWindowSec * 1000))
  }

  lemma UsableVerdict(cfg: Config, t: Table, ch: Chains, f: FamilyId, i: nat, now: int)
    requires Chained(t, ch) && f in ch && i < |ch[f]| && ch[f][i] in t
    ensures ch[f][|ch[f]| - 1] in t
    ensures Judge(cfg, t, t[ch[f][i]].tokenHash, now).Rotate? <==> Usable(cfg, t, ch[f], i, now)
  {
    var c := ch[f];
    var u, h := t[c[0]].userId, t[c[i]].tokenHash;
    assert Linked(t, f, u, c, i) && Linked(t, f, u, c, |c| - 1);
    assert FindByHash(t, h) == Some(c[i]);
    if i == |c| - 1 {
      UnreplacedUsable(cfg, t, c[i], h, now);
    } else {
      assert Linked(t, f, u, c, i + 1);
      ReplacedUsable(cfg, t, c[i], c[i + 1], h, now);
    }
  }

  /**
   Which tokens of a family can still be used: the active tail until it expires, and the row just
   before it for the length of the grace window, while the tail has time left.
   */
  lemma UsableTokens(b: Backend, cfg: Config, t: Table, ch: Chains, f: FamilyId, i: nat, r: Request)
    requires Chained(t, ch) && f in ch && i < |ch[f]| && ch[f][i] in t
    requires r.op.Refresh? && r.op.presented == t[ch[f][i]].tokenHash
    ensures ch[f][|ch[f]| - 1] in t
    ensures Step(b, cfg, t, r).1.Issued? <==> Usable(cfg, t, ch[f], i, r.now)
  {
    UsableVerdict(cfg, t, ch, f, i, r.now);
  }

  // ---------- Sessions counted by family ----------

  /** The request is a successful refresh that presented a token of family `f`. */
  ghost predicate Rotates(b: Backend, cfg: Config, t: Table, r: Request, f: FamilyId) {
    && r.op.Refresh? && Step(b, cfg, t, r).1.Issued?
    && FindByHash(t, r.op.presented).Some?
    && t[FindByHash(t, r.op.presented).value].familyId == f
  }

  ghost function RotationCount(b: Backend, cfg: Config, t: Table, rs: seq<Request>, f: FamilyId): nat
    decreases |rs|
  {
    if rs == [] then 0
    else (if Rotates(b, cfg, t, rs[0], f) then 1 else 0) + RotationCount(b, cfg, Step(b, cfg, t, rs[0]).0, rs[1..], f)
  }

  /** The row a successful refresh rotates belongs to the family, and the user, of the token presented. */
  lemma RotatesWithinFamily(cfg: Config, t: Table, ch: Chains, p: Hash, now: int)
    requires Chained(t, ch) && Judge(cfg, t, p, now).Rotate?
    ensures FindByHash(t, p).Some?
    ensures var id, cur := Judge(cfg, t, p, now).id, FindByHash(t, p).value;
            t[id].familyId == t[cur].familyId && t[id].userId == t[cur].userId
  {
    var cur := FindByHash(t, p).value;
    if t[cur].replacedById.Some? { ReplacementInFamily(t, ch, cur); }
  }

  lemma FamilyFixed(b: Backend, cfg: Config, t: Table, ch: Chains, r: Request, x: Id)
    requires Chained(t, ch) && Fresh(t, r.op) && x in t
    ensures x in Step(b, cfg, t, r).0 && Step(b, cfg, t, r).0[x].familyId == t[x].familyId
  {
    RowHistory(b, cfg, t, ch, r, x);
  }

  /** The one row a request may add: a login's, or a successful refresh's in the family it presented. */
  lemma AddedRow(b: Backend, cfg: Config, t: Table, ch: Chains, r: Request, x: Id)
    requires Chained(t, ch) && Fresh(t, r.op) && x !in t && x in Step(b, cfg, t, r).0
    ensures (r.op.Login? && x == r.op.id && Step(b, cfg, t, r).0[x].familyId == r.op.family)
            || (r.op.Refresh? && x == r.op.id && Rotates(b, cfg, t, r, Step(b, cfg, t, r).0[x].familyId))
  {
    if r.op.Refresh? { RotatesWithinFamily(cfg, t, ch, r.op.presented, r.now); }
  }

  lemma RotationAddsRow(b: Backend, cfg: Config, t: Table, ch: Chains, r: Request, f: FamilyId)
    requires Chained(t, ch) && Fresh(t, r.op) && Rotates(b, cfg, t, r, f)
    ensures r.op.id !in t && r.op.id in Step(b, cfg, t, r).0 && Step(b, cfg, t, r).0[r.op.id].familyId == f
    ensures Members(t, f) != {}
  {
    RotatesWithinFamily(cfg, t, ch, r.op.presented, r.now);
    assert FindByHash(t, r.op.presented).value in Members(t, f);
  }

  /** How one request changes the membership of a family. */
  lemma MembersAfterStep(b: Backend, cfg: Config, t: Table, ch: Chains, r: Request, f: FamilyId)
    requires Chained(t, ch) && Fresh(t, r.op)
    ensures var before, after := Members(t, f), Members(Step(b, cfg, t, r).0, f);
            if Rotates(b, cfg, t, r, f) then before != {} && r.op.id !in before && after == before + {r.op.id}
            else if r.op.Login? && r.op.family == f then before == {} && after == {r.op.id}
            else after == before
  {
    var t' := Step(b, cfg, t, r).0;
    forall x | x in t ensures x in t' && t'[x].familyId == t[x].familyId { FamilyFixed(b, cfg, t, ch, r, x); }
    if Rotates(b, cfg, t, r, f) {
      RotationAddsRow(b, cfg, t, ch, r, f);
      forall x | x in t' && x !in t ensures x == r.op.id { AddedRow(b, cfg, t, ch, r, x); }
      OneMore(t, t', f, r.op.id);
    } else if r.op.Login? && r.op.family == f {
      assert Members(t, f) == {};
      OneMore(t, t', f, r.op.id);
    } else {
      forall x | x in t' && x !in t ensures t'[x].familyId != f { AddedRow(b, cfg, t, ch, r, x); }
    }
  }

  lemma OneMore(t: Table, t': Table, f: FamilyId, id: Id)
    requires forall x | x in t :: x in t' && t'[x].familyId == t[x].familyId
    requires forall x | x in t' && x !in t :: x == id
    requires id !in t && id in t' && t'[id].familyId == f
    ensures id !in Members(t, f) && Members(t', f) == Members(t, f) + {id}
  {
  }

  /** What `FamilyGrowth` says of one run. */
  ghost predicate Grew(before: set<Id>, after: set<Id>, rotations: nat) {
    if before != {} then |after| == |before| + rotations
    else (after == {} && rotations == 0) || |after| == 1 + rotations
  }

  lemma GrowthAdds(before: set<Id>, mid: set<Id>, after: set<Id>, op: Op, rotated: bool, rotations: nat)
    requires Grew(mid, after, rotations)
    requires if rotated then op.Refresh? && before != {} && op.id !in before && mid == before + {op.id}
             else mid == before || (before == {} && op.Login? && mid == {op.id})
    ensures Grew(before, after, rotations + if rotated then 1 else 0)
  {
  }

  lemma {:induction false} FamilyGrowth(b: Backend, cfg: Config, t: Table, ch: Chains, rs: seq<Request>, f: FamilyId)
    requires Chained(t, ch) && ValidRun(b, cfg, t, rs)
    ensures Grew(Members(t, f), Members(Run(b, cfg, t, rs), f), RotationCount(b, cfg, t, rs, f))
    decreases |rs|
  {
    if rs != [] {
      MembersAfterStep(b, cfg, t, ch, rs[0], f);
      StepKeepsChains(b, cfg, t, ch, rs[0]);
      var t' := Step(b, cfg, t, rs[0]).0;
      FamilyGrowth(b, cfg, t', Extend(cfg, t, ch, rs[0]), rs[1..], f);
      GrowthAdds(Members(t, f), Members(t', f), Members(Run(b, cfg, t', rs[1..]), f), rs[0].op,
                 Rotates(b, cfg, t, rs[0], f), RotationCount(b, cfg, t', rs[1..], f));
    }
  }

  /** A family's successful refreshes number exactly its size minus one. */
  lemma SessionsMatchFamilySize(b: Backend, cfg: Config, rs: seq<Request>, f: FamilyId)
    requires ValidRun(b, cfg, map[], rs)
    requires Members(Run(b, cfg, map[], rs), f) != {}
    ensures RotationCount(b, cfg, map[], rs, f) == |Members(Run(b, cfg, map[], rs), f)| - 1
  {
    FamilyGrowth(b, cfg, map[], map[], rs, f);
  }

  // ---------- Dead families ----------

  ghost predicate Dead(t: Table, f: FamilyId) {
    forall id | id in t && t[id].familyId == f :: t[id].revokedAt.Some?
  }

  /** From `t` on, whatever the requests `rs`, the family is dead, does not grow and yields no session. */
  ghost predicate StaysDead(b: Backend, cfg: Config, t: Table, rs: seq<Request>, f: FamilyId) {
    && Dead(Run(b, cfg, t, rs), f)
    && Members(Run(b, cfg, t, rs), f) == Members(t, f)
    && RotationCount(b, cfg, t, rs, f) == 0
  }

  lemma DeadAfterStep(b: Backend, cfg: Config, t: Table, ch: Chains, r: Request, f: FamilyId)
    requires Chained(t, ch) && Fresh(t, r.op) && Dead(t, f) && Members(t, f) != {}
    ensures Dead(Step(b, cfg, t, r).0, f)
    ensures Members(Step(b, cfg, t, r).0, f) == Members(t, f)
    ensures !Rotates(b, cfg, t, r, f)
  {
    MembersAfterStep(b, cfg, t, ch, r, f);
    if Rotates(b, cfg, t, r, f) {
      RotatesWithinFamily(cfg, t, ch, r.op.presented, r.now);
    }
    forall x | x in Members(t, f) ensures Step(b, cfg, t, r).0[x].revokedAt.Some? {
      RowHistory(b, cfg, t, ch, r, x);
    }
    assert forall x | x in Step(b, cfg, t, r).0 && Step(b, cfg, t, r).0[x].familyId == f :: x in Members(t, f);
  }

  lemma {:induction false} DeadFamilyStaysDead(b: Backend, cfg: Config, t: Table, ch: Chains, rs: seq<Request>, f: FamilyId)
    requires Chained(t, ch) && ValidRun(b, cfg, t, rs)
    requires Dead(t, f) && Members(t, f) != {}
    ensures StaysDead(b, cfg, t, rs, f)
    decreases |rs|
  {
    if rs != [] {
      DeadAfterStep(b, cfg, t, ch, rs[0], f);
      StepKeepsChains(b, cfg, t, ch, rs[0]);
      DeadFamilyStaysDead(b, cfg, Step(b, cfg, t, rs[0]).0, Extend(cfg, t, ch, rs[0]), rs[1..], f);
    }
  }

  /**
   Refusing a revoked token leaves its whole family revoked: the code revokes the rows if the token
   had been rotated, and a revoked token nothing replaced is the tail of a family already dead.
   */
  lemma RefusedReplayLeavesFamilyDead(b: Backend, cfg: Config, t: Table, ch: Chains, r: Request, cur: Id)
    requires Chained(t, ch) && r.op.Refresh? && !Step(b, cfg, t, r).1.Issued?
    requires cur in t && t[cur].tokenHash == r.op.presented && t[cur].revokedAt.Some?
    ensures Dead(Step(b, cfg, t, r).0, t[cur].familyId)
  {
    assert FindByHash(t, r.op.presented) == Some(cur);
    if t[cur].replacedById.Some? {
      assert Step(b, cfg, t, r).0 == RevokeFamily(b, t, t[cur].familyId, r.now);
    } else {
      RevokedTailIsDead(t, ch, cur);
    }
  }

  lemma RevokedTailIsDead(t: Table, ch: Chains, id: Id)
    requires Chained(t, ch) && id in t && t[id].revokedAt.Some? && t[id].replacedById.None?
    ensures Dead(t, t[id].familyId)
  {
    var _ := Position(t, ch, id);
    forall x | x in t && t[x].familyId == t[id].familyId ensures t[x].revokedAt.Some? {
      if t[x].revokedAt.None? { UnrevokedIsTail(t, ch, x); }
    }
  }

  lemma FamilyHasOneUser(t: Table, ch: Chains, x: Id, y: Id)
    requires Chained(t, ch) && x in t && y in t && t[x].familyId == t[y].familyId
    ensures t[x].userId == t[y].userId
  {
    var f := t[x].familyId;
    var i := Position(t, ch, x);
    var j := Position(t, ch, y);
    assert Linked(t, f, t[ch[f][0]].userId, ch[f], i) && Linked(t, f, t[ch[f][0]].userId, ch[f], j);
  }

  lemma ResetRevokesFamily(t: Table, ch: Chains, now: int, id: Id)
    requires Chained(t, ch) && id in t
    ensures Dead(RevokeAllForUser(t, t[id].userId, now), t[id].familyId)
  {
    var t' := RevokeAllForUser(t, t[id].userId, now);
    forall x | x in t' && t'[x].familyId == t[id].familyId ensures t'[x].revokedAt.Some? {
      FamilyHasOneUser(t, ch, x, id);
    }
  }

  lemma LogoutRevokesFamily(b: Backend, t: Table, ch: Chains, now: int, id: Id)
    requires Chained(t, ch) && id in t && t[id].revokedAt.None?
    ensures Dead(LogoutStep(b, t, t[id].tokenHash, now), t[id].familyId)
  {
    var t' := LogoutStep(b, t, t[id].tokenHash, now);
    UnrevokedIsTail(t, ch, id);
    forall x | x in t' && t'[x].familyId == t[id].familyId ensures t'[x].revokedAt.Some? {
      if t[x].revokedAt.None? { UnrevokedIsTail(t, ch, x); }
    }
  }

  /** The request leaves the family of `id` without an active token: a refused replay, a reset, or a logout. */
  ghost predicate Kills(b: Backend, cfg: Config, t: Table, r: Request, id: Id)
    requires id in t
  {
    match r.op
    case Refresh(p, _, _, _) => p == t[id].tokenHash && t[id].revokedAt.Some? && !Step(b, cfg, t, r).1.Issued?
    case Reset(u) => u == Some(t[id].userId)
    case Logout(p) => p == t[id].tokenHash && t[id].revokedAt.None?
    case Login(_, _, _, _, _) => false
  }

  lemma KillingStep(b: Backend, cfg: Config, t: Table, ch: Chains, r: Request, id: Id)
    requires Chained(t, ch) && Fresh(t, r.op) && id in t && Kills(b, cfg, t, r, id)
    ensures Dead(Step(b, cfg, t, r).0, t[id].familyId)
    ensures Members(Step(b, cfg, t, r).0, t[id].familyId) != {}
  {
    if r.op.Refresh? {
      RefusedReplayLeavesFamilyDead(b, cfg, t, ch, r, id);
    } else if r.op.Reset? {
      ResetRevokesFamily(t, ch, r.now, id);
    } else {
      LogoutRevokesFamily(b, t, ch, r.now, id);
    }
    RowHistory(b, cfg, t, ch, r, id);
    assert id in Members(Step(b, cfg, t, r).0, t[id].familyId);
  }

  /**
   After any run, once a revoked token is refused, or the user's password is reset, or an active
   token logs out, the family is dead whatever calls follow.
   */
  lemma KilledFamilyNeverReturns(b: Backend, cfg: Config, before: seq<Request>, r: Request, id: Id, later: seq<Request>)
    requires ValidRun(b, cfg, map[], before)
    requires id in Run(b, cfg, map[], before) && Fresh(Run(b, cfg, map[], before), r.op)
    requires Kills(b, cfg, Run(b, cfg, map[], before), r, id)
    requires ValidRun(b, cfg, Step(b, cfg, Run(b, cfg, map[], before), r).0, later)
    ensures var t := Run(b, cfg, map[], before);
            StaysDead(b, cfg, Step(b, cfg, t, r).0, later, t[id].familyId)
  {
    var ch := RunKeepsChains(b, cfg, map[], map[], before);
    var t := Run(b, cfg, map[], before);
    KillingStep(b, cfg, t, ch, r, id);
    StepKeepsChains(b, cfg, t, ch, r);
    DeadFamilyStaysDead(b, cfg, Step(b, cfg, t, r).0, Extend(cfg, t, ch, r), later, t[id].familyId);
  }

  // ---------- The bound of two is reached ----------

  /** With a grace window, a token really does yield two sessions: its rotation and one replay. */
  lemma TwoUsesHappen(b: Backend, cfg: Config, m: Meta)
    requires cfg.graceWindowSec > 0 && cfg.refreshTtlSec > 0
    ensures var rs := [Request(0, Login(0, 1, 0, 1, m)), Request(0, Refresh(1, 2, 2, m)), Request(0, Refresh(1, 3, 3, m))];
            ValidRun(b, cfg, map[], rs) && UseCount(b, cfg, map[], rs, 1) == 2
  {
    var r0, r1, r2 := Request(0, Login(0, 1, 0, 1, m)), Request(0, Refresh(1, 2, 2, m)), Request(0, Refresh(1, 3, 3, m));
    var t1 := Step(b, cfg, map[], r0).0;
    assert t1 == map[1 := NewSession(cfg, 0, 0, 1, m, 0)];
    var t2 := Step(b, cfg, t1, r1).0;
    assert t2[1].replacedById == Some(2) && t2[1].revokedAt == Some(0) && t2[2].revokedAt == None && t2[2].tokenHash == 2;
    assert FindByHash(t2, 1) == Some(1);
    assert UseCount(b, cfg, t2, [r2], 1) == 1;
    assert ValidRun(b, cfg, t1, [r1, r2]);
  }
}
