/** What a caller gets from the session calls: how long a session lasts, and who ends it. */
module RefreshTokenLaws {
  import opened Wrappers
  import opened RefreshTokens
  import opened RefreshTokenChains
  import opened RefreshTokenSafety

  // ---------- Answers ----------

  /** A refresh is answered with a session of the token's user, with "expired", or with "invalid". */
  lemma RefreshAnswers(b: Backend, cfg: Config, t: Table, ch: Chains, r: Request)
    requires Chained(t, ch) && r.op.Refresh?
    ensures var found, o := FindByHash(t, r.op.presented), Step(b, cfg, t, r).1;
            && (o.Issued? ==> found.Some? && o == Issued(t[found.value].userId, r.op.hash))
            && (o == ExpiredToken <==> found.Some? && t[found.value].revokedAt.None? && t[found.value].expiresAt < r.now)
            && (o.Issued? || o == ExpiredToken || o == InvalidToken)
  {
    if Judge(cfg, t, r.op.presented, r.now).Rotate? { RotatesWithinFamily(cfg, t, ch, r.op.presented, r.now); }
  }

  /** A refused refresh writes nothing, unless the token had been rotated: then it touches that token's family only. */
  lemma RefusalWrites(b: Backend, cfg: Config, t: Table, r: Request, id: Id)
    requires r.op.Refresh? && !Step(b, cfg, t, r).1.Issued? && id in t
    ensures var t', found := Step(b, cfg, t, r).0, FindByHash(t, r.op.presented);
            && t'.Keys == t.Keys
            && (found.None? || t[found.value].replacedById.None? || t[id].familyId != t[found.value].familyId ==> t'[id] == t[id])
  {
  }

  /** The other calls have one answer each, but for a reset without a usable token. */
  lemma OtherAnswers(b: Backend, cfg: Config, t: Table, r: Request)
    requires !r.op.Refresh?
    ensures Step(b, cfg, t, r).1 == match r.op
                                    case Login(u, _, _, h, _) => Issued(u, h)
                                    case Reset(None) => InvalidToken
                                    case _ => Done
  {
  }

  // ---------- Who ends a session ----------

  /** The request ends family `f`, by some row of it. */
  ghost predicate KillsFamily(b: Backend, cfg: Config, t: Table, r: Request, f: FamilyId) {
    exists k :: k in Members(t, f) && Kills(b, cfg, t, r, k)
  }

  lemma NotKilled(b: Backend, cfg: Config, t: Table, r: Request, f: FamilyId, id: Id)
    requires !KillsFamily(b, cfg, t, r, f) && id in t && t[id].familyId == f
    ensures !Kills(b, cfg, t, r, id)
  {
    assert id in Members(t, f);
  }

  /** A refresh that neither rotates nor kills a family leaves the family's rows alone. */
  lemma RefreshSparesFamily(b: Backend, cfg: Config, t: Table, ch: Chains, r: Request, id: Id)
    requires Chained(t, ch) && Fresh(t, r.op) && r.op.Refresh? && id in t
    requires !Rotates(b, cfg, t, r, t[id].familyId) && !KillsFamily(b, cfg, t, r, t[id].familyId)
    ensures id in Step(b, cfg, t, r).0 && Step(b, cfg, t, r).0[id] == t[id]
  {
    match Judge(cfg, t, r.op.presented, r.now)
    case Rotate(x) => RotatesWithinFamily(cfg, t, ch, r.op.presented, r.now);
    case RefuseFamily(g) =>
      var cur := FindByHash(t, r.op.presented).value;
      if g == t[id].familyId { NotKilled(b, cfg, t, r, g, cur); }
    case Refuse(_) =>
  }

  /** Every row of a family the call neither rotates nor kills is as before: nobody else is logged out. */
  lemma OthersUntouched(b: Backend, cfg: Config, t: Table, ch: Chains, r: Request, id: Id)
    requires Chained(t, ch) && Fresh(t, r.op) && id in t
    requires !Rotates(b, cfg, t, r, t[id].familyId) && !KillsFamily(b, cfg, t, r, t[id].familyId)
    ensures id in Step(b, cfg, t, r).0 && Step(b, cfg, t, r).0[id] == t[id]
  {
    NotKilled(b, cfg, t, r, t[id].familyId, id);
    match r.op
    case Login(_, _, _, _, _) =>
    case Refresh(_, _, _, _) => RefreshSparesFamily(b, cfg, t, ch, r, id);
    case Logout(p) =>
      if FindByHash(t, p).Some? && t[FindByHash(t, p).value].familyId == t[id].familyId {
        NotKilled(b, cfg, t, r, t[id].familyId, FindByHash(t, p).value);
      }
    case Reset(_) =>
  }

  lemma RotatedStaysAlive(b: Backend, cfg: Config, t: Table, ch: Chains, r: Request, f: FamilyId)
    requires Chained(t, ch) && Fresh(t, r.op) && Rotates(b, cfg, t, r, f)
    ensures !Dead(Step(b, cfg, t, r).0, f)
  {
    RotationAddsRow(b, cfg, t, ch, r, f);
    assert Step(b, cfg, t, r).0[r.op.id].revokedAt.None?;
  }

  /** A living family dies in a call if and only if the call kills it. */
  lemma DiesIffKilled(b: Backend, cfg: Config, t: Table, ch: Chains, r: Request, f: FamilyId)
    requires Chained(t, ch) && Fresh(t, r.op) && !Dead(t, f)
    ensures Dead(Step(b, cfg, t, r).0, f) <==> KillsFamily(b, cfg, t, r, f)
  {
    var id :| id in t && t[id].familyId == f && t[id].revokedAt.None?;
    if k :| k in Members(t, f) && Kills(b, cfg, t, r, k) {
      KillingStep(b, cfg, t, ch, r, k);
    } else if Rotates(b, cfg, t, r, f) {
      RotatedStaysAlive(b, cfg, t, ch, r, f);
    } else {
      OthersUntouched(b, cfg, t, ch, r, id);
    }
  }

  ghost predicate KilledIn(b: Backend, cfg: Config, t: Table, rs: seq<Request>, f: FamilyId)
    decreases |rs|
  {
    rs != [] && (KillsFamily(b, cfg, t, rs[0], f) || KilledIn(b, cfg, Step(b, cfg, t, rs[0]).0, rs[1..], f))
  }

  /** A family that does not exist cannot be killed; if the call creates it, it is alive. */
  lemma UnbornStep(b: Backend, cfg: Config, t: Table, ch: Chains, r: Request, f: FamilyId)
    requires Chained(t, ch) && Fresh(t, r.op) && Members(t, f) == {}
    ensures !KillsFamily(b, cfg, t, r, f)
    ensures Members(Step(b, cfg, t, r).0, f) == {} || !Dead(Step(b, cfg, t, r).0, f)
  {
    MembersAfterStep(b, cfg, t, ch, r, f);
    if Members(Step(b, cfg, t, r).0, f) != {} { assert Step(b, cfg, t, r).0[r.op.id].revokedAt.None?; }
  }

  lemma {:induction false} UnbornOrAliveRun(b: Backend, cfg: Config, t: Table, ch: Chains, rs: seq<Request>, f: FamilyId)
    requires Chained(t, ch) && ValidRun(b, cfg, t, rs)
    requires Members(t, f) == {} || !Dead(t, f)
    ensures Members(Run(b, cfg, t, rs), f) == {} || (Dead(Run(b, cfg, t, rs), f) <==> KilledIn(b, cfg, t, rs, f))
    ensures Members(Run(b, cfg, t, rs), f) == {} ==> !KilledIn(b, cfg, t, rs, f)
    decreases |rs|
  {
    if rs != [] {
      var t' := Step(b, cfg, t, rs[0]).0;
      StepKeepsChains(b, cfg, t, ch, rs[0]);
      if Members(t, f) == {} {
        UnbornStep(b, cfg, t, ch, rs[0], f);
        UnbornOrAliveRun(b, cfg, t', Extend(cfg, t, ch, rs[0]), rs[1..], f);
      } else {
        DiesIffKilled(b, cfg, t, ch, rs[0], f);
        MembersAfterStep(b, cfg, t, ch, rs[0], f);
        if KillsFamily(b, cfg, t, rs[0], f) {
          DeadFamilyStaysDead(b, cfg, t', Extend(cfg, t, ch, rs[0]), rs[1..], f);
        } else {
          UnbornOrAliveRun(b, cfg, t', Extend(cfg, t, ch, rs[0]), rs[1..], f);
        }
      }
    } else if Members(t, f) != {} {
      assert !Dead(t, f);
    }
  }

  /** After any run a family is dead if and only if some call of the run killed it. */
  lemma DeadIffKilled(b: Backend, cfg: Config, rs: seq<Request>, f: FamilyId)
    requires ValidRun(b, cfg, map[], rs) && Members(Run(b, cfg, map[], rs), f) != {}
    ensures Dead(Run(b, cfg, map[], rs), f) <==> KilledIn(b, cfg, map[], rs, f)
  {
    UnbornOrAliveRun(b, cfg, map[], map[], rs, f);
  }

  /** A revocation is stamped with the time of the call that makes it. */
  lemma StampedWhenRevoked(b: Backend, cfg: Config, t: Table, r: Request, id: Id)
    requires Fresh(t, r.op) && id in t
    ensures var t' := Step(b, cfg, t, r).0;
            id in t' && (t'[id].revokedAt != t[id].revokedAt ==> t'[id].revokedAt == Some(r.now))
  {
  }

  // ---------- How long a session lasts ----------

  /** The request issues the token `h`. */
  ghost predicate Issues(b: Backend, cfg: Config, t: Table, r: Request, h: Hash) {
    Step(b, cfg, t, r).1.Issued? && Step(b, cfg, t, r).1.hash == h
  }

  /** The device a new session is remembered by: what the request says, or else what its predecessor said. */
  function Remembered(said: Option<string>, before: Option<string>): Option<string> {
    match said case Some(_) => said case None => before
  }

  /** A session just issued: for this user, unused, good for the refresh lifetime from now. */
  ghost predicate NewlyIssued(cfg: Config, row: Token, user: UserId, now: int) {
    row.userId == user && row.revokedAt.None? && row.replacedById.None? && row.expiresAt == now + cfg.refreshTtlSec * 1000
  }

  lemma RotatedRow(b: Backend, cfg: Config, t: Table, id: Id, newId: Id, hash: Hash, meta: Meta, now: int)
    requires id in t && newId !in t
    ensures var t' := RotateToken(b, cfg, t, id, newId, hash, meta, now);
            && newId in t' && t'[newId].tokenHash == hash && NewlyIssued(cfg, t'[newId], t[id].userId, now)
            && t'[newId].userAgent == Remembered(meta.userAgent, t[id].userAgent)
            && t'[newId].ip == Remembered(meta.ip, t[id].ip)
            && id in t' && t'[id].revokedAt == Some(now) && t'[id].replacedById == Some(newId)
  {
  }

  lemma FoundByHash(t: Table, ch: Chains, id: Id)
    requires Chained(t, ch) && id in t
    ensures FindByHash(t, t[id].tokenHash) == Some(id)
  {
  }

  lemma IssuedWrites(b: Backend, cfg: Config, t: Table, r: Request, h: Hash)
    requires Fresh(t, r.op) && Issues(b, cfg, t, r, h)
    ensures r.op.Login? || r.op.Refresh?
    ensures var t' := Step(b, cfg, t, r).0;
            && r.op.id in t' && t'[r.op.id].tokenHash == h && NewlyIssued(cfg, t'[r.op.id], Step(b, cfg, t, r).1.user, r.now)
            && (r.op.Login? ==> t'[r.op.id].userAgent == r.op.meta.userAgent && t'[r.op.id].ip == r.op.meta.ip)
  {
    if r.op.Refresh? {
      RotatedRow(b, cfg, t, Judge(cfg, t, r.op.presented, r.now).id, r.op.id, r.op.hash, r.op.meta, r.now);
    }
  }

  /** The row behind a token that has just been issued, and the device it is remembered by. */
  lemma IssuedRow(b: Backend, cfg: Config, t: Table, ch: Chains, r: Request, h: Hash)
    requires Chained(t, ch) && Fresh(t, r.op) && Issues(b, cfg, t, r, h)
    ensures r.op.Login? || r.op.Refresh?
    ensures var t', user := Step(b, cfg, t, r).0, Step(b, cfg, t, r).1.user;
            && r.op.id in t' && FindByHash(t', h) == Some(r.op.id) && NewlyIssued(cfg, t'[r.op.id], user, r.now)
            && (r.op.Login? ==> t'[r.op.id].userAgent == r.op.meta.userAgent && t'[r.op.id].ip == r.op.meta.ip)
  {
    IssuedWrites(b, cfg, t, r, h);
    StepKeepsChains(b, cfg, t, ch, r);
    FoundByHash(Step(b, cfg, t, r).0, Extend(cfg, t, ch, r), r.op.id);
  }

  /** What a refresh of an active token writes. */
  lemma RotationWrites(b: Backend, cfg: Config, t: Table, ch: Chains, r: Request, id: Id)
    requires Chained(t, ch) && Fresh(t, r.op) && r.op.Refresh? && Step(b, cfg, t, r).1.Issued?
    requires FindByHash(t, r.op.presented) == Some(id) && t[id].revokedAt.None?
    ensures var t' := Step(b, cfg, t, r).0;
            && id in t' && t'[id] == t[id].(revokedAt := Some(r.now), replacedById := Some(r.op.id))
            && r.op.id in t' && NewlyIssued(cfg, t'[r.op.id], t[id].userId, r.now)
            && t'[r.op.id].familyId == t[id].familyId && t'[r.op.id].parentId == Some(id)
            && t'[r.op.id].userAgent == Remembered(r.op.meta.userAgent, t[id].userAgent)
            && t'[r.op.id].ip == Remembered(r.op.meta.ip, t[id].ip)
  {
    RotatedRow(b, cfg, t, id, r.op.id, r.op.hash, r.op.meta, r.now);
  }

  /** No request presents a token of the family, and nobody resets its user's password. */
  ghost predicate LeavesAlone(t: Table, r: Request, f: FamilyId, u: UserId) {
    match r.op
    case Refresh(p, _, _, _) => FindByHash(t, p).Some? ==> t[FindByHash(t, p).value].familyId != f
    case Logout(p) => FindByHash(t, p).Some? ==> t[FindByHash(t, p).value].familyId != f
    case Reset(v) => v != Some(u)
    case Login(_, _, _, _, _) => true
  }

  ghost predicate AllLeaveAlone(b: Backend, cfg: Config, t: Table, rs: seq<Request>, f: FamilyId, u: UserId)
    decreases |rs|
  {
    rs == [] || (LeavesAlone(t, rs[0], f, u) && AllLeaveAlone(b, cfg, Step(b, cfg, t, rs[0]).0, rs[1..], f, u))
  }

  lemma LeftAlone(b: Backend, cfg: Config, t: Table, ch: Chains, r: Request, id: Id)
    requires Chained(t, ch) && Fresh(t, r.op) && id in t && LeavesAlone(t, r, t[id].familyId, t[id].userId)
    ensures id in Step(b, cfg, t, r).0 && Step(b, cfg, t, r).0[id] == t[id]
  {
    var f := t[id].familyId;
    forall k | k in Members(t, f) ensures !Kills(b, cfg, t, r, k) {
      FamilyHasOneUser(t, ch, k, id);
      assert FindByHash(t, t[k].tokenHash) == Some(k);
    }
    OthersUntouched(b, cfg, t, ch, r, id);
  }

  lemma {:induction false} RunLeavesAlone(b: Backend, cfg: Config, t: Table, ch: Chains, rs: seq<Request>, id: Id)
    requires Chained(t, ch) && ValidRun(b, cfg, t, rs) && id in t
    requires AllLeaveAlone(b, cfg, t, rs, t[id].familyId, t[id].userId)
    ensures id in Run(b, cfg, t, rs) && Run(b, cfg, t, rs)[id] == t[id]
    decreases |rs|
  {
    if rs != [] {
      LeftAlone(b, cfg, t, ch, rs[0], id);
      StepKeepsChains(b, cfg, t, ch, rs[0]);
      RunLeavesAlone(b, cfg, Step(b, cfg, t, rs[0]).0, Extend(cfg, t, ch, rs[0]), rs[1..], id);
    }
  }

  /**
   A token issued at some time, and then left alone whatever else happens, is good for exactly the
   refresh lifetime, its last moment included.
   */
  lemma SessionLasts(b: Backend, cfg: Config, before: seq<Request>, issue: Request, h: Hash, between: seq<Request>, use: Request)
    requires ValidRun(b, cfg, map[], before)
    requires var t := Run(b, cfg, map[], before);
             && Fresh(t, issue.op) && Issues(b, cfg, t, issue, h) && ValidRun(b, cfg, Step(b, cfg, t, issue).0, between)
             && FindByHash(Step(b, cfg, t, issue).0, h).Some?
             && var row := Step(b, cfg, t, issue).0[FindByHash(Step(b, cfg, t, issue).0, h).value];
                AllLeaveAlone(b, cfg, Step(b, cfg, t, issue).0, between, row.familyId, row.userId)
    requires use.op.Refresh? && use.op.presented == h
    ensures var t := Run(b, cfg, map[], before);
            Step(b, cfg, Run(b, cfg, Step(b, cfg, t, issue).0, between), use).1.Issued?
            <==> use.now <= issue.now + cfg.refreshTtlSec * 1000
  {
    var ch := RunKeepsChains(b, cfg, map[], map[], before);
    var t := Run(b, cfg, map[], before);
    IssuedRow(b, cfg, t, ch, issue, h);
    StepKeepsChains(b, cfg, t, ch, issue);
    FreshTokenUsable(b, cfg, Step(b, cfg, t, issue).0, Extend(cfg, t, ch, issue), issue.op.id, between, use);
  }

  lemma FreshTokenUsable(b: Backend, cfg: Config, t: Table, ch: Chains, id: Id, between: seq<Request>, use: Request)
    requires Chained(t, ch) && ValidRun(b, cfg, t, between) && id in t && t[id].revokedAt.None?
    requires AllLeaveAlone(b, cfg, t, between, t[id].familyId, t[id].userId)
    requires use.op.Refresh? && use.op.presented == t[id].tokenHash
    ensures Step(b, cfg, Run(b, cfg, t, between), use).1.Issued? <==> use.now <= t[id].expiresAt
  {
    var ch' := RunKeepsChains(b, cfg, t, ch, between);
    var t' := Run(b, cfg, t, between);
    RunLeavesAlone(b, cfg, t, ch, between, id);
    FoundByHash(t', ch', id);
    UnrevokedIsTail(t', ch', id);
    UnreplacedUsable(cfg, t', id, use.op.presented, use.now);
    IssuedIffJudged(b, cfg, t', use);
  }

  lemma IssuedIffJudged(b: Backend, cfg: Config, t: Table, r: Request)
    requires r.op.Refresh?
    ensures Step(b, cfg, t, r).1.Issued? <==> Judge(cfg, t, r.op.presented, r.now).Rotate?
  {
  }

  /** A row rotated at `at`, whose replacement is active: the replay window and the replacement's lifetime decide. */
  lemma ReplayUsable(b: Backend, cfg: Config, t: Table, ch: Chains, id: Id, at: int, between: seq<Request>, replay: Request)
    requires Chained(t, ch) && ValidRun(b, cfg, t, between) && id in t
    requires t[id].revokedAt == Some(at) && t[id].replacedById.Some?
    requires t[id].replacedById.value in t && t[t[id].replacedById.value].revokedAt.None?
    requires AllLeaveAlone(b, cfg, t, between, t[id].familyId, t[id].userId)
    requires replay.op.Refresh? && replay.op.presented == t[id].tokenHash
    ensures Step(b, cfg, Run(b, cfg, t, between), replay).1.Issued? <==>
              && cfg.graceWindowSec > 0 && replay.now - at <= cfg.graceWindowSec * 1000
              && replay.now < t[t[id].replacedById.value].expiresAt
  {
    var next := t[id].replacedById.value;
    ReplacementInFamily(t, ch, id);
    RunLeavesAlone(b, cfg, t, ch, between, id);
    RunLeavesAlone(b, cfg, t, ch, between, next);
    var ch' := RunKeepsChains(b, cfg, t, ch, between);
    FoundByHash(Run(b, cfg, t, between), ch', id);
    ReplacedUsable(cfg, Run(b, cfg, t, between), id, next, replay.op.presented, replay.now);
    IssuedIffJudged(b, cfg, Run(b, cfg, t, between), replay);
  }

  /**
   A token rotated at some time, its replacement then left alone, can be replayed for exactly the grace
   window, its last moment included, and only before the replacement's lifetime is over.
   */
  lemma ReplayLasts(b: Backend, cfg: Config, before: seq<Request>, id: Id, rotate: Request, between: seq<Request>, replay: Request)
    requires ValidRun(b, cfg, map[], before)
    requires var t := Run(b, cfg, map[], before);
             && Fresh(t, rotate.op) && rotate.op.Refresh? && Step(b, cfg, t, rotate).1.Issued?
             && FindByHash(t, rotate.op.presented) == Some(id) && t[id].revokedAt.None?
             && ValidRun(b, cfg, Step(b, cfg, t, rotate).0, between)
             && AllLeaveAlone(b, cfg, Step(b, cfg, t, rotate).0, between, t[id].familyId, t[id].userId)
    requires replay.op.Refresh? && replay.op.presented == rotate.op.presented
    ensures var t1 := Step(b, cfg, Run(b, cfg, map[], before), rotate).0;
            Step(b, cfg, Run(b, cfg, t1, between), replay).1.Issued? <==>
              && cfg.graceWindowSec > 0 && replay.now - rotate.now <= cfg.graceWindowSec * 1000
              && replay.now < rotate.now + cfg.refreshTtlSec * 1000
  {
    var ch := RunKeepsChains(b, cfg, map[], map[], before);
    var t := Run(b, cfg, map[], before);
    RotationWrites(b, cfg, t, ch, rotate, id);
    StepKeepsChains(b, cfg, t, ch, rotate);
    ReplayUsable(b, cfg, Step(b, cfg, t, rotate).0, Extend(cfg, t, ch, rotate), id, rotate.now, between, replay);
  }
}
