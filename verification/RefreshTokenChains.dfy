/** What every run keeps: each family is one finite chain. */
module RefreshTokenChains {
  import opened Wrappers
  import opened RefreshTokens

  ghost function Members(t: Table, f: FamilyId): set<Id> {
    set id | id in t && t[id].familyId == f
  }

  /** Row `c[i]` is linked both ways to its neighbours, and revoked unless it is the last. */
  ghost predicate Linked(t: Table, f: FamilyId, u: UserId, c: seq<Id>, i: int)
    requires 0 <= i < |c|
  {
    && c[i] in t
    && t[c[i]].familyId == f && t[c[i]].userId == u
    && t[c[i]].parentId == (if i == 0 then None else Some(c[i - 1]))
    && t[c[i]].replacedById == (if i == |c| - 1 then None else Some(c[i + 1]))
    && (i < |c| - 1 ==> t[c[i]].revokedAt.Some?)
  }

  ghost predicate Distinct(c: seq<Id>) {
    forall i, j | 0 <= i < j < |c| :: c[i] != c[j]
  }

  /** `c` lists the whole family, all of one user, from its root to its tail. */
  ghost predicate IsChain(t: Table, f: FamilyId, c: seq<Id>) {
    && c != [] && c[0] in t && t[c[0]].familyId == f
    && Distinct(c)
    && (forall i | 0 <= i < |c| :: Linked(t, f, t[c[0]].userId, c, i))
    && (forall id | id in t && t[id].familyId == f :: id in c)
  }

  type Chains = map<FamilyId, seq<Id>>

  ghost predicate Chained(t: Table, ch: Chains) {
    && UniqueHashes(t)
    && (forall f | f in ch :: IsChain(t, f, ch[f]))
    && (forall id | id in t :: t[id].familyId in ch)
  }

  /** The chains after a request: a login opens one, a successful refresh extends one. */
  ghost function Extend(cfg: Config, t: Table, ch: Chains, r: Request): Chains {
    match r.op
    case Login(_, id, f, _, _) => ch[f := [id]]
    case Refresh(p, newId, _, _) =>
      var v := Judge(cfg, t, p, r.now);
      if v.Rotate? && t[v.id].familyId in ch then
        ch[t[v.id].familyId := ch[t[v.id].familyId] + [newId]]
      else ch
    case _ => ch
  }

  /** The position of a row in its family's chain. */
  lemma Position(t: Table, ch: Chains, id: Id) returns (i: nat)
    requires Chained(t, ch) && id in t
    ensures t[id].familyId in ch
    ensures var c := ch[t[id].familyId]; i < |c| && c[i] == id && Linked(t, t[id].familyId, t[id].userId, c, i)
  {
    var c := ch[t[id].familyId];
    i :| 0 <= i < |c| && c[i] == id;
    assert Linked(t, t[id].familyId, t[c[0]].userId, c, i);
  }

  /** An unrevoked row is the tail of its chain, so nothing has replaced it. */
  lemma UnrevokedIsTail(t: Table, ch: Chains, id: Id)
    requires Chained(t, ch) && id in t && t[id].revokedAt.None?
    ensures t[id].familyId in ch
    ensures ch[t[id].familyId] != [] && id == ch[t[id].familyId][|ch[t[id].familyId]| - 1]
    ensures t[id].replacedById == None
  {
    var _ := Position(t, ch, id);
  }

  /** A row's replacement exists, in the same family and for the same user. */
  lemma ReplacementInFamily(t: Table, ch: Chains, id: Id)
    requires Chained(t, ch) && id in t && t[id].replacedById.Some?
    ensures var r := t[id].replacedById.value;
            r in t && t[r].familyId == t[id].familyId && t[r].userId == t[id].userId && t[r].parentId == Some(id)
    ensures t[id].revokedAt.Some?
  {
    var i := Position(t, ch, id);
    var f := t[id].familyId;
    assert Linked(t, f, t[ch[f][0]].userId, ch[f], i);
    assert Linked(t, f, t[ch[f][0]].userId, ch[f], i + 1);
  }

  /** Only stamps of revocation differ, and no stamp was taken away. */
  ghost predicate OnlyRevokes(t: Table, t': Table) {
    && t.Keys == t'.Keys
    && (forall id | id in t :: SameLinks(t[id], t'[id]) && (t[id].revokedAt.Some? ==> t'[id].revokedAt.Some?))
  }

  ghost predicate SameLinks(a: Token, b: Token) {
    a.(revokedAt := b.revokedAt) == b
  }

  lemma RevokingKeepsChain(t: Table, t': Table, f: FamilyId, c: seq<Id>)
    requires IsChain(t, f, c) && OnlyRevokes(t, t')
    ensures IsChain(t', f, c)
  {
    forall i | 0 <= i < |c| ensures Linked(t', f, t'[c[0]].userId, c, i) {
      assert Linked(t, f, t[c[0]].userId, c, i);
    }
  }

  lemma RevokingKeepsChains(t: Table, ch: Chains, t': Table)
    requires Chained(t, ch) && OnlyRevokes(t, t')
    ensures Chained(t', ch)
  {
    forall f | f in ch ensures IsChain(t', f, ch[f]) {
      RevokingKeepsChain(t, t', f, ch[f]);
    }
  }

  /** A chain depends only on the rows of its own family. */
  lemma OtherFamilyUntouched(t: Table, t': Table, g: FamilyId, c: seq<Id>)
    requires IsChain(t, g, c)
    requires forall id | id in t && t[id].familyId == g :: id in t' && t'[id] == t[id]
    requires forall id | id in t' && t'[id].familyId == g :: id in t && t[id].familyId == g
    ensures IsChain(t', g, c)
  {
    forall i | 0 <= i < |c| ensures Linked(t', g, t'[c[0]].userId, c, i) {
      assert Linked(t, g, t[c[0]].userId, c, i);
    }
  }

  /** Appending a successor row to a chain whose last row it replaces. */
  lemma AppendToChain(t: Table, t': Table, f: FamilyId, c: seq<Id>, newId: Id, now: int)
    requires IsChain(t, f, c) && newId !in t && c[|c| - 1] in t
    requires t'.Keys == t.Keys + {newId}
    requires forall x | x in t && x != c[|c| - 1] :: t'[x] == t[x]
    requires t'[c[|c| - 1]] == t[c[|c| - 1]].(revokedAt := Some(now), replacedById := Some(newId))
    requires t'[newId].familyId == f && t'[newId].userId == t[c[|c| - 1]].userId
    requires t'[newId].parentId == Some(c[|c| - 1]) && t'[newId].replacedById == None
    ensures IsChain(t', f, c + [newId])
  {
    var c' := c + [newId];
    var u := t[c[0]].userId;
    assert Linked(t, f, u, c, |c| - 1);
    forall k | 0 <= k < |c| ensures c[k] in t && c[k] != newId { assert Linked(t, f, u, c, k); }
    assert t'[c'[0]].userId == u;
    forall i | 0 <= i < |c'| ensures Linked(t', f, u, c', i) {
      if i < |c| {
        assert Linked(t, f, u, c, i);
        if i < |c| - 1 { assert c[i] != c[|c| - 1]; }
      }
    }
  }

  lemma RotationExtendsChain(b: Backend, cfg: Config, t: Table, ch: Chains, id: Id, newId: Id, hash: Hash, meta: Meta, now: int)
    requires Chained(t, ch) && id in t && t[id].revokedAt.None?
    requires newId !in t
    ensures t[id].familyId in ch
    ensures IsChain(RotateToken(b, cfg, t, id, newId, hash, meta, now), t[id].familyId, ch[t[id].familyId] + [newId])
  {
    UnrevokedIsTail(t, ch, id);
    AppendToChain(t, RotateToken(b, cfg, t, id, newId, hash, meta, now), t[id].familyId, ch[t[id].familyId], newId, now);
  }

  lemma LoginKeepsChains(cfg: Config, t: Table, ch: Chains, u: UserId, id: Id, f: FamilyId, h: Hash, m: Meta, now: int)
    requires Chained(t, ch) && Fresh(t, Login(u, id, f, h, m))
    ensures Chained(t[id := NewSession(cfg, u, f, h, m, now)], ch[f := [id]])
  {
    var t' := t[id := NewSession(cfg, u, f, h, m, now)];
    var ch' := ch[f := [id]];
    forall g | g in ch' && g != f ensures IsChain(t', g, ch'[g]) {
      OtherFamilyUntouched(t, t', g, ch[g]);
    }
  }

  lemma RotationKeepsHashes(b: Backend, cfg: Config, t: Table, id: Id, newId: Id, hash: Hash, meta: Meta, now: int)
    requires UniqueHashes(t) && id in t
    requires Fresh(t, Refresh(t[id].tokenHash, newId, hash, meta))
    ensures UniqueHashes(RotateToken(b, cfg, t, id, newId, hash, meta, now))
  {
  }

  lemma RotationSparesOthers(b: Backend, cfg: Config, t: Table, g: FamilyId, c: seq<Id>,
                             id: Id, newId: Id, hash: Hash, meta: Meta, now: int)
    requires IsChain(t, g, c) && id in t && newId !in t && t[id].familyId != g
    ensures IsChain(RotateToken(b, cfg, t, id, newId, hash, meta, now), g, c)
  {
    OtherFamilyUntouched(t, RotateToken(b, cfg, t, id, newId, hash, meta, now), g, c);
  }

  lemma RotationKeepsFamilies(b: Backend, cfg: Config, t: Table, ch: Chains,
                              id: Id, newId: Id, hash: Hash, meta: Meta, now: int)
    requires id in t && newId !in t && forall x | x in t :: t[x].familyId in ch
    ensures forall x | x in RotateToken(b, cfg, t, id, newId, hash, meta, now) ::
              RotateToken(b, cfg, t, id, newId, hash, meta, now)[x].familyId in ch
  {
  }

  lemma RotationKeepsChains(b: Backend, cfg: Config, t: Table, ch: Chains, id: Id, newId: Id, hash: Hash, meta: Meta, now: int)
    requires Chained(t, ch) && id in t && t[id].revokedAt.None?
    requires Fresh(t, Refresh(t[id].tokenHash, newId, hash, meta))
    ensures t[id].familyId in ch
    ensures Chained(RotateToken(b, cfg, t, id, newId, hash, meta, now), ch[t[id].familyId := ch[t[id].familyId] + [newId]])
  {
    var t' := RotateToken(b, cfg, t, id, newId, hash, meta, now);
    RotationKeepsHashes(b, cfg, t, id, newId, hash, meta, now);
    RotationExtendsChain(b, cfg, t, ch, id, newId, hash, meta, now);
    RotationKeepsFamilies(b, cfg, t, ch, id, newId, hash, meta, now);
    forall g | g in ch && g != t[id].familyId ensures IsChain(t', g, ch[g]) {
      RotationSparesOthers(b, cfg, t, g, ch[g], id, newId, hash, meta, now);
    }
  }

  /** Logout of an active row leaves its links alone in either backend: it was never replaced. */
  lemma LogoutOnlyRevokes(b: Backend, t: Table, ch: Chains, presented: Hash, now: int)
    requires Chained(t, ch)
    ensures OnlyRevokes(t, LogoutStep(b, t, presented, now))
  {
    match FindByHash(t, presented)
    case None =>
    case Some(id) =>
      if t[id].revokedAt.None? { UnrevokedIsTail(t, ch, id); }
  }

  lemma RevocationsOnlyRevoke(b: Backend, t: Table, f: FamilyId, u: UserId, now: int)
    ensures OnlyRevokes(t, RevokeFamily(b, t, f, now))
    ensures OnlyRevokes(t, RevokeAllForUser(t, u, now))
  {
  }

  lemma StepKeepsChains(b: Backend, cfg: Config, t: Table, ch: Chains, r: Request)
    requires Chained(t, ch) && Fresh(t, r.op)
    ensures Chained(Step(b, cfg, t, r).0, Extend(cfg, t, ch, r))
  {
    match r.op
    case Login(u, id, f, h, m) =>
      LoginKeepsChains(cfg, t, ch, u, id, f, h, m, r.now);
    case Refresh(p, newId, h, m) =>
      RefreshKeepsChains(b, cfg, t, ch, p, newId, h, m, r.now);
    case Logout(p) =>
      LogoutOnlyRevokes(b, t, ch, p, r.now);
      RevokingKeepsChains(t, ch, LogoutStep(b, t, p, r.now));
    case Reset(None) =>
    case Reset(Some(u)) =>
      RevocationsOnlyRevoke(b, t, 0, u, r.now);
      RevokingKeepsChains(t, ch, RevokeAllForUser(t, u, r.now));
  }

  lemma RefreshKeepsChains(b: Backend, cfg: Config, t: Table, ch: Chains, p: Hash, newId: Id, h: Hash, m: Meta, now: int)
    requires Chained(t, ch) && Fresh(t, Refresh(p, newId, h, m))
    ensures Chained(RefreshStep(b, cfg, t, p, newId, h, m, now).0, Extend(cfg, t, ch, Request(now, Refresh(p, newId, h, m))))
  {
    match Judge(cfg, t, p, now)
    case Rotate(id) =>
      RotationKeepsChains(b, cfg, t, ch, id, newId, h, m, now);
    case RefuseFamily(f) =>
      RevocationsOnlyRevoke(b, t, f, 0, now);
      RevokingKeepsChains(t, ch, RevokeFamily(b, t, f, now));
    case Refuse(_) =>
  }

  lemma {:induction false} RunKeepsChains(b: Backend, cfg: Config, t: Table, ch: Chains, rs: seq<Request>) returns (ch': Chains)
    requires Chained(t, ch) && ValidRun(b, cfg, t, rs)
    ensures Chained(Run(b, cfg, t, rs), ch')
    decreases |rs|
  {
    if rs == [] {
      ch' := ch;
    } else {
      StepKeepsChains(b, cfg, t, ch, rs[0]);
      ch' := RunKeepsChains(b, cfg, Step(b, cfg, t, rs[0]).0, Extend(cfg, t, ch, rs[0]), rs[1..]);
    }
  }

  /** From an empty table, whatever the calls, every family is one chain. */
  lemma EveryFamilyIsOneChain(b: Backend, cfg: Config, rs: seq<Request>)
    requires ValidRun(b, cfg, map[], rs)
    ensures UniqueHashes(Run(b, cfg, map[], rs))
    ensures forall id | id in Run(b, cfg, map[], rs) ::
              exists c :: IsChain(Run(b, cfg, map[], rs), Run(b, cfg, map[], rs)[id].familyId, c)
  {
    var _ := RunKeepsChains(b, cfg, map[], map[], rs);
  }

  /**
   A chain read as its rows: one root, one tail, links that are each other's inverse, a revoked
   row behind every link, and at most one active row.
   */
  lemma ChainRows(t: Table, f: FamilyId, c: seq<Id>, i: Id, j: Id)
    requires IsChain(t, f, c)
    requires i in Members(t, f) && j in Members(t, f)
    ensures |Members(t, f)| == |c|
    ensures t[i].parentId.None? <==> i == c[0]
    ensures t[i].replacedById.None? <==> i == c[|c| - 1]
    ensures t[i].replacedById == Some(j) <==> t[j].parentId == Some(i)
    ensures t[i].replacedById.Some? ==> t[i].revokedAt.Some?
    ensures t[i].revokedAt.None? && t[j].revokedAt.None? ==> i == j
  {
    forall x ensures x in Members(t, f) <==> x in c {
      if x in c {
        var k :| 0 <= k < |c| && c[k] == x;
        assert Linked(t, f, t[c[0]].userId, c, k);
      }
    }
    assert Members(t, f) == Elements(c);
    DistinctCount(c);
    var m :| 0 <= m < |c| && c[m] == i;
    var n :| 0 <= n < |c| && c[n] == j;
    assert Linked(t, f, t[c[0]].userId, c, m) && Linked(t, f, t[c[0]].userId, c, n);
    if t[i].replacedById == Some(j) { assert c[m + 1] == c[n]; }
    if t[j].parentId == Some(i) { assert c[n - 1] == c[m]; }
  }

  /** The row `n` parents up from `id`, if the walk gets that far. */
  function Ancestor(t: Table, id: Id, n: nat): Option<Id>
    decreases n
  {
    if n == 0 then Some(id)
    else if id in t && t[id].parentId.Some? then Ancestor(t, t[id].parentId.value, n - 1)
    else None
  }

  /** Walking parents from any row of a chain visits the rows before it in turn and stops after the root. */
  lemma {:induction false} ParentWalkEnds(t: Table, f: FamilyId, c: seq<Id>, i: nat, n: nat)
    requires IsChain(t, f, c) && i < |c|
    ensures Ancestor(t, c[i], n) == if n <= i then Some(c[i - n]) else None
    decreases n
  {
    assert Linked(t, f, t[c[0]].userId, c, i);
    if n > 0 && i > 0 { ParentWalkEnds(t, f, c, i - 1, n - 1); }
  }

  ghost function Elements(c: seq<Id>): set<Id> {
    set x | x in c
  }

  lemma {:induction false} DistinctCount(c: seq<Id>)
    requires Distinct(c)
    ensures |Elements(c)| == |c|
  {
    if c != [] {
      var n := |c| - 1;
      DistinctCount(c[..n]);
      assert Elements(c) == Elements(c[..n]) + {c[n]};
    }
  }
}
