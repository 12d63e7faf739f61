/**
 Direct rooms created by calls that interleave at single SQL statements. Any number of
 `CreateDirectRoom` calls run at once; no room is deleted meanwhile.
 */
module DirectRooms {
  type UserId = string
  type RoomId = nat

  // ---------- The key of a pair ----------

  /** The order `Array.prototype.sort` puts strings in: character by character. */
  predicate Leq(a: string, b: string) {
    a == "" || (b != "" && (a[0] < b[0] || (a[0] == b[0] && Leq(a[1..], b[1..]))))
  }

  lemma {:induction false} LeqTotal(a: string, b: string)
    ensures Leq(a, b) || Leq(b, a)
    ensures Leq(a, b) && Leq(b, a) ==> a == b
    decreases |a|
  {
    if a != "" && b != "" && a[0] == b[0] {
      LeqTotal(a[1..], b[1..]);
    }
  }

  /** The two ids in order, with a colon between them. */
  function DmKey(a: UserId, b: UserId): string {
    if Leq(a, b) then a + ":" + b else b + ":" + a
  }

  ghost predicate SamePair(a: UserId, b: UserId, c: UserId, d: UserId) {
    (a == c && b == d) || (a == d && b == c)
  }

  predicate Plain(a: UserId) {
    ':' !in a
  }

  lemma JoinInjective(a: string, b: string, c: string, d: string)
    requires Plain(a) && Plain(c) && a + ":" + b == c + ":" + d
    ensures a == c && b == d
  {
    var s, t := a + ":" + b, c + ":" + d;
    assert s[|a|] == ':' && t[|c|] == ':';
    assert forall i | 0 <= i < |a| :: s[i] != ':' by { assert forall i | 0 <= i < |a| :: s[i] == a[i]; }
    assert forall i | 0 <= i < |c| :: t[i] != ':' by { assert forall i | 0 <= i < |c| :: t[i] == c[i]; }
    assert a == s[..|a|] && c == t[..|c|] && b == s[|a| + 1..] && d == t[|c| + 1..];
  }

  /** Two pairs of ids without ":" have the same key exactly when they are the same unordered pair. */
  lemma KeyIdentifiesPair(a: UserId, b: UserId, c: UserId, d: UserId)
    requires Plain(a) && Plain(b) && Plain(c) && Plain(d)
    ensures DmKey(a, b) == DmKey(c, d) <==> SamePair(a, b, c, d)
  {
    LeqTotal(c, d);
    var (x, y) := if Leq(a, b) then (a, b) else (b, a);
    var (z, w) := if Leq(c, d) then (c, d) else (d, c);
    if DmKey(a, b) == DmKey(c, d) { JoinInjective(x, y, z, w); }
  }

  /** The hypothesis is needed: with ":" in an id, different pairs share a key. User ids are UUIDs, which have none. */
  lemma ColonBreaksKey()
    ensures DmKey("a:b", "c") == DmKey("a", "b:c") && !SamePair("a:b", "c", "a", "b:c")
  {
  }

  // ---------- The calls ----------

  datatype Pc = AtCheckUser | AtFind | AtInsert | AtReread | AtMembers | Returned(room: RoomId) | NoSuchUser

  /** One call, with its key; `roomId` is the id it generates if it gets that far. */
  datatype Proc = Proc(requester: UserId, target: UserId, key: string, roomId: RoomId, pc: Pc)

  /** `byKey` is the table of rooms under its unique key column, `members` the member rows. */
  datatype State = State(byKey: map<string, RoomId>, members: map<RoomId, set<UserId>>, procs: seq<Proc>)

  datatype Action = Begin(requester: UserId, target: UserId, roomId: RoomId) | Advance(who: nat, targetExists: bool)

  const Idle := State(map[], map[], [])

  function MembersOf(s: State, r: RoomId): set<UserId> {
    if r in s.members then s.members[r] else {}
  }

  function SetPc(s: State, i: nat, pc: Pc): State
    requires i < |s.procs|
  {
    s.(procs := s.procs[i := s.procs[i].(pc := pc)])
  }

  function StepProc(s: State, i: nat, targetExists: bool): State
    requires i < |s.procs|
  {
    var p := s.procs[i];
    match p.pc
    case AtCheckUser => SetPc(s, i, if targetExists then AtFind else NoSuchUser)
    case AtFind => SetPc(s, i, if p.key in s.byKey then Returned(s.byKey[p.key]) else AtInsert)
    case AtInsert =>
      if p.key in s.byKey then SetPc(s, i, AtReread)
      else SetPc(s.(byKey := s.byKey[p.key := p.roomId]), i, AtMembers)
    case AtReread => if p.key in s.byKey then SetPc(s, i, Returned(s.byKey[p.key])) else s
    case AtMembers =>
      SetPc(s.(members := s.members[p.roomId := MembersOf(s, p.roomId) + {p.requester, p.target}]), i, Returned(p.roomId))
    case Returned(_) => s
    case NoSuchUser => s
  }

  function Step(s: State, a: Action): State {
    match a
    case Begin(x, y, r) => s.(procs := s.procs + [Proc(x, y, DmKey(x, y), r, AtCheckUser)])
    case Advance(i, found) => if i < |s.procs| then StepProc(s, i, found) else s
  }

  /** Ids name users without ":", and every call generates its own room id. */
  ghost predicate Allowed(s: State, a: Action) {
    a.Begin? ==> Plain(a.requester) && Plain(a.target) && forall i | 0 <= i < |s.procs| :: s.procs[i].roomId != a.roomId
  }

  ghost predicate ValidRun(s: State, acts: seq<Action>)
    decreases |acts|
  {
    acts == [] || (Allowed(s, acts[0]) && ValidRun(Step(s, acts[0]), acts[1..]))
  }

  function Run(s: State, acts: seq<Action>): State
    decreases |acts|
  {
    if acts == [] then s else Run(Step(s, acts[0]), acts[1..])
  }

  // ---------- What every interleaving keeps ----------

  ghost predicate Keyed(p: Proc) {
    Plain(p.requester) && Plain(p.target) && p.key == DmKey(p.requester, p.target)
  }

  ghost predicate AllKeyed(s: State) {
    forall i | 0 <= i < |s.procs| :: Keyed(s.procs[i])
  }

  /** Only the position of a call changes as it advances. */
  lemma NamesStay(s: State, i: nat, e: bool, j: nat)
    requires i < |s.procs| && j < |s.procs|
    ensures var s' := StepProc(s, i, e); |s'.procs| == |s.procs| && s'.procs[j] == s.procs[j].(pc := s'.procs[j].pc)
  {
  }

  lemma StepKeepsKeyed(s: State, a: Action)
    requires AllKeyed(s) && Allowed(s, a)
    ensures AllKeyed(Step(s, a))
  {
    var s' := Step(s, a);
    if a.Begin? {
      assert Keyed(s'.procs[|s.procs|]);
    } else if a.who < |s.procs| {
      forall j | 0 <= j < |s.procs| ensures |s'.procs| == |s.procs| && Keyed(s'.procs[j]) {
        NamesStay(s, a.who, a.targetExists, j);
      }
    }
  }

  lemma {:induction false} RunKeepsKeyed(s: State, acts: seq<Action>)
    requires ValidRun(s, acts) && AllKeyed(s)
    ensures AllKeyed(Run(s, acts))
    decreases |acts|
  {
    if acts != [] {
      StepKeepsKeyed(s, acts[0]);
      RunKeepsKeyed(Step(s, acts[0]), acts[1..]);
    }
  }

  ghost predicate ProcOk(s: State, p: Proc) {
    && (p.pc == AtReread ==> p.key in s.byKey)
    && (p.pc == AtMembers ==> p.key in s.byKey && s.byKey[p.key] == p.roomId)
    && (p.pc.Returned? ==> p.key in s.byKey && s.byKey[p.key] == p.pc.room)
  }

  ghost predicate Quiet(s: State, p: Proc) {
    p.pc.Returned? || p.roomId !in s.members
  }

  /** The room under a key was made by call `i`, which has inserted both members or is about to. */
  ghost predicate MadeBy(s: State, k: string, i: nat)
    requires k in s.byKey
  {
    && i < |s.procs| && s.procs[i].key == k && s.procs[i].roomId == s.byKey[k]
    && (s.procs[i].pc == AtMembers ||
        (s.procs[i].pc.Returned? && MembersOf(s, s.byKey[k]) == {s.procs[i].requester, s.procs[i].target}))
  }

  ghost predicate Made(s: State, k: string)
    requires k in s.byKey
  {
    exists i: nat :: MadeBy(s, k, i)
  }

  ghost predicate HasCall(s: State, r: RoomId) {
    exists i :: 0 <= i < |s.procs| && s.procs[i].roomId == r
  }

  ghost predicate OwnIds(s: State) {
    forall i, j | 0 <= i < j < |s.procs| :: s.procs[i].roomId != s.procs[j].roomId
  }

  ghost predicate Inv(s: State) {
    && (forall i | 0 <= i < |s.procs| :: ProcOk(s, s.procs[i]) && Quiet(s, s.procs[i]))
    && OwnIds(s)
    && (forall k | k in s.byKey :: Made(s, k))
    && (forall r | r in s.members :: HasCall(s, r))
  }

  /** The maker of a room is still its maker after any call advances. */
  lemma MakerStays(s: State, i: nat, e: bool, k: string, j: nat)
    requires i < |s.procs| && k in s.byKey && MadeBy(s, k, j)
    requires i != j ==> s.procs[i].roomId != s.procs[j].roomId
    requires Quiet(s, s.procs[j])
    ensures k in StepProc(s, i, e).byKey && MadeBy(StepProc(s, i, e), k, j)
  {
  }

  lemma ProcsStayOk(s: State, i: nat, e: bool, j: nat)
    requires Inv(s) && i < |s.procs| && j < |s.procs|
    ensures var s' := StepProc(s, i, e); |s'.procs| == |s.procs| && ProcOk(s', s'.procs[j]) && Quiet(s', s'.procs[j])
  {
    assert ProcOk(s, s.procs[i]) && ProcOk(s, s.procs[j]) && Quiet(s, s.procs[j]);
    if i < j { assert s.procs[i].roomId != s.procs[j].roomId; }
    if j < i { assert s.procs[j].roomId != s.procs[i].roomId; }
  }

  lemma IdsStay(s: State, i: nat, e: bool)
    requires i < |s.procs|
    ensures var s' := StepProc(s, i, e);
            |s'.procs| == |s.procs| && forall j | 0 <= j < |s.procs| :: s'.procs[j].roomId == s.procs[j].roomId
  {
  }

  lemma MakersRemain(s: State, i: nat, e: bool, k: string)
    requires Inv(s) && i < |s.procs| && k in StepProc(s, i, e).byKey
    ensures Made(StepProc(s, i, e), k)
  {
    if k in s.byKey {
      var j: nat :| MadeBy(s, k, j);
      if i < j { assert s.procs[i].roomId != s.procs[j].roomId; }
      if j < i { assert s.procs[j].roomId != s.procs[i].roomId; }
      MakerStays(s, i, e, k, j);
    } else {
      assert MadeBy(StepProc(s, i, e), k, i);
    }
  }

  lemma MembersHaveCalls(s: State, i: nat, e: bool, r: RoomId)
    requires Inv(s) && i < |s.procs| && r in StepProc(s, i, e).members
    ensures HasCall(StepProc(s, i, e), r)
  {
    IdsStay(s, i, e);
    if r in s.members {
      var j :| 0 <= j < |s.procs| && s.procs[j].roomId == r;
      assert StepProc(s, i, e).procs[j].roomId == r;
    }
  }

  lemma StepProcKeepsInv(s: State, i: nat, e: bool)
    requires Inv(s) && i < |s.procs|
    ensures Inv(StepProc(s, i, e))
  {
    var s' := StepProc(s, i, e);
    IdsStay(s, i, e);
    forall j | 0 <= j < |s'.procs| ensures ProcOk(s', s'.procs[j]) && Quiet(s', s'.procs[j]) { ProcsStayOk(s, i, e, j); }
    forall k | k in s'.byKey ensures Made(s', k) { MakersRemain(s, i, e, k); }
    forall r | r in s'.members ensures HasCall(s', r) { MembersHaveCalls(s, i, e, r); }
  }

  lemma BeginLeavesOk(s: State, a: Action, j: nat)
    requires Inv(s) && a.Begin? && Allowed(s, a) && j <= |s.procs|
    ensures ProcOk(Step(s, a), Step(s, a).procs[j]) && Quiet(Step(s, a), Step(s, a).procs[j])
  {
    if j < |s.procs| { assert ProcOk(s, s.procs[j]) && Quiet(s, s.procs[j]); }
  }

  lemma BeginLeavesMakers(s: State, a: Action, k: string)
    requires Inv(s) && a.Begin? && k in s.byKey
    ensures k in Step(s, a).byKey && Made(Step(s, a), k)
  {
    var j: nat :| MadeBy(s, k, j);
    assert Step(s, a).procs[j] == s.procs[j];
    assert MadeBy(Step(s, a), k, j);
  }

  lemma BeginLeavesCall(s: State, a: Action, r: RoomId)
    requires HasCall(s, r) && a.Begin?
    ensures HasCall(Step(s, a), r)
  {
    var j :| 0 <= j < |s.procs| && s.procs[j].roomId == r;
    assert Step(s, a).procs[j] == s.procs[j];
  }

  lemma BeginKeepsInv(s: State, a: Action)
    requires Inv(s) && a.Begin? && Allowed(s, a)
    ensures Inv(Step(s, a))
  {
    var s' := Step(s, a);
    forall j | 0 <= j < |s'.procs| ensures ProcOk(s', s'.procs[j]) && Quiet(s', s'.procs[j]) { BeginLeavesOk(s, a, j); }
    forall k | k in s'.byKey ensures Made(s', k) { BeginLeavesMakers(s, a, k); }
    forall r | r in s'.members ensures HasCall(s', r) { BeginLeavesCall(s, a, r); }
  }

  lemma {:induction false} RunKeepsInv(s: State, acts: seq<Action>)
    requires Inv(s) && ValidRun(s, acts)
    ensures Inv(Run(s, acts))
    decreases |acts|
  {
    if acts != [] {
      if acts[0].Begin? { BeginKeepsInv(s, acts[0]); }
      else if acts[0].who < |s.procs| { StepProcKeepsInv(s, acts[0].who, acts[0].targetExists); }
      RunKeepsInv(Step(s, acts[0]), acts[1..]);
    }
  }

  /** Under every interleaving, two calls return the same room exactly when they name the same unordered pair. */
  lemma OneRoomPerPair(acts: seq<Action>, i: nat, j: nat)
    requires ValidRun(Idle, acts)
    requires i < |Run(Idle, acts).procs| && j < |Run(Idle, acts).procs|
    requires Run(Idle, acts).procs[i].pc.Returned? && Run(Idle, acts).procs[j].pc.Returned?
    ensures var p, q := Run(Idle, acts).procs[i], Run(Idle, acts).procs[j];
            p.pc.room == q.pc.room <==> SamePair(p.requester, p.target, q.requester, q.target)
  {
    RunKeepsInv(Idle, acts);
    RunKeepsKeyed(Idle, acts);
    var s := Run(Idle, acts);
    var p, q := s.procs[i], s.procs[j];
    KeyIdentifiesPair(p.requester, p.target, q.requester, q.target);
  }

  ghost predicate Ended(p: Proc) {
    p.pc.Returned? || p.pc == NoSuchUser
  }

  lemma MakerOf(s: State, i: nat) returns (m: nat)
    requires Inv(s) && i < |s.procs| && s.procs[i].pc.Returned?
    requires forall j | 0 <= j < |s.procs| :: Ended(s.procs[j])
    ensures m < |s.procs| && s.procs[m].key == s.procs[i].key
    ensures MembersOf(s, s.procs[i].pc.room) == {s.procs[m].requester, s.procs[m].target}
  {
    var a: nat :| MadeBy(s, s.procs[i].key, a);
    m := a;
  }

  /** Once all calls have ended, a returned room has exactly the two users of the pair as members. */
  lemma ReturnedRoomHasBothMembers(acts: seq<Action>, i: nat)
    requires ValidRun(Idle, acts) && i < |Run(Idle, acts).procs|
    requires Run(Idle, acts).procs[i].pc.Returned?
    requires forall j | 0 <= j < |Run(Idle, acts).procs| :: Ended(Run(Idle, acts).procs[j])
    ensures var p := Run(Idle, acts).procs[i];
            MembersOf(Run(Idle, acts), p.pc.room) == {p.requester, p.target}
  {
    RunKeepsInv(Idle, acts);
    RunKeepsKeyed(Idle, acts);
    var s := Run(Idle, acts);
    var m := MakerOf(s, i);
    var p, q := s.procs[i], s.procs[m];
    KeyIdentifiesPair(p.requester, p.target, q.requester, q.target);
  }

  /** No call waits for a row that is not there: one that has not ended can always move on. */
  lemma EveryCallCanMove(acts: seq<Action>, i: nat, found: bool)
    requires ValidRun(Idle, acts) && i < |Run(Idle, acts).procs| && !Ended(Run(Idle, acts).procs[i])
    ensures StepProc(Run(Idle, acts), i, found).procs[i].pc != Run(Idle, acts).procs[i].pc
  {
    RunKeepsInv(Idle, acts);
    assert ProcOk(Run(Idle, acts), Run(Idle, acts).procs[i]);
  }
}
