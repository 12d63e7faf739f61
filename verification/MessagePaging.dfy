/** Keyset pagination: walking pages with a cursor visits every message once, newest first. */
module MessagePaging {
  import opened Wrappers
  import opened Messages

  // ---------- ORDER BY id DESC ----------

  ghost predicate IsMax(s: set<nat>, m: nat) {
    m in s && forall x | x in s :: x <= m
  }

  ghost function MaxOf(s: set<nat>): (m: nat)
    requires s != {}
    ensures m in s && forall x | x in s :: x <= m
  {
    HasMax(s);
    var m :| IsMax(s, m);
    m
  }

  lemma {:induction false} HasMax(s: set<nat>)
    requires s != {}
    ensures exists m :: IsMax(s, m)
    decreases |s|
  {
    var a :| a in s;
    var rest := s - {a};
    if rest == {} {
      assert s == {a};
      assert IsMax(s, a);
    } else {
      HasMax(rest);
      var m :| IsMax(rest, m);
      forall x | x in s ensures x <= if a > m then a else m { assert x == a || x in rest; }
      assert IsMax(s, if a > m then a else m);
    }
  }

  ghost function Descending(s: set<nat>): seq<nat>
    decreases |s|
  {
    if s == {} then [] else [MaxOf(s)] + Descending(s - {MaxOf(s)})
  }

  ghost predicate StrictlyDescending(d: seq<nat>) {
    forall i, j | 0 <= i < j < |d| :: d[i] > d[j]
  }

  lemma {:induction false} DescendingSorts(s: set<nat>)
    ensures |Descending(s)| == |s| && StrictlyDescending(Descending(s))
    ensures forall x :: x in Descending(s) <==> x in s
    decreases |s|
  {
    if s != {} {
      var m := MaxOf(s);
      var rest := Descending(s - {m});
      DescendingSorts(s - {m});
      forall i | 0 <= i < |rest| ensures rest[i] < m { assert rest[i] in rest; }
    }
  }

  ghost function Below(s: set<nat>, before: Option<nat>): set<nat> {
    set x | x in s && (before.None? || x < before.value)
  }

  /** What is left after taking the `k` largest is what lies below the last one taken. */
  lemma {:induction false} DropLargest(s: set<nat>, k: nat)
    requires 1 <= k <= |Descending(s)|
    ensures Descending(s)[k..] == Descending(Below(s, Some(Descending(s)[k - 1])))
    decreases k
  {
    var m := MaxOf(s);
    var rest := s - {m};
    var d := Descending(rest);
    assert Descending(s) == [m] + d;
    assert Descending(s)[k..] == d[k - 1..];
    if k == 1 {
      assert Below(s, Some(m)) == rest;
    } else {
      var z := d[k - 2];
      DescendingSorts(rest);
      DropLargest(rest, k - 1);
      assert z in d;
      assert Below(s, Some(z)) == Below(rest, Some(z));
    }
  }

  // ---------- One page ----------

  ghost function IdsIn(t: Table, r: RoomId): set<MessageId> {
    set id | id in t && t[id].roomId == r
  }

  function Take(d: seq<nat>, n: nat): seq<nat> {
    if n <= |d| then d[..n] else d
  }

  ghost function PageIds(ids: set<nat>, before: Option<nat>, limit: nat): seq<nat> {
    Take(Descending(Below(ids, before)), limit)
  }

  function Dtos(t: Table, ids: seq<MessageId>): seq<Dto>
    requires forall id | id in ids :: id in t
  {
    seq(|ids|, i requires 0 <= i < |ids| => ToDto(ids[i], t[ids[i]]))
  }

  lemma PageIdsPresent(ids: set<nat>, before: Option<nat>, limit: nat)
    ensures forall x | x in PageIds(ids, before, limit) :: x in ids
  {
    DescendingSorts(Below(ids, before));
    forall x | x in PageIds(ids, before, limit) ensures x in ids {
      assert x in Descending(Below(ids, before));
    }
  }

  /** `listByRoom` as the DTOs `ListMessages` returns; `None` when the requester is no member. */
  ghost function ListMessages(t: Table, isMember: bool, r: RoomId, before: Option<MessageId>, limit: nat): Option<seq<Dto>> {
    if !isMember then None
    else
      PageIdsPresent(IdsIn(t, r), before, limit);
      Some(Dtos(t, PageIds(IdsIn(t, r), before, limit)))
  }

  lemma PageBelow(ids: set<nat>, before: Option<nat>, limit: nat)
    ensures StrictlyDescending(PageIds(ids, before, limit))
    ensures forall x | x in PageIds(ids, before, limit) :: before.Some? ==> x < before.value
  {
    var d := Descending(Below(ids, before));
    DescendingSorts(Below(ids, before));
    forall x | x in PageIds(ids, before, limit) ensures before.Some? ==> x < before.value { assert x in d; }
  }

  /** Only members are shown a page, and every member is, whoever they are. */
  lemma PageForMembersOnly(t: Table, isMember: bool, r: RoomId, before: Option<MessageId>, limit: nat)
    ensures ListMessages(t, isMember, r, before, limit).Some? <==> isMember
  {
  }

  predicate ShowsRow(t: Table, r: RoomId, id: MessageId, shown: Dto) {
    id in t && t[id].roomId == r && shown == ToDto(id, t[id])
  }

  lemma PageShowsRows(t: Table, r: RoomId, before: Option<MessageId>, limit: nat)
    ensures var ids, page := PageIds(IdsIn(t, r), before, limit), ListMessages(t, true, r, before, limit).value;
            |page| == |ids| && forall i | 0 <= i < |page| :: ShowsRow(t, r, ids[i], page[i])
  {
    var ids := PageIds(IdsIn(t, r), before, limit);
    PageIdsPresent(IdsIn(t, r), before, limit);
    forall i | 0 <= i < |ids| ensures ids[i] in IdsIn(t, r) { assert ids[i] in ids; }
  }

  /** An id below the cursor is on the page, unless the page is full of larger ones. */
  lemma PageReaches(ids: set<nat>, before: Option<nat>, limit: nat, id: nat)
    requires id in Below(ids, before)
    ensures var page := PageIds(ids, before, limit);
            (exists i :: 0 <= i < |page| && page[i] == id) || (|page| == limit && forall i | 0 <= i < |page| :: page[i] > id)
  {
    var d := Descending(Below(ids, before));
    DescendingSorts(Below(ids, before));
    var k :| 0 <= k < |d| && d[k] == id;
    if k < |PageIds(ids, before, limit)| { assert PageIds(ids, before, limit)[k] == id; }
  }

  /**
   A page lists rows of the room below the cursor, newest first, none left out above its last row,
   and is shorter than the limit only if nothing is left.
   */
  lemma PageContents(t: Table, r: RoomId, before: Option<MessageId>, limit: nat, id: MessageId)
    ensures var page := ListMessages(t, true, r, before, limit).value;
            && |page| == (if |Below(IdsIn(t, r), before)| < limit then |Below(IdsIn(t, r), before)| else limit)
            && (forall i, j | 0 <= i < j < |page| :: page[i].id > page[j].id)
            && (forall i | 0 <= i < |page| :: page[i].id in t && page[i].roomId == r && page[i] == ToDto(page[i].id, t[page[i].id]))
            && (forall i | 0 <= i < |page| :: before.Some? ==> page[i].id < before.value)
            && (id in t && t[id].roomId == r && (before.None? || id < before.value) ==>
                  (exists i :: 0 <= i < |page| && page[i].id == id) || (|page| == limit && forall i | 0 <= i < |page| :: page[i].id > id))
  {
    var all := Below(IdsIn(t, r), before);
    var ids, page := PageIds(IdsIn(t, r), before, limit), ListMessages(t, true, r, before, limit).value;
    PageShowsRows(t, r, before, limit);
    PageBelow(IdsIn(t, r), before, limit);
    DescendingSorts(all);
    forall i | 0 <= i < |page| ensures page[i].id == ids[i] && ids[i] in ids { assert ShowsRow(t, r, ids[i], page[i]); }
    if id in all { PageReaches(IdsIn(t, r), before, limit, id); }
  }

  // ---------- The walk ----------

  /**
   The ids a client collects by asking for a page, then the page before the last id it got, and so
   on until a page is empty; the `k`-th page is answered from the ids in `snaps[k]`.
   */
  ghost function Walk(snaps: seq<set<nat>>, before: Option<nat>, limit: nat): seq<nat>
    decreases |snaps|
  {
    if snaps == [] then []
    else
      var page := PageIds(snaps[0], before, limit);
      if page == [] then [] else page + Walk(snaps[1..], Some(page[|page| - 1]), limit)
  }

  /** Below each cursor, the ids do not change from that page to the next. */
  ghost predicate StableBelow(snaps: seq<set<nat>>, before: Option<nat>, limit: nat)
    decreases |snaps|
  {
    |snaps| <= 1 ||
    var page := PageIds(snaps[0], before, limit);
    page == [] ||
    (var z := Some(page[|page| - 1]);
     Below(snaps[1], z) == Below(snaps[0], z) && StableBelow(snaps[1..], z, limit))
  }

  lemma TakeThenTake(d: seq<nat>, limit: nat, more: nat)
    ensures Take(d, limit) + Take(d[|Take(d, limit)|..], more) == Take(d, limit + more)
  {
  }

  /** What lies below a page's last id is what the page left over. */
  lemma RestBelowPage(ids: set<nat>, before: Option<nat>, k: nat)
    requires 1 <= k <= |Descending(Below(ids, before))|
    ensures var d := Descending(Below(ids, before));
            Descending(Below(ids, Some(d[k - 1]))) == d[k..]
  {
    var all := Below(ids, before);
    DescendingSorts(all);
    var z := Descending(all)[k - 1];
    assert z in all by { assert z in Descending(all); }
    DropLargest(all, k);
    assert Below(all, Some(z)) == Below(ids, Some(z));
  }

  /** A page followed by the newest of the rest is one longer page. */
  lemma PageThenRest(ids: set<nat>, before: Option<nat>, limit: nat, more: nat)
    requires PageIds(ids, before, limit) != []
    ensures var page := PageIds(ids, before, limit);
            page + Take(Descending(Below(ids, Some(page[|page| - 1]))), more)
            == Take(Descending(Below(ids, before)), limit + more)
  {
    var d := Descending(Below(ids, before));
    RestBelowPage(ids, before, |Take(d, limit)|);
    TakeThenTake(d, limit, more);
  }

  lemma MulStep(n: nat, limit: nat)
    ensures (n + 1) * limit == limit + n * limit && n * limit >= 0
  {
  }

  /** After `n` pages the client holds exactly the `n * limit` newest ids, whatever was inserted above the cursors. */
  lemma {:induction false} WalkTakesNewest(snaps: seq<set<nat>>, before: Option<nat>, limit: nat)
    requires snaps != [] && limit >= 1 && StableBelow(snaps, before, limit)
    ensures Walk(snaps, before, limit) == Take(Descending(Below(snaps[0], before)), |snaps| * limit)
    decreases |snaps|
  {
    var page := PageIds(snaps[0], before, limit);
    var rest := snaps[1..];
    var more := |rest| * limit;
    MulStep(|rest|, limit);
    if page != [] {
      var z := Some(page[|page| - 1]);
      PageThenRest(snaps[0], before, limit, more);
      if rest == [] {
        assert more == 0;
      } else {
        WalkTakesNewest(rest, z, limit);
      }
    }
  }

  /** One of the pages asked for is empty, so the client stops by itself. */
  ghost predicate Stops(snaps: seq<set<nat>>, before: Option<nat>, limit: nat)
    decreases |snaps|
  {
    && snaps != []
    && var page := PageIds(snaps[0], before, limit);
       (page == [] || Stops(snaps[1..], Some(page[|page| - 1]), limit))
  }

  /** After the `k` largest ids below a cursor, the rest lie below the last of them. */
  lemma RestSize(ids: set<nat>, before: Option<nat>, k: nat)
    requires 1 <= k <= |Descending(Below(ids, before))|
    ensures var d := Descending(Below(ids, before));
            |Below(ids, Some(d[k - 1]))| == |Below(ids, before)| - k
  {
    var d := Descending(Below(ids, before));
    DescendingSorts(Below(ids, before));
    RestBelowPage(ids, before, k);
    DescendingSorts(Below(ids, Some(d[k - 1])));
  }

  /** How many ids a page leaves for later: none, or those beyond the limit. */
  lemma PageLeaves(ids: set<nat>, before: Option<nat>, limit: nat)
    requires limit >= 1
    ensures var page, n := PageIds(ids, before, limit), |Below(ids, before)|;
            if n == 0 then page == []
            else page != [] && |Below(ids, Some(page[|page| - 1]))| == if n <= limit then 0 else n - limit
  {
    DescendingSorts(Below(ids, before));
    var k := |PageIds(ids, before, limit)|;
    if k > 0 { RestSize(ids, before, k); }
  }

  /** The walk meets an empty page exactly when there is a page to spare after those the ids fill. */
  lemma {:induction false} WalkStopsIff(snaps: seq<set<nat>>, before: Option<nat>, limit: nat)
    requires snaps != [] && limit >= 1 && StableBelow(snaps, before, limit)
    ensures Stops(snaps, before, limit) <==> |Below(snaps[0], before)| <= (|snaps| - 1) * limit
    decreases |snaps|
  {
    var page := PageIds(snaps[0], before, limit);
    PageLeaves(snaps[0], before, limit);
    if page != [] {
      var z := Some(page[|page| - 1]);
      if |snaps| == 1 {
        assert !Stops(snaps[1..], z, limit);
      } else {
        MulStep(|snaps| - 2, limit);
        WalkStopsIff(snaps[1..], z, limit);
        assert Below(snaps[1], z) == Below(snaps[0], z);
      }
    } else {
      MulStep(|snaps| - 1, limit);
    }
  }

  // ---------- Walks while the table is in use ----------

  /** The room's ids at each page when the calls `gaps[k]` happen between page `k` and the next. */
  ghost function Snapshots(s: Store, r: RoomId, gaps: seq<seq<Op>>): seq<set<nat>>
    decreases |gaps|
  {
    [IdsIn(s.rows, r)] + if gaps == [] then [] else Snapshots(Run(s, gaps[0]), r, gaps[1..])
  }

  /** Each gap is a valid run whose rows new to the room have ids above the cursor of that moment. */
  ghost predicate NewAboveCursor(s: Store, r: RoomId, before: Option<nat>, limit: nat, gaps: seq<seq<Op>>)
    decreases |gaps|
  {
    gaps == [] ||
    (&& ValidRun(s, gaps[0])
     && var page := PageIds(IdsIn(s.rows, r), before, limit);
        page == [] ||
        (&& (forall id | id in IdsIn(Run(s, gaps[0]).rows, r) && id !in IdsIn(s.rows, r) :: id > page[|page| - 1])
         && NewAboveCursor(Run(s, gaps[0]), r, Some(page[|page| - 1]), limit, gaps[1..])))
  }

  /** Edits and deletes leave a row in its room, and sends do not touch it. */
  lemma {:induction false} RowsStayInRoom(s: Store, ops: seq<Op>, id: MessageId)
    requires ValidRun(s, ops) && id in s.rows
    ensures id in Run(s, ops).rows && Run(s, ops).rows[id].roomId == s.rows[id].roomId
    decreases |ops|
  {
    if ops != [] {
      RowsStayInRoom(Step(s, ops[0]).0, ops[1..], id);
    }
  }

  lemma RunKeepsIdsBelow(s: Store, r: RoomId, z: nat, ops: seq<Op>)
    requires ValidRun(s, ops)
    requires forall id | id in IdsIn(Run(s, ops).rows, r) && id !in IdsIn(s.rows, r) :: id > z
    ensures Below(IdsIn(Run(s, ops).rows, r), Some(z)) == Below(IdsIn(s.rows, r), Some(z))
  {
    forall id | id in IdsIn(s.rows, r) ensures id in IdsIn(Run(s, ops).rows, r) { RowsStayInRoom(s, ops, id); }
  }

  lemma {:induction false} SnapshotsStable(s: Store, r: RoomId, before: Option<nat>, limit: nat, gaps: seq<seq<Op>>)
    requires NewAboveCursor(s, r, before, limit, gaps)
    ensures |Snapshots(s, r, gaps)| == |gaps| + 1
    ensures StableBelow(Snapshots(s, r, gaps), before, limit)
    decreases |gaps|
  {
    SnapshotCount(s, r, gaps);
    var page := PageIds(IdsIn(s.rows, r), before, limit);
    if gaps != [] && page != [] {
      var s' := Run(s, gaps[0]);
      RunKeepsIdsBelow(s, r, page[|page| - 1], gaps[0]);
      SnapshotsStable(s', r, Some(page[|page| - 1]), limit, gaps[1..]);
    }
  }

  lemma {:induction false} SnapshotCount(s: Store, r: RoomId, gaps: seq<seq<Op>>)
    ensures |Snapshots(s, r, gaps)| == |gaps| + 1 && Snapshots(s, r, gaps)[0] == IdsIn(s.rows, r)
    decreases |gaps|
  {
    if gaps != [] { SnapshotCount(Run(s, gaps[0]), r, gaps[1..]); }
  }

  /**
   Walking a room from its newest message, with any edits, deletes and newer messages between the
   pages: the client stops by itself, at an empty page, exactly when one more page has been asked for
   than the ids of the first moment fill; and then, or as soon as the pages could hold them, it has
   collected exactly those ids, in strictly descending order.
   */
  lemma CursorWalkIsComplete(s: Store, r: RoomId, limit: nat, gaps: seq<seq<Op>>)
    requires limit >= 1 && NewAboveCursor(s, r, None, limit, gaps)
    ensures var ids, snaps := IdsIn(s.rows, r), Snapshots(s, r, gaps);
            var got := Walk(snaps, None, limit);
            && (Stops(snaps, None, limit) <==> |ids| <= |gaps| * limit)
            && (Stops(snaps, None, limit) || |ids| <= (|gaps| + 1) * limit ==>
                  StrictlyDescending(got) && |got| == |ids| && forall id :: id in got <==> id in ids)
  {
    var ids := IdsIn(s.rows, r);
    SnapshotCount(s, r, gaps);
    SnapshotsStable(s, r, None, limit, gaps);
    WalkTakesNewest(Snapshots(s, r, gaps), None, limit);
    WalkStopsIff(Snapshots(s, r, gaps), None, limit);
    MulStep(|gaps|, limit);
    assert Below(ids, None) == ids;
    DescendingSorts(ids);
  }

  // ---------- Walks whatever is inserted ----------

  /** From one page to the next the room only gains ids. */
  ghost predicate Growing(snaps: seq<set<nat>>) {
    forall i | 0 <= i < |snaps| - 1 :: snaps[i] <= snaps[i + 1]
  }

  lemma {:induction false} WalkDescends(snaps: seq<set<nat>>, before: Option<nat>, limit: nat)
    ensures StrictlyDescending(Walk(snaps, before, limit))
    ensures forall x | x in Walk(snaps, before, limit) :: before.Some? ==> x < before.value
    decreases |snaps|
  {
    if snaps != [] {
      var page := PageIds(snaps[0], before, limit);
      PageBelow(snaps[0], before, limit);
      if page != [] {
        var z := page[|page| - 1];
        assert z in page;
        WalkDescends(snaps[1..], Some(z), limit);
        DescendingJoins(page, Walk(snaps[1..], Some(z), limit));
      }
    }
  }

  lemma DescendingJoins(a: seq<nat>, b: seq<nat>)
    requires a != [] && StrictlyDescending(a) && StrictlyDescending(b) && forall x | x in b :: x < a[|a| - 1]
    ensures StrictlyDescending(a + b)
  {
    forall i, j | 0 <= i < j < |a + b| ensures (a + b)[i] > (a + b)[j] {
      if i < |a| <= j { assert (a + b)[j] in b; }
    }
  }

  /** What lies below the cursor is on the page or below its last id. */
  lemma PageOrLater(ids: set<nat>, before: Option<nat>, limit: nat, id: nat)
    requires limit >= 1 && id in Below(ids, before)
    ensures var page := PageIds(ids, before, limit); page != [] && (id in page || id < page[|page| - 1])
  {
    PageReaches(ids, before, limit, id);
  }

  lemma {:induction false} StoppedWalkMissesNothing(snaps: seq<set<nat>>, before: Option<nat>, limit: nat, id: nat)
    requires limit >= 1 && Growing(snaps) && Stops(snaps, before, limit) && id in Below(snaps[0], before)
    ensures id in Walk(snaps, before, limit)
    decreases |snaps|
  {
    var page := PageIds(snaps[0], before, limit);
    PageOrLater(snaps[0], before, limit, id);
    if id !in page {
      var rest := snaps[1..];
      forall i | 0 <= i < |rest| - 1 ensures rest[i] <= rest[i + 1] { assert snaps[i + 1] <= snaps[i + 1 + 1]; }
      assert snaps[0] <= snaps[0 + 1];
      StoppedWalkMissesNothing(rest, Some(page[|page| - 1]), limit, id);
    }
  }

  ghost predicate ValidGaps(s: Store, gaps: seq<seq<Op>>)
    decreases |gaps|
  {
    gaps == [] || (ValidRun(s, gaps[0]) && ValidGaps(Run(s, gaps[0]), gaps[1..]))
  }

  lemma {:induction false} SnapshotsGrow(s: Store, r: RoomId, gaps: seq<seq<Op>>)
    requires ValidGaps(s, gaps)
    ensures Growing(Snapshots(s, r, gaps))
    decreases |gaps|
  {
    SnapshotCount(s, r, gaps);
    if gaps != [] {
      var s' := Run(s, gaps[0]);
      SnapshotsGrow(s', r, gaps[1..]);
      SnapshotCount(s', r, gaps[1..]);
      forall id | id in IdsIn(s.rows, r) ensures id in IdsIn(s'.rows, r) { RowsStayInRoom(s, gaps[0], id); }
      var snaps, rest := Snapshots(s, r, gaps), Snapshots(s', r, gaps[1..]);
      assert snaps == [IdsIn(s.rows, r)] + rest;
      forall i | 0 <= i < |snaps| - 1 ensures snaps[i] <= snaps[i + 1] {
        if i > 0 { assert rest[i - 1] <= rest[i - 1 + 1]; }
      }
    }
  }

  /**
   Whatever is sent between the pages, with ids above or below the cursor: a walk that has stopped has
   listed every message the room had at the first page, each once, newest first.
   */
  lemma StoppedWalkHasAll(s: Store, r: RoomId, limit: nat, gaps: seq<seq<Op>>)
    requires limit >= 1 && ValidGaps(s, gaps)
    ensures var snaps := Snapshots(s, r, gaps);
            && StrictlyDescending(Walk(snaps, None, limit))
            && (Stops(snaps, None, limit) ==> forall id | id in IdsIn(s.rows, r) :: id in Walk(snaps, None, limit))
  {
    var snaps := Snapshots(s, r, gaps);
    SnapshotCount(s, r, gaps);
    SnapshotsGrow(s, r, gaps);
    WalkDescends(snaps, None, limit);
    if Stops(snaps, None, limit) {
      forall id | id in IdsIn(s.rows, r) ensures id in Walk(snaps, None, limit) { StoppedWalkMissesNothing(snaps, None, limit, id); }
    }
  }
}
