/**
 The same store and cache with the handlers cut into their atomic actions: cache read, table read, cache fill, row
 delete, cache eviction and row update of different handlers interleave freely, and time passes in between.
 */
module RoomInterleavingModel {
  import opened TimedCacheModel
  import opened RoomStoreModel
  import opened RoomBridgeModel

  /** What a handler does with the mapping it looked up. */
  datatype Goal = Forward | Unbridge | Rename(name: string)

  datatype Pc =
    | AtCache(room: string)                    // about to read the cache
    | AtTable(room: string)                    // missed, about to read the table
    | AtFill(room: string, m: RoomMapping)     // read a row, about to insert it into the cache
    | AtChannel(channel: string)               // reads the table by channel, past the cache
    | Holding(m: RoomMapping)                  // the lookup has returned `m`
    | AtEvict(room: string)                    // deleted by id, about to remove the cache entry
    | Ended

  datatype Handler = Handler(goal: Goal, pc: Pc)

  /** `issued` records, for every id ever assigned, the row it was created with. */
  datatype World = World(
    table: RoomTable, cache: Cache, now: int, handlers: seq<Handler>, issued: map<int, RoomMapping>)

  datatype Action =
    | Spawn(goal: Goal, room: string)
    | SpawnDirect(goal: Goal, channel: string)
    | ReadCache(i: nat)
    | ReadTable(i: nat)
    | Fill(i: nat)
    | ReadChannel(i: nat)
    | DeleteRow(i: nat)
    | Evict(i: nat)
    | WriteName(i: nat)
    | Create(m: RoomMapping)
    | Tick(d: nat)

  const EMPTY := World(RoomTable(map[], 1), map[], 0, [], map[])

  predicate Enabled(w: World, a: Action) {
    match a
    case Spawn(_, _) => true
    case SpawnDirect(_, _) => true
    case Create(_) => true
    case Tick(_) => true
    case ReadCache(i) => i < |w.handlers| && w.handlers[i].pc.AtCache?
    case ReadTable(i) => i < |w.handlers| && w.handlers[i].pc.AtTable?
    case Fill(i) => i < |w.handlers| && w.handlers[i].pc.AtFill?
    case ReadChannel(i) => i < |w.handlers| && w.handlers[i].pc.AtChannel?
    case DeleteRow(i) => i < |w.handlers| && w.handlers[i].pc.Holding? && w.handlers[i].goal.Unbridge?
    case Evict(i) => i < |w.handlers| && w.handlers[i].pc.AtEvict?
    case WriteName(i) => i < |w.handlers| && w.handlers[i].pc.Holding? && w.handlers[i].goal.Rename?
  }

  function Goto(w: World, i: nat, pc: Pc): World
    requires i < |w.handlers|
  {
    w.(handlers := w.handlers[i := w.handlers[i].(pc := pc)])
  }

  ghost function Act(w: World, a: Action): World
    requires Enabled(w, a)
  {
    match a
    case Spawn(goal, room) => w.(handlers := w.handlers + [Handler(goal, AtCache(room))])
    case SpawnDirect(goal, channel) => w.(handlers := w.handlers + [Handler(goal, AtChannel(channel))])
    case ReadCache(i) =>
      var room := w.handlers[i].pc.room;
      var hit := LookUp(w.cache, ROOM_CACHE_TTL_SECS, w.now, room);
      Goto(w, i, if hit.Some? then Holding(hit.value) else AtTable(room))
    case ReadTable(i) =>
      var row := ByRoom(w.table, w.handlers[i].pc.room);
      Goto(w, i, if row.Some? then AtFill(w.handlers[i].pc.room, row.value) else Ended)
    case Fill(i) =>
      var pc := w.handlers[i].pc;
      Goto(w.(cache := w.cache[pc.room := TimedValue(pc.m, w.now)]), i, Holding(pc.m))
    case ReadChannel(i) =>
      var row := ByChannel(w.table, w.handlers[i].pc.channel);
      Goto(w, i, if row.Some? then Holding(row.value) else Ended)
    case DeleteRow(i) =>
      var m := w.handlers[i].pc.m;
      Goto(w.(table := Deleted(w.table, m.id)), i, AtEvict(m.room))
    case Evict(i) => Goto(w.(cache := w.cache - {w.handlers[i].pc.room}), i, Ended)
    case WriteName(i) =>
      var m := w.handlers[i].pc.m.(name := w.handlers[i].goal.name);
      Goto(w.(table := Updated(w.table, m)), i, Ended)
    case Create(m) =>
      if !CanInsert(w.table, m) then w
      else w.(table := Inserted(w.table, m), issued := w.issued[w.table.nextId := m.(id := w.table.nextId)])
    case Tick(d) => w.(now := w.now + d)
  }

  /** The world after a list of actions; actions that are not enabled when their turn comes are skipped. */
  ghost function After(actions: seq<Action>): World {
    if actions == [] then EMPTY else
    var w := After(actions[..|actions| - 1]);
    Next(w, actions[|actions| - 1])
  }

  ghost function Next(w: World, a: Action): World {
    if Enabled(w, a) then Act(w, a) else w
  }

  /** The course of each handler: cache, else table and then cache, else channel; what is deleted is evicted next. */
  lemma HandlersProceed(w: World, i: nat, a: Action)
    requires Enabled(w, a) && i < |w.handlers|
    ensures var pc, pc', w' := w.handlers[i].pc, Act(w, a).handlers[i].pc, Act(w, a);
            match a
            case ReadCache(j) =>
              j == i ==> pc' == if pc.room in w.cache && w.now - w.cache[pc.room].insertedAt < 900
                                then Holding(w.cache[pc.room].value) else AtTable(pc.room)
            case ReadTable(j) =>
              j == i ==> if forall id :: id in w.table.rows ==> w.table.rows[id].room != pc.room then pc' == Ended
                         else pc'.AtFill? && pc'.room == pc.room == pc'.m.room && pc'.m in w.table.rows.Values
            case Fill(j) => j == i ==> pc' == Holding(pc.m) && pc.room in w'.cache && w'.cache[pc.room].value == pc.m
            case DeleteRow(j) => j == i ==> pc' == AtEvict(pc.m.room) && pc.m.id !in w'.table.rows
            case Evict(j) => j == i ==> pc' == Ended && pc.room !in w'.cache
            case WriteName(j) => j == i ==> pc' == Ended && w'.cache == w.cache
            case _ => true
  {
  }

  // ------------------------------------------------------------------ invariant

  /** `m` is the link some id was issued with. */
  ghost predicate Genuine(issued: map<int, RoomMapping>, m: RoomMapping) {
    m.id in issued && SameLink(issued[m.id], m)
  }

  ghost predicate PcOk(issued: map<int, RoomMapping>, pc: Pc) {
    && (pc.AtFill? ==> Genuine(issued, pc.m) && pc.m.room == pc.room)
    && (pc.Holding? ==> Genuine(issued, pc.m))
  }

  ghost predicate TableOk(t: RoomTable, issued: map<int, RoomMapping>) {
    && ValidTable(t)
    && (forall id :: id in t.rows ==> Genuine(issued, t.rows[id]))
    && (forall id :: id in issued ==> id < t.nextId)
  }

  ghost predicate CacheOk(cache: Cache, issued: map<int, RoomMapping>, now: int) {
    forall room :: room in cache ==>
      Genuine(issued, cache[room].value) && cache[room].value.room == room && cache[room].insertedAt <= now
  }

  ghost predicate Inv(w: World) {
    && TableOk(w.table, w.issued)
    && CacheOk(w.cache, w.issued, w.now)
    && (forall i :: 0 <= i < |w.handlers| ==> PcOk(w.issued, w.handlers[i].pc))
  }

  lemma LookupIsGenuine(t: RoomTable, issued: map<int, RoomMapping>, room: string, channel: string)
    requires TableOk(t, issued)
    ensures ByRoom(t, room).Some? ==> Genuine(issued, ByRoom(t, room).value)
    ensures ByChannel(t, channel).Some? ==> Genuine(issued, ByChannel(t, channel).value)
  {
  }

  lemma CreateKeepsInv(w: World, m: RoomMapping)
    requires Inv(w)
    ensures Inv(Act(w, Create(m)))
  {
    TableStaysValid(w.table, m, 0);
    var w' := Act(w, Create(m));
    assert forall x :: Genuine(w.issued, x) ==> Genuine(w'.issued, x);
    if CanInsert(w.table, m) {
      assert Genuine(w'.issued, w'.table.rows[w.table.nextId]);
    }
  }

  lemma ActKeepsInv(w: World, a: Action)
    requires Inv(w) && Enabled(w, a)
    ensures Inv(Act(w, a))
  {
    match a
    case Create(m) => CreateKeepsInv(w, m);
    case ReadTable(i) => LookupIsGenuine(w.table, w.issued, w.handlers[i].pc.room, "");
    case ReadChannel(i) => LookupIsGenuine(w.table, w.issued, "", w.handlers[i].pc.channel);
    case DeleteRow(i) => TableStaysValid(w.table, w.handlers[i].pc.m, w.handlers[i].pc.m.id);
    case WriteName(i) =>
      TableStaysValid(w.table, w.handlers[i].pc.m.(name := w.handlers[i].goal.name), 0);
    case _ =>
  }

  lemma {:induction false} InvAfter(actions: seq<Action>)
    ensures Inv(After(actions))
    decreases |actions|
  {
    if actions != [] {
      var w := After(actions[..|actions| - 1]);
      InvAfter(actions[..|actions| - 1]);
      if Enabled(w, actions[|actions| - 1]) {
        ActKeepsInv(w, actions[|actions| - 1]);
      }
    }
  }

  /** At some moment of the run the table held a row with this link. */
  ghost predicate WasStored(actions: seq<Action>, m: RoomMapping) {
    exists k :: 0 <= k <= |actions| && StoredAt(After(actions[..k]), m)
  }

  ghost predicate StoredAt(w: World, m: RoomMapping) {
    m.id in w.table.rows && SameLink(w.table.rows[m.id], m)
  }

  lemma {:induction false} IssuedWasStored(actions: seq<Action>, id: int)
    requires id in After(actions).issued
    ensures WasStored(actions, After(actions).issued[id])
    decreases |actions|
  {
    if actions != [] {
      var n := |actions| - 1;
      var w := After(actions[..n]);
      if id in w.issued && w.issued[id] == After(actions).issued[id] {
        IssuedWasStored(actions[..n], id);
        var k :| 0 <= k <= n && StoredAt(After(actions[..n][..k]), w.issued[id]);
        assert actions[..n][..k] == actions[..k];
      } else {
        assert actions[..n + 1] == actions;
        assert StoredAt(After(actions[..n + 1]), After(actions).issued[id]);
      }
    }
  }

  /** Whatever the interleaving, a mapping returned by a lookup was, link for link, a row of the table. */
  lemma LookupReturnsStoredRow(actions: seq<Action>, i: nat)
    requires i < |After(actions).handlers| && After(actions).handlers[i].pc.Holding?
    ensures WasStored(actions, After(actions).handlers[i].pc.m)
  {
    var w := After(actions);
    InvAfter(actions);
    assert PcOk(w.issued, w.handlers[i].pc);
    var m := w.handlers[i].pc.m;
    IssuedWasStored(actions, m.id);
    var k :| 0 <= k <= |actions| && StoredAt(After(actions[..k]), w.issued[m.id]);
    assert StoredAt(After(actions[..k]), m);
  }

  /** A lookup answered by the cache is answered by an entry inserted less than the time-to-live ago. */
  lemma HitIsYoung(actions: seq<Action>, i: nat)
    requires Enabled(After(actions), ReadCache(i))
    requires Act(After(actions), ReadCache(i)).handlers[i].pc.Holding?
    ensures var w := After(actions);
            var room := w.handlers[i].pc.room;
            && room in w.cache && 0 <= w.now - w.cache[room].insertedAt < ROOM_CACHE_TTL_SECS
            && Act(w, ReadCache(i)).handlers[i].pc.m == w.cache[room].value
            && w.cache[room].value.room == room
  {
    InvAfter(actions);
  }

  /**
   A delete, even through a stale mapping, removes the very row the mapping came from or nothing: a room or channel
   that has been bridged again meanwhile keeps its new row.
   */
  lemma DeleteIsExact(actions: seq<Action>, i: nat)
    requires Enabled(After(actions), DeleteRow(i))
    ensures var w := After(actions);
            var m := w.handlers[i].pc.m;
            var rows := Act(w, DeleteRow(i)).table.rows;
            && rows == w.table.rows - {m.id}
            && (forall id :: id in w.table.rows && id !in rows ==> SameLink(w.table.rows[id], m))
  {
    InvAfter(actions);
    assert PcOk(After(actions).issued, After(actions).handlers[i].pc);
  }

  /** A rename through a stale mapping changes the name of that very row or nothing, and never a link. */
  lemma RenameIsExact(actions: seq<Action>, i: nat)
    requires Enabled(After(actions), WriteName(i))
    ensures var w := After(actions);
            var m := w.handlers[i].pc.m;
            Act(w, WriteName(i)).table
              == if m.id in w.table.rows
                 then w.table.(rows := w.table.rows[m.id := w.table.rows[m.id].(name := w.handlers[i].goal.name)])
                 else w.table
  {
    InvAfter(actions);
    var w := After(actions);
    assert PcOk(w.issued, w.handlers[i].pc);
  }

  // ------------------------------------------------------------------ how long staleness can last

  /** A cache entry for the row can still be served. */
  ghost predicate LiveIn(w: World, room: string, id: int) {
    room in w.cache && w.cache[room].value.id == id && Live(w.cache[room], ROOM_CACHE_TTL_SECS, w.now)
  }

  /** A handler has read the row and is about to insert it into the cache. */
  predicate Filling(w: World, j: int, id: int) {
    0 <= j < |w.handlers| && w.handlers[j].pc.AtFill? && w.handlers[j].pc.m.id == id
  }

  /** The row is deleted, and neither a live cache entry nor a pending fill remembers it. */
  ghost predicate Forgotten(w: World, id: int) {
    && id !in w.table.rows && id < w.table.nextId
    && (forall room :: !LiveIn(w, room, id))
    && (forall j :: !Filling(w, j, id))
  }

  ghost predicate Holds(w: World, i: int, id: int) {
    0 <= i < |w.handlers| && w.handlers[i].pc.Holding? && w.handlers[i].pc.m.id == id
  }

  /** An eviction with no fill of the row in flight leaves the row forgotten. */
  lemma EvictionForgets(actions: seq<Action>, i: nat, id: int)
    requires Enabled(After(actions), Evict(i))
    requires var w := After(actions);
             && id in w.issued && id !in w.table.rows && w.handlers[i].pc.room == w.issued[id].room
             && forall j :: !Filling(w, j, id)
    ensures Forgotten(Act(After(actions), Evict(i)), id)
  {
    InvAfter(actions);
    var w := After(actions);
    var w' := Act(w, Evict(i));
    forall j ensures !Filling(w', j, id) { assert !Filling(w, j, id); }
  }

  /** From then on, for ever, no lookup returns it. */
  lemma {:induction false} ForgottenForEver(before: seq<Action>, after: seq<Action>, id: int, i: int)
    requires Forgotten(After(before), id)
    ensures Forgotten(After(before + after), id)
    ensures Holds(After(before + after), i, id) ==> Holds(After(before), i, id)
    decreases |after|
  {
    if after == [] {
      assert before + after == before;
    } else {
      var n := |after| - 1;
      ForgottenForEver(before, after[..n], id, i);
      assert before + after == (before + after[..n]) + [after[n]];
      AfterExtends(before + after[..n], after[n]);
      InvAfter(before + after[..n]);
      if Enabled(After(before + after[..n]), after[n]) {
        ForgottenStep(After(before + after[..n]), after[n], id, i);
      }
    }
  }

  lemma ForgottenStep(w: World, a: Action, id: int, i: int)
    requires Inv(w) && Enabled(w, a) && Forgotten(w, id)
    ensures Forgotten(Act(w, a), id)
    ensures Holds(Act(w, a), i, id) ==> Holds(w, i, id)
  {
    var w' := Act(w, a);
    StaysOutOfCache(w, a, id);
    if a.ReadCache? { assert !LiveIn(w, w.handlers[a.i].pc.room, id); }
    if a.Fill? { assert !Filling(w, a.i, id); }
    forall j ensures !Filling(w', j, id) { assert !Filling(w, j, id); }
  }

  /** Time only passes, and a fill inserts what it holds. */
  lemma StaysOutOfCache(w: World, a: Action, id: int)
    requires Enabled(w, a) && Forgotten(w, id)
    ensures forall room :: !LiveIn(Act(w, a), room, id)
  {
    if a.Fill? { assert !Filling(w, a.i, id); }
    forall room ensures !LiveIn(Act(w, a), room, id) { assert !LiveIn(w, room, id); }
  }

  /** In the continuation a handler that had not started yet returns the row from its lookup. */
  ghost predicate ServedLater(before: seq<Action>, after: seq<Action>, i: int, id: int) {
    i >= |After(before).handlers| && Holds(After(before + after), i, id)
  }

  /** A live entry: look the room up. */
  lemma EntryServes(before: seq<Action>, room: string, id: int)
    requires LiveIn(After(before), room, id)
    ensures var n := |After(before).handlers|; ServedLater(before, [Spawn(Forward, room), ReadCache(n)], n, id)
  {
    var n := |After(before).handlers|;
    AfterExtends(before, Spawn(Forward, room));
    AfterExtends(before + [Spawn(Forward, room)], ReadCache(n));
    assert before + [Spawn(Forward, room)] + [ReadCache(n)] == before + [Spawn(Forward, room), ReadCache(n)];
  }

  /** A fill of the row in flight: insert it, then look the room up. */
  lemma FillServes(before: seq<Action>, j: int, id: int)
    requires Filling(After(before), j, id)
    ensures var w := After(before);
            ServedLater(before, [Fill(j), Spawn(Forward, w.handlers[j].pc.room), ReadCache(|w.handlers|)],
                |w.handlers|, id)
  {
    var w := After(before);
    var n, room := |w.handlers|, w.handlers[j].pc.room;
    var filled := Act(w, Fill(j));
    assert LiveIn(filled, room, id) && |filled.handlers| == n;
    AfterExtends(before, Fill(j));
    EntryServes(before + [Fill(j)], room, id);
    var after := [Spawn(Forward, room), ReadCache(n)];
    assert before + [Fill(j)] + after == before + [Fill(j), Spawn(Forward, room), ReadCache(n)];
  }

  /**
   In every reachable state: a deleted row can still be returned by a new lookup, in some continuation, exactly when
   the cache holds a live entry for it or a handler is about to insert one.
   */
  lemma ServedAgainExactly(before: seq<Action>, id: int)
    requires id in After(before).issued && id !in After(before).table.rows
    ensures (exists after: seq<Action>, i: int :: ServedLater(before, after, i, id))
       <==> (exists room :: LiveIn(After(before), room, id)) || (exists j :: Filling(After(before), j, id))
  {
    InvAfter(before);
    if room :| LiveIn(After(before), room, id) {
      EntryServes(before, room, id);
    } else if j :| Filling(After(before), j, id) {
      FillServes(before, j, id);
    } else {
      forall after: seq<Action>, i: int ensures !ServedLater(before, after, i, id) {
        ForgottenForEver(before, after, id, i);
      }
    }
  }

  /** So after its deletion and eviction a row is served again exactly when a fill of it is in flight. */
  lemma EvictedServedExactly(actions: seq<Action>, i: nat, id: int)
    requires Enabled(After(actions), Evict(i))
    requires var w := After(actions);
             id in w.issued && id !in w.table.rows && w.handlers[i].pc.room == w.issued[id].room
    ensures (exists after: seq<Action>, k: int :: ServedLater(actions + [Evict(i)], after, k, id))
       <==> (exists j :: Filling(After(actions), j, id))
  {
    var w := After(actions);
    AfterExtends(actions, Evict(i));
    InvAfter(actions);
    var w' := Act(w, Evict(i));
    forall room ensures !LiveIn(w', room, id) { }
    forall j ensures Filling(w', j, id) <==> Filling(w, j, id) { }
    ServedAgainExactly(actions + [Evict(i)], id);
  }

  // ------------------------------------------------------------------ what interleaving breaks

  const ROW := RoomMapping(1, "!room", "C1", "general", "T1")

  const FILLING: seq<Action> := [Create(ROW), Spawn(Forward, "!room"), ReadCache(0), ReadTable(0)]
  const DELETING: seq<Action> := [SpawnDirect(Unbridge, "C1"), ReadChannel(1), DeleteRow(1), Evict(1)]
  const LATE: seq<Action> := [Fill(0), Spawn(Forward, "!room"), ReadCache(2)]

  lemma AfterExtends(actions: seq<Action>, a: Action)
    ensures After(actions + [a]) == Next(After(actions), a)
  {
    assert (actions + [a])[..|actions + [a]| - 1] == actions;
  }

  lemma AfterSpawning()
    ensures After(FILLING[..2])
         == World(RoomTable(map[1 := ROW], 2), map[], 0, [Handler(Forward, AtCache("!room"))], map[1 := ROW])
  {
    AfterExtends([], FILLING[0]);
    AfterExtends([FILLING[0]], FILLING[1]);
    assert [] + [FILLING[0]] == [FILLING[0]] && [FILLING[0]] + [FILLING[1]] == FILLING[..2];
    assert After([FILLING[0]]) == World(RoomTable(map[1 := ROW], 2), map[], 0, [], map[1 := ROW]);
  }

  lemma AfterFilling()
    ensures After(FILLING) == World(RoomTable(map[1 := ROW], 2), map[], 0, [Handler(Forward, AtFill("!room", ROW))],
            map[1 := ROW])
  {
    AfterSpawning();
    LookupsFindTheRow(After(FILLING[..2]).table, 1);
    assert FILLING[..2] + [FILLING[2]] + [FILLING[3]] == FILLING;
    AfterExtends(FILLING[..2], FILLING[2]);
    AfterExtends(FILLING[..2] + [FILLING[2]], FILLING[3]);
  }

  lemma AfterReading()
    ensures After(FILLING + DELETING[..2])
         == World(RoomTable(map[1 := ROW], 2), map[], 0,
                  [Handler(Forward, AtFill("!room", ROW)), Handler(Unbridge, Holding(ROW))], map[1 := ROW])
  {
    AfterFilling();
    LookupsFindTheRow(After(FILLING).table, 1);
    assert FILLING + [DELETING[0]] + [DELETING[1]] == FILLING + DELETING[..2];
    AfterExtends(FILLING, DELETING[0]);
    AfterExtends(FILLING + [DELETING[0]], DELETING[1]);
  }

  lemma AfterDeleting()
    ensures After(FILLING + DELETING)
         == World(RoomTable(map[], 2), map[], 0,
                  [Handler(Forward, AtFill("!room", ROW)), Handler(Unbridge, Ended)], map[1 := ROW])
  {
    AfterReading();
    var before := FILLING + DELETING[..2];
    assert before + [DELETING[2]] + [DELETING[3]] == FILLING + DELETING;
    AfterExtends(before, DELETING[2]);
    AfterExtends(before + [DELETING[2]], DELETING[3]);
  }

  /**
   The refinement that holds for atomic handlers fails here: a fill that lands after the eviction leaves an entry
   for a deleted row, and a later lookup is answered with it.
   */
  lemma LateFillServesDeletedRow()
    ensures var w := After(FILLING + DELETING + LATE);
            |w.handlers| == 3 && w.handlers[2].pc == Holding(ROW) && ROW.id !in w.table.rows
  {
    AfterDeleting();
    var before := FILLING + DELETING;
    assert before + LATE[..0] == before;
    forall k | 0 <= k < 3 ensures before + LATE[..k] + [LATE[k]] == before + LATE[..k + 1] {}
    AfterExtends(before + LATE[..0], LATE[0]);
    AfterExtends(before + LATE[..1], LATE[1]);
    AfterExtends(before + LATE[..2], LATE[2]);
    assert LATE[..3] == LATE;
  }
}
