/** The table `room_mappings` (src/db/manager.rs, src/db/sqlite.rs): two unique columns, ids that are never reused. */
module RoomStoreModel {
  import opened Prelude

  datatype RoomMapping = RoomMapping(id: int, room: string, channel: string, name: string, team: string)

  datatype RoomTable = RoomTable(rows: map<int, RoomMapping>, nextId: int)

  /** AUTOINCREMENT ids, `matrix_room_id` UNIQUE, `slack_channel_id` UNIQUE. */
  ghost predicate ValidTable(t: RoomTable) {
    && (forall id :: id in t.rows ==> t.rows[id].id == id && id < t.nextId)
    && (forall i, j :: i in t.rows && j in t.rows && i != j ==>
          t.rows[i].room != t.rows[j].room && t.rows[i].channel != t.rows[j].channel)
  }

  ghost function ByRoom(t: RoomTable, room: string): (r: Option<RoomMapping>)
    ensures r.Some? ==> r.value.room == room && exists id :: id in t.rows && t.rows[id] == r.value
    ensures r.None? ==> forall id :: id in t.rows ==> t.rows[id].room != room
  {
    if id :| id in t.rows && t.rows[id].room == room then Some(t.rows[id]) else None
  }

  ghost function ByChannel(t: RoomTable, channel: string): (r: Option<RoomMapping>)
    ensures r.Some? ==> r.value.channel == channel && exists id :: id in t.rows && t.rows[id] == r.value
    ensures r.None? ==> forall id :: id in t.rows ==> t.rows[id].channel != channel
  {
    if id :| id in t.rows && t.rows[id].channel == channel then Some(t.rows[id]) else None
  }

  function ById(t: RoomTable, id: int): Option<RoomMapping> {
    if id in t.rows then Some(t.rows[id]) else None
  }

  /** The INSERT succeeds exactly when neither unique column clashes. */
  ghost predicate CanInsert(t: RoomTable, m: RoomMapping) {
    ByRoom(t, m.room).None? && ByChannel(t, m.channel).None?
  }

  ghost function Inserted(t: RoomTable, m: RoomMapping): RoomTable {
    if CanInsert(t, m) then RoomTable(t.rows[t.nextId := m.(id := t.nextId)], t.nextId + 1) else t
  }

  function Deleted(t: RoomTable, id: int): RoomTable {
    t.(rows := t.rows - {id})
  }

  /** UPDATE ... WHERE id = m.id fails when the new values clash with another row. */
  ghost predicate CanUpdate(t: RoomTable, m: RoomMapping) {
    forall id :: id in t.rows && id != m.id ==> t.rows[id].room != m.room && t.rows[id].channel != m.channel
  }

  ghost function Updated(t: RoomTable, m: RoomMapping): RoomTable {
    if m.id in t.rows && CanUpdate(t, m) then t.(rows := t.rows[m.id := m]) else t
  }

  lemma TableStaysValid(t: RoomTable, m: RoomMapping, id: int)
    requires ValidTable(t)
    ensures ValidTable(Inserted(t, m)) && ValidTable(Deleted(t, id)) && ValidTable(Updated(t, m))
  {
  }

  lemma NextIdIsFree(t: RoomTable)
    requires ValidTable(t)
    ensures t.nextId !in t.rows
  {
  }

  lemma DeletedSize(t: RoomTable, id: int)
    ensures |Deleted(t, id).rows| <= |t.rows|
  {
    assert Deleted(t, id).rows.Keys == t.rows.Keys - {id};
    assert t.rows.Keys == (t.rows.Keys - {id}) + (t.rows.Keys * {id});
  }

  /** Every row is the one its own room and its own channel find. */
  lemma LookupsFindTheRow(t: RoomTable, id: int)
    requires ValidTable(t) && id in t.rows
    ensures ByRoom(t, t.rows[id].room) == Some(t.rows[id])
    ensures ByChannel(t, t.rows[id].channel) == Some(t.rows[id])
  {
    var r := ByRoom(t, t.rows[id].room);
    var c := ByChannel(t, t.rows[id].channel);
    assert r.Some? && c.Some?;
    var i :| i in t.rows && t.rows[i] == r.value;
    var j :| j in t.rows && t.rows[j] == c.value;
  }

  class RoomStore {
    var table: RoomTable

    constructor ()
      ensures table == RoomTable(map[], 1) && ValidTable(table)
    {
      table := RoomTable(map[], 1);
    }

    method GetRoomByMatrixRoom(room: string) returns (r: Option<RoomMapping>)
      requires ValidTable(table)
      ensures r == ByRoom(table, room)
    {
      r := FindWhere((m: RoomMapping) => m.room == room);
      if r.Some? { LookupsFindTheRow(table, r.value.id); }
    }

    method GetRoomBySlackChannel(channel: string) returns (r: Option<RoomMapping>)
      requires ValidTable(table)
      ensures r == ByChannel(table, channel)
    {
      r := FindWhere((m: RoomMapping) => m.channel == channel);
      if r.Some? { LookupsFindTheRow(table, r.value.id); }
    }

    method GetRoomById(id: int) returns (r: Option<RoomMapping>)
      ensures r == ById(table, id)
    {
      r := if id in table.rows then Some(table.rows[id]) else None;
    }

    method FindWhere(filter: RoomMapping -> bool) returns (r: Option<RoomMapping>)
      requires ValidTable(table)
      ensures r.Some? ==> r.value.id in table.rows && table.rows[r.value.id] == r.value && filter(r.value)
      ensures r.None? ==> forall id :: id in table.rows ==> !filter(table.rows[id])
    {
      r := None;
      var todo: set<int> := table.rows.Keys;
      while r.None? && todo != {}
        invariant todo <= table.rows.Keys
        invariant r.Some? ==> r.value.id in table.rows && table.rows[r.value.id] == r.value && filter(r.value)
        invariant r.None? ==> forall id :: id in table.rows && id !in todo ==> !filter(table.rows[id])
        decreases |todo|
      {
        var id := PickAny(todo);
        todo := todo - {id};
        if filter(table.rows[id]) { r := Some(table.rows[id]); }
      }
    }

    method CreateRoomMapping(m: RoomMapping) returns (ok: bool)
      requires ValidTable(table)
      modifies this
      ensures ValidTable(table) && table == Inserted(old(table), m) && ok == CanInsert(old(table), m)
    {
      var clash := FindWhere((x: RoomMapping) => x.room == m.room || x.channel == m.channel);
      ok := clash.None?;
      TableStaysValid(table, m, 0);
      if ok {
        table := RoomTable(table.rows[table.nextId := m.(id := table.nextId)], table.nextId + 1);
      }
    }

    method UpdateRoomMapping(m: RoomMapping) returns (ok: bool)
      requires ValidTable(table)
      modifies this
      ensures ValidTable(table) && table == Updated(old(table), m)
      ensures ok == (m.id in old(table).rows ==> CanUpdate(old(table), m))
    {
      var clash := FindWhere((x: RoomMapping) => x.id != m.id && (x.room == m.room || x.channel == m.channel));
      ok := m.id !in table.rows || clash.None?;
      TableStaysValid(table, m, 0);
      if ok && m.id in table.rows {
        table := table.(rows := table.rows[m.id := m]);
      }
    }

    method DeleteRoomMapping(id: int)
      requires ValidTable(table)
      modifies this
      ensures ValidTable(table) && table == Deleted(old(table), id)
    {
      TableStaysValid(table, RoomMapping(0, "", "", "", ""), id);
      table := table.(rows := table.rows - {id});
    }
  }
}
