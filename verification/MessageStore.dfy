/** The table `message_mappings` (src/db/manager.rs, src/db/sqlite.rs): Slack message ids are unique, event ids not. */
module MessageStoreModel {
  import opened Prelude

  datatype Link = Link(id: int, ts: string, room: string, event: nat)

  datatype LinkTable = LinkTable(rows: map<int, Link>, nextId: int)

  ghost predicate ValidLinks(t: LinkTable) {
    && (forall id :: id in t.rows ==> t.rows[id].id == id && id < t.nextId)
    && (forall i, j :: i in t.rows && j in t.rows && i != j ==> t.rows[i].ts != t.rows[j].ts)
  }

  ghost function ByTs(t: LinkTable, ts: string): (r: Option<Link>)
    ensures r.Some? ==> r.value.ts == ts && exists id :: id in t.rows && t.rows[id] == r.value
    ensures r.None? ==> forall id :: id in t.rows ==> t.rows[id].ts != ts
  {
    if id :| id in t.rows && t.rows[id].ts == ts then Some(t.rows[id]) else None
  }

  ghost function ByEvent(t: LinkTable, event: nat): (r: Option<Link>)
    ensures r.Some? ==> r.value.event == event && exists id :: id in t.rows && t.rows[id] == r.value
    ensures r.None? ==> forall id :: id in t.rows ==> t.rows[id].event != event
  {
    if id :| id in t.rows && t.rows[id].event == event then Some(t.rows[id]) else None
  }

  /** Find, then update or insert. */
  ghost function Upserted(t: LinkTable, ts: string, room: string, event: nat): LinkTable {
    var found := ByTs(t, ts);
    if found.Some? then t.(rows := t.rows[found.value.id := found.value.(room := room, event := event)])
    else LinkTable(t.rows[t.nextId := Link(t.nextId, ts, room, event)], t.nextId + 1)
  }

  function DeletedTs(t: LinkTable, ts: string): LinkTable {
    t.(rows := map id | id in t.rows && t.rows[id].ts != ts :: t.rows[id])
  }

  function DeletedEvent(t: LinkTable, event: nat): LinkTable {
    t.(rows := map id | id in t.rows && t.rows[id].event != event :: t.rows[id])
  }

  class MessageStore {
    var table: LinkTable

    constructor ()
      ensures table == LinkTable(map[], 1) && ValidLinks(table)
    {
      table := LinkTable(map[], 1);
    }

    method FindWhere(filter: Link -> bool) returns (r: Option<Link>)
      requires ValidLinks(table)
      ensures r.Some? ==> r.value.id in table.rows && table.rows[r.value.id] == r.value && filter(r.value)
      ensures r.None? ==> forall id :: id in table.rows ==> !filter(table.rows[id])
    {
      r := None;
      var todo: set<int> := table.rows.Keys;
      while r.None? && todo != {}
        invariant todo <= table.rows.Keys
        invariant r.Some? ==> r.value.id in table.rows && table.rows[r.value.id] == r.value && filter(r.value)
        invariant r.None? ==> forall id :: id in table.rows && id !in todo ==> !filter(table.rows[id])
        decreases |todo|
      {
        var id := PickAny(todo);
        todo := todo - {id};
        if filter(table.rows[id]) { r := Some(table.rows[id]); }
      }
    }

    method GetBySlackMessageId(ts: string) returns (r: Option<Link>)
      requires ValidLinks(table)
      ensures r == ByTs(table, ts)
    {
      r := FindWhere((l: Link) => l.ts == ts);
    }

    /** Any row with the event; the one row when events are distinct. */
    method GetByMatrixEventId(event: nat) returns (r: Option<Link>)
      requires ValidLinks(table)
      ensures r.Some? <==> ByEvent(table, event).Some?
      ensures r.Some? ==> r.value.id in table.rows && table.rows[r.value.id] == r.value && r.value.event == event
    {
      r := FindWhere((l: Link) => l.event == event);
    }

    method UpsertMessageMapping(ts: string, room: string, event: nat)
      requires ValidLinks(table)
      modifies this
      ensures ValidLinks(table) && table == Upserted(old(table), ts, room, event)
    {
      var found := GetBySlackMessageId(ts);
      if found.Some? {
        table := table.(rows := table.rows[found.value.id := found.value.(room := room, event := event)]);
      } else {
        table := LinkTable(table.rows[table.nextId := Link(table.nextId, ts, room, event)], table.nextId + 1);
      }
    }

    method DeleteBySlackMessageId(ts: string)
      requires ValidLinks(table)
      modifies this
      ensures ValidLinks(table) && table == DeletedTs(old(table), ts)
    {
      table := DeletedTs(table, ts);
    }

    method DeleteByMatrixEventId(event: nat)
      requires ValidLinks(table)
      modifies this
      ensures ValidLinks(table) && table == DeletedEvent(old(table), event)
    {
      table := DeletedEvent(table, event);
    }
  }
}
