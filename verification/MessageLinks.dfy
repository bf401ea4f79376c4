/**
 Linked messages (src/bridge.rs, src/bridge/logic.rs, src/bridge/backfill.rs): new Slack messages, edits, deletions,
 Matrix redactions and history import all keep one index between Slack timestamps and Matrix events.
 The homeserver numbers its events; a failed send takes no number.
 */
module MessageLinksModel {
  import opened Prelude
  import opened MessageStoreModel

  /** What a reply or edit refers to: a Matrix event, or the raw Slack timestamp when that is not linked. */
  datatype Ref = Event(event: nat) | SlackTs(ts: string)

  /**
   The calls made, and the table writes among them (`Linked`, `Unlinked`).  A send names the Slack message it belongs
   to, and whether it is the first or the last one of that message.
   */
  datatype Entry =
    | Sent(room: string, event: nat, replyTo: Option<Ref>, editOf: Option<Ref>, source: Option<string>, first: bool,
           last: bool)
    | Linked(ts: string, room: string, event: nat)
    | Redacted(room: string, event: nat)
    | DeletedOnSlack(ts: string)
    | Unlinked(ts: string)

  datatype System = System(links: LinkTable, log: seq<Entry>, nextEvent: nat)

  const EMPTY := System(LinkTable(map[], 1), [], 0)

  /** A message on its way to Matrix: its attachments are sent one by one, then its text if there is any. */
  datatype Outbound = Outbound(room: string, attachments: nat, hasBody: bool, replyTo: Option<Ref>, editOf: Option<Ref>)

  function SendCount(m: Outbound): (n: nat)
    ensures n > 0
  {
    if m.attachments == 0 then 1 else m.attachments + if m.hasBody then 1 else 0
  }

  /** Only the send that carries the text says what it edits. */
  function NthSend(source: Option<string>, m: Outbound, first: nat, i: nat): Entry {
    Sent(m.room, first + i, m.replyTo, if i == m.attachments then m.editOf else None, source, i == 0,
         i + 1 == SendCount(m))
  }

  function Sends(source: Option<string>, m: Outbound, first: nat, n: nat): seq<Entry> {
    seq(n, i requires 0 <= i < n => NthSend(source, m, first, i))
  }

  /** How many sends go out before one fails. */
  function Delivered(m: Outbound, failAt: Option<nat>): (n: nat)
    ensures n <= SendCount(m)
  {
    if failAt.Some? && failAt.value < SendCount(m) then failAt.value else SendCount(m)
  }

  /** Sends until `failAt`; the result is the last event if nothing failed. */
  function Deliver(s: System, source: Option<string>, m: Outbound, failAt: Option<nat>): (System, Option<nat>) {
    var n := Delivered(m, failAt);
    (s.(log := s.log + Sends(source, m, s.nextEvent, n), nextEvent := s.nextEvent + n),
     if n < SendCount(m) then None else Some(s.nextEvent + n - 1))
  }

  ghost function Relink(s: System, ts: string, room: string, event: nat): System {
    s.(links := Upserted(s.links, ts, room, event), log := s.log + [Linked(ts, room, event)])
  }

  // ------------------------------------------------------------------ Slack messages and edits

  /** `room` is the bridged room, if any; the flags say which outward operations succeed. */
  datatype Inbound = Inbound(
    room: Option<string>, source: Option<string>, replyTo: Option<string>, editOf: Option<string>, attachments: nat,
    hasBody: bool, registerOk: bool, failAt: Option<nat>, upsertOk: bool)

  /** `apply_message_relation_mappings`: a linked timestamp is replaced by its event. */
  ghost function Related(links: LinkTable, ts: Option<string>): Option<Ref> {
    if ts.None? then None
    else if ByTs(links, ts.value).Some? then Some(Event(ByTs(links, ts.value).value.event))
    else Some(SlackTs(ts.value))
  }

  ghost function OutboundOf(links: LinkTable, m: Inbound): Outbound
    requires m.room.Some?
  {
    Outbound(m.room.value, m.attachments, m.hasBody, Related(links, m.replyTo), Related(links, m.editOf))
  }

  ghost function HandleMessage(s: System, m: Inbound): System {
    if m.room.None? || !m.registerOk then s else
    var (sent, event) := Deliver(s, m.source, OutboundOf(s.links, m), m.failAt);
    if event.None? || m.source.None? || !m.upsertOk then sent
    else Relink(sent, m.source.value, m.room.value, event.value)
  }

  ghost function HandleDelete(s: System, ts: string, redactOk: bool): System {
    var link := ByTs(s.links, ts);
    if link.None? || !redactOk then s
    else s.(links := DeletedTs(s.links, ts),
            log := s.log + [Redacted(link.value.room, link.value.event), Unlinked(ts)])
  }

  /** A redaction in a bridged room, after the checks on sender and configuration. */
  ghost function HandleRedaction(s: System, event: nat, slackOk: bool): System {
    var link := ByEvent(s.links, event);
    if link.None? || !slackOk then s
    else s.(links := DeletedEvent(s.links, event),
            log := s.log + [DeletedOnSlack(link.value.ts), Unlinked(link.value.ts)])
  }

  // ------------------------------------------------------------------ history import

  /** One history message that will be sent if it is not linked yet. */
  datatype Plan = Plan(ts: Option<string>, out: Outbound)

  /** How the outside world treats one planned message. */
  datatype Attempt = Attempt(registerOk: bool, failAt: Option<nat>, upsertOk: bool)

  type World = nat -> Attempt

  /** `order` lists the timestamps of the messages sent, `count` their number. */
  datatype Import = Import(s: System, count: nat, order: seq<string>, aborted: bool)

  /** One message of the import loop; `k` is its position among the messages visited. */
  ghost function ImportOne(r: Import, plan: Option<Plan>, cap: nat, world: World, k: nat): Import {
    if r.aborted || r.count >= cap || plan.None? then r
    else if plan.value.ts.Some? && ByTs(r.s.links, plan.value.ts.value).Some? then r
    else if !world(k).registerOk then r.(aborted := true)
    else
      var (sent, event) := Deliver(r.s, plan.value.ts, plan.value.out, world(k).failAt);
      if event.None? then r.(s := sent)
      else if plan.value.ts.None? then r.(s := sent, count := r.count + 1)
      else
        var ts := plan.value.ts.value;
        Import(if world(k).upsertOk then Relink(sent, ts, plan.value.out.room, event.value) else sent,
               r.count + 1, r.order + [ts], false)
  }

  ghost function ImportAll(s: System, plans: seq<Option<Plan>>, cap: nat, world: World): Import {
    if plans == [] then Import(s, 0, [], false)
    else ImportOne(ImportAll(s, plans[..|plans| - 1], cap, world), plans[|plans| - 1], cap, world, |plans| - 1)
  }

  // ------------------------------------------------------------------ runs

  datatype Action =
    | Message(m: Inbound)
    | Delete(ts: string, redactOk: bool)
    | Redact(event: nat, slackOk: bool)
    | History(plans: seq<Option<Plan>>, cap: nat, world: World)

  ghost function Act(s: System, a: Action): System {
    match a
    case Message(m) => HandleMessage(s, m)
    case Delete(ts, redactOk) => HandleDelete(s, ts, redactOk)
    case Redact(event, slackOk) => HandleRedaction(s, event, slackOk)
    case History(plans, cap, world) => ImportAll(s, plans, cap, world).s
  }

  ghost function After(actions: seq<Action>): System {
    if actions == [] then EMPTY else Act(After(actions[..|actions| - 1]), actions[|actions| - 1])
  }

  // ------------------------------------------------------------------ the index is what the log says

  /** The links left by a log: the last `Linked` of each timestamp that was not followed by an `Unlinked`. */
  function Replay(log: seq<Entry>): map<string, (string, nat)> {
    if log == [] then map[] else ReplayEntry(Replay(log[..|log| - 1]), log[|log| - 1])
  }

  function ReplayEntry(before: map<string, (string, nat)>, e: Entry): map<string, (string, nat)> {
    if e.Linked? then before[e.ts := (e.room, e.event)]
    else if e.Unlinked? then before - {e.ts}
    else before
  }

  /** The table holds exactly these links. */
  ghost predicate Holds(t: LinkTable, m: map<string, (string, nat)>) {
    && (forall id :: id in t.rows ==> t.rows[id].ts in m && m[t.rows[id].ts] == (t.rows[id].room, t.rows[id].event))
    && (forall ts :: ts in m ==> ByTs(t, ts).Some?)
  }

  /** Events are linked once, and were all sent before. */
  ghost predicate DistinctEvents(t: LinkTable, nextEvent: nat) {
    && (forall id :: id in t.rows ==> t.rows[id].event < nextEvent)
    && (forall i, j :: i in t.rows && j in t.rows && i != j ==> t.rows[i].event != t.rows[j].event)
  }

  ghost predicate Inv(s: System) {
    ValidLinks(s.links) && Holds(s.links, Replay(s.log)) && DistinctEvents(s.links, s.nextEvent)
  }

  lemma RowIsFound(t: LinkTable, id: int)
    requires ValidLinks(t) && id in t.rows
    ensures ByTs(t, t.rows[id].ts) == Some(t.rows[id])
  {
    var r := ByTs(t, t.rows[id].ts);
    var j :| j in t.rows && t.rows[j] == r.value;
  }

  lemma {:induction false} ReplaySkipsSends(log: seq<Entry>, sends: seq<Entry>)
    requires forall e :: e in sends ==> e.Sent? || e.Redacted? || e.DeletedOnSlack?
    ensures Replay(log + sends) == Replay(log)
    decreases |sends|
  {
    if sends == [] {
      assert log + sends == log;
    } else {
      var n := |sends| - 1;
      assert sends[n] in sends;
      ReplaySkipsSends(log, sends[..n]);
      assert (log + sends)[..|log + sends| - 1] == log + sends[..n];
      assert (log + sends)[|log + sends| - 1] == sends[n];
    }
  }

  lemma ReplayLast(log: seq<Entry>, e: Entry)
    ensures Replay(log + [e]) == ReplayEntry(Replay(log), e)
  {
    assert (log + [e])[..|log|] == log;
  }

  lemma DeliverKeepsInv(s: System, source: Option<string>, m: Outbound, failAt: Option<nat>)
    requires Inv(s)
    ensures var (sent, event) := Deliver(s, source, m, failAt);
            && Inv(sent) && sent.links == s.links && Replay(sent.log) == Replay(s.log)
            && (event.Some? ==> s.nextEvent <= event.value < sent.nextEvent)
  {
    ReplaySkipsSends(s.log, Sends(source, m, s.nextEvent, Delivered(m, failAt)));
  }

  /** Whether it updates or inserts, an upsert writes one row, the only one with its timestamp. */
  lemma UpsertWritesOneRow(t: LinkTable, ts: string, room: string, event: nat) returns (id: int)
    requires ValidLinks(t)
    ensures var t' := Upserted(t, ts, room, event);
            && t'.rows == t.rows[id := Link(id, ts, room, event)] && t'.nextId >= t.nextId && id < t'.nextId
            && ValidLinks(t')
    ensures id in t.rows ==> t.rows[id].ts == ts
    ensures forall j :: j in t.rows && j != id ==> t.rows[j].ts != ts
  {
    var found := ByTs(t, ts);
    if found.Some? {
      id :| id in t.rows && t.rows[id] == found.value;
    } else {
      id := t.nextId;
    }
  }

  /** A timestamp found before a row of another timestamp was written is still found. */
  lemma OthersAreFound(t: LinkTable, t': LinkTable, id: int, row: Link, x: string)
    requires t'.rows == t.rows[id := row] && (id in t.rows ==> t.rows[id].ts == row.ts)
    requires x != row.ts && ByTs(t, x).Some?
    ensures ByTs(t', x).Some?
  {
    var j :| j in t.rows && t.rows[j] == ByTs(t, x).value;
    assert t'.rows[j].ts == x;
  }

  lemma RowsAreHeld(t: LinkTable, t': LinkTable, m: map<string, (string, nat)>, id: int, row: Link)
    requires Holds(t, m) && t'.rows == t.rows[id := row]
    requires (id in t.rows ==> t.rows[id].ts == row.ts) && forall j :: j in t.rows && j != id ==> t.rows[j].ts != row.ts
    ensures Holds(t', m[row.ts := (row.room, row.event)])
  {
    hide ByTs;
    var m' := m[row.ts := (row.room, row.event)];
    assert t'.rows[id].ts == row.ts;
    forall x | x in m' ensures ByTs(t', x).Some? {
      if x != row.ts { OthersAreFound(t, t', id, row, x); }
    }
  }

  lemma LinkKeepsInv(s: System, ts: string, room: string, event: nat)
    requires Inv(s) && event < s.nextEvent
    requires forall id :: id in s.links.rows ==> s.links.rows[id].event != event
    ensures Inv(Relink(s, ts, room, event))
    ensures var row := ByTs(Relink(s, ts, room, event).links, ts);
            row.Some? && row.value.event == event && row.value.room == room
  {
    var s' := Relink(s, ts, room, event);
    ReplayLast(s.log, Linked(ts, room, event));
    var id := UpsertWritesOneRow(s.links, ts, room, event);
    RowsAreHeld(s.links, s'.links, Replay(s.log), id, Link(id, ts, room, event));
    RowIsFound(s'.links, id);
  }

  /** With distinct events, deleting by timestamp and deleting by event remove the same one row. */
  lemma DeletesOneRow(t: LinkTable, id: int, nextEvent: nat)
    requires ValidLinks(t) && DistinctEvents(t, nextEvent) && id in t.rows
    ensures DeletedTs(t, t.rows[id].ts).rows == t.rows - {id}
    ensures DeletedEvent(t, t.rows[id].event).rows == t.rows - {id}
  {
    var row := t.rows[id];
    assert forall j :: j in t.rows ==>
           (j != id <==> t.rows[j].ts != row.ts) && (j != id <==> t.rows[j].event != row.event);
    assert DeletedTs(t, row.ts).rows.Keys == (t.rows - {id}).Keys;
    assert DeletedEvent(t, row.event).rows.Keys == (t.rows - {id}).Keys;
  }

  lemma OthersAreHeld(t: LinkTable, t': LinkTable, m: map<string, (string, nat)>, id: int)
    requires ValidLinks(t) && Holds(t, m) && id in t.rows && t'.rows == t.rows - {id}
    ensures Holds(t', m - {t.rows[id].ts})
  {
    forall x | x in m && x != t.rows[id].ts ensures ByTs(t', x).Some? {
      var j :| j in t.rows && t.rows[j] == ByTs(t, x).value;
      assert t'.rows[j].ts == x;
    }
  }

  lemma UnlinkKeepsInv(s: System, id: int, notice: Entry)
    requires Inv(s) && id in s.links.rows && (notice.Redacted? || notice.DeletedOnSlack?)
    ensures var row := s.links.rows[id];
            && DeletedTs(s.links, row.ts) == DeletedEvent(s.links, row.event)
            && Inv(s.(links := DeletedTs(s.links, row.ts), log := s.log + [notice, Unlinked(row.ts)]))
  {
    var row := s.links.rows[id];
    var t := DeletedTs(s.links, row.ts);
    ReplayLast(s.log, notice);
    ReplayLast(s.log + [notice], Unlinked(row.ts));
    assert s.log + [notice, Unlinked(row.ts)] == s.log + [notice] + [Unlinked(row.ts)];
    DeletesOneRow(s.links, id, s.nextEvent);
    OthersAreHeld(s.links, t, Replay(s.log), id);
  }

  lemma MessageKeepsInv(s: System, m: Inbound)
    requires Inv(s)
    ensures Inv(HandleMessage(s, m))
  {
    if m.room.Some? && m.registerOk {
      DeliverKeepsInv(s, m.source, OutboundOf(s.links, m), m.failAt);
      var (sent, event) := Deliver(s, m.source, OutboundOf(s.links, m), m.failAt);
      if event.Some? && m.source.Some? {
        LinkKeepsInv(sent, m.source.value, m.room.value, event.value);
      }
    }
  }

  lemma ImportOneKeepsInv(r: Import, plan: Option<Plan>, cap: nat, world: World, k: nat)
    requires Inv(r.s)
    ensures Inv(ImportOne(r, plan, cap, world, k).s)
  {
    if plan.Some? {
      DeliverKeepsInv(r.s, plan.value.ts, plan.value.out, world(k).failAt);
      var (sent, event) := Deliver(r.s, plan.value.ts, plan.value.out, world(k).failAt);
      if event.Some? && plan.value.ts.Some? {
        LinkKeepsInv(sent, plan.value.ts.value, plan.value.out.room, event.value);
      }
    }
  }

  lemma {:induction false} ImportKeepsInv(s: System, plans: seq<Option<Plan>>, cap: nat, world: World)
    requires Inv(s)
    ensures Inv(ImportAll(s, plans, cap, world).s)
    decreases |plans|
  {
    if plans != [] {
      var n := |plans| - 1;
      ImportKeepsInv(s, plans[..n], cap, world);
      ImportOneKeepsInv(ImportAll(s, plans[..n], cap, world), plans[n], cap, world, n);
    }
  }

  lemma ActKeepsInv(s: System, a: Action)
    requires Inv(s)
    ensures Inv(Act(s, a))
  {
    match a
    case Message(m) => MessageKeepsInv(s, m);
    case Delete(ts, redactOk) =>
      var link := ByTs(s.links, ts);
      if link.Some? {
        var id :| id in s.links.rows && s.links.rows[id] == link.value;
        UnlinkKeepsInv(s, id, Redacted(link.value.room, link.value.event));
      }
    case Redact(event, slackOk) =>
      var link := ByEvent(s.links, event);
      if link.Some? {
        var id :| id in s.links.rows && s.links.rows[id] == link.value;
        UnlinkKeepsInv(s, id, DeletedOnSlack(link.value.ts));
      }
    case History(plans, cap, world) => ImportKeepsInv(s, plans, cap, world);
  }

  lemma {:induction false} InvAfter(actions: seq<Action>)
    ensures Inv(After(actions))
    decreases |actions|
  {
    if actions != [] {
      InvAfter(actions[..|actions| - 1]);
      ActKeepsInv(After(actions[..|actions| - 1]), actions[|actions| - 1]);
    }
  }

  /** In every run a timestamp's row is its last link in the log, and there is none exactly when the log has none. */
  lemma IndexIsTheLog(actions: seq<Action>, ts: string)
    ensures var s := After(actions);
            var row := ByTs(s.links, ts);
            && (row.Some? <==> ts in Replay(s.log))
            && (row.Some? ==> Replay(s.log)[ts] == (row.value.room, row.value.event))
  {
    InvAfter(actions);
  }

  /** In every run the two lookups are inverse to each other. */
  lemma LookupsAreInverse(actions: seq<Action>, ts: string, event: nat)
    ensures var t := After(actions).links;
            (ByTs(t, ts).Some? && ByTs(t, ts).value.event == event)
            <==> (ByEvent(t, event).Some? && ByEvent(t, event).value.ts == ts)
    ensures var t := After(actions).links;
            ByTs(t, ts).Some? && ByTs(t, ts).value.event == event ==> ByEvent(t, event) == ByTs(t, ts)
  {
    InvAfter(actions);
    var t := After(actions).links;
    if ByTs(t, ts).Some? && ByTs(t, ts).value.event == event {
      var id :| id in t.rows && t.rows[id] == ByTs(t, ts).value;
      var jd :| jd in t.rows && t.rows[jd] == ByEvent(t, event).value;
    }
    if ByEvent(t, event).Some? && ByEvent(t, event).value.ts == ts {
      var jd :| jd in t.rows && t.rows[jd] == ByEvent(t, event).value;
      RowIsFound(t, jd);
    }
  }

  /** The last send of a message with text carries its relations and yields the event the message is linked to. */
  lemma LastSend(s: System, source: Option<string>, m: Outbound)
    requires m.hasBody || m.attachments == 0
    ensures var (sent, event) := Deliver(s, source, m, None);
            && event == Some(sent.nextEvent - 1)
            && Sent(m.room, event.value, m.replyTo, m.editOf, source, m.attachments == 0, true) in sent.log
  {
    var sends := Sends(source, m, s.nextEvent, SendCount(m));
    assert sends[SendCount(m) - 1]
        == Sent(m.room, s.nextEvent + SendCount(m) - 1, m.replyTo, m.editOf, source, m.attachments == 0, true);
    assert sends[SendCount(m) - 1] in s.log + sends;
  }

  lemma OldEventIsUnlinked(s: System, ts: string, room: string, event: nat, row: Link)
    requires Inv(s) && ByTs(s.links, ts) == Some(row) && event != row.event
    ensures ByEvent(Relink(s, ts, room, event).links, row.event).None?
  {
    var id := UpsertWritesOneRow(s.links, ts, room, event);
    var j :| j in s.links.rows && s.links.rows[j] == row;
  }

  /** A text edit of a linked message replaces the event its row held just before, and moves the row to the new one. */
  lemma EditReplacesCurrentEvent(actions: seq<Action>, m: Inbound, ts: string)
    requires m.room.Some? && m.registerOk && m.source == Some(ts) && m.editOf == Some(ts) && m.upsertOk
    requires m.hasBody || m.attachments == 0
    requires m.failAt.None? && ByTs(After(actions).links, ts).Some?
    ensures var s, s' := After(actions), After(actions + [Message(m)]);
            var row, row' := ByTs(s.links, ts).value, ByTs(s'.links, ts);
            && row'.Some? && row'.value.room == m.room.value && row'.value.event == s'.nextEvent - 1 >= s.nextEvent
            && Sent(m.room.value, row'.value.event, Related(s.links, m.replyTo), Some(Event(row.event)), Some(ts),
                    m.attachments == 0, true) in s'.log
            && ByEvent(s'.links, row.event).None?
  {
    assert (actions + [Message(m)])[..|actions|] == actions;
    InvAfter(actions);
    EditStep(After(actions), m, ts);
  }

  lemma EditStep(s: System, m: Inbound, ts: string)
    requires Inv(s) && m.room.Some? && m.registerOk && m.source == Some(ts) && m.editOf == Some(ts) && m.upsertOk
    requires (m.hasBody || m.attachments == 0) && m.failAt.None? && ByTs(s.links, ts).Some?
    ensures var s' := HandleMessage(s, m);
            var row, row' := ByTs(s.links, ts).value, ByTs(s'.links, ts);
            && row'.Some? && row'.value.room == m.room.value && row'.value.event == s'.nextEvent - 1 >= s.nextEvent
            && Sent(m.room.value, row'.value.event, Related(s.links, m.replyTo), Some(Event(row.event)), Some(ts),
                    m.attachments == 0, true) in s'.log
            && ByEvent(s'.links, row.event).None?
  {
    var out := OutboundOf(s.links, m);
    DeliverKeepsInv(s, m.source, out, None);
    LastSend(s, m.source, out);
    var (sent, event) := Deliver(s, m.source, out, None);
    LinkKeepsInv(sent, ts, m.room.value, event.value);
    OldEventIsUnlinked(sent, ts, m.room.value, event.value, ByTs(s.links, ts).value);
    assert HandleMessage(s, m) == Relink(sent, ts, m.room.value, event.value);
  }

  /** A Slack deletion redacts the event the row held, and leaves the timestamp and the event unlinked. */
  lemma DeleteRedactsCurrentEvent(actions: seq<Action>, ts: string)
    requires ByTs(After(actions).links, ts).Some?
    ensures var s, s' := After(actions), After(actions + [Delete(ts, true)]);
            var row := ByTs(s.links, ts).value;
            && Redacted(row.room, row.event) in s'.log
            && ByTs(s'.links, ts).None? && ByEvent(s'.links, row.event).None?
  {
    InvAfter(actions);
    var s := After(actions);
    assert (actions + [Delete(ts, true)])[..|actions|] == actions;
    var row := ByTs(s.links, ts).value;
    var id :| id in s.links.rows && s.links.rows[id] == row;
    assert Redacted(row.room, row.event) == After(actions + [Delete(ts, true)]).log[|s.log|];
  }

  /** A redaction deletes the Slack message whose row holds the event, and only that row. */
  lemma RedactionDeletesItsMessage(actions: seq<Action>, ts: string)
    requires ByTs(After(actions).links, ts).Some?
    ensures var s := After(actions);
            var s' := After(actions + [Redact(ByTs(s.links, ts).value.event, true)]);
            && DeletedOnSlack(ts) in s'.log && ByTs(s'.links, ts).None?
            && (forall other :: other != ts ==> ByTs(s'.links, other).Some? == ByTs(s.links, other).Some?)
  {
    hide HandleRedaction, ByTs, ByEvent;
    var s := After(actions);
    var event := ByTs(s.links, ts).value.event;
    LookupsAreInverse(actions, ts, event);
    InvAfter(actions);
    assert (actions + [Redact(event, true)])[..|actions|] == actions;
    RedactionStep(s, ts);
  }

  lemma RedactionStep(s: System, ts: string)
    requires Inv(s) && ByTs(s.links, ts).Some?
    requires ByEvent(s.links, ByTs(s.links, ts).value.event) == ByTs(s.links, ts)
    ensures var s' := HandleRedaction(s, ByTs(s.links, ts).value.event, true);
            && DeletedOnSlack(ts) in s'.log && ByTs(s'.links, ts).None?
            && (forall other :: other != ts ==> ByTs(s'.links, other).Some? == ByTs(s.links, other).Some?)
  {
    hide ByTs, ByEvent;
    var row := ByTs(s.links, ts).value;
    var s' := HandleRedaction(s, row.event, true);
    assert s'.log[|s.log|] == DeletedOnSlack(ts);
    var id :| id in s.links.rows && s.links.rows[id] == row;
    DeletesOneRow(s.links, id, s.nextEvent);
    forall other | other != ts ensures ByTs(s'.links, other).Some? == ByTs(s.links, other).Some? {
      OtherRowsStay(s.links, s'.links, id, other);
    }
  }

  lemma OtherRowsStay(t: LinkTable, t': LinkTable, id: int, other: string)
    requires id in t.rows && t'.rows == t.rows - {id} && t.rows[id].ts != other
    ensures ByTs(t', other).Some? == ByTs(t, other).Some?
  {
    if ByTs(t, other).Some? {
      var j :| j in t.rows && t.rows[j] == ByTs(t, other).value;
      assert t'.rows[j].ts == other;
    }
    if ByTs(t', other).Some? {
      var j :| j in t'.rows && t'.rows[j] == ByTs(t', other).value;
      assert t.rows[j].ts == other;
    }
  }
}
