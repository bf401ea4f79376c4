/**
 The message index and the history import measured against the calls that went out: the sends, redactions and Slack
 deletions of the log, without its notes of table writes.
 */
module MessageSendsModel {
  import opened Prelude
  import opened MessageStoreModel
  import opened MessageLinksModel

  type Links = map<string, (string, nat)>

  // ------------------------------------------------------------------ every link was sent

  /** The entry is the last send of the message that `link` records. */
  predicate SentFor(e: Entry, link: Entry)
    requires link.Linked?
  {
    e.Sent? && e.room == link.room && e.event == link.event && e.source == Some(link.ts) && e.last
  }

  /** Every table write of a link comes right after the send that completed the message. */
  ghost predicate LinksFollowSends(log: seq<Entry>) {
    forall k :: 0 <= k < |log| && log[k].Linked? ==> k > 0 && SentFor(log[k - 1], log[k])
  }

  lemma FollowAppend(log: seq<Entry>, more: seq<Entry>)
    requires LinksFollowSends(log) && forall e :: e in more ==> !e.Linked?
    ensures LinksFollowSends(log + more)
  {
    assert forall i :: 0 <= i < |more| ==> more[i] in more;
    assert forall i :: 0 <= i < |more| ==> !more[i].Linked?;
  }

  lemma LinkFollows(log: seq<Entry>, link: Entry)
    requires LinksFollowSends(log) && link.Linked? && log != [] && SentFor(log[|log| - 1], link)
    ensures LinksFollowSends(log + [link])
  {
    var more := log + [link];
    forall k | 0 <= k < |more| && more[k].Linked? ensures k > 0 && SentFor(more[k - 1], more[k]) {
      if k == |log| { assert more[k - 1] == log[|log| - 1] && more[k] == link; }
    }
  }

  lemma LastOfSends(log: seq<Entry>, source: Option<string>, m: Outbound, first: nat)
    ensures var all := log + Sends(source, m, first, SendCount(m));
            |all| > 0 && all[|all| - 1] == NthSend(source, m, first, SendCount(m) - 1)
  {
  }

  lemma DeliverFollows(s: System, source: Option<string>, m: Outbound, failAt: Option<nat>)
    requires LinksFollowSends(s.log)
    ensures var (sent, event) := Deliver(s, source, m, failAt);
            && LinksFollowSends(sent.log)
            && (event.Some? && source.Some? ==> LinksFollowSends(Relink(sent, source.value, m.room, event.value).log))
  {
    hide LinksFollowSends;
    var (sent, event) := Deliver(s, source, m, failAt);
    FollowAppend(s.log, Sends(source, m, s.nextEvent, Delivered(m, failAt)));
    LastOfSends(s.log, source, m, s.nextEvent);
    if event.Some? && source.Some? {
      LinkFollows(sent.log, Linked(source.value, m.room, event.value));
    }
  }

  lemma {:induction false} ImportFollows(s: System, plans: seq<Option<Plan>>, cap: nat, world: World)
    requires LinksFollowSends(s.log)
    ensures LinksFollowSends(ImportAll(s, plans, cap, world).s.log)
    decreases |plans|
  {
    if plans != [] {
      var n := |plans| - 1;
      ImportFollows(s, plans[..n], cap, world);
      if plans[n].Some? {
        DeliverFollows(ImportAll(s, plans[..n], cap, world).s, plans[n].value.ts, plans[n].value.out, world(n).failAt);
      }
    }
  }

  lemma ActFollows(s: System, a: Action)
    requires LinksFollowSends(s.log)
    ensures LinksFollowSends(Act(s, a).log)
  {
    match a
    case Message(m) => if m.room.Some? { DeliverFollows(s, m.source, OutboundOf(s.links, m), m.failAt); }
    case Delete(ts, redactOk) =>
      if ByTs(s.links, ts).Some? {
        FollowAppend(s.log, [Redacted(ByTs(s.links, ts).value.room, ByTs(s.links, ts).value.event), Unlinked(ts)]);
      }
    case Redact(event, slackOk) =>
      if ByEvent(s.links, event).Some? {
        var ts := ByEvent(s.links, event).value.ts;
        FollowAppend(s.log, [DeletedOnSlack(ts), Unlinked(ts)]);
      }
    case History(plans, cap, world) => ImportFollows(s, plans, cap, world);
  }

  lemma {:induction false} LinksWereSent(actions: seq<Action>)
    ensures LinksFollowSends(After(actions).log)
    decreases |actions|
  {
    if actions != [] {
      LinksWereSent(actions[..|actions| - 1]);
      ActFollows(After(actions[..|actions| - 1]), actions[|actions| - 1]);
    }
  }

  lemma {:induction false} ReplayedWasLinked(log: seq<Entry>, ts: string)
    requires ts in Replay(log)
    ensures Linked(ts, Replay(log)[ts].0, Replay(log)[ts].1) in log
    decreases |log|
  {
    var n := |log| - 1;
    if log[n] != Linked(ts, Replay(log)[ts].0, Replay(log)[ts].1) {
      ReplayedWasLinked(log[..n], ts);
    }
    assert log == log[..n] + [log[n]];
  }

  /** In every run, whatever fails, each row holds the event of a completed delivery of its own Slack message. */
  lemma RowsWereSent(actions: seq<Action>, ts: string)
    requires ByTs(After(actions).links, ts).Some?
    ensures var s := After(actions);
            exists k :: 0 <= k < |s.log|
                && SentFor(s.log[k], Linked(ts, ByTs(s.links, ts).value.room, ByTs(s.links, ts).value.event))
  {
    var s := After(actions);
    var row := ByTs(s.links, ts).value;
    IndexIsTheLog(actions, ts);
    LinksWereSent(actions);
    ReplayedWasLinked(s.log, ts);
    var k :| 0 <= k < |s.log| && s.log[k] == Linked(ts, row.room, row.event);
    assert SentFor(s.log[k - 1], s.log[k]);
  }

  // ------------------------------------------------------------------ the index told from the calls alone

  /** What the calls say: a completed delivery links its Slack message; a Slack deletion and a redaction unlink. */
  function CallEntry(before: Links, e: Entry): Links {
    match e
    case Sent(room, event, _, _, source, _, last) =>
      if last && source.Some? then before[source.value := (room, event)] else before
    case Redacted(room, event) => map ts | ts in before && before[ts] != (room, event) :: before[ts]
    case DeletedOnSlack(ts) => before - {ts}
    case _ => before
  }

  function ReplayCalls(log: seq<Entry>): Links {
    if log == [] then map[] else CallEntry(ReplayCalls(log[..|log| - 1]), log[|log| - 1])
  }

  lemma CallsLast(log: seq<Entry>, e: Entry)
    ensures ReplayCalls(log + [e]) == CallEntry(ReplayCalls(log), e)
  {
    assert (log + [e])[..|log|] == log;
  }

  /** Sends go out one after the other. */
  lemma SendsGrow(log: seq<Entry>, source: Option<string>, m: Outbound, first: nat, n: nat)
    ensures log + Sends(source, m, first, 0) == log
    ensures n > 0 ==>
      log + Sends(source, m, first, n) == log + Sends(source, m, first, n - 1) + [NthSend(source, m, first, n - 1)]
  {
  }

  lemma {:induction false} SendsLinkWhenComplete(
      log: seq<Entry>, source: Option<string>, m: Outbound, first: nat, n: nat)
    requires n <= SendCount(m)
    ensures ReplayCalls(log + Sends(source, m, first, n))
         == if n == SendCount(m) && source.Some? then ReplayCalls(log)[source.value := (m.room, first + n - 1)]
            else ReplayCalls(log)
    decreases n
  {
    hide ReplayCalls, Sends;
    SendsGrow(log, source, m, first, n);
    if n > 0 {
      SendsLinkWhenComplete(log, source, m, first, n - 1);
      CallsLast(log + Sends(source, m, first, n - 1), NthSend(source, m, first, n - 1));
    }
  }

  ghost predicate Synced(s: System) {
    Replay(s.log) == ReplayCalls(s.log)
  }

  /** A delivery, and the table write after it when the delivery is complete and has a Slack message. */
  lemma DeliverSyncs(s: System, source: Option<string>, m: Outbound, failAt: Option<nat>)
    requires Inv(s) && Synced(s)
    ensures var (sent, event) := Deliver(s, source, m, failAt);
            if event.Some? && source.Some? then Synced(Relink(sent, source.value, m.room, event.value))
            else Synced(sent)
  {
    hide ReplayCalls, Replay;
    var (sent, event) := Deliver(s, source, m, failAt);
    DeliverKeepsInv(s, source, m, failAt);
    SendsLinkWhenComplete(s.log, source, m, s.nextEvent, Delivered(m, failAt));
    if event.Some? && source.Some? {
      ReplayLast(sent.log, Linked(source.value, m.room, event.value));
      CallsLast(sent.log, Linked(source.value, m.room, event.value));
    }
  }

  lemma UnlinkSyncs(s: System, id: int, notice: Entry)
    requires Inv(s) && Synced(s) && id in s.links.rows
    requires var row := s.links.rows[id]; notice == Redacted(row.room, row.event) || notice == DeletedOnSlack(row.ts)
    ensures var ts := s.links.rows[id].ts;
            Replay(s.log + [notice, Unlinked(ts)]) == ReplayCalls(s.log + [notice, Unlinked(ts)])
  {
    hide ReplayCalls, Replay, Inv;
    var row := s.links.rows[id];
    var log := s.log + [notice];
    assert s.log + [notice, Unlinked(row.ts)] == log + [Unlinked(row.ts)];
    ReplayLast(s.log, notice);
    ReplayLast(log, Unlinked(row.ts));
    CallsLast(s.log, notice);
    CallsLast(log, Unlinked(row.ts));
    OnlyOneHasEvent(s, id);
  }

  /** In the links of a valid state the row's event belongs to the row's timestamp alone. */
  lemma OnlyOneHasEvent(s: System, id: int)
    requires Inv(s) && id in s.links.rows
    ensures var row := s.links.rows[id];
            && row.ts in Replay(s.log)
            && forall x :: x in Replay(s.log) ==> (Replay(s.log)[x] != (row.room, row.event) <==> x != row.ts)
  {
    hide Replay;
    var row := s.links.rows[id];
    RowIsFound(s.links, id);
    forall x | x in Replay(s.log) && x != row.ts ensures Replay(s.log)[x] != (row.room, row.event) {
      var j :| j in s.links.rows && s.links.rows[j] == ByTs(s.links, x).value;
    }
  }

  /** The table accepts every link that is written. */
  ghost predicate UpsertsSucceed(a: Action) {
    match a
    case Message(m) => m.upsertOk
    case History(_, _, world) => forall k :: world(k).upsertOk
    case _ => true
  }

  lemma {:induction false} ImportSyncs(s: System, plans: seq<Option<Plan>>, cap: nat, world: World)
    requires Inv(s) && Synced(s) && forall k :: world(k).upsertOk
    ensures Synced(ImportAll(s, plans, cap, world).s)
    decreases |plans|
  {
    if plans != [] {
      var n := |plans| - 1;
      ImportSyncs(s, plans[..n], cap, world);
      ImportKeepsInv(s, plans[..n], cap, world);
      ImportOneSyncs(ImportAll(s, plans[..n], cap, world), plans[n], cap, world, n);
    }
  }

  lemma ImportOneSyncs(r: Import, plan: Option<Plan>, cap: nat, world: World, k: nat)
    requires Inv(r.s) && Synced(r.s) && world(k).upsertOk
    ensures Synced(ImportOne(r, plan, cap, world, k).s)
  {
    hide Synced, Inv;
    if plan.Some? { DeliverSyncs(r.s, plan.value.ts, plan.value.out, world(k).failAt); }
  }

  lemma ActSyncs(s: System, a: Action)
    requires Inv(s) && Synced(s) && UpsertsSucceed(a)
    ensures Synced(Act(s, a))
  {
    match a
    case Message(m) => if m.room.Some? { DeliverSyncs(s, m.source, OutboundOf(s.links, m), m.failAt); }
    case Delete(ts, redactOk) =>
      if ByTs(s.links, ts).Some? {
        var row := ByTs(s.links, ts).value;
        var id :| id in s.links.rows && s.links.rows[id] == row;
        UnlinkSyncs(s, id, Redacted(row.room, row.event));
      }
    case Redact(event, slackOk) =>
      if ByEvent(s.links, event).Some? {
        var row := ByEvent(s.links, event).value;
        var id :| id in s.links.rows && s.links.rows[id] == row;
        UnlinkSyncs(s, id, DeletedOnSlack(row.ts));
      }
    case History(plans, cap, world) => ImportSyncs(s, plans, cap, world);
  }

  lemma {:induction false} SyncedAfter(actions: seq<Action>)
    requires forall a :: a in actions ==> UpsertsSucceed(a)
    ensures Synced(After(actions))
    decreases |actions|
  {
    if actions != [] {
      var n := |actions| - 1;
      assert actions[n] in actions;
      SyncedAfter(actions[..n]);
      InvAfter(actions[..n]);
      ActSyncs(After(actions[..n]), actions[n]);
    }
  }

  /**
   With upserts succeeding, the index is what the calls say, in every run: the row of a timestamp holds room and event
   of the last completed delivery of that Slack message, and there is none exactly if there was no such delivery since
   the message was last deleted or its event redacted.
   */
  lemma IndexIsTheSends(actions: seq<Action>, ts: string)
    requires forall a :: a in actions ==> UpsertsSucceed(a)
    ensures var s := After(actions);
            var row := ByTs(s.links, ts);
            && (row.Some? <==> ts in ReplayCalls(s.log))
            && (row.Some? ==> ReplayCalls(s.log)[ts] == (row.value.room, row.value.event))
  {
    SyncedAfter(actions);
    IndexIsTheLog(actions, ts);
  }

  // ------------------------------------------------------------------ which edits say what they edit

  /** Some send among the entries from `from` on refers to the edited event. */
  ghost predicate NamesEdit(log: seq<Entry>, from: nat, edit: Option<Ref>) {
    exists i :: from <= i < |log| && log[i].Sent? && log[i].editOf == edit
  }

  /** Some send of the delivery refers to the edited event exactly if the edit has text or no attachments. */
  lemma EditIsNamedExactly(source: Option<string>, m: Outbound, first: nat)
    requires m.editOf.Some?
    ensures NamesEdit(Sends(source, m, first, SendCount(m)), 0, m.editOf) <==> m.hasBody || m.attachments == 0
  {
    var sends := Sends(source, m, first, SendCount(m));
    if m.hasBody || m.attachments == 0 {
      assert sends[m.attachments].editOf == m.editOf;
    }
  }

  lemma NamesEditInSends(before: seq<Entry>, sends: seq<Entry>, tail: seq<Entry>, edit: Option<Ref>)
    requires forall i :: 0 <= i < |tail| ==> !tail[i].Sent?
    ensures NamesEdit(before + sends + tail, |before|, edit) <==> NamesEdit(sends, 0, edit)
  {
    var log := before + sends + tail;
    if NamesEdit(sends, 0, edit) {
      var i :| 0 <= i < |sends| && sends[i].Sent? && sends[i].editOf == edit;
      assert log[|before| + i] == sends[i];
    }
    assert forall k :: 0 <= k < |tail| ==> log[|before| + |sends| + k] == tail[k];
    if NamesEdit(log, |before|, edit) {
      var i :| |before| <= i < |log| && log[i].Sent? && log[i].editOf == edit;
      assert sends[i - |before|] == log[i];
    }
  }

  /** An undisturbed message logs its sends and at most the table write after them. */
  lemma LogOfMessage(s: System, m: Inbound) returns (tail: seq<Entry>)
    requires m.room.Some? && m.registerOk && m.failAt.None?
    ensures var out := OutboundOf(s.links, m);
            HandleMessage(s, m).log == s.log + Sends(m.source, out, s.nextEvent, SendCount(out)) + tail
    ensures forall i :: 0 <= i < |tail| ==> !tail[i].Sent?
  {
    var out := OutboundOf(s.links, m);
    tail := [];
    if m.source.Some? && m.upsertOk {
      tail := [Linked(m.source.value, m.room.value, s.nextEvent + SendCount(out) - 1)];
    }
  }

  /** So an edit of a linked message that brings attachments only never mentions the event it edits. */
  lemma EditNamesOldEventExactly(s: System, m: Inbound, ts: string)
    requires m.room.Some? && m.registerOk && m.editOf == Some(ts) && m.failAt.None? && ByTs(s.links, ts).Some?
    ensures NamesEdit(HandleMessage(s, m).log, |s.log|, Some(Event(ByTs(s.links, ts).value.event)))
       <==> m.hasBody || m.attachments == 0
  {
    hide HandleMessage, Sends;
    var out := OutboundOf(s.links, m);
    var sends := Sends(m.source, out, s.nextEvent, SendCount(out));
    var tail := LogOfMessage(s, m);
    NamesEditInSends(s.log, sends, tail, out.editOf);
    EditIsNamedExactly(m.source, out, s.nextEvent);
  }

  // ------------------------------------------------------------------ what one message sends

  /** How many sends a message takes: one for each attachment, and one for its text or if there is nothing else. */
  function Pieces(m: Inbound): nat {
    if m.hasBody || m.attachments == 0 then m.attachments + 1 else m.attachments
  }

  /** How many of them go out before one fails. */
  function PiecesSent(m: Inbound): nat {
    if m.failAt.Some? && m.failAt.value < Pieces(m) then m.failAt.value else Pieces(m)
  }

  /** A reference to the event that is linked to the timestamp, or else to the timestamp itself. */
  ghost predicate RefersTo(links: LinkTable, ref: Option<Ref>, ts: Option<string>) {
    && (ts.None? ==> ref.None?)
    && (ts.Some? && ByTs(links, ts.value).Some? ==> ref == Some(Event(ByTs(links, ts.value).value.event)))
    && (ts.Some? && ByTs(links, ts.value).None? ==> ref == Some(SlackTs(ts.value)))
  }

  /** Send `i` of the message: to the bridged room, replying to the linked root; only the text says what it edits. */
  ghost predicate IsPiece(s: System, m: Inbound, e: Entry, i: nat)
    requires m.room.Some?
  {
    && e.Sent? && e.room == m.room.value && e.event == s.nextEvent + i && e.source == m.source
    && e.first == (i == 0) && e.last == (i + 1 == Pieces(m))
    && RefersTo(s.links, e.replyTo, m.replyTo)
    && RefersTo(s.links, e.editOf, if i == m.attachments then m.editOf else None)
  }

  /**
   What a message sends, whatever fails: its pieces in order up to the first failing one, each with the relations it
   must carry, and then a link to the last of them exactly if nothing failed and the message has a timestamp.
   */
  lemma MessageSendsExactly(s: System, m: Inbound)
    requires m.room.Some? && m.registerOk
    ensures var s', n, from := HandleMessage(s, m), PiecesSent(m), |s.log|;
            var linked := n == Pieces(m) && m.source.Some? && m.upsertOk;
            && |s'.log| == from + n + (if linked then 1 else 0) && s'.log[..from] == s.log
            && (forall k :: from <= k < from + n ==> IsPiece(s, m, s'.log[k], k - from))
            && (linked ==> s'.log[from + n] == Linked(m.source.value, m.room.value, s.nextEvent + n - 1))
            && s'.nextEvent == s.nextEvent + n
            && s'.links == if linked then Upserted(s.links, m.source.value, m.room.value, s.nextEvent + n - 1)
                           else s.links
  {
    hide Upserted, ByTs;
    var out, from := OutboundOf(s.links, m), |s.log|;
    assert SendCount(out) == Pieces(m) && Delivered(out, m.failAt) == PiecesSent(m);
    var log := HandleMessage(s, m).log;
    forall k | from <= k < from + PiecesSent(m) ensures IsPiece(s, m, log[k], k - from) {
      assert log[k] == NthSend(m.source, out, s.nextEvent, k - from);
    }
  }

  /** Outside a bridged room, or if the sender cannot be registered, nothing is sent. */
  lemma UnbridgedMessageIsDropped(s: System, m: Inbound)
    ensures m.room.None? || !m.registerOk ==> HandleMessage(s, m) == s
  {
  }

  /** A deletion that cannot be carried out on the other side leaves everything as it was. */
  lemma FailedDeletionChangesNothing(s: System, ts: string, event: nat)
    ensures HandleDelete(s, ts, false) == s && HandleRedaction(s, event, false) == s
    ensures ByTs(s.links, ts).None? ==> HandleDelete(s, ts, true) == s
    ensures ByEvent(s.links, event).None? ==> HandleRedaction(s, event, true) == s
  {
  }

  // ------------------------------------------------------------------ what a capped import sends

  /** The messages of which at least one send went out. */
  function Begun(log: seq<Entry>): nat {
    if log == [] then 0
    else Begun(log[..|log| - 1]) + if log[|log| - 1].Sent? && log[|log| - 1].first then 1 else 0
  }

  /** The messages of which every send went out. */
  function Completed(log: seq<Entry>): nat {
    if log == [] then 0
    else Completed(log[..|log| - 1]) + if log[|log| - 1].Sent? && log[|log| - 1].last then 1 else 0
  }

  lemma CountLast(log: seq<Entry>, e: Entry)
    ensures Begun(log + [e]) == Begun(log) + if e.Sent? && e.first then 1 else 0
    ensures Completed(log + [e]) == Completed(log) + if e.Sent? && e.last then 1 else 0
  {
    assert (log + [e])[..|log|] == log;
  }

  lemma {:induction false} CountSends(log: seq<Entry>, source: Option<string>, m: Outbound, first: nat, n: nat)
    requires n <= SendCount(m)
    ensures Begun(log + Sends(source, m, first, n)) == Begun(log) + if n > 0 then 1 else 0
    ensures Completed(log + Sends(source, m, first, n)) == Completed(log) + if n == SendCount(m) then 1 else 0
    decreases n
  {
    hide Begun, Completed, Sends;
    SendsGrow(log, source, m, first, n);
    if n > 0 {
      CountSends(log, source, m, first, n - 1);
      CountLast(log + Sends(source, m, first, n - 1), NthSend(source, m, first, n - 1));
    }
  }

  /** The Slack messages whose every send went out, in order. */
  function CompletedSources(log: seq<Entry>): seq<string> {
    if log == [] then [] else
    var e := log[|log| - 1];
    CompletedSources(log[..|log| - 1]) + if e.Sent? && e.last && e.source.Some? then [e.source.value] else []
  }

  lemma SourcesLast(log: seq<Entry>, e: Entry)
    ensures CompletedSources(log + [e])
         == CompletedSources(log) + if e.Sent? && e.last && e.source.Some? then [e.source.value] else []
  {
    assert (log + [e])[..|log|] == log;
  }

  lemma {:induction false} SourcesOfSends(log: seq<Entry>, source: Option<string>, m: Outbound, first: nat, n: nat)
    requires n <= SendCount(m)
    ensures CompletedSources(log + Sends(source, m, first, n))
         == CompletedSources(log) + if n == SendCount(m) && source.Some? then [source.value] else []
    decreases n
  {
    hide CompletedSources, Sends;
    SendsGrow(log, source, m, first, n);
    if n > 0 {
      SourcesOfSends(log, source, m, first, n - 1);
      SourcesLast(log + Sends(source, m, first, n - 1), NthSend(source, m, first, n - 1));
    }
  }

  /** The order an import reports is the order of the completed messages in the log. */
  lemma {:induction false} OrderIsTheSends(s: System, plans: seq<Option<Plan>>, cap: nat, world: World)
    ensures var r := ImportAll(s, plans, cap, world);
            CompletedSources(r.s.log) == CompletedSources(s.log) + r.order
    decreases |plans|
  {
    hide CompletedSources;
    if plans != [] {
      var n := |plans| - 1;
      var r := ImportAll(s, plans[..n], cap, world);
      OrderIsTheSends(s, plans[..n], cap, world);
      OrderOfOne(r, plans[n], cap, world, n);
      var r' := ImportOne(r, plans[n], cap, world, n);
      var added := r'.order[|r.order|..];
      assert CompletedSources(s.log) + r.order + added == CompletedSources(s.log) + (r.order + added);
    }
  }

  lemma OrderOfOne(r: Import, plan: Option<Plan>, cap: nat, world: World, k: nat)
    ensures var r' := ImportOne(r, plan, cap, world, k);
            && r.order <= r'.order
            && CompletedSources(r'.s.log) == CompletedSources(r.s.log) + r'.order[|r.order|..]
  {
    hide CompletedSources;
    if plan.Some? {
      var out := plan.value.out;
      SourcesOfSends(r.s.log, plan.value.ts, out, r.s.nextEvent, Delivered(out, world(k).failAt));
      var (sent, event) := Deliver(r.s, plan.value.ts, out, world(k).failAt);
      if event.Some? && plan.value.ts.Some? {
        SourcesLast(sent.log, Linked(plan.value.ts.value, out.room, event.value));
      }
    }
  }

  /** The send belongs to the plan: its room, its Slack message and what it replies to. */
  predicate SendOf(p: Plan, e: Entry)
    requires e.Sent?
  {
    e.room == p.out.room && e.source == p.ts && e.replyTo == p.out.replyTo
  }

  /** An import only adds to the log, and every send it adds belongs to one of its plans. */
  lemma {:induction false} ImportSendsItsPlans(s: System, plans: seq<Option<Plan>>, cap: nat, world: World)
    ensures var log := ImportAll(s, plans, cap, world).s.log;
            && s.log <= log
            && forall k :: |s.log| <= k < |log| && log[k].Sent? ==>
                 exists i :: 0 <= i < |plans| && plans[i].Some? && SendOf(plans[i].value, log[k])
    decreases |plans|
  {
    hide SendOf;
    if plans != [] {
      var n := |plans| - 1;
      var r := ImportAll(s, plans[..n], cap, world);
      var log, log' := r.s.log, ImportAll(s, plans, cap, world).s.log;
      ImportSendsItsPlans(s, plans[..n], cap, world);
      OneSendsItsPlan(r, plans[n], cap, world, n);
      forall k | |s.log| <= k < |log'| && log'[k].Sent?
        ensures exists i :: 0 <= i < |plans| && plans[i].Some? && SendOf(plans[i].value, log'[k])
      {
        if k < |log| {
          assert log'[k] == log[k];
          var i :| 0 <= i < n && plans[..n][i].Some? && SendOf(plans[..n][i].value, log[k]);
          assert plans[i] == plans[..n][i];
        } else {
          assert plans[n].Some? && SendOf(plans[n].value, log'[k]);
        }
      }
    }
  }

  lemma OneSendsItsPlan(r: Import, plan: Option<Plan>, cap: nat, world: World, k: nat)
    ensures var log, log' := r.s.log, ImportOne(r, plan, cap, world, k).s.log;
            && log <= log'
            && forall j :: |log| <= j < |log'| && log'[j].Sent? ==> plan.Some? && SendOf(plan.value, log'[j])
  {
  }

  /** The import sends message `k`, and a send other than its first one fails. */
  ghost predicate BreaksAt(r: Import, plan: Option<Plan>, cap: nat, world: World, k: nat) {
    && !r.aborted && r.count < cap && plan.Some? && world(k).registerOk
    && (plan.value.ts.Some? ==> ByTs(r.s.links, plan.value.ts.value).None?)
    && 0 < Delivered(plan.value.out, world(k).failAt) < SendCount(plan.value.out)
  }

  /** How often that happens in an import. */
  ghost function Broken(s: System, plans: seq<Option<Plan>>, cap: nat, world: World): nat {
    if plans == [] then 0
    else
      var n := |plans| - 1;
      Broken(s, plans[..n], cap, world)
      + if BreaksAt(ImportAll(s, plans[..n], cap, world), plans[n], cap, world, n) then 1 else 0
  }

  lemma CountImportOne(r: Import, plan: Option<Plan>, cap: nat, world: World, k: nat)
    ensures var r' := ImportOne(r, plan, cap, world, k);
            && Completed(r'.s.log) - Completed(r.s.log) == r'.count - r.count
            && Begun(r'.s.log) - Begun(r.s.log)
            == r'.count - r.count + if BreaksAt(r, plan, cap, world, k) then 1 else 0
  {
    hide Begun, Completed;
    if plan.Some? {
      var out := plan.value.out;
      CountSends(r.s.log, plan.value.ts, out, r.s.nextEvent, Delivered(out, world(k).failAt));
      var (sent, event) := Deliver(r.s, plan.value.ts, out, world(k).failAt);
      if event.Some? && plan.value.ts.Some? {
        CountLast(sent.log, Linked(plan.value.ts.value, out.room, event.value));
      }
    }
  }

  /**
   Whatever fails, an import counts exactly the messages whose every send went out; it begins one message more for
   each that breaks off after its first send.
   */
  lemma {:induction false} ImportCountsCompleted(s: System, plans: seq<Option<Plan>>, cap: nat, world: World)
    ensures var r := ImportAll(s, plans, cap, world);
            && Completed(r.s.log) - Completed(s.log) == r.count <= cap
            && Begun(r.s.log) - Begun(s.log) == r.count + Broken(s, plans, cap, world)
    decreases |plans|
  {
    hide Begun, Completed;
    if plans != [] {
      var n := |plans| - 1;
      ImportCountsCompleted(s, plans[..n], cap, world);
      CountImportOne(ImportAll(s, plans[..n], cap, world), plans[n], cap, world, n);
    }
  }

  lemma {:induction false} NothingBreaks(s: System, plans: seq<Option<Plan>>, cap: nat, world: World)
    requires forall k :: world(k).failAt.None? || world(k).failAt.value == 0
    ensures Broken(s, plans, cap, world) == 0
    decreases |plans|
  {
    if plans != [] {
      var n := |plans| - 1;
      NothingBreaks(s, plans[..n], cap, world);
      assert world(n).failAt.None? || world(n).failAt.value == 0;
    }
  }

  /** So the cap bounds the messages that reach Matrix at all if no message fails after its first send. */
  lemma CapBoundsSends(s: System, plans: seq<Option<Plan>>, cap: nat, world: World)
    requires forall k :: world(k).failAt.None? || world(k).failAt.value == 0
    ensures Begun(ImportAll(s, plans, cap, world).s.log) - Begun(s.log) <= cap
  {
    ImportCountsCompleted(s, plans, cap, world);
    NothingBreaks(s, plans, cap, world);
  }

  const TWO_FILES := Plan(Some("1"), Outbound("!room", 2, false, None, None))
  const TEXT := Plan(Some("2"), Outbound("!room", 0, true, None, None))

  /** Otherwise it need not: with a cap of one, a message that breaks off after its first file and then a second one. */
  lemma BrokenMessageExceedsCap(world: World)
    requires world(0) == Attempt(true, Some(1), true) && world(1) == Attempt(true, None, true)
    ensures var r := ImportAll(EMPTY, [Some(TWO_FILES), Some(TEXT)], 1, world);
            r.count == 1 && r.order == ["2"] && r.s.nextEvent == 2 && Begun(r.s.log) == 2
  {
    var plans := [Some(TWO_FILES), Some(TEXT)];
    var r0 := ImportAll(EMPTY, [], 1, world);
    assert plans[..1] == [Some(TWO_FILES)] && [Some(TWO_FILES)][..0] == [];
    var r1 := ImportOne(r0, Some(TWO_FILES), 1, world, 0);
    assert BreaksAt(r0, Some(TWO_FILES), 1, world, 0) && r1.count == 0 && r1.s.nextEvent == 1;
    assert ImportAll(EMPTY, [Some(TWO_FILES)], 1, world) == r1;
    assert r1.s.links == EMPTY.links;
    CountImportOne(r0, Some(TWO_FILES), 1, world, 0);
    CountImportOne(r1, Some(TEXT), 1, world, 1);
  }
}
