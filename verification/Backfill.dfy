/** src/bridge/backfill.rs: paged import of channel history and of threads, on top of the message index. */
module BackfillModel {
  import opened Prelude
  import opened MessageStoreModel
  import opened MessageLinksModel
  import opened MessageSendsModel

  datatype HistoryMessage = HistoryMessage(
    user: Option<string>, text: string, ts: Option<string>, threadTs: Option<string>, subtype: Option<string>,
    hasFiles: bool, attachments: nat)

  /** A page lists its messages newest first. */
  datatype Page = Page(messages: seq<HistoryMessage>, hasMore: bool, nextCursor: string) | Unavailable

  const SKIPPED: set<string> := {"channel_join", "channel_leave", "channel_topic", "channel_purpose", "channel_name"}

  predicate Eligible(m: HistoryMessage) {
    && (m.subtype.Some? ==> m.subtype.value !in SKIPPED)
    && m.user.Some?
    && (m.text != "" || m.hasFiles)
  }

  /** A reply refers to its thread by the raw Slack timestamp. */
  function ChannelPlan(room: string, m: HistoryMessage): Option<Plan> {
    if !Eligible(m) then None else
    var reply := if m.threadTs.Some? && m.ts.Some? && m.threadTs != m.ts then Some(SlackTs(m.threadTs.value)) else None;
    Some(Plan(m.ts, Outbound(room, m.attachments, m.text != "", reply, None)))
  }

  /** Thread replies are sent in one piece, attachments as links in the text. */
  function ThreadPlan(room: string, thread: string, m: HistoryMessage): Option<Plan> {
    if m.user.None? || m.text == "" then None else
    var reply := if m.ts != Some(thread) then Some(SlackTs(thread)) else None;
    Some(Plan(m.ts, Outbound(room, 0, true, reply, None)))
  }

  // ------------------------------------------------------------------ what an imported reply refers to

  /** The root a live message replies to; a live message without a timestamp is not handled at all. */
  function LiveReply(m: HistoryMessage): Option<string> {
    if m.ts.Some? && m.threadTs.Some? && m.threadTs != m.ts then m.threadTs else None
  }

  /**
   An imported channel message refers to what the same live message would refer to exactly if it is no reply or its
   root is not linked: a live reply to a linked root names the root's event, an imported one its raw timestamp.
   */
  lemma ImportedReplyIsLiveExactly(links: LinkTable, room: string, m: HistoryMessage)
    requires Eligible(m)
    ensures ChannelPlan(room, m).value.out.replyTo == Related(links, LiveReply(m))
       <==> LiveReply(m).None? || ByTs(links, LiveReply(m).value).None?
  {
  }

  /**
   The same for the messages of a thread, against the live message of that thread: equal exactly for the root itself
   and for replies with a timestamp while the root is not linked.
   */
  lemma ThreadReplyIsLiveExactly(links: LinkTable, room: string, thread: string, m: HistoryMessage)
    requires m.user.Some? && m.text != ""
    ensures ThreadPlan(room, thread, m).value.out.replyTo == Related(links, LiveReply(m.(threadTs := Some(thread))))
       <==> m.ts == Some(thread) || (m.ts.Some? && ByTs(links, thread).None?)
  {
  }

  /** One steady import of a root and of a reply to it: the root becomes event 0, the reply refers to the timestamp. */
  lemma ImportedReplyIsRaw(world: World)
    requires Steady(world)
    ensures var root := HistoryMessage(Some("U1"), "root", Some("1"), Some("1"), None, false, 0);
            var reply := HistoryMessage(Some("U1"), "reply", Some("2"), Some("1"), None, false, 0);
            var afterRoot := ImportAll(EMPTY, Plans("!r", [root]), 5, world).s;
            && Related(afterRoot.links, LiveReply(reply)) == Some(Event(0))
            && ImportAll(EMPTY, Plans("!r", [root, reply]), 5, world).s.log
            == [Sent("!r", 0, None, None, Some("1"), true, true), Linked("1", "!r", 0),
                Sent("!r", 1, Some(SlackTs("1")), None, Some("2"), true, true), Linked("2", "!r", 1)]
  {
    hide ImportOne, Inv, Upserted, ByTs;
    var root := HistoryMessage(Some("U1"), "root", Some("1"), Some("1"), None, false, 0);
    var reply := HistoryMessage(Some("U1"), "reply", Some("2"), Some("1"), None, false, 0);
    var first := Plan(Some("1"), Outbound("!r", 0, true, None, None));
    var second := Plan(Some("2"), Outbound("!r", 0, true, Some(SlackTs("1")), None));
    assert Plans("!r", [root]) == [Some(first)] && Plans("!r", [root, reply]) == [Some(first), Some(second)];
    ImportOfTwo(first, second, 5, world);
  }

  /** Two messages of text only, imported undisturbed: the first is linked when the second is sent. */
  lemma ImportOfTwo(first: Plan, second: Plan, cap: nat, world: World)
    requires Steady(world) && cap >= 2 && TextOnly(first) && TextOnly(second) && first.ts != second.ts
    ensures var one := ImportAll(EMPTY, [Some(first)], cap, world).s;
            && ByTs(one.links, first.ts.value).Some? && ByTs(one.links, first.ts.value).value.event == 0
    ensures ImportAll(EMPTY, [Some(first), Some(second)], cap, world).s.log
         == SendAndLink(first, 0) + SendAndLink(second, 1)
  {
    hide ImportOne, Inv, Upserted;
    var before := Import(EMPTY, 0, [], false);
    assert [Some(first)][..0] == [] && [Some(first), Some(second)][..1] == [Some(first)];
    var one := ImportOne(before, Some(first), cap, world, 0);
    assert ImportAll(EMPTY, [Some(first)], cap, world) == one;
    ImportOneMessage(before, first, cap, world, 0);
    var id := UpsertWritesOneRow(EMPTY.links, first.ts.value, first.out.room, 0);
    assert id in one.s.links.rows;
    ImportOneMessage(one, second, cap, world, 1);
  }

  ghost predicate TextOnly(p: Plan) {
    p.ts.Some? && p.out.attachments == 0 && p.out.hasBody
  }

  function SendAndLink(p: Plan, event: nat): seq<Entry>
    requires p.ts.Some?
  {
    [Sent(p.out.room, event, p.out.replyTo, p.out.editOf, p.ts, true, true), Linked(p.ts.value, p.out.room, event)]
  }

  lemma ImportOneMessage(r: Import, p: Plan, cap: nat, world: World, k: nat)
    requires Steady(world) && TextOnly(p) && !r.aborted && r.count < cap && ByTs(r.s.links, p.ts.value).None?
    ensures var r' := ImportOne(r, Some(p), cap, world, k);
            && r'.s.log == r.s.log + SendAndLink(p, r.s.nextEvent)
            && r'.s.links == Upserted(r.s.links, p.ts.value, p.out.room, r.s.nextEvent)
            && r'.s.nextEvent == r.s.nextEvent + 1 && r'.count == r.count + 1 && !r'.aborted
  {
    hide Upserted;
    assert Sends(p.ts, p.out, r.s.nextEvent, 1) == [NthSend(p.ts, p.out, r.s.nextEvent, 0)];
  }

  function Reverse<T>(s: seq<T>): (r: seq<T>)
    ensures |r| == |s| && forall i :: 0 <= i < |s| ==> r[i] == s[|s| - 1 - i]
  {
    seq(|s|, i requires 0 <= i < |s| => s[|s| - 1 - i])
  }

  predicate Continues(page: Page) {
    page.Page? && page.messages != [] && page.hasMore && page.nextCursor != ""
  }

  /** The messages the paging loop visits when nothing stops it early, oldest first within each page. */
  function Visited(pages: seq<Page>): seq<HistoryMessage> {
    if pages == [] || pages[0].Unavailable? then []
    else Reverse(pages[0].messages) + if Continues(pages[0]) then Visited(pages[1..]) else []
  }

  function Plans(room: string, messages: seq<HistoryMessage>): (r: seq<Option<Plan>>)
    ensures |r| == |messages| && forall i :: 0 <= i < |r| ==> r[i] == ChannelPlan(room, messages[i])
  {
    seq(|messages|, i requires 0 <= i < |messages| => ChannelPlan(room, messages[i]))
  }

  function ThreadPlans(room: string, thread: string, messages: seq<HistoryMessage>): (r: seq<Option<Plan>>)
    ensures |r| == |messages| && forall i :: 0 <= i < |r| ==> r[i] == ThreadPlan(room, thread, messages[i])
  {
    seq(|messages|, i requires 0 <= i < |messages| => ThreadPlan(room, thread, messages[i]))
  }

  // ------------------------------------------------------------------ which pages and messages are imported

  /** The messages of the pages in order, oldest first within each page. */
  function Chronological(pages: seq<Page>): seq<HistoryMessage>
    requires forall i :: 0 <= i < |pages| ==> pages[i].Page?
  {
    if pages == [] then [] else Reverse(pages[0].messages) + Chronological(pages[1..])
  }

  /** The first `n` pages are there, each with messages and with a cursor to a further page. */
  predicate Lead(pages: seq<Page>, n: nat) {
    && n <= |pages|
    && forall i :: 0 <= i < n ==>
         pages[i].Page? && pages[i].messages != [] && pages[i].hasMore && pages[i].nextCursor != ""
  }

  /**
   Paging: while each page leads to a further one the loop goes on, and it stops behind the first that is empty, has no
   more behind it or gives no cursor, or before the first that cannot be read.
   */
  lemma {:induction false} VisitedExactly(pages: seq<Page>, n: nat)
    requires Lead(pages, n)
    ensures n == |pages| || pages[n].Unavailable? ==> Visited(pages) == Chronological(pages[..n])
    ensures n < |pages| && pages[n].Page?
            && (pages[n].messages == [] || !pages[n].hasMore || pages[n].nextCursor == "") ==>
              Visited(pages) == Chronological(pages[..n + 1])
    decreases n
  {
    if n > 0 {
      VisitedExactly(pages[1..], n - 1);
      assert pages[1..][..n - 1] == pages[..n][1..] && pages[..n][0] == pages[0];
      if n < |pages| && pages[n].Page? {
        assert pages[1..][..n] == pages[..n + 1][1..] && pages[..n + 1][0] == pages[0];
      }
    } else if pages != [] && pages[0].Page? {
      assert pages[..1] == [pages[0]] && pages[..1][..0] == [];
      assert [] + Reverse(pages[0].messages) == Reverse(pages[0].messages) + [];
    }
  }

  /** The paging comes to a page that cannot be read. */
  ghost predicate ReachesFailure(pages: seq<Page>) {
    exists n: nat :: n < |pages| && pages[n].Unavailable? && Lead(pages, n)
  }

  /** A message that is imported: no notice about the channel, by a user, with text or files. */
  predicate Importable(m: HistoryMessage) {
    && m.subtype != Some("channel_join") && m.subtype != Some("channel_leave") && m.subtype != Some("channel_topic")
    && m.subtype != Some("channel_purpose") && m.subtype != Some("channel_name")
    && m.user.Some? && (m.text != "" || m.hasFiles)
  }

  /** Exactly those are planned: to the bridged room, with their attachments and their text, as new messages. */
  lemma PlannedExactly(room: string, m: HistoryMessage)
    ensures ChannelPlan(room, m).Some? <==> Importable(m)
    ensures Importable(m) ==>
              var p := ChannelPlan(room, m).value;
              && p.ts == m.ts && p.out.room == room && p.out.attachments == m.attachments && p.out.editOf.None?
              && (p.out.hasBody <==> m.text != "")
              && p.out.replyTo == if m.ts.Some? && m.threadTs.Some? && m.ts != m.threadTs
                                  then Some(SlackTs(m.threadTs.value)) else None
  {
  }

  /** In a thread: every message by a user with text, replying to the root unless it is the root. */
  lemma ThreadPlannedExactly(room: string, thread: string, m: HistoryMessage)
    ensures ThreadPlan(room, thread, m).Some? <==> m.user.Some? && m.text != ""
    ensures m.user.Some? && m.text != "" ==>
              var p := ThreadPlan(room, thread, m).value;
              && p.ts == m.ts && p.out.room == room && p.out.attachments == 0 && p.out.editOf.None? && p.out.hasBody
              && (m.ts == Some(thread) ==> p.out.replyTo.None?)
              && (m.ts != Some(thread) ==> p.out.replyTo == Some(SlackTs(thread)))
  {
  }

  /** The timestamps of the messages still to be imported, each once, in order. */
  function ToImport(messages: seq<HistoryMessage>, linked: set<string>): seq<string> {
    if messages == [] then [] else
    var before, m := ToImport(messages[..|messages| - 1], linked), messages[|messages| - 1];
    if Importable(m) && m.ts.Some? && m.ts.value !in linked && m.ts.value !in before
    then before + [m.ts.value] else before
  }

  lemma {:induction false} PendingIsToImport(room: string, messages: seq<HistoryMessage>, linked: set<string>)
    ensures Pending(Plans(room, messages), linked) == ToImport(messages, linked)
    decreases |messages|
  {
    if messages != [] {
      var n := |messages| - 1;
      PendingIsToImport(room, messages[..n], linked);
      assert Plans(room, messages)[..n] == Plans(room, messages[..n]);
      PlannedExactly(room, messages[n]);
    }
  }

  // ------------------------------------------------------------------ what an import sends

  function LinkedTs(t: LinkTable): set<string> {
    set id | id in t.rows :: t.rows[id].ts
  }

  lemma LinkedIsFound(t: LinkTable, ts: string)
    ensures ts in LinkedTs(t) <==> ByTs(t, ts).Some?
  {
  }

  /** The timestamps still to be imported, each once, in visiting order. */
  function Pending(plans: seq<Option<Plan>>, linked: set<string>): seq<string> {
    if plans == [] then [] else
    var before, plan := Pending(plans[..|plans| - 1], linked), plans[|plans| - 1];
    if plan.Some? && plan.value.ts.Some? && plan.value.ts.value !in linked && plan.value.ts.value !in before
    then before + [plan.value.ts.value]
    else before
  }

  function Take(s: seq<string>, n: nat): seq<string> {
    if |s| <= n then s else s[..n]
  }

  function Elements(s: seq<string>): set<string> {
    set x | x in s
  }

  /** Every message the import would send has a timestamp. */
  predicate Stamped(plans: seq<Option<Plan>>) {
    forall p :: p in plans && p.Some? ==> p.value.ts.Some?
  }

  /** All registrations, sends and table writes succeed. */
  ghost predicate Steady(world: World) {
    forall k :: world(k) == Attempt(true, None, true)
  }

  lemma LinkAddsTs(s: System, ts: string, room: string, event: nat)
    requires Inv(s)
    ensures LinkedTs(Relink(s, ts, room, event).links) == LinkedTs(s.links) + {ts}
  {
    var id := UpsertWritesOneRow(s.links, ts, room, event);
    var t' := Relink(s, ts, room, event).links;
    assert t'.rows[id].ts == ts;
    forall x | x in LinkedTs(s.links) ensures x in LinkedTs(t') {
      var j :| j in s.links.rows && s.links.rows[j].ts == x;
      assert t'.rows[j].ts == x;
    }
  }

  /** One undisturbed run sends exactly the first `cap` pending messages, in order, and links them. */
  lemma {:induction false} SteadyImport(s: System, plans: seq<Option<Plan>>, cap: nat, world: World)
    requires Inv(s) && Steady(world) && Stamped(plans)
    ensures var r := ImportAll(s, plans, cap, world);
            && !r.aborted && r.order == Take(Pending(plans, LinkedTs(s.links)), cap) && r.count == |r.order|
            && LinkedTs(r.s.links) == LinkedTs(s.links) + Elements(r.order)
    decreases |plans|
  {
    if plans != [] {
      var n := |plans| - 1;
      SteadyImport(s, plans[..n], cap, world);
      ImportKeepsInv(s, plans[..n], cap, world);
      SteadyStep(ImportAll(s, plans[..n], cap, world), plans[n], cap, world, n);
      assert plans[n] in plans;
    }
  }

  lemma SteadyStep(r: Import, plan: Option<Plan>, cap: nat, world: World, k: nat)
    requires Inv(r.s) && Steady(world) && !r.aborted && (plan.Some? ==> plan.value.ts.Some?)
    ensures var r' := ImportOne(r, plan, cap, world, k);
            if r.count < cap && plan.Some? && plan.value.ts.value !in LinkedTs(r.s.links)
            then && !r'.aborted && r'.count == r.count + 1 && r'.order == r.order + [plan.value.ts.value]
                 && LinkedTs(r'.s.links) == LinkedTs(r.s.links) + {plan.value.ts.value}
            else r' == r
  {
    hide LinkedTs, Inv, Relink;
    if plan.Some? {
      var ts, room := plan.value.ts.value, plan.value.out.room;
      LinkedIsFound(r.s.links, ts);
      DeliverKeepsInv(r.s, plan.value.ts, plan.value.out, None);
      var (sent, event) := Deliver(r.s, plan.value.ts, plan.value.out, None);
      LinkAddsTs(sent, ts, room, event.value);
    }
  }

  /** No two pending timestamps are equal and none is linked already. */
  lemma {:induction false} PendingIsDistinct(plans: seq<Option<Plan>>, linked: set<string>)
    ensures var p := Pending(plans, linked);
            && (forall i, j :: 0 <= i < j < |p| ==> p[i] != p[j])
            && (forall x :: x in p ==> x !in linked)
            && (forall q :: q in plans && q.Some? && q.value.ts.Some? ==>
                q.value.ts.value in linked || q.value.ts.value in p)
    decreases |plans|
  {
    if plans != [] {
      PendingIsDistinct(plans[..|plans| - 1], linked);
      var before := Pending(plans[..|plans| - 1], linked);
      assert forall i :: 0 <= i < |before| ==> before[i] in before;
      assert plans == plans[..|plans| - 1] + [plans[|plans| - 1]];
    }
  }

  lemma {:induction false} NothingPending(plans: seq<Option<Plan>>, linked: set<string>)
    requires forall q :: q in plans && q.Some? && q.value.ts.Some? ==> q.value.ts.value in linked
    ensures Pending(plans, linked) == []
    decreases |plans|
  {
    if plans != [] {
      assert plans[|plans| - 1] in plans;
      NothingPending(plans[..|plans| - 1], linked);
    }
  }

  /** Linking the first `k` pending messages leaves exactly the others pending. */
  lemma {:induction false} PendingAfter(plans: seq<Option<Plan>>, linked: set<string>, k: nat)
    requires k <= |Pending(plans, linked)|
    ensures Pending(plans, linked + Elements(Pending(plans, linked)[..k])) == Pending(plans, linked)[k..]
    decreases |plans|
  {
    var p := Pending(plans, linked);
    PendingIsDistinct(plans, linked);
    if k == |p| {
      assert p[..k] == p;
      NothingPending(plans, linked + Elements(p));
    } else if plans != [] {
      var init := plans[..|plans| - 1];
      var before := Pending(init, linked);
      assert p[..k] == before[..k];
      PendingAfter(init, linked, k);
      PendingIsDistinct(init, linked);
      assert forall x :: x in before ==> x in before[..k] || x in before[k..];
    }
  }

  /** `j` imports of the same history, one after the other; the result lists everything they sent. */
  ghost function Imports(s: System, plans: seq<Option<Plan>>, cap: nat, worlds: nat -> World, j: nat)
      : (System, seq<string>)
  {
    if j == 0 then (s, []) else
    var (before, sent) := Imports(s, plans, cap, worlds, j - 1);
    var r := ImportAll(before, plans, cap, worlds(j - 1));
    (r.s, sent + r.order)
  }

  function Quota(j: nat, m: nat): nat {
    if j == 0 then 0 else Quota(j - 1, m) + m
  }

  lemma {:induction false} QuotaIsProduct(j: nat, m: nat)
    ensures Quota(j, m) == j * m
  {
    if j > 0 {
      QuotaIsProduct(j - 1, m);
      assert (j - 1) * m + m == j * m;
    }
  }

  lemma {:induction false} ImportsFillQuota(s: System, plans: seq<Option<Plan>>, m: nat, worlds: nat -> World, j: nat)
    requires Inv(s) && Stamped(plans) && forall i :: Steady(worlds(i))
    ensures var (s', sent) := Imports(s, plans, m, worlds, j);
            && Inv(s') && sent == Take(Pending(plans, LinkedTs(s.links)), Quota(j, m))
            && LinkedTs(s'.links) == LinkedTs(s.links) + Elements(sent)
    decreases j
  {
    hide ImportAll, Pending, Inv, Stamped, Steady, LinkedTs;
    if j > 0 {
      var linked := LinkedTs(s.links);
      var pending := Pending(plans, linked);
      ImportsFillQuota(s, plans, m, worlds, j - 1);
      var (before, sent) := Imports(s, plans, m, worlds, j - 1);
      assert Steady(worlds(j - 1));
      SteadyImport(before, plans, m, worlds(j - 1));
      ImportKeepsInv(before, plans, m, worlds(j - 1));
      assert sent == pending[..|sent|];
      PendingAfter(plans, linked, |sent|);
      TakeMore(pending, |sent|, Quota(j - 1, m), m);
    }
  }

  /** What the runs report as sent is what the log says was sent completely. */
  lemma {:induction false} SentIsInTheLog(s: System, plans: seq<Option<Plan>>, m: nat, worlds: nat -> World, j: nat)
    ensures var (s', sent) := Imports(s, plans, m, worlds, j);
            CompletedSources(s'.log) == CompletedSources(s.log) + sent
    decreases j
  {
    hide ImportAll, CompletedSources;
    if j > 0 {
      SentIsInTheLog(s, plans, m, worlds, j - 1);
      var (before, sent) := Imports(s, plans, m, worlds, j - 1);
      OrderIsTheSends(before, plans, m, worlds(j - 1));
      var order := ImportAll(before, plans, m, worlds(j - 1)).order;
      assert CompletedSources(s.log) + sent + order == CompletedSources(s.log) + (sent + order);
    }
  }

  /**
   Progress: over a fixed history with N pending messages, `j` undisturbed runs with cap `m` send exactly the first
   min(N, j*m) of them, each once and in order, and afterwards exactly these are linked besides the links there were.
   */
  lemma BackfillProgress(s: System, plans: seq<Option<Plan>>, m: nat, worlds: nat -> World, j: nat)
    requires Inv(s) && Stamped(plans) && forall i :: Steady(worlds(i))
    ensures var (s', sent) := Imports(s, plans, m, worlds, j);
            var pending := Pending(plans, LinkedTs(s.links));
            && Inv(s') && sent == Take(pending, j * m)
            && LinkedTs(s'.links) == LinkedTs(s.links) + Elements(sent)
            && CompletedSources(s'.log) == CompletedSources(s.log) + sent
            && (forall a, b :: 0 <= a < b < |sent| ==> sent[a] != sent[b])
            && (forall x :: x in sent ==> x !in LinkedTs(s.links))
  {
    hide ImportAll, Imports, Pending, Inv, Stamped, Steady, LinkedTs, CompletedSources;
    ImportsFillQuota(s, plans, m, worlds, j);
    QuotaIsProduct(j, m);
    SentIsInTheLog(s, plans, m, worlds, j);
    PendingIsDistinct(plans, LinkedTs(s.links));
  }

  lemma TakeMore(s: seq<string>, n: nat, a: nat, b: nat)
    requires n <= |s| && s[..n] == Take(s, a)
    ensures Take(s, a) + Take(s[n..], b) == Take(s, a + b)
  {
    assert n == if |s| <= a then |s| else a;
  }

  /** Whatever fails, a run counts at most `cap` messages, completes none that was already linked and loses no link. */
  lemma {:induction false} ImportIsBounded(s: System, plans: seq<Option<Plan>>, cap: nat, world: World)
    requires Inv(s)
    ensures var r := ImportAll(s, plans, cap, world);
            && |r.order| <= r.count <= cap
            && (forall ts :: ts in r.order ==> ts !in LinkedTs(s.links))
            && LinkedTs(s.links) <= LinkedTs(r.s.links)
    decreases |plans|
  {
    if plans != [] {
      var n, r := |plans| - 1, ImportAll(s, plans[..|plans| - 1], cap, world);
      ImportIsBounded(s, plans[..n], cap, world);
      ImportKeepsInv(s, plans[..n], cap, world);
      if plans[n].Some? {
        DeliverKeepsInv(r.s, plans[n].value.ts, plans[n].value.out, world(n).failAt);
        var (sent, event) := Deliver(r.s, plans[n].value.ts, plans[n].value.out, world(n).failAt);
        if event.Some? && plans[n].value.ts.Some? {
          LinkedIsFound(r.s.links, plans[n].value.ts.value);
          LinkAddsTs(sent, plans[n].value.ts.value, plans[n].value.out.room, event.value);
        }
      }
    }
  }

  /**
   The same told from the pages: behind `n` pages that lead on comes the last one, and the runs import the messages of
   these n + 1 pages, oldest first within each page, leaving out what is not importable or was linked before.
   */
  lemma HistoryProgress(
      s: System, room: string, pages: seq<Page>, n: nat, m: nat, worlds: nat -> World, j: nat)
    requires Inv(s) && forall i :: Steady(worlds(i))
    requires Lead(pages, n) && n < |pages| && pages[n].Page?
    requires pages[n].messages == [] || !pages[n].hasMore || pages[n].nextCursor == ""
    requires forall x :: x in Chronological(pages[..n + 1]) && Importable(x) ==> x.ts.Some?
    ensures var (s', sent) := Imports(s, Plans(room, Visited(pages)), m, worlds, j);
            var due := ToImport(Chronological(pages[..n + 1]), LinkedTs(s.links));
            && sent == Take(due, j * m)
            && LinkedTs(s'.links) == LinkedTs(s.links) + Elements(sent)
            && CompletedSources(s'.log) == CompletedSources(s.log) + sent
  {
    hide Imports, Inv, Steady, LinkedTs, CompletedSources, Pending, Visited, ChannelPlan;
    var messages := Chronological(pages[..n + 1]);
    VisitedExactly(pages, n);
    StampedMessages(room, messages);
    BackfillProgress(s, Plans(room, messages), m, worlds, j);
    PendingIsToImport(room, messages, LinkedTs(s.links));
  }

  lemma StampedMessages(room: string, messages: seq<HistoryMessage>)
    requires forall x :: x in messages && Importable(x) ==> x.ts.Some?
    ensures Stamped(Plans(room, messages))
  {
    forall p | p in Plans(room, messages) && p.Some? ensures p.value.ts.Some? {
      var i :| 0 <= i < |messages| && Plans(room, messages)[i] == p;
      PlannedExactly(room, messages[i]);
    }
  }

  // ------------------------------------------------------------------ the import loops

  lemma {:induction false} ImportStops(
      s: System, plans: seq<Option<Plan>>, more: seq<Option<Plan>>, cap: nat, world: World)
    requires var r := ImportAll(s, plans, cap, world); r.aborted || r.count >= cap
    ensures ImportAll(s, plans + more, cap, world) == ImportAll(s, plans, cap, world)
    decreases |more|
  {
    if more == [] {
      assert plans + more == plans;
    } else {
      ImportStops(s, plans, more[..|more| - 1], cap, world);
      assert (plans + more)[..|plans + more| - 1] == plans + more[..|more| - 1];
    }
  }

  /** The bridge object as far as messages are concerned. */
  class MessageBridge {
    const store: MessageStore
    var log: seq<Entry>
    var nextEvent: nat

    ghost predicate Valid()
      reads this, store
    {
      ValidLinks(store.table)
    }

    ghost function Current(): System
      reads this, store
    {
      System(store.table, log, nextEvent)
    }

    constructor ()
      ensures Valid() && fresh(store) && Current() == EMPTY
    {
      store := new MessageStore();
      log, nextEvent := [], 0;
    }

    /** The sends of one message, one by one until one fails. */
    method Send(source: Option<string>, m: Outbound, failAt: Option<nat>) returns (event: Option<nat>)
      modifies this
      ensures (Current(), event) == Deliver(old(Current()), source, m, failAt)
    {
      var n := Delivered(m, failAt);
      event := None;
      var i, first := 0, nextEvent;
      while i < n
        invariant 0 <= i <= n && nextEvent == first + i && log == old(log) + Sends(source, m, first, i)
        invariant store.table == old(store.table)
      {
        log := log + [NthSend(source, m, first, i)];
        assert Sends(source, m, first, i) + [NthSend(source, m, first, i)] == Sends(source, m, first, i + 1);
        nextEvent := nextEvent + 1;
        i := i + 1;
      }
      if n == SendCount(m) {
        event := Some(nextEvent - 1);
      }
    }

    /** Send one message and remember its event. */
    method HandleSlackMessage(m: Inbound)
      requires Valid()
      modifies this, store
      ensures Valid() && Current() == HandleMessage(old(Current()), m)
    {
      if m.room.None? || !m.registerOk { return; }
      var replyTo, editOf := None, None;
      if m.replyTo.Some? {
        var link := store.GetBySlackMessageId(m.replyTo.value);
        replyTo := Some(if link.Some? then Event(link.value.event) else SlackTs(m.replyTo.value));
      }
      if m.editOf.Some? {
        var link := store.GetBySlackMessageId(m.editOf.value);
        editOf := Some(if link.Some? then Event(link.value.event) else SlackTs(m.editOf.value));
      }
      var event := Send(m.source, Outbound(m.room.value, m.attachments, m.hasBody, replyTo, editOf), m.failAt);
      if event.Some? && m.source.Some? && m.upsertOk {
        store.UpsertMessageMapping(m.source.value, m.room.value, event.value);
        log := log + [Linked(m.source.value, m.room.value, event.value)];
      }
    }

    method HandleSlackMessageDelete(ts: string, redactOk: bool)
      requires Valid()
      modifies this, store
      ensures Valid() && Current() == HandleDelete(old(Current()), ts, redactOk)
    {
      var link := store.GetBySlackMessageId(ts);
      if link.None? || !redactOk { return; }
      log := log + [Redacted(link.value.room, link.value.event), Unlinked(ts)];
      store.DeleteBySlackMessageId(ts);
    }

    method HandleMatrixRedaction(event: nat, slackOk: bool)
      requires Valid() && DistinctEvents(store.table, nextEvent)
      modifies this, store
      ensures Valid() && Current() == HandleRedaction(old(Current()), event, slackOk)
    {
      var link := store.GetByMatrixEventId(event);
      if link.None? || !slackOk { return; }
      log := log + [DeletedOnSlack(link.value.ts), Unlinked(link.value.ts)];
      store.DeleteByMatrixEventId(event);
    }

    method ImportMessage(
        plan: Option<Plan>, attempt: Attempt, ghost r: Import, cap: nat, ghost world: World, ghost k: nat)
      returns (sent: bool, failed: bool)
      requires Valid() && r.s == Current() && !r.aborted && r.count < cap && world(k) == attempt
      modifies this, store
      ensures Valid()
      ensures var r' := ImportOne(r, plan, cap, world, k);
              r'.s == Current() && r'.aborted == failed && r'.count == if sent then r.count + 1 else r.count
    {
      sent, failed := false, false;
      if plan.None? { return; }
      var ts := plan.value.ts;
      if ts.Some? {
        var link := store.GetBySlackMessageId(ts.value);
        if link.Some? { return; }
      }
      if !attempt.registerOk { return false, true; }
      var event := Send(ts, plan.value.out, attempt.failAt);
      if event.None? { return; }
      if ts.Some? && attempt.upsertOk {
        store.UpsertMessageMapping(ts.value, plan.value.out.room, event.value);
        log := log + [Linked(ts.value, plan.value.out.room, event.value)];
      }
      sent := true;
    }

    /** `backfill_thread`: all replies of a thread, without a cap of its own. */
    method BackfillThread(room: string, thread: string, messages: seq<HistoryMessage>, world: World)
        returns (ok: bool, total: nat)
      requires Valid()
      modifies this, store
      ensures Valid()
      ensures var r := ImportAll(old(Current()), ThreadPlans(room, thread, messages), |messages| + 1, world);
              Current() == r.s && ok == !r.aborted && (ok ==> total == r.count)
    {
      hide ImportOne, ThreadPlan;
      ok, total := true, 0;
      ghost var start, plans := Current(), ThreadPlans(room, thread, messages);
      var i := 0;
      while i < |messages|
        invariant 0 <= i <= |messages| && Valid()
        invariant var r := ImportAll(start, plans[..i], |messages| + 1, world);
                  Current() == r.s && total == r.count <= i && !r.aborted
      {
        assert plans[..i + 1][..i] == plans[..i];
        ghost var r := ImportAll(start, plans[..i], |messages| + 1, world);
        var sent, failed :=
          ImportMessage(ThreadPlan(room, thread, messages[i]), world(i), r, |messages| + 1, world, i);
        if failed {
          ImportStops(start, plans[..i + 1], plans[i + 1..], |messages| + 1, world);
          assert plans == plans[..i + 1] + plans[i + 1..];
          return false, total;
        }
        total := if sent then total + 1 else total;
        i := i + 1;
      }
      assert plans[..i] == plans;
    }

    /** `backfill_channel`: page by page, oldest message first, until the cap, a failure or the last page. */
    method BackfillChannel(room: string, maxMessages: nat, pages: seq<Page>, world: World)
        returns (ok: bool, total: nat)
      requires Valid()
      modifies this, store
      ensures Valid()
      ensures var r := ImportAll(old(Current()), Plans(room, Visited(pages)), maxMessages, world);
              && Current() == r.s && (ok ==> total == r.count)
              && (ok <==> !r.aborted && (r.count >= maxMessages || !ReachesFailure(pages)))
    {
      ok, total := true, 0;
      ghost var start := Current();
      ghost var seen: seq<HistoryMessage> := [];
      var p := 0;
      if maxMessages == 0 {
        ImportStops(start, [], Plans(room, Visited(pages)), 0, world);
        assert [] + Plans(room, Visited(pages)) == Plans(room, Visited(pages));
        return;
      }
      StartOfPaging(pages);
      var visited := 0;
      while p < |pages|
        invariant 0 <= p <= |pages| && Valid() && ok && total < maxMessages
        invariant visited == |seen| && PagedTo(pages, p, seen)
        invariant var r := ImportAll(start, Plans(room, seen), maxMessages, world);
                  Current() == r.s && total == r.count && !r.aborted
      {
        ghost var tail := NextPage(pages, p, seen);
        if pages[p].Unavailable? { return false, total; }
        var messages := Reverse(pages[p].messages);
        var done;
        ok, total, done := ImportPage(room, maxMessages, messages, visited, total, world, start, seen);
        if done {
          StopsMidway(start, room, seen + messages, tail, maxMessages, world);
          return;
        }
        seen := seen + messages;
        visited := visited + |messages|;
        if pages[p].messages == [] || !pages[p].hasMore || pages[p].nextCursor == "" { return; }
        p := p + 1;
      }
      EndOfPaging(pages, seen);
    }

    /** The loop over one page; `done` when the cap is reached or a request failed. */
    method ImportPage(
        room: string, maxMessages: nat, messages: seq<HistoryMessage>, visited: nat, before: nat, world: World,
        ghost start: System, ghost seen: seq<HistoryMessage>)
        returns (ok: bool, total: nat, done: bool)
      requires Valid() && visited == |seen| && before < maxMessages
      requires var r := ImportAll(start, Plans(room, seen), maxMessages, world);
               Current() == r.s && before == r.count && !r.aborted
      modifies this, store
      ensures Valid()
      ensures var r := ImportAll(start, Plans(room, seen + messages), maxMessages, world);
              && Current() == r.s && (ok ==> total == r.count) && ok == !r.aborted
              && (done <==> r.aborted || r.count >= maxMessages)
    {
      hide ImportOne, ImportAll, ChannelPlan;
      ok, total, done := true, before, false;
      assert seen + messages[..0] == seen;
      var i := 0;
      while i < |messages| && total < maxMessages
        invariant 0 <= i <= |messages| && Valid()
        invariant var r := ImportAll(start, Plans(room, seen + messages[..i]), maxMessages, world);
                  Current() == r.s && total == r.count <= maxMessages && !r.aborted
      {
        ghost var r := ImportAll(start, Plans(room, seen + messages[..i]), maxMessages, world);
        NextPlan(start, room, seen, messages, i, maxMessages, world);
        var sent, failed := ImportMessage(ChannelPlan(room, messages[i]), world(visited + i), r, maxMessages, world,
            visited + i);
        if failed {
          StopsInPage(start, room, seen, messages, i + 1, maxMessages, world);
          return false, total, true;
        }
        total := if sent then total + 1 else total;
        i := i + 1;
      }
      done := total >= maxMessages;
      if done {
        StopsInPage(start, room, seen, messages, i, maxMessages, world);
      } else {
        assert messages[..i] == messages;
      }
    }
  }

  /** The pages before `p` lead on, and their messages have been seen. */
  ghost predicate PagedTo(pages: seq<Page>, p: nat, seen: seq<HistoryMessage>) {
    Lead(pages, p) && seen + Visited(pages[p..]) == Visited(pages)
  }

  lemma StartOfPaging(pages: seq<Page>)
    ensures PagedTo(pages, 0, [])
  {
    assert pages[0..] == pages && [] + Visited(pages) == Visited(pages);
  }

  lemma EndOfPaging(pages: seq<Page>, seen: seq<HistoryMessage>)
    requires PagedTo(pages, |pages|, seen)
    ensures Visited(pages) == seen && !ReachesFailure(pages)
  {
    NoFailure(pages, |pages|);
    assert seen + [] == seen;
  }

  /** What the next page is to the paging: its failure, its end, or a step. */
  lemma NextPage(pages: seq<Page>, p: nat, seen: seq<HistoryMessage>) returns (tail: seq<HistoryMessage>)
    requires PagedTo(pages, p, seen) && p < |pages|
    ensures pages[p].Unavailable? ==> Visited(pages) == seen && ReachesFailure(pages)
    ensures pages[p].Page? ==>
              var more := seen + Reverse(pages[p].messages);
              && Visited(pages) == more + tail
              && (if Continues(pages[p]) then PagedTo(pages, p + 1, more)
                  else Visited(pages) == more && !ReachesFailure(pages))
  {
    hide Visited, Lead, ReachesFailure, Reverse;
    VisitedAt(pages, p);
    LeadOn(pages, p);
    tail := [];
    assert seen + [] == seen;
    if pages[p].Page? {
      var messages := Reverse(pages[p].messages);
      tail := if Continues(pages[p]) then Visited(pages[p + 1..]) else [];
      assert seen + (messages + tail) == seen + messages + tail;
      if !Continues(pages[p]) {
        NoFailure(pages, p);
        assert messages + [] == messages && seen + messages + [] == seen + messages;
      }
    }
  }

  lemma LeadOn(pages: seq<Page>, p: nat)
    requires Lead(pages, p) && p < |pages|
    ensures pages[p].Unavailable? ==> ReachesFailure(pages)
    ensures Continues(pages[p]) ==> Lead(pages, p + 1)
  {
  }

  /** A page that leads nowhere ends the paging before any later failure. */
  lemma NoFailure(pages: seq<Page>, p: nat)
    requires Lead(pages, p) && (p < |pages| ==> pages[p].Page? && !Continues(pages[p]))
    ensures !ReachesFailure(pages)
  {
    forall n: nat | n < |pages| && Lead(pages, n) ensures pages[n].Page? {
      if p < n { assert Continues(pages[p]); }
    }
  }

  lemma VisitedAt(pages: seq<Page>, p: nat)
    requires p < |pages|
    ensures Visited(pages[p..]) == if pages[p].Unavailable? then [] else
              Reverse(pages[p].messages) + if Continues(pages[p]) then Visited(pages[p + 1..]) else []
  {
    assert pages[p..][1..] == pages[p + 1..];
  }

  lemma StopsMidway(
      start: System, room: string, seen: seq<HistoryMessage>, tail: seq<HistoryMessage>, cap: nat, world: World)
    requires var r := ImportAll(start, Plans(room, seen), cap, world); r.aborted || r.count >= cap
    ensures ImportAll(start, Plans(room, seen + tail), cap, world) == ImportAll(start, Plans(room, seen), cap, world)
  {
    ImportStops(start, Plans(room, seen), Plans(room, tail), cap, world);
    assert Plans(room, seen + tail) == Plans(room, seen) + Plans(room, tail);
  }

  lemma NextPlan(
      start: System, room: string, seen: seq<HistoryMessage>, messages: seq<HistoryMessage>, i: nat, cap: nat,
      world: World)
    requires i < |messages|
    ensures ImportAll(start, Plans(room, seen + messages[..i + 1]), cap, world)
         == ImportOne(ImportAll(start, Plans(room, seen + messages[..i]), cap, world), ChannelPlan(room, messages[i]),
                      cap, world, |seen| + i)
  {
    var plans := Plans(room, seen + messages[..i + 1]);
    assert plans[..|plans| - 1] == Plans(room, seen + messages[..i]);
  }

  lemma StopsInPage(
      start: System, room: string, seen: seq<HistoryMessage>, messages: seq<HistoryMessage>, i: nat, cap: nat,
      world: World)
    requires i <= |messages|
    requires var r := ImportAll(start, Plans(room, seen + messages[..i]), cap, world); r.aborted || r.count >= cap
    ensures ImportAll(start, Plans(room, seen + messages), cap, world)
         == ImportAll(start, Plans(room, seen + messages[..i]), cap, world)
  {
    assert seen + messages == seen + messages[..i] + messages[i..];
    StopsMidway(start, room, seen + messages[..i], messages[i..], cap, world);
  }
}
