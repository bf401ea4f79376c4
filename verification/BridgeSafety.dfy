/**
 The whole `!slack bridge` path: a command in a Matrix room, the pre-checks, the question put to the Slack channel,
 the `!matrix approve` or `deny` given there, the second round of checks and the insertion of the row.  Every step
 interleaves with other requests, answers, insertions on other paths, renames and deletions.
 */
module BridgeSafetyModel {
  import opened Prelude
  import opened RoomStoreModel
  import opened CommandsModel
  import P = ProvisioningModel

  datatype Stage =
    | Accepted                            // the command passed its permission check
    | Asking(ask: nat)                    // `ask_bridge_permission` is running
    | Bridging(ask: nat)                  // approved; `bridge_matrix_room` has started
    | Checked(ask: nat, name: string)     // its checks passed; about to insert the row
    | Bridged(ask: nat, id: int)
    | GivenUp

  datatype Request = Request(
    room: string, guild: string, channel: string, selfService: bool, permitted: bool, stage: Stage)

  /** A row as it was created; `request` is `None` for rows made by the web interface or `!matrix bridge`. */
  datatype Creation = Creation(row: RoomMapping, request: Option<nat>)

  /** `granted[i]` are the Slack permissions of whoever gave answer `i`. */
  datatype System = System(
    selfService: bool, roomLimit: int, prov: P.State, granted: seq<set<string>>, requests: seq<Request>,
    table: RoomTable, created: map<int, Creation>)

  datatype Action =
    | MatrixCommand(room: string, parsed: Option<Parsed>, permission: Option<bool>)
    | PreCheck(r: nat, found: bool, noticeOk: bool)
    | Protocol(act: P.Action)
    | SlackCommand(channel: string, parsed: Option<Parsed>, permissions: set<string>)
    | Resume(r: nat)
    | Recheck(r: nat, name: Option<string>)
    | Insert(r: nat)
    | InsertElsewhere(row: RoomMapping)
    | RenameChannel(id: int, newName: string)
    | DeleteRow(id: int)

  predicate AtStage(s: System, r: nat, stage: Stage) {
    r < |s.requests| && s.requests[r].stage == stage
  }

  predicate Internal(act: P.Action) { !act.BeginAsk? && !act.TakePending? }

  predicate Enabled(s: System, a: Action) {
    match a
    case PreCheck(r, _, _) => AtStage(s, r, Accepted)
    case Protocol(act) => Internal(act) && P.Enabled(s.prov, act)
    case Resume(r) =>
      && r < |s.requests| && s.requests[r].stage.Asking?
      && s.requests[r].stage.ask < |s.prov.asks| && s.prov.asks[s.requests[r].stage.ask].phase.Returned?
    case Recheck(r, _) => r < |s.requests| && s.requests[r].stage.Bridging?
    case Insert(r) => r < |s.requests| && s.requests[r].stage.Checked?
    case _ => true
  }

  function Goto(s: System, r: nat, stage: Stage): System
    requires r < |s.requests|
  {
    s.(requests := s.requests[r := s.requests[r].(stage := stage)])
  }

  /** `check_room_limit` and the search for an existing bridge of the channel. */
  ghost predicate MayBridge(s: System, channel: string) {
    !(s.roomLimit >= 0 && |s.table.rows| >= s.roomLimit) && ByChannel(s.table, channel).None?
  }

  ghost function InsertRow(s: System, row: RoomMapping, request: Option<nat>): System {
    if !CanInsert(s.table, row) then s
    else s.(table := Inserted(s.table, row),
            created := s.created[s.table.nextId := Creation(row.(id := s.table.nextId), request)])
  }

  function Take(s: System, channel: string, allow: bool, permissions: set<string>): System {
    s.(prov := P.Act(s.prov, P.TakePending(channel, allow)), granted := s.granted + [permissions])
  }

  ghost function Act(s: System, a: Action): System
    requires Enabled(s, a)
  {
    match a
    case MatrixCommand(room, parsed, permission) =>
      var outcome := MatrixHandle(s.selfService, parsed, ByRoom(s.table, room).Some?, permission);
      if outcome.MatrixBridge? then
        s.(requests := s.requests
             + [Request(room, outcome.guild, outcome.channel, s.selfService, permission == Some(true), Accepted)])
      else if outcome.MatrixUnbridge? then s.(table := Deleted(s.table, ByRoom(s.table, room).value.id))
      else s
    case PreCheck(r, found, noticeOk) =>
      var channel := s.requests[r].channel;
      if !MayBridge(s, channel) || !found || !noticeOk then Goto(s, r, GivenUp)
      else Goto(s.(prov := P.Act(s.prov, P.BeginAsk(channel))), r, Asking(|s.prov.asks|))
    case Protocol(act) => s.(prov := P.Act(s.prov, act))
    case SlackCommand(channel, parsed, permissions) =>
      var outcome := SlackHandle(parsed, ByChannel(s.table, channel).Some?, permissions);
      if outcome.ApproveRequested? then Take(s, channel, true, permissions)
      else if outcome.DenyRequested? then Take(s, channel, false, permissions)
      else if outcome.SlackUnbridge? then s.(table := Deleted(s.table, ByChannel(s.table, channel).value.id))
      else s
    case Resume(r) =>
      var ask := s.requests[r].stage.ask;
      Goto(s, r, if s.prov.asks[ask].phase.outcome.Approved? then Bridging(ask) else GivenUp)
    case Recheck(r, name) =>
      if !MayBridge(s, s.requests[r].channel) || name.None? then Goto(s, r, GivenUp)
      else Goto(s, r, Checked(s.requests[r].stage.ask, name.value))
    case Insert(r) =>
      var q := s.requests[r];
      var row := RoomMapping(0, q.room, q.channel, q.stage.name, q.guild);
      Goto(InsertRow(s, row, Some(r)), r,
           if CanInsert(s.table, row) then Bridged(q.stage.ask, s.table.nextId) else GivenUp)
    case InsertElsewhere(row) => InsertRow(s, row, None)
    case RenameChannel(id, name) =>
      if id !in s.table.rows then s
      else s.(table := s.table.(rows := s.table.rows[id := s.table.rows[id].(name := name)]))
    case DeleteRow(id) => s.(table := Deleted(s.table, id))
  }

  function Initial(selfService: bool, roomLimit: int): System {
    System(selfService, roomLimit, P.IDLE, [], [], RoomTable(map[], 1), map[])
  }

  ghost function Next(s: System, a: Action): System {
    if Enabled(s, a) then Act(s, a) else s
  }

  /** The system after a list of actions; one that is not enabled when its turn comes is skipped. */
  ghost function After(start: System, actions: seq<Action>): System {
    if actions == [] then start
    else Next(After(start, actions[..|actions| - 1]), actions[|actions| - 1])
  }

  // ------------------------------------------------------------------ invariant

  predicate HasAsk(stage: Stage) { stage.Asking? || stage.Bridging? || stage.Checked? || stage.Bridged? }

  predicate PastApproval(stage: Stage) { stage.Bridging? || stage.Checked? || stage.Bridged? }

  ghost predicate RequestOk(q: Request, asks: seq<P.Ask>) {
    && q.selfService && q.permitted
    && (HasAsk(q.stage) ==> q.stage.ask < |asks| && asks[q.stage.ask].channel == q.channel)
    && (PastApproval(q.stage) ==> asks[q.stage.ask].phase == P.Returned(P.Approved))
  }

  ghost predicate RequestsOk(requests: seq<Request>, asks: seq<P.Ask>) {
    && (forall r :: 0 <= r < |requests| ==> RequestOk(requests[r], asks))
    && (forall r, q :: 0 <= r < q < |requests| && HasAsk(requests[r].stage) && HasAsk(requests[q].stage) ==>
          requests[r].stage.ask != requests[q].stage.ask)
  }

  ghost predicate AnswersOk(answers: seq<P.Answer>, granted: seq<set<string>>) {
    |granted| == |answers| && forall i :: 0 <= i < |granted| ==> MANAGE_WEBHOOKS in granted[i]
  }

  ghost predicate CreationOk(c: Creation, id: int, requests: seq<Request>) {
    && c.row.id == id
    && (c.request.Some? ==>
          && c.request.value < |requests|
          && var q := requests[c.request.value];
             && q.stage.Bridged? && q.stage.id == id
             && c.row.room == q.room && c.row.channel == q.channel && c.row.team == q.guild)
  }

  ghost predicate CreatedOk(s: System) {
    && (forall id :: id in s.created ==> id < s.table.nextId && CreationOk(s.created[id], id, s.requests))
    && (forall id :: id in s.table.rows ==>
        id in s.created && s.table.rows[id] == s.created[id].row.(name := s.table.rows[id].name))
  }

  ghost predicate Inv(s: System) {
    && P.Inv(s.prov) && RequestsOk(s.requests, s.prov.asks) && AnswersOk(s.prov.answers, s.granted)
    && ValidTable(s.table) && CreatedOk(s)
  }

  /** No protocol action changes an ask's channel or the result of an ask that has returned. */
  lemma AsksPersist(s: P.State, act: P.Action, a: nat)
    requires P.Enabled(s, act) && a < |s.asks|
    ensures var s' := P.Act(s, act);
            && a < |s'.asks| && s'.asks[a].channel == s.asks[a].channel
            && (s.asks[a].phase.Returned? ==> s'.asks[a].phase == s.asks[a].phase)
  {
  }

  lemma RequestsPersist(requests: seq<Request>, s: P.State, act: P.Action)
    requires P.Enabled(s, act) && RequestsOk(requests, s.asks)
    ensures RequestsOk(requests, P.Act(s, act).asks)
  {
    forall r | 0 <= r < |requests| ensures RequestOk(requests[r], P.Act(s, act).asks) {
      assert RequestOk(requests[r], s.asks);
      if HasAsk(requests[r].stage) {
        AsksPersist(s, act, requests[r].stage.ask);
      }
    }
  }

  lemma InternalKeepsAnswers(s: P.State, act: P.Action)
    requires P.Enabled(s, act) && Internal(act)
    ensures |P.Act(s, act).answers| == |s.answers|
  {
  }

  lemma TakeKeepsInv(s: System, channel: string, allow: bool, permissions: set<string>)
    requires Inv(s) && MANAGE_WEBHOOKS in permissions
    ensures Inv(Take(s, channel, allow, permissions))
  {
    P.ActKeepsInv(s.prov, P.TakePending(channel, allow));
    RequestsPersist(s.requests, s.prov, P.TakePending(channel, allow));
  }

  lemma AskingKeepsInv(s: System, r: nat)
    requires Inv(s) && AtStage(s, r, Accepted)
    ensures Inv(Goto(s.(prov := P.Act(s.prov, P.BeginAsk(s.requests[r].channel))), r, Asking(|s.prov.asks|)))
  {
    var act := P.BeginAsk(s.requests[r].channel);
    P.ActKeepsInv(s.prov, act);
    RequestsPersist(s.requests, s.prov, act);
    BeginAddsAsk(s.prov, s.requests[r].channel);
    assert RequestOk(s.requests[r], s.prov.asks);
  }

  lemma BeginAddsAsk(s: P.State, channel: string)
    ensures var s' := P.Act(s, P.BeginAsk(channel));
            |s'.asks| == |s.asks| + 1 && s'.asks[|s.asks|].channel == channel && s'.answers == s.answers
  {
  }

  /** A request moves on without touching the asks, the answers or the table. */
  lemma GotoKeepsInv(s: System, r: nat, stage: Stage)
    requires Inv(s) && r < |s.requests| && !s.requests[r].stage.Bridged? && !stage.Bridged?
    requires HasAsk(stage) ==> HasAsk(s.requests[r].stage) && stage.ask == s.requests[r].stage.ask
    requires PastApproval(stage) ==> s.prov.asks[stage.ask].phase == P.Returned(P.Approved)
    ensures Inv(Goto(s, r, stage))
  {
    assert RequestOk(s.requests[r], s.prov.asks);
  }

  lemma InsertKeepsInv(s: System, r: nat)
    requires Inv(s) && Enabled(s, Insert(r))
    ensures Inv(Act(s, Insert(r)))
  {
    var q := s.requests[r];
    var row := RoomMapping(0, q.room, q.channel, q.stage.name, q.guild);
    assert RequestOk(q, s.prov.asks);
    if !CanInsert(s.table, row) {
      GotoKeepsInv(s, r, GivenUp);
    } else {
      TableStaysValid(s.table, row, 0);
      var s' := Act(s, Insert(r));
      assert s'.created[s.table.nextId] == Creation(row.(id := s.table.nextId), Some(r));
      assert forall id :: id in s.created ==> s'.created[id] == s.created[id];
    }
  }

  lemma InsertElsewhereKeepsInv(s: System, row: RoomMapping)
    requires Inv(s)
    ensures Inv(InsertRow(s, row, None))
  {
    TableStaysValid(s.table, row, 0);
    var s' := InsertRow(s, row, None);
    assert forall id :: id in s.created ==> s'.created[id] == s.created[id];
  }

  lemma TableChangesKeepInv(s: System, id: int, name: string)
    requires Inv(s)
    ensures Inv(s.(table := Deleted(s.table, id)))
    ensures Inv(Act(s, RenameChannel(id, name)))
  {
  }

  lemma CommandKeepsInv(s: System, room: string, parsed: Option<Parsed>, permission: Option<bool>)
    requires Inv(s)
    ensures Inv(Act(s, MatrixCommand(room, parsed, permission)))
  {
    var outcome := MatrixHandle(s.selfService, parsed, ByRoom(s.table, room).Some?, permission);
    if outcome.MatrixUnbridge? {
      TableChangesKeepInv(s, ByRoom(s.table, room).value.id, "");
    }
  }

  lemma SlackCommandKeepsInv(s: System, channel: string, parsed: Option<Parsed>, permissions: set<string>)
    requires Inv(s)
    ensures Inv(Act(s, SlackCommand(channel, parsed, permissions)))
  {
    hide Inv, SlackHandle, Take, Deleted;
    var row := ByChannel(s.table, channel);
    var outcome := SlackHandle(parsed, row.Some?, permissions);
    SlackGate(parsed, row.Some?, permissions);
    if outcome.ApproveRequested? || outcome.DenyRequested? {
      TakeKeepsInv(s, channel, outcome.ApproveRequested?, permissions);
    } else if outcome.SlackUnbridge? {
      TableChangesKeepInv(s, row.value.id, "");
    }
  }

  lemma PreCheckKeepsInv(s: System, r: nat, found: bool, noticeOk: bool)
    requires Inv(s) && Enabled(s, PreCheck(r, found, noticeOk))
    ensures Inv(Act(s, PreCheck(r, found, noticeOk)))
  {
    hide Inv, Goto, MayBridge;
    GotoKeepsInv(s, r, GivenUp);
    AskingKeepsInv(s, r);
  }

  lemma ProtocolKeepsInv(s: System, act: P.Action)
    requires Inv(s) && Enabled(s, Protocol(act))
    ensures Inv(Act(s, Protocol(act)))
  {
    P.ActKeepsInv(s.prov, act);
    RequestsPersist(s.requests, s.prov, act);
    InternalKeepsAnswers(s.prov, act);
  }

  /** The second round of checks belongs to an approved ask, and passes it on. */
  lemma ChecksKeepInv(s: System, r: nat, name: Option<string>)
    requires Inv(s)
    ensures Enabled(s, Resume(r)) ==> Inv(Act(s, Resume(r)))
    ensures Enabled(s, Recheck(r, name)) ==> Inv(Act(s, Recheck(r, name)))
  {
    if Enabled(s, Resume(r)) {
      var ask := s.requests[r].stage.ask;
      GotoKeepsInv(s, r, if s.prov.asks[ask].phase.outcome.Approved? then Bridging(ask) else GivenUp);
    } else if Enabled(s, Recheck(r, name)) {
      assert RequestOk(s.requests[r], s.prov.asks);
      GotoKeepsInv(s, r, if !MayBridge(s, s.requests[r].channel) || name.None? then GivenUp
                         else Checked(s.requests[r].stage.ask, name.value));
    }
  }

  lemma ActKeepsInv(s: System, a: Action)
    requires Inv(s) && Enabled(s, a)
    ensures Inv(Act(s, a))
  {
    hide Inv;
    match a
    case MatrixCommand(room, parsed, permission) => CommandKeepsInv(s, room, parsed, permission);
    case PreCheck(r, found, noticeOk) => PreCheckKeepsInv(s, r, found, noticeOk);
    case Protocol(act) => ProtocolKeepsInv(s, act);
    case SlackCommand(channel, parsed, permissions) => SlackCommandKeepsInv(s, channel, parsed, permissions);
    case Resume(r) => ChecksKeepInv(s, r, None);
    case Recheck(r, name) => ChecksKeepInv(s, r, name);
    case Insert(r) => InsertKeepsInv(s, r);
    case InsertElsewhere(row) => InsertElsewhereKeepsInv(s, row);
    case RenameChannel(id, name) => TableChangesKeepInv(s, id, name);
    case DeleteRow(id) => TableChangesKeepInv(s, id, "");
  }

  lemma ActKeepsSettings(s: System, a: Action)
    requires Enabled(s, a)
    ensures Act(s, a).selfService == s.selfService && Act(s, a).roomLimit == s.roomLimit
  {
    hide MatrixHandle, SlackHandle;
  }

  lemma InitialInv(selfService: bool, roomLimit: int)
    ensures Inv(Initial(selfService, roomLimit))
  {
  }

  lemma {:induction false} InvAfter(selfService: bool, roomLimit: int, actions: seq<Action>)
    ensures Inv(After(Initial(selfService, roomLimit), actions))
    ensures var s := After(Initial(selfService, roomLimit), actions);
            s.selfService == selfService && s.roomLimit == roomLimit
    decreases |actions|
  {
    hide Inv, Act, Enabled;
    if actions == [] {
      InitialInv(selfService, roomLimit);
    } else {
      var s := After(Initial(selfService, roomLimit), actions[..|actions| - 1]);
      InvAfter(selfService, roomLimit, actions[..|actions| - 1]);
      if Enabled(s, actions[|actions| - 1]) {
        ActKeepsInv(s, actions[|actions| - 1]);
        ActKeepsSettings(s, actions[|actions| - 1]);
      }
    }
  }

  // ------------------------------------------------------------------ when a request goes on

  /** There is room for one more bridge, and nothing is bridged to the channel. */
  ghost predicate HasRoomFor(s: System, channel: string) {
    && (s.roomLimit >= 0 ==> |s.table.rows| < s.roomLimit)
    && forall id :: id in s.table.rows ==> s.table.rows[id].channel != channel
  }

  /** A request is put to the channel, and later comes to its insertion, exactly if each round of checks passes. */
  lemma ChecksExactly(s: System, r: nat, found: bool, noticeOk: bool, name: Option<string>)
    requires r < |s.requests|
    ensures Enabled(s, PreCheck(r, found, noticeOk)) ==>
              Act(s, PreCheck(r, found, noticeOk)).requests[r].stage
              == if HasRoomFor(s, s.requests[r].channel) && found && noticeOk then Asking(|s.prov.asks|) else GivenUp
    ensures Enabled(s, Recheck(r, name)) ==>
              Act(s, Recheck(r, name)).requests[r].stage
              == if HasRoomFor(s, s.requests[r].channel) && name.Some?
                 then Checked(s.requests[r].stage.ask, name.value) else GivenUp
    ensures Enabled(s, Resume(r)) ==>
              var ask := s.requests[r].stage.ask;
              Act(s, Resume(r)).requests[r].stage
              == if s.prov.asks[ask].phase == P.Returned(P.Approved) then Bridging(ask) else GivenUp
  {
    hide P.Act, ByRoom, CanInsert;
  }

  /** The rows without the one of the channel. */
  ghost predicate LostChannel(rows: map<int, RoomMapping>, rows': map<int, RoomMapping>, channel: string) {
    && (forall id :: id in rows' <==> id in rows && rows[id].channel != channel)
    && (forall id :: id in rows' ==> rows'[id] == rows[id])
  }

  /** The rows without the one of the room. */
  ghost predicate LostRoom(rows: map<int, RoomMapping>, rows': map<int, RoomMapping>, room: string) {
    && (forall id :: id in rows' <==> id in rows && rows[id].room != room)
    && (forall id :: id in rows' ==> rows'[id] == rows[id])
  }

  /** What a Slack command does: it answers the channel's question, or deletes the channel's row, if its sender may. */
  lemma SlackCommandsExactly(s: System, channel: string, p: Parsed, permissions: set<string>)
    requires ValidTable(s.table)
    ensures var s' := Act(s, SlackCommand(channel, Some(p), permissions));
            var answers := (p.command == "approve" || p.command == "deny") && MANAGE_WEBHOOKS in permissions;
            var removes := p.command == "unbridge" && MANAGE_WEBHOOKS in permissions && MANAGE_CHANNELS in permissions;
            && (answers ==> s' == s.(prov := P.Act(s.prov, P.TakePending(channel, p.command == "approve")),
                                     granted := s.granted + [permissions]))
            && (removes ==> s' == s.(table := s'.table) && LostChannel(s.table.rows, s'.table.rows, channel))
            && (!answers && !removes ==> s' == s)
  {
    hide P.Act, SlackHandle;
    var row := ByChannel(s.table, channel);
    SlackGate(Some(p), row.Some?, permissions);
    CommandsDiffer();
    if row.Some? {
      var id :| id in s.table.rows && s.table.rows[id] == row.value;
    }
  }

  /** What a Matrix command does: it opens a request, or deletes the room's row, if its sender may. */
  lemma MatrixCommandsExactly(s: System, room: string, p: Parsed, permission: Option<bool>)
    requires ValidTable(s.table)
    ensures var s' := Act(s, MatrixCommand(room, Some(p), permission));
            var may := s.selfService && permission == Some(true);
            var bridged := exists id :: id in s.table.rows && s.table.rows[id].room == room;
            var target := GuildAndChannel(p.args);
            && (may && p.command == "bridge" && !bridged && target.Some? ==>
                  var request := Request(room, target.value.0, target.value.1, true, true, Accepted);
                  s' == s.(requests := s.requests + [request]))
            && (may && p.command == "unbridge" ==>
                  s' == s.(table := s'.table) && LostRoom(s.table.rows, s'.table.rows, room))
            && (!may || (p.command != "unbridge" && (p.command != "bridge" || bridged || target.None?)) ==> s' == s)
  {
    hide P.Act, MatrixHandle, GuildAndChannel;
    var row := ByRoom(s.table, room);
    MatrixGate(s.selfService, Some(p), row.Some?, permission);
    MatrixRequestIsRead(s.selfService, p, row.Some?, permission);
    CommandsDiffer();
    if row.Some? {
      var id :| id in s.table.rows && s.table.rows[id] == row.value;
    }
  }

  /** And its insertion makes its row, unless room or channel have been taken in the meantime. */
  lemma InsertionExactly(s: System, r: nat)
    requires Enabled(s, Insert(r))
    ensures var q, s' := s.requests[r], Act(s, Insert(r));
            var taken := exists id :: id in s.table.rows
                           && (s.table.rows[id].room == q.room || s.table.rows[id].channel == q.channel);
            && (taken ==> s'.table == s.table && s'.requests[r].stage == GivenUp)
            && (!taken ==>
                  var row := RoomMapping(s.table.nextId, q.room, q.channel, q.stage.name, q.guild);
                  && s'.table == RoomTable(s.table.rows[s.table.nextId := row], s.table.nextId + 1)
                  && s'.requests[r].stage == Bridged(q.stage.ask, s.table.nextId))
  {
    hide P.Act;
  }

  // ------------------------------------------------------------------ end-to-end safety

  /** Answer `i` approved exactly ask `a`, in the ask's channel, and its author may manage webhooks. */
  ghost predicate Approves(s: System, i: nat, a: nat, channel: string) {
    && i < |s.prov.answers| && i < |s.granted|
    && s.prov.answers[i] == P.Answer(channel, true, Some(a), true)
    && MANAGE_WEBHOOKS in s.granted[i]
  }

  lemma ApprovalExists(s: System, r: nat)
    requires Inv(s) && r < |s.requests| && PastApproval(s.requests[r].stage)
    ensures s.requests[r].selfService && s.requests[r].permitted
    ensures exists i :: Approves(s, i, s.requests[r].stage.ask, s.requests[r].channel)
  {
    var q := s.requests[r];
    assert RequestOk(q, s.prov.asks);
    var a := q.stage.ask;
    assert P.PhaseOk(s.prov.asks[a]) && P.HasAnswer(s.prov, a);
    var i :| 0 <= i < |s.prov.answers| && s.prov.answers[i].target == Some(a) && s.prov.answers[i].sent;
    assert P.AnswerOk(s.prov, i);
    assert Approves(s, i, a, q.channel);
  }

  /** When a row is inserted for a request, the request was permitted and its approval had already been given. */
  lemma InsertionIsJustified(selfService: bool, roomLimit: int, actions: seq<Action>, r: nat)
    requires Enabled(After(Initial(selfService, roomLimit), actions), Insert(r))
    ensures var s := After(Initial(selfService, roomLimit), actions);
            var q := s.requests[r];
            && selfService && q.permitted
            && (exists i :: Approves(s, i, q.stage.ask, q.channel))
            && q.stage.ask < |s.prov.asks| && s.prov.asks[q.stage.ask].phase == P.Returned(P.Approved)
  {
    InvAfter(selfService, roomLimit, actions);
    var s := After(Initial(selfService, roomLimit), actions);
    ApprovalExists(s, r);
    assert RequestOk(s.requests[r], s.prov.asks);
    RequestsAreSelfService(selfService, roomLimit, actions, r);
  }

  lemma {:induction false} RequestsAreSelfService(selfService: bool, roomLimit: int, actions: seq<Action>, r: nat)
    requires r < |After(Initial(selfService, roomLimit), actions).requests|
    ensures selfService
    decreases |actions|
  {
    hide Inv, Act, Enabled;
    if actions != [] {
      var s := After(Initial(selfService, roomLimit), actions[..|actions| - 1]);
      if r < |s.requests| {
        RequestsAreSelfService(selfService, roomLimit, actions[..|actions| - 1], r);
      } else {
        InvAfter(selfService, roomLimit, actions[..|actions| - 1]);
        NewRequestIsPermitted(s, actions[|actions| - 1]);
      }
    }
  }

  lemma NewRequestIsPermitted(s: System, a: Action)
    requires Enabled(s, a)
    ensures |Act(s, a).requests| > |s.requests| ==> s.selfService
  {
    hide MatrixHandle, SlackHandle;
    if a.MatrixCommand? { MatrixGate(s.selfService, a.parsed, ByRoom(s.table, a.room).Some?, a.permission); }
  }

  /**
   In every run, a row made for a `!slack bridge` request carries that request's room, guild and channel; the request
   was permitted with self-service enabled; and an answer in that very channel, by someone holding MANAGE_WEBHOOKS,
   approved exactly this request.
   */
  lemma RowsAreApproved(selfService: bool, roomLimit: int, actions: seq<Action>, id: int)
    requires var s := After(Initial(selfService, roomLimit), actions); id in s.created && s.created[id].request.Some?
    ensures var s := After(Initial(selfService, roomLimit), actions);
            var r := s.created[id].request.value;
            && selfService && r < |s.requests| && s.requests[r].permitted
            && var q, row := s.requests[r], s.created[id].row;
               && q.stage.Bridged? && row.room == q.room && row.channel == q.channel && row.team == q.guild
               && exists i :: Approves(s, i, q.stage.ask, row.channel)
  {
    InvAfter(selfService, roomLimit, actions);
    var s := After(Initial(selfService, roomLimit), actions);
    var r := s.created[id].request.value;
    assert CreationOk(s.created[id], id, s.requests);
    ApprovalExists(s, r);
    RequestsAreSelfService(selfService, roomLimit, actions, r);
  }

  /** Answer `i` removed exactly the ask of the request that row `id` was made for. */
  ghost predicate Created(s: System, i: nat, id: int) {
    && i < |s.prov.answers| && id in s.created && s.created[id].request.Some?
    && s.created[id].request.value < |s.requests|
    && var stage := s.requests[s.created[id].request.value].stage;
       HasAsk(stage) && s.prov.answers[i].target == Some(stage.ask)
  }

  lemma CreatedOnce(s: System, i: nat, id: int, jd: int)
    requires Inv(s) && Created(s, i, id) && Created(s, i, jd)
    ensures id == jd
  {
    assert CreationOk(s.created[id], id, s.requests) && CreationOk(s.created[jd], jd, s.requests);
  }

  /** No approval yields two rows, not even after one of them has been deleted. */
  lemma OneRowPerApproval(selfService: bool, roomLimit: int, actions: seq<Action>, i: nat, id: int, jd: int)
    requires var s := After(Initial(selfService, roomLimit), actions); Created(s, i, id) && Created(s, i, jd)
    ensures id == jd
  {
    InvAfter(selfService, roomLimit, actions);
    CreatedOnce(After(Initial(selfService, roomLimit), actions), i, id, jd);
  }

  /** No room and no channel is ever in two rows. */
  lemma LinksAreUnique(selfService: bool, roomLimit: int, actions: seq<Action>, id: int, jd: int)
    requires var s := After(Initial(selfService, roomLimit), actions);
             id in s.table.rows && jd in s.table.rows && id != jd
    ensures var rows := After(Initial(selfService, roomLimit), actions).table.rows;
            rows[id].room != rows[jd].room && rows[id].channel != rows[jd].channel
  {
    InvAfter(selfService, roomLimit, actions);
  }

  // ------------------------------------------------------------------ the room limit between check and insertion

  function RowOf(q: Request): RoomMapping
    requires q.stage.Checked?
  {
    RoomMapping(0, q.room, q.channel, q.stage.name, q.guild)
  }

  /** The action adds a row. */
  ghost predicate Adds(s: System, a: Action)
    requires Enabled(s, a)
  {
    match a
    case Insert(r) => CanInsert(s.table, RowOf(s.requests[r]))
    case InsertElsewhere(row) => CanInsert(s.table, row)
    case _ => false
  }

  lemma InsertRowSize(s: System, row: RoomMapping, request: Option<nat>)
    requires ValidTable(s.table)
    ensures |InsertRow(s, row, request).table.rows| == |s.table.rows| + if CanInsert(s.table, row) then 1 else 0
  {
    NextIdIsFree(s.table);
  }

  lemma RenamedSize(s: System, id: int, name: string)
    ensures |Act(s, RenameChannel(id, name)).table.rows| == |s.table.rows|
  {
    if id in s.table.rows {
      assert s.table.rows[id := s.table.rows[id].(name := name)].Keys == s.table.rows.Keys;
    }
  }

  lemma CommandSize(s: System, a: Action)
    requires a.MatrixCommand? || a.SlackCommand?
    ensures |Act(s, a).table.rows| <= |s.table.rows|
  {
    hide MatrixHandle, SlackHandle;
    if a.MatrixCommand? {
      var row := ByRoom(s.table, a.room);
      if row.Some? { DeletedSize(s.table, row.value.id); }
      MatrixGate(s.selfService, a.parsed, row.Some?, a.permission);
    } else {
      var row := ByChannel(s.table, a.channel);
      if row.Some? { DeletedSize(s.table, row.value.id); }
      SlackGate(a.parsed, row.Some?, a.permissions);
    }
  }

  /** An action that adds adds one row, and no other action makes the table larger. */
  lemma ActSize(s: System, a: Action)
    requires ValidTable(s.table) && Enabled(s, a)
    ensures Adds(s, a) ==> |Act(s, a).table.rows| == |s.table.rows| + 1
    ensures !Adds(s, a) ==> |Act(s, a).table.rows| <= |s.table.rows|
  {
    hide ValidTable, CanInsert, InsertRow, MatrixHandle, SlackHandle;
    match a
    case Insert(r) => InsertRowSize(s, RowOf(s.requests[r]), Some(r));
    case InsertElsewhere(row) => InsertRowSize(s, row, None);
    case RenameChannel(id, name) => RenamedSize(s, id, name);
    case DeleteRow(id) => DeletedSize(s.table, id);
    case MatrixCommand(_, _, _) => CommandSize(s, a);
    case SlackCommand(_, _, _) => CommandSize(s, a);
    case _ =>
  }

  /**
   With the check and the insertion as separate steps the limit is exceeded exactly when a row is added at the limit:
   the insertion itself tests nothing, on the Matrix path as on the others.
   */
  lemma LimitIsExceededExactly(s: System, a: Action)
    requires Inv(s) && Enabled(s, a) && s.roomLimit >= 0 && |s.table.rows| <= s.roomLimit
    ensures |Act(s, a).table.rows| > s.roomLimit <==> |s.table.rows| == s.roomLimit && Adds(s, a)
  {
    hide Act, Adds, Enabled, ValidTable;
    ActSize(s, a);
  }

  /** Two requests that both passed the check one room below the limit exceed it on the Matrix path alone. */
  lemma TwoCheckedRequestsExceedLimit(s: System, r: nat, q: nat)
    requires Inv(s) && Enabled(s, Insert(r)) && Enabled(s, Insert(q)) && r != q
    requires |s.table.rows| + 1 == s.roomLimit
    requires CanInsert(s.table, RowOf(s.requests[r])) && CanInsert(s.table, RowOf(s.requests[q]))
    requires s.requests[r].room != s.requests[q].room && s.requests[r].channel != s.requests[q].channel
    ensures var s' := Act(s, Insert(r));
            Enabled(s', Insert(q)) && |Act(s', Insert(q)).table.rows| == s.roomLimit + 1
  {
    var s' := Act(s, Insert(r));
    InsertRowSize(s, RowOf(s.requests[r]), Some(r));
    InsertKeepsInv(s, r);
    StillFree(s.table, RowOf(s.requests[r]), RowOf(s.requests[q]));
    InsertRowSize(s', RowOf(s'.requests[q]), Some(q));
  }

  lemma StillFree(t: RoomTable, row: RoomMapping, other: RoomMapping)
    requires CanInsert(t, row) && CanInsert(t, other) && row.room != other.room && row.channel != other.channel
    ensures CanInsert(Inserted(t, row), other)
  {
  }

  // ------------------------------------------------------------------ a run that exceeds the limit

  lemma Extends(start: System, actions: seq<Action>, act: Action)
    ensures After(start, actions + [act]) == Next(After(start, actions), act)
  {
    assert (actions + [act])[..|actions|] == actions;
  }

  /** What the protocol does for a request that is asked, answered with an approval and told so, undisturbed. */
  lemma ApprovalOfNewAsk(s: P.State, channel: string)
      returns (asked: P.State, prompted: P.State, taken: P.State, sent: P.State)
    ensures var a, i := |s.asks|, |s.answers|;
            && asked == P.Act(s, P.BeginAsk(channel))
            && P.Enabled(asked, P.PromptDelivered(a)) && prompted == P.Act(asked, P.PromptDelivered(a))
            && taken == P.Act(prompted, P.TakePending(channel, true))
            && P.Enabled(taken, P.SendDecision(i)) && sent == P.Act(taken, P.SendDecision(i))
            && P.Enabled(sent, P.Receive(a))
            && var told := P.Act(sent, P.Receive(a));
               |told.asks| == a + 1 && told.asks[a].phase == P.Returned(P.Approved)
  {
    var a, i := |s.asks|, |s.answers|;
    asked := P.Act(s, P.BeginAsk(channel));
    assert |asked.asks| == a + 1 && asked.pending[channel] == a;
    prompted := P.Act(asked, P.PromptDelivered(a));
    taken := P.Act(prompted, P.TakePending(channel, true));
    assert taken.answers[i] == P.Answer(channel, true, Some(a), false) && taken.asks[a].phase == P.Waiting;
    sent := P.Act(taken, P.SendDecision(i));
  }

  /** The system with one more request, at the given stage. */
  function With(s: System, q: Request, stage: Stage, prov: P.State, granted: seq<set<string>>): System {
    s.(requests := s.requests + [q.(stage := stage)], prov := prov, granted := granted)
  }

  lemma AskStep(s: System, q: Request, p: P.State, g: seq<set<string>>)
    requires MayBridge(s, q.channel)
    ensures Next(With(s, q, Accepted, p, g), PreCheck(|s.requests|, true, true))
         == With(s, q, Asking(|p.asks|), P.Act(p, P.BeginAsk(q.channel)), g)
  {
    hide P.Act;
  }

  lemma ProtocolStep(s: System, q: Request, stage: Stage, p: P.State, g: seq<set<string>>, act: P.Action)
    requires Internal(act) && P.Enabled(p, act)
    ensures Next(With(s, q, stage, p, g), Protocol(act)) == With(s, q, stage, P.Act(p, act), g)
  {
    hide P.Act, P.Enabled, Internal;
  }

  lemma ApproveStep(s: System, q: Request, stage: Stage, p: P.State, g: seq<set<string>>)
    ensures Next(With(s, q, stage, p, g), SlackCommand(q.channel, Some(Parsed("approve", [])), {MANAGE_WEBHOOKS}))
         == With(s, q, stage, P.Act(p, P.TakePending(q.channel, true)), g + [{MANAGE_WEBHOOKS}])
  {
    hide P.Act, SlackHandle;
    SlackGate(Some(Parsed("approve", [])), ByChannel(s.table, q.channel).Some?, {MANAGE_WEBHOOKS});
  }

  lemma ResumeStep(s: System, q: Request, ask: nat, p: P.State, g: seq<set<string>>)
    requires ask < |p.asks| && p.asks[ask].phase == P.Returned(P.Approved)
    ensures Next(With(s, q, Asking(ask), p, g), Resume(|s.requests|)) == With(s, q, Bridging(ask), p, g)
  {
  }

  lemma RecheckStep(s: System, q: Request, ask: nat, p: P.State, g: seq<set<string>>, name: string)
    requires MayBridge(s, q.channel)
    ensures Next(With(s, q, Bridging(ask), p, g), Recheck(|s.requests|, Some(name)))
            == With(s, q, Checked(ask, name), p, g)
  {
  }

  /** The request is permitted, its command can be read, and nothing is bridged to its room or its channel. */
  ghost predicate CanRequest(s: System, args: seq<string>, q: Request) {
    && s.selfService && q.selfService && q.permitted && GuildAndChannel(args) == Some((q.guild, q.channel))
    && ByRoom(s.table, q.room).None? && MayBridge(s, q.channel)
  }

  /** The command of a permitted sender that may bridge becomes a request. */
  lemma CommandStep(s: System, args: seq<string>, q: Request)
    requires CanRequest(s, args, q)
    ensures Next(s, MatrixCommand(q.room, Some(Parsed("bridge", args)), Some(true)))
            == With(s, q, Accepted, s.prov, s.granted)
  {
    hide GuildAndChannel, MayBridge;
    assert "bridge" != "help";
  }

  /** The eight steps that take a request through its question and its approval, while nothing else happens. */
  function ApprovedPath(s: System, args: seq<string>, q: Request, name: string): seq<Action> {
    var r, a, i := |s.requests|, |s.prov.asks|, |s.prov.answers|;
    [MatrixCommand(q.room, Some(Parsed("bridge", args)), Some(true)), PreCheck(r, true, true),
     Protocol(P.PromptDelivered(a)), SlackCommand(q.channel, Some(Parsed("approve", [])), {MANAGE_WEBHOOKS}),
     Protocol(P.SendDecision(i)), Protocol(P.Receive(a)), Resume(r), Recheck(r, Some(name))]
  }

  lemma {:induction false} AfterJoin(start: System, actions: seq<Action>, more: seq<Action>)
    ensures After(start, actions + more) == After(After(start, actions), more)
    decreases |more|
  {
    if more == [] {
      assert actions + more == actions;
    } else {
      var n := |more| - 1;
      assert (actions + more)[..|actions + more| - 1] == actions + more[..n];
      AfterJoin(start, actions, more[..n]);
    }
  }

  /** In every state that may bridge, a permitted and approved request can come to the point of inserting its row. */
  lemma ApprovedRequestIsChecked(s: System, args: seq<string>, q: Request, name: string)
    requires CanRequest(s, args, q)
    ensures var s' := After(s, ApprovedPath(s, args, q, name));
            && s'.requests == s.requests + [q.(stage := Checked(|s.prov.asks|, name))]
            && s' == s.(requests := s'.requests, prov := s'.prov, granted := s'.granted)
  {
    hide P.Act, P.Enabled, After, Next, MayBridge, GuildAndChannel, With;
    var path := ApprovedPath(s, args, q, name);
    var a, i, g := |s.prov.asks|, |s.prov.answers|, s.granted + [{MANAGE_WEBHOOKS}];
    var asked, prompted, taken, sent := ApprovalOfNewAsk(s.prov, q.channel);
    var told := P.Act(sent, P.Receive(a));
    CommandStep(s, args, q);
    AskStep(s, q, s.prov, s.granted);
    ProtocolStep(s, q, Asking(a), asked, s.granted, P.PromptDelivered(a));
    ApproveStep(s, q, Asking(a), prompted, s.granted);
    ProtocolStep(s, q, Asking(a), taken, g, P.SendDecision(i));
    ProtocolStep(s, q, Asking(a), sent, g, P.Receive(a));
    ResumeStep(s, q, a, told, g);
    RecheckStep(s, q, a, told, g, name);
    AfterEight(s, path);
    WithChanges(s, q, Checked(a, name), told, g);
  }

  lemma WithChanges(s: System, q: Request, stage: Stage, prov: P.State, granted: seq<set<string>>)
    ensures var s' := With(s, q, stage, prov, granted);
            && s'.requests == s.requests + [q.(stage := stage)]
            && s' == s.(requests := s'.requests, prov := s'.prov, granted := s'.granted)
  {
  }

  lemma AfterEight(s: System, a: seq<Action>)
    requires |a| == 8
    ensures After(s, a)
         == Next(Next(Next(Next(Next(Next(Next(Next(s, a[0]), a[1]), a[2]), a[3]), a[4]), a[5]), a[6]), a[7])
  {
    hide Next;
    AfterFour(s, a[..4]);
    AfterFour(After(s, a[..4]), a[4..]);
    AfterJoin(s, a[..4], a[4..]);
    assert a[..4] + a[4..] == a;
  }

  lemma AfterFour(s: System, a: seq<Action>)
    requires |a| == 4
    ensures After(s, a) == Next(Next(Next(Next(s, a[0]), a[1]), a[2]), a[3])
  {
    hide Next;
    assert a[..3][..2] == a[..2] && a[..2][..1] == a[..1] && a[..1][..0] == [];
    assert After(s, a[..1]) == Next(s, a[0]);
    assert After(s, a[..2]) == Next(After(s, a[..1]), a[1]);
    assert After(s, a[..3]) == Next(After(s, a[..2]), a[2]);
  }

  /**
   From every reachable state one room below the limit, two such requests for different rooms and channels can both
   pass their checks before either row is inserted, and the two insertions then exceed the limit.
   */
  lemma ApprovedRequestsExceedLimit(
      roomLimit: int, before: seq<Action>, args: seq<string>, q: Request, more: seq<string>, o: Request)
      returns (actions: seq<Action>)
    requires var s := After(Initial(true, roomLimit), before);
             |s.table.rows| + 1 == roomLimit && CanRequest(s, args, q) && CanRequest(s, more, o)
    requires q.room != o.room && q.channel != o.channel
    ensures before <= actions && |After(Initial(true, roomLimit), actions).table.rows| == roomLimit + 1
  {
    hide After, Next, ApprovedPath, GuildAndChannel, Act, Enabled, MayBridge;
    var start := Initial(true, roomLimit);
    var s := After(start, before);
    var path := ApprovedPath(s, args, q, "");
    var s1 := After(s, path);
    var path' := ApprovedPath(s1, more, o, "");
    InvAfter(true, roomLimit, before);
    ApprovedRequestIsChecked(s, args, q, "");
    MayStillBridge(s, s1, q.channel);
    MayStillBridge(s, s1, o.channel);
    ApprovedRequestIsChecked(s1, more, o, "");
    AfterJoin(start, before, path);
    AfterJoin(start, before + path, path');
    actions := before + path + path';
    InvAfter(true, roomLimit, actions);
    TwoMoreChecked(s, After(start, actions), q.(stage := Checked(|s.prov.asks|, "")),
        o.(stage := Checked(|s1.prov.asks|, "")));
    Extends(start, actions, Insert(|s.requests|));
    Extends(start, actions + [Insert(|s.requests|)], Insert(|s.requests| + 1));
    actions := actions + [Insert(|s.requests|)] + [Insert(|s.requests| + 1)];
  }

  lemma MayStillBridge(s: System, s': System, channel: string)
    requires MayBridge(s, channel) && s'.table == s.table && s'.roomLimit == s.roomLimit
    ensures MayBridge(s', channel) && ByChannel(s.table, channel).None?
  {
  }

  /** The two requests stand last, with the table as it was. */
  lemma TwoMoreChecked(s: System, s': System, q: Request, o: Request)
    requires Inv(s') && s'.table == s.table && s'.roomLimit == |s.table.rows| + 1
             && s'.requests == s.requests + [q] + [o]
    requires q.stage.Checked? && o.stage.Checked? && q.room != o.room && q.channel != o.channel
    requires CanInsert(s.table, RowOf(q)) && CanInsert(s.table, RowOf(o))
    ensures var (r, one) := (|s.requests|, Next(s', Insert(|s.requests|)));
            |Next(one, Insert(r + 1)).table.rows| == s'.roomLimit + 1
  {
    hide Inv, Act, CanInsert;
    TwoCheckedRequestsExceedLimit(s', |s.requests|, |s.requests| + 1);
  }

  /** From an empty bridge with room for one such a run exists. */
  lemma ARunExceedsTheLimit() returns (actions: seq<Action>)
    ensures |After(Initial(true, 1), actions).table.rows| == 2
  {
    var s := Initial(true, 1);
    GuildAndChannelRoundTrip("T", "C1");
    GuildAndChannelRoundTrip("T", "C2");
    assert After(s, []) == s;
    hide After, GuildAndChannel;
    actions := ApprovedRequestsExceedLimit(1, [], ["T", "C1"], Request("!a", "T", "C1", true, true, Accepted),
                                           ["T", "C2"], Request("!b", "T", "C2", true, true, Accepted));
  }
}
