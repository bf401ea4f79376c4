/** What each handler of src/bridge.rs does to the rows and to the two sides, told from the event and the rows alone. */
module RoomEffectsModel {
  import opened Prelude
  import opened TimedCacheModel
  import opened RoomStoreModel
  import opened RoomBridgeModel
  import Pattern = PatternModel

  // ------------------------------------------------------------------ which row is deleted

  /** The event asks for the deletion of this row, and every step up to it succeeds. */
  predicate Deletes(row: RoomMapping, e: Event) {
    match e
    case MatrixUnbridge(room, _, _, deleteOk) => room == row.room && deleteOk
    case MatrixEncryption(room, noticeOk, leaveOk, deleteOk) => room == row.room && noticeOk && leaveOk && deleteOk
    case SlackUnbridge(channel, deleteOk) => channel == row.channel && deleteOk
    case SlackChannelDelete(channel, _, _, deleteOk) => channel == row.channel && deleteOk
    case WebDelete(id, _, _, deleteOk) => id == row.id && id > 0 && deleteOk
    case _ => false
  }

  /** The step as the table sees it: the mapping found is the row, and the change is made from it. */
  lemma TableOfStep(cfg: Config, s: State, now: int, e: Event)
    requires Inv(s)
    ensures var m := Read(s.table, QueryOf(cfg, e));
            Step(cfg, s, now, e).table == Applied(s.table, ChangeOf(cfg, s.table, m, e))
  {
    hide ChangeOf, CallsOf, Applied, Read, ReadCached, EvictionOf, QueryOf;
    StepRefines(cfg, s, now, e);
  }

  /** A row the event deletes is the one its lookup finds. */
  lemma DeletedIsFound(cfg: Config, t: RoomTable, e: Event, id: int)
    requires ValidTable(t) && id in t.rows && Deletes(t.rows[id], e)
    ensures Read(t, QueryOf(cfg, e)) == Some(t.rows[id])
    ensures ChangeOf(cfg, t, Some(t.rows[id]), e) == Delete(id)
  {
    LookupsFindTheRow(t, id);
  }

  /** And nothing else is deleted. */
  lemma OnlyThatIsDeleted(cfg: Config, t: RoomTable, e: Event)
    requires ValidTable(t) && ChangeOf(cfg, t, Read(t, QueryOf(cfg, e)), e).Delete?
    ensures var id := ChangeOf(cfg, t, Read(t, QueryOf(cfg, e)), e).id; id in t.rows && Deletes(t.rows[id], e)
  {
    hide ByRoom, ByChannel;
    ReadFindsRow(t, QueryOf(cfg, e));
  }

  /**
   A row disappears exactly if the event names it (by its channel, its room or its id) and every step succeeds; then
   its room is forgotten by the cache as well.
   */
  lemma RowIsDeletedExactly(cfg: Config, s: State, now: int, e: Event, id: int)
    requires Inv(s) && id in s.table.rows
    ensures var s' := Step(cfg, s, now, e);
            && (id !in s'.table.rows <==> Deletes(s.table.rows[id], e))
            && (Deletes(s.table.rows[id], e) ==> s.table.rows[id].room !in s'.cache)
  {
    hide Step, ChangeOf, ValidTable, CacheAgrees, CanInsert, CanUpdate;
    var q := QueryOf(cfg, e);
    var change := ChangeOf(cfg, s.table, Read(s.table, q), e);
    TableOfStep(cfg, s, now, e);
    if change.Delete? { OnlyThatIsDeleted(cfg, s.table, e); }
    if Deletes(s.table.rows[id], e) {
      DeletedIsFound(cfg, s.table, e, id);
      DeletionForgets(cfg, s, now, e);
    }
  }

  lemma DeletionForgets(cfg: Config, s: State, now: int, e: Event)
    requires Inv(s) && ChangeOf(cfg, s.table, Read(s.table, QueryOf(cfg, e)), e).Delete?
    ensures Read(s.table, QueryOf(cfg, e)).Some?
    ensures Read(s.table, QueryOf(cfg, e)).value.room !in Step(cfg, s, now, e).cache
  {
    hide ChangeOf, CallsOf, ReadCached, Read, CachedLookup;
    var q := QueryOf(cfg, e);
    LookupAgrees(s.table, s.cache, now, q);
    if ReadsCache(q) {
      CachedChangesIgnoreTheName(cfg, s.table, ReadCached(s.table, s.cache, now, q).0, Read(s.table, q), e);
    }
    HandlersHaveShape(cfg, s.table, Read(s.table, q), e);
    DeletionIsComplete(cfg, s, now, e, now);
  }

  // ------------------------------------------------------------------ which row is renamed, which is new

  /** Slack reports a new name of the row's channel, the room does not have it yet, and it is set and stored. */
  predicate RenamesTo(cfg: Config, row: RoomMapping, e: Event, name: string) {
    && e.SlackChannelUpdate? && e.channel == row.channel && e.newName == Some(name)
    && e.nameReadOk && e.currentName != Some(FormattedName(cfg, row.team, name)) && e.setNameOk && e.updateOk
  }

  /** Every row that is not deleted keeps all its fields, but for a new name. */
  lemma RowStaysExactly(cfg: Config, s: State, now: int, e: Event, id: int)
    requires Inv(s) && id in s.table.rows && !Deletes(s.table.rows[id], e)
    ensures var s' := Step(cfg, s, now, e);
            var row := s.table.rows[id];
            && id in s'.table.rows
            && (if e.SlackChannelUpdate? && e.newName.Some? && RenamesTo(cfg, row, e, e.newName.value)
                then s'.table.rows[id] == row.(name := e.newName.value)
                else s'.table.rows[id] == row)
  {
    hide Step, ValidTable, CacheAgrees, CanInsert, FormattedName;
    TableOfStep(cfg, s, now, e);
    RowIsDeletedExactly(cfg, s, now, e, id);
    if e.SlackChannelUpdate? {
      LookupsFindTheRow(s.table, id);
      RenameFinds(cfg, s.table, e, id);
    } else {
      OthersStay(cfg, s.table, Read(s.table, QueryOf(cfg, e)), e, id);
    }
  }

  lemma RenameFinds(cfg: Config, t: RoomTable, e: Event, id: int)
    requires ValidTable(t) && e.SlackChannelUpdate? && id in t.rows
    requires ByChannel(t, t.rows[id].channel) == Some(t.rows[id])
    ensures var row := t.rows[id];
            var rows := Applied(t, ChangeOf(cfg, t, ByChannel(t, e.channel), e)).rows;
            && id in rows
            && rows[id] == if e.newName.Some? && RenamesTo(cfg, row, e, e.newName.value)
                           then row.(name := e.newName.value) else row
  {
    hide FormattedName;
  }

  lemma OthersStay(cfg: Config, t: RoomTable, m: Option<RoomMapping>, e: Event, id: int)
    requires ValidTable(t) && !e.SlackChannelUpdate? && id in t.rows && id in Applied(t, ChangeOf(cfg, t, m, e)).rows
    ensures Applied(t, ChangeOf(cfg, t, m, e)).rows[id] == t.rows[id]
  {
  }

  /** Neither the room nor the channel is in a row. */
  ghost predicate Free(t: RoomTable, room: string, channel: string) {
    forall id :: id in t.rows ==> t.rows[id].room != room && t.rows[id].channel != channel
  }

  /** The event bridges the room to the channel. */
  ghost predicate Creates(cfg: Config, t: RoomTable, e: Event, row: RoomMapping) {
    match e
    case MatrixBridge(room, guild, channel, info, insertOk) =>
      && (cfg.roomLimit >= 0 ==> |t.rows| < cfg.roomLimit) && Free(t, room, channel)
      && info.Some? && insertOk && row == RoomMapping(t.nextId, room, channel, info.value.name, guild)
    case SlackBridge(guild, channel, info, created, insertOk) =>
      && info.Some? && created.Some? && insertOk && Free(t, created.value, channel)
      && row == RoomMapping(t.nextId, created.value, channel, info.value.name, guild)
    case _ => false
  }

  /** A new row is the one the event asks for, under the next id, and is there exactly if all is free and works. */
  lemma RowIsCreatedExactly(cfg: Config, s: State, now: int, e: Event, id: int, row: RoomMapping)
    requires Inv(s) && id !in s.table.rows
    ensures var s' := Step(cfg, s, now, e);
            (id in s'.table.rows && s'.table.rows[id] == row) <==> id == s.table.nextId && Creates(cfg, s.table, e, row)
  {
    hide Step, CacheAgrees;
    TableOfStep(cfg, s, now, e);
    NextIdIsFree(s.table);
    CreationFollows(cfg, s.table, e, id, row);
  }

  lemma CreationFollows(cfg: Config, t: RoomTable, e: Event, id: int, row: RoomMapping)
    requires ValidTable(t) && id !in t.rows
    ensures var rows := Applied(t, ChangeOf(cfg, t, Read(t, QueryOf(cfg, e)), e)).rows;
            (id in rows && rows[id] == row) <==> id == t.nextId && Creates(cfg, t, e, row)
  {
    hide FormattedName;
    if e.SlackChannelUpdate? && Read(t, QueryOf(cfg, e)).Some? { ReadFindsRow(t, QueryOf(cfg, e)); }
  }

  /** A lookup by room leaves the cache as it is if it has a live entry, and otherwise remembers the row from now on. */
  lemma LookupIsRemembered(cfg: Config, s: State, now: int, e: Event, id: int)
    requires Inv(s) && id in s.table.rows && QueryOf(cfg, e) == Cached(s.table.rows[id].room)
    requires !Deletes(s.table.rows[id], e)
    ensures var row := s.table.rows[id];
            var live := row.room in s.cache && now - s.cache[row.room].insertedAt < ROOM_CACHE_TTL_SECS;
            Step(cfg, s, now, e).cache == if live then s.cache else s.cache[row.room := TimedValue(row, now)]
  {
    hide CallsOf, ByRoom, ByChannel, ChangeOf, Applied, QueryOf;
    var row, q := s.table.rows[id], QueryOf(cfg, e);
    var m := ReadCached(s.table, s.cache, now, q).0;
    LookupsFindTheRow(s.table, id);
    LookupAgrees(s.table, s.cache, now, q);
    CachedChangesIgnoreTheName(cfg, s.table, m, Read(s.table, q), e);
    HandlersHaveShape(cfg, s.table, m, e);
    if ChangeOf(cfg, s.table, m, e).Delete? { OnlyThatIsDeleted(cfg, s.table, e); }
  }

  // ------------------------------------------------------------------ what is said on the two sides

  /** The calls of a step are those of the row its lookup finds in the table, whatever the cache holds. */
  lemma LogOfStep(cfg: Config, s: State, now: int, e: Event)
    requires Inv(s)
    ensures var m := Read(s.table, QueryOf(cfg, e));
            Step(cfg, s, now, e).log == s.log + CallsOf(cfg, s.table, m, e)
  {
    hide ChangeOf, CallsOf, Applied, Read, ReadCached, EvictionOf, QueryOf;
    StepRefines(cfg, s, now, e);
  }

  /** What a step adds to the log. */
  ghost predicate Says(cfg: Config, s: State, now: int, e: Event, calls: seq<Call>) {
    Step(cfg, s, now, e).log == s.log + calls
  }

  /** Messages, names and topics go from the room to its channel, and messages back. */
  lemma ContentIsForwarded(cfg: Config, s: State, now: int, id: int, text: string)
    requires Inv(s) && id in s.table.rows
    ensures var row := s.table.rows[id];
            && Says(cfg, s, now, MatrixText(row.room, text), [SlackMessage(row.channel, text)])
            && Says(cfg, s, now, SlackText(row.channel, text), [MatrixMessage(row.room, text)])
            && Says(cfg, s, now, MatrixRoomTopic(row.room, false, text), [SetConversationTopic(row.channel, text)])
            && Says(cfg, s, now, MatrixRoomName(row.room, false, text),
                    if text == "" then [] else [RenameConversation(row.channel, text)])
  {
    hide Step, ByRoom, ByChannel, ChangeOf;
    var row := s.table.rows[id];
    LookupsFindTheRow(s.table, id);
    LogOfStep(cfg, s, now, MatrixText(row.room, text));
    LogOfStep(cfg, s, now, SlackText(row.channel, text));
    LogOfStep(cfg, s, now, MatrixRoomTopic(row.room, false, text));
    LogOfStep(cfg, s, now, MatrixRoomName(row.room, false, text));
  }

  /** The event comes from a ghost user, that is, from the bridge itself. */
  predicate FromGhost(e: Event) {
    match e
    case MatrixRoomName(_, fromGhost, _) => fromGhost
    case MatrixRoomTopic(_, fromGhost, _) => fromGhost
    case MatrixRedaction(_, fromGhost, _, _, _) => fromGhost
    case MatrixReaction(_, fromGhost, _, _) => fromGhost
    case MatrixMember(_, _, fromGhost, _, _, _) => fromGhost
    case _ => false
  }

  /** No echo: what the bridge itself did on Matrix is not sent back, except that it accepts its own invitation. */
  lemma NoEcho(cfg: Config, s: State, now: int, e: Event)
    requires Inv(s) && FromGhost(e)
    ensures Says(cfg, s, now, e, if e.MatrixMember? && e.membership == "invite" && e.stateKey == Some(cfg.botUser)
                                 then [JoinRoom(e.room)] else [])
  {
    hide Step, ByRoom, ByChannel, ChangeOf;
    LogOfStep(cfg, s, now, e);
  }

  /** Redactions delete the linked message and reactions are added to it, unless there is none or it is switched off. */
  lemma RelationsAreForwarded(
      cfg: Config, s: State, now: int, id: int, target: Option<string>, linked: Option<string>, ok: bool)
    requires Inv(s) && id in s.table.rows
    ensures var row := s.table.rows[id];
            && Says(cfg, s, now, MatrixReaction(row.room, false, target, linked),
                    if target.None? || linked.None? then []
                    else [AddReaction(row.channel, linked.value, TrimColons(target.value))])
            && Says(cfg, s, now, MatrixRedaction(row.room, false, target, linked, ok),
                    if cfg.disableDeletionForwarding || target.None? || linked.None? then []
                    else if ok then [DeleteSlackMessage(row.channel, linked.value), UnlinkEvent(target.value)]
                    else [DeleteSlackMessage(row.channel, linked.value)])
  {
    hide Step, ByRoom, ByChannel, ChangeOf, TrimColons;
    var row := s.table.rows[id];
    LookupsFindTheRow(s.table, id);
    LogOfStep(cfg, s, now, MatrixReaction(row.room, false, target, linked));
    LogOfStep(cfg, s, now, MatrixRedaction(row.room, false, target, linked, ok));
  }

  lemma SliceOfTail(s: string, i: nat, j: nat)
    requires i <= j < |s|
    ensures s[1..][i..j] == s[i + 1..j + 1]
  {
    assert forall k :: i <= k < j ==> s[1..][k] == s[k + 1];
  }

  /** The name of the reaction: only the colons around it are taken off. */
  lemma {:induction false} OnlyColonsAreTrimmed(s: string) returns (i: nat, j: nat)
    ensures i <= j <= |s| && TrimColons(s) == s[i..j] && (i < j ==> s[i] != ':' && s[j - 1] != ':')
    ensures forall k :: 0 <= k < |s| && !(i <= k < j) ==> s[k] == ':'
    decreases |s|
  {
    if s != "" && s[0] == ':' {
      var t := s[1..];
      i, j := OnlyColonsAreTrimmed(t);
      SliceOfTail(s, i, j);
      forall k | 0 <= k < |s| && !(i + 1 <= k < j + 1) ensures s[k] == ':' {
        if k > 0 { assert s[k] == t[k - 1]; }
      }
      i, j := i + 1, j + 1;
    } else if s != "" && s[|s| - 1] == ':' {
      var t := s[..|s| - 1];
      i, j := OnlyColonsAreTrimmed(t);
      assert s[i..j] == t[i..j];
    } else {
      i, j := 0, |s|;
    }
  }

  /** Read receipts mark the channel once for each linked message a real user read, in order, unless switched off. */
  lemma ReceiptsAreForwarded(cfg: Config, s: State, now: int, id: int, receipts: seq<Receipt>)
    requires Inv(s) && id in s.table.rows
    ensures var row := s.table.rows[id];
            Says(cfg, s, now, MatrixReceipt(row.room, receipts),
                 if cfg.disableReadReceipts then [] else Marks(row.channel, receipts))
  {
    hide Step, ByRoom, ByChannel, ChangeOf, Marks;
    LookupsFindTheRow(s.table, id);
    LogOfStep(cfg, s, now, MatrixReceipt(s.table.rows[id].room, receipts));
  }

  lemma {:induction false} MarksOneByOne(channel: string, a: seq<Receipt>, b: seq<Receipt>, read: Receipt)
    ensures Marks(channel, a + b) == Marks(channel, a) + Marks(channel, b)
    ensures Marks(channel, [read])
         == if !read.ghostUser && read.linked.Some? then [MarkConversation(channel, read.linked.value)] else []
    decreases |b|
  {
    if b == [] {
      assert a + b == a;
    } else {
      var init, last := b[..|b| - 1], b[|b| - 1];
      MarksOneByOne(channel, a, init, read);
      assert (a + b)[..|a + b| - 1] == a + init && (a + b)[|a + b| - 1] == last;
      var tail := if !last.ghostUser && last.linked.Some? then [MarkConversation(channel, last.linked.value)] else [];
      assert Marks(channel, b) == Marks(channel, init) + tail;
      assert Marks(channel, a) + Marks(channel, init) + tail == Marks(channel, a) + (Marks(channel, init) + tail);
    }
  }

  /** A ghost that is kicked or banned by someone else is taken out of the channel, and the channel is told. */
  lemma RemovalIsForwarded(
      cfg: Config, s: State, now: int, id: int, sender: string, user: string, ban: bool, reason: Option<string>)
    requires Inv(s) && id in s.table.rows && user != "" && ':' !in user
    requires sender != "@_slack_" + user + ":" + cfg.domain
    ensures var row, mxid := s.table.rows[id], "@_slack_" + user + ":" + cfg.domain;
            var said := "Matrix moderation: `" + mxid + "` was " + (if ban then "banned" else "kicked") + " by `"
                        + sender + "`. Reason: " + (if reason.Some? then reason.value else "No reason provided");
            Says(cfg, s, now, MatrixMember(row.room, sender, false, Some(mxid), if ban then "ban" else "leave", reason),
                 [DenyMember(row.channel, user), SlackMessage(row.channel, said)]
                 + if !ban && cfg.kickFor > 0 then [RestoreMemberLater(row.channel, user, cfg.kickFor)] else [])
  {
    hide Step, ByRoom, ByChannel, ChangeOf, SlackUserIdFromMxid;
    var row, mxid := s.table.rows[id], "@_slack_" + user + ":" + cfg.domain;
    var e := MatrixMember(row.room, sender, false, Some(mxid), if ban then "ban" else "leave", reason);
    LookupsFindTheRow(s.table, id);
    GhostIdRoundTrip(cfg.domain, mxid, user);
    LogOfStep(cfg, s, now, e);
    assert "ban"[0] != "leave"[0] && "ban"[0] != "invite"[0] && "leave"[0] != "invite"[0];
  }

  /** Nothing else about members is: joins, a user who leaves, users that are no ghosts. */
  lemma OtherMembersAreNot(cfg: Config, s: State, now: int, e: Event)
    requires Inv(s) && e.MatrixMember? && !(e.membership == "invite" && e.stateKey == Some(cfg.botUser))
    requires || (e.membership != "leave" && e.membership != "ban")
             || e.stateKey.None? || e.stateKey.value == e.sender
             || forall user: string ::
                  user == "" || ':' in user || e.stateKey.value != "@_slack_" + user + ":" + cfg.domain
    ensures Says(cfg, s, now, e, [])
  {
    hide Step, ByRoom, ByChannel, ChangeOf, SlackUserIdFromMxid;
    LogOfStep(cfg, s, now, e);
    if e.stateKey.Some? {
      var user := SlackUserIdFromMxid(cfg.domain, e.stateKey.value);
      if user.Some? { GhostIdRoundTrip(cfg.domain, e.stateKey.value, user.value); }
    }
  }

  /** Changed power levels are told in one message that lists the ghosts among the users, or not at all. */
  lemma PowerLevelsAreTold(
      cfg: Config, s: State, now: int, id: int, sender: string, levels: seq<(string, Option<int>)>,
      profile: Option<string>)
    requires Inv(s) && id in s.table.rows
    ensures var row, changed := s.table.rows[id], PowerLevelChanges(cfg.domain, levels);
            var who := if profile.Some? then profile.value else sender;
            Says(cfg, s, now, MatrixPowerLevels(row.room, sender, levels, profile),
                 if changed == [] then []
                 else [SlackMessage(row.channel, "**" + who + "** updated Matrix power levels for bridged users: "
                                                 + Join(changed, ", "))])
  {
    hide Step, ByRoom, ByChannel, ChangeOf, PowerLevelChanges, Join;
    LookupsFindTheRow(s.table, id);
    LogOfStep(cfg, s, now, MatrixPowerLevels(s.table.rows[id].room, sender, levels, profile));
  }

  lemma {:induction false} PowerLevelsOneByOne(
      domain: string, a: seq<(string, Option<int>)>, b: seq<(string, Option<int>)>, user: string, level: int)
    ensures PowerLevelChanges(domain, a + b) == PowerLevelChanges(domain, a) + PowerLevelChanges(domain, b)
    ensures user != "" && ':' !in user ==>
              PowerLevelChanges(domain, [("@_slack_" + user + ":" + domain, Some(level))])
              == [user + " -> " + IntToString(level)]
    decreases |b|
  {
    hide SlackUserIdFromMxid;
    GhostIdRoundTrip(domain, "@_slack_" + user + ":" + domain, user);
    if b == [] {
      assert a + b == a;
    } else {
      PowerLevelsOneByOne(domain, a, b[..|b| - 1], user, level);
      assert (a + b)[..|a + b| - 1] == a + b[..|b| - 1];
    }
  }

  lemma OthersHaveNoPowerLevel(domain: string, mxid: string, level: Option<int>)
    requires level.None? || forall user: string :: user == "" || ':' in user || mxid != "@_slack_" + user + ":" + domain
    ensures PowerLevelChanges(domain, [(mxid, level)]) == []
  {
    var user := SlackUserIdFromMxid(domain, mxid);
    if user.Some? { GhostIdRoundTrip(domain, mxid, user.value); }
  }

  // ------------------------------------------------------------------ bridging and unbridging aloud

  /** The state events sent when a prefix is configured and the room has a value: the prefix in front of that value. */
  function PrefixCalls(room: string, kind: string, prefix: Option<string>, current: Option<string>): seq<Call> {
    match (prefix, current)
    case (None, _) => []
    case (Some(_), None) => [GetState(room, kind)]
    case (Some(p), Some(v)) => [GetState(room, kind), SendState(room, kind, p + v)]
  }

  lemma PrefixedIs(cfg: Config, room: string, name: Option<string>, topic: Option<string>)
    ensures Prefixed(room, "m.room.name", cfg.namePrefix, name)
         == PrefixCalls(room, "m.room.name", cfg.namePrefix, name)
    ensures FarewellCalls(cfg, room, name, topic)
         == PrefixCalls(room, "m.room.name", cfg.namePrefix, name)
            + PrefixCalls(room, "m.room.topic", cfg.topicPrefix, topic)
  {
  }

  /** Unbridging from Matrix or the web marks name and topic, deletes the alias if configured, and answers. */
  lemma UnbridgingIsTold(
      cfg: Config, s: State, now: int, id: int, name: Option<string>, topic: Option<string>, ok: bool)
    requires Inv(s) && id in s.table.rows
    ensures var row := s.table.rows[id];
            var marks := PrefixCalls(row.room, "m.room.name", cfg.namePrefix, name)
                         + PrefixCalls(row.room, "m.room.topic", cfg.topicPrefix, topic);
            var alias := [DeleteAlias("#" + cfg.aliasPrefix + row.channel + ":" + cfg.domain)];
            var calls := marks + (if cfg.unsetRoomAlias then alias else []) + if ok then [Reply(RoomUnbridged)] else [];
            && Says(cfg, s, now, MatrixUnbridge(row.room, name, topic, ok), calls)
            && (id > 0 ==> Says(cfg, s, now, WebDelete(id, name, topic, ok), calls))
  {
    hide Step, ByRoom, ByChannel, ChangeOf, FarewellCalls, PrefixCalls;
    var row := s.table.rows[id];
    PrefixedIs(cfg, row.room, name, topic);
    LookupsFindTheRow(s.table, id);
    LogOfStep(cfg, s, now, MatrixUnbridge(row.room, name, topic, ok));
    LogOfStep(cfg, s, now, WebDelete(id, name, topic, ok));
  }

  /** The same for what happens in Slack: the room is told or marked, and a command is confirmed if it worked. */
  lemma SlackRemovalIsTold(
      cfg: Config, s: State, now: int, id: int, name: Option<string>, topic: Option<string>, ok: bool)
    requires Inv(s) && id in s.table.rows
    ensures var row := s.table.rows[id];
            var named := PrefixCalls(row.room, "m.room.name", cfg.namePrefix, name);
            && Says(cfg, s, now, SlackUnbridge(row.channel, ok),
                    if ok then [SlackNotice(row.channel, ChannelUnbridged)] else [])
            && Says(cfg, s, now, SlackChannelDelete(row.channel, name, topic, ok),
                    named + PrefixCalls(row.room, "m.room.topic", cfg.topicPrefix, topic))
            && Says(cfg, s, now, SlackChannelArchive(row.channel, ok, name),
                    [MatrixNotice(row.room, ChannelArchived)] + if ok then named else [])
  {
    hide Step, ByRoom, ByChannel, ChangeOf, FarewellCalls, PrefixCalls, Prefixed;
    var row := s.table.rows[id];
    PrefixedIs(cfg, row.room, name, topic);
    LookupsFindTheRow(s.table, id);
    LogOfStep(cfg, s, now, SlackUnbridge(row.channel, ok));
    LogOfStep(cfg, s, now, SlackChannelDelete(row.channel, name, topic, ok));
    LogOfStep(cfg, s, now, SlackChannelArchive(row.channel, ok, name));
  }

  /** Turning on encryption ends a bridge: a notice, and leaving the room if the notice went out. */
  lemma EncryptionIsTold(cfg: Config, s: State, now: int, id: int, noticeOk: bool, leaveOk: bool, deleteOk: bool)
    requires Inv(s) && id in s.table.rows
    ensures var room := s.table.rows[id].room;
            Says(cfg, s, now, MatrixEncryption(room, noticeOk, leaveOk, deleteOk),
                 [MatrixNotice(room, EncryptionTurnedOn)] + if noticeOk then [LeaveRoom(room)] else [])
  {
    hide Step, ByRoom, ByChannel, ChangeOf;
    LookupsFindTheRow(s.table, id);
    LogOfStep(cfg, s, now, MatrixEncryption(s.table.rows[id].room, noticeOk, leaveOk, deleteOk));
  }

  /** No row is about the event: none has its room, its channel or its id. */
  ghost predicate Unmapped(t: RoomTable, e: Event) {
    match e
    case WebDelete(id, _, _, _) => id <= 0 || id !in t.rows
    case SlackText(channel, _) => forall id :: id in t.rows ==> t.rows[id].channel != channel
    case SlackUnbridge(channel, _) => forall id :: id in t.rows ==> t.rows[id].channel != channel
    case SlackBridge(_, channel, _, _, _) => forall id :: id in t.rows ==> t.rows[id].channel != channel
    case SlackChannelUpdate(channel, _, _, _, _, _, _, _, _, _) =>
      forall id :: id in t.rows ==> t.rows[id].channel != channel
    case SlackChannelArchive(channel, _, _) => forall id :: id in t.rows ==> t.rows[id].channel != channel
    case SlackChannelDelete(channel, _, _, _) => forall id :: id in t.rows ==> t.rows[id].channel != channel
    case _ => forall id :: id in t.rows ==> t.rows[id].room != e.room
  }

  /** Then nothing is passed on, and only commands are answered. */
  lemma UnmappedIsSilent(cfg: Config, s: State, now: int, e: Event)
    requires Inv(s) && Unmapped(s.table, e) && !e.MatrixBridge? && !e.SlackBridge?
    ensures Says(cfg, s, now, e,
                 match e
                 case MatrixUnbridge(_, _, _, _) => [Reply(RoomNotBridged)]
                 case WebDelete(id, _, _, _) => [Reply(if id <= 0 then InvalidBridgeId else BridgeNotFound)]
                 case SlackUnbridge(channel, _) => [SlackNotice(channel, NotPlumbed)]
                 case MatrixMember(room, _, _, stateKey, membership, _) =>
                   if membership == "invite" && stateKey == Some(cfg.botUser) then [JoinRoom(room)] else []
                 case _ => [])
  {
    hide Step, ChangeOf;
    LogOfStep(cfg, s, now, e);
  }

  // ------------------------------------------------------------------ bridging

  /** A bridge made from Matrix or the web: what stands in its way is told, and what follows the new row is in order. */
  lemma BridgingIsTold(
      cfg: Config, s: State, now: int, room: string, guild: string, channel: string, info: Option<ChannelInfo>,
      ok: bool)
    requires Inv(s)
    ensures var e := MatrixBridge(room, guild, channel, info, ok);
            var taken := exists id :: id in s.table.rows && s.table.rows[id].channel == channel;
            var made := exists row :: Creates(cfg, s.table, e, row);
            Says(cfg, s, now, e,
                 if 0 <= cfg.roomLimit <= |s.table.rows| then [Reply(AtLimit(cfg.roomLimit))]
                 else if taken then [Reply(AlreadyBridged)]
                 else if info.None? then [GetChannel(channel), Reply(ChannelNotFound)]
                 else if !made then [GetChannel(channel)]
                 else [GetChannel(channel),
                       SendState(room, "m.room.name", FormattedName(cfg, info.value.guild, info.value.name))]
                      + (if cfg.backfillEnabled && cfg.backfillMax > 0 then [StartBackfill(room, channel)] else [])
                      + [Reply(Bridged)])
  {
    hide Step, FormattedName;
    var e := MatrixBridge(room, guild, channel, info, ok);
    LogOfStep(cfg, s, now, e);
    if info.Some? {
      var row := RoomMapping(s.table.nextId, room, channel, info.value.name, guild);
      assert Creates(cfg, s.table, e, row) <==> exists x :: Creates(cfg, s.table, e, x);
    }
  }

  /** A bridge made by the Slack command creates its room, named after the channel. */
  lemma SlackBridgingIsTold(
      cfg: Config, s: State, now: int, guild: string, channel: string, info: Option<ChannelInfo>,
      created: Option<string>, ok: bool)
    requires Inv(s)
    ensures var e := SlackBridge(guild, channel, info, created, ok);
            var taken := exists id :: id in s.table.rows && s.table.rows[id].channel == channel;
            var made := exists row :: Creates(cfg, s.table, e, row);
            Says(cfg, s, now, e,
                 if taken then [Reply(ThatAlreadyBridged)]
                 else if info.None? then [GetChannel(channel), Reply(ThatNotFound)]
                 else [GetChannel(channel), CreateRoom(channel, "[Slack] #" + info.value.name, info.value.topic)]
                      + if created.None? then [Reply(RoomNotCreated)]
                        else if made then [Reply(BridgedTo(created.value))] else [])
  {
    hide Step, FormattedName;
    var e := SlackBridge(guild, channel, info, created, ok);
    LogOfStep(cfg, s, now, e);
    if info.Some? && created.Some? {
      var row := RoomMapping(s.table.nextId, created.value, channel, info.value.name, guild);
      assert Creates(cfg, s.table, e, row) <==> exists x :: Creates(cfg, s.table, e, x);
    }
  }

  /** The name of a bridged room: `:guild` in the pattern becomes the team, `:name` the channel's name after a `#`. */
  lemma NameFollowsPattern(cfg: Config, a: string, b: string, c: string, guild: string, name: string)
    requires cfg.namePattern == a + ":guild" + b + ":name" + c
    requires ':' !in a && ':' !in b && ':' !in c && ':' !in guild
    ensures FormattedName(cfg, guild, name) == a + guild + b + "#" + name + c
  {
    hide ReplaceAll;
    var g, n, rest := Pattern.Needle("guild"), Pattern.Needle("name"), "name" + c;
    assert g == ":guild" && n == ":name";
    var v, w := ("guild", guild), ("name", "#" + name);
    Pattern.ApplyTwo(cfg.namePattern, v, w);
    // the team
    assert cfg.namePattern == a + (g + (b + (":" + rest)));
    ReplaceSkips(a, g + (b + (":" + rest)), g, guild);
    ReplaceHit(g, b + (":" + rest), guild);
    ReplaceSkips(b, ":" + rest, g, guild);
    OtherKeyStays(rest, guild);
    assert ReplaceAll(cfg.namePattern, g, guild) == a + (guild + (b + (":" + rest)));
    // the name
    assert a + (guild + (b + (":" + rest))) == (a + guild + b) + (n + c);
    ReplaceSkips(a + guild + b, n + c, n, "#" + name);
    ReplaceHit(n, c, "#" + name);
    Pattern.ColonlessStays(c, "name", "#" + name);
    assert a + guild + b + ("#" + name + c) == a + guild + b + "#" + name + c;
  }

  lemma OtherKeyStays(rest: string, guild: string)
    requires ':' !in rest && "name" <= rest
    ensures ReplaceAll(":" + rest, Pattern.Needle("guild"), guild) == ":" + rest
  {
    var s := ":" + rest;
    assert s[1] == rest[0] == 'n' && Pattern.Needle("guild")[1] == 'g';
    assert s[1..] == rest && s[0] == ':';
    Pattern.ColonlessStays(rest, "guild", guild);
  }

  /** Slack's new name, topic or purpose of a channel is taken over where the room does not have it yet. */
  lemma UpdateIsTold(cfg: Config, s: State, now: int, e: Event, id: int)
    requires Inv(s) && id in s.table.rows && e.SlackChannelUpdate? && e.channel == s.table.rows[id].channel
    ensures var row := s.table.rows[id];
            var wanted := if e.newTopic.Some? then e.newTopic else e.newPurpose;
            var topic := if e.topicReadOk && wanted.Some? && wanted != e.currentTopic
                         then [SetRoomTopic(row.room, wanted.value)] else [];
            Says(cfg, s, now, e,
                 if e.newName.None? then topic
                 else if !e.nameReadOk then []
                 else if e.currentName == Some(FormattedName(cfg, row.team, e.newName.value)) then topic
                 else [SetRoomName(row.room, FormattedName(cfg, row.team, e.newName.value))]
                      + if e.setNameOk && e.updateOk then topic else [])
  {
    hide Step, ByRoom, ByChannel, ChangeOf, FormattedName;
    LookupsFindTheRow(s.table, id);
    LogOfStep(cfg, s, now, e);
  }
}
