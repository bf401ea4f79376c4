/** The mutable bridge object of src/bridge.rs: each handler, step by step, carries out exactly its `Step`. */
module BridgeCoreModel {
  import opened Prelude
  import opened TimedCacheModel
  import opened RoomStoreModel
  import opened RoomBridgeModel

  class BridgeCore {
    const cfg: Config
    const store: RoomStore
    const cache: TimedCache<string, RoomMapping>
    var log: seq<Call>

    /** The cache agrees with the table at every moment between two calls. */
    ghost predicate Valid()
      reads this, store, cache
    {
      Inv(Current()) && cache.ttl == ROOM_CACHE_TTL_SECS
    }

    ghost function Current(): State
      reads this, store, cache
    {
      State(store.table, cache.entries, log)
    }

    constructor (cfg: Config)
      ensures Valid() && fresh(store) && fresh(cache) && this.cfg == cfg
      ensures Current() == State(RoomTable(map[], 1), map[], [])
    {
      this.cfg := cfg;
      store := new RoomStore();
      cache := new TimedCache<string, RoomMapping>(ROOM_CACHE_TTL_SECS);
      log := [];
    }

    method GetRoomMappingCached(now: int, room: string) returns (m: Option<RoomMapping>)
      requires Valid()
      modifies cache
      ensures (m, cache.entries) == CachedLookup(store.table, old(cache.entries), now, room)
      ensures Valid()
    {
      CachedLookupAgrees(store.table, cache.entries, now, room);
      m := cache.Get(room, now);
      if m.Some? { return; }
      m := store.GetRoomByMatrixRoom(room);
      if m.Some? {
        cache.Insert(room, m.value, now);
      }
    }

    method HandleMatrixEncryption(now: int, room: string, noticeOk: bool, leaveOk: bool, deleteOk: bool)
      requires Valid()
      modifies this, store, cache
      ensures Current() == Step(cfg, old(Current()), now, MatrixEncryption(room, noticeOk, leaveOk, deleteOk))
      ensures Valid()
    {
      StepKeepsInv(cfg, Current(), now, MatrixEncryption(room, noticeOk, leaveOk, deleteOk));
      EncryptionStep(cfg, Current(), now, MatrixEncryption(room, noticeOk, leaveOk, deleteOk));
      hide CacheAgrees, ValidTable, ByRoom, CachedLookup, Step;
      var m := GetRoomMappingCached(now, room);
      if m.None? { return; }
      log := log + [MatrixNotice(room, EncryptionTurnedOn)];
      if !noticeOk { return; }
      log := log + [LeaveRoom(room)];
      if !leaveOk || !deleteOk { return; }
      store.DeleteRoomMapping(m.value.id);
      var _ := cache.Remove(room);
    }

    method UnbridgeMatrixRoom(now: int, room: string, roomName: Option<string>, topic: Option<string>, deleteOk: bool)
      requires Valid()
      modifies this, store, cache
      ensures Current() == Step(cfg, old(Current()), now, MatrixUnbridge(room, roomName, topic, deleteOk))
      ensures Valid()
    {
      StepKeepsInv(cfg, Current(), now, MatrixUnbridge(room, roomName, topic, deleteOk));
      hide CacheAgrees, ValidTable, ByRoom, ByChannel, CachedLookup;
      var m := GetRoomMappingCached(now, room);
      if m.None? {
        log := log + [Reply(RoomNotBridged)];
        return;
      }
      log := log + (FarewellCalls(cfg, room, roomName, topic) + AliasCalls(cfg, m.value.channel)
                    + if deleteOk then [Reply(RoomUnbridged)] else []);
      if !deleteOk { return; }
      store.DeleteRoomMapping(m.value.id);
      var _ := cache.Remove(m.value.room);
    }

    method HandleSlackUnbridge(now: int, channel: string, deleteOk: bool)
      requires Valid()
      modifies this, store, cache
      ensures Current() == Step(cfg, old(Current()), now, SlackUnbridge(channel, deleteOk))
      ensures Valid()
    {
      StepKeepsInv(cfg, Current(), now, SlackUnbridge(channel, deleteOk));
      hide CacheAgrees, ValidTable, ByRoom, ByChannel, CachedLookup;
      var m := store.GetRoomBySlackChannel(channel);
      if m.None? {
        log := log + [SlackNotice(channel, NotPlumbed)];
        return;
      }
      if !deleteOk { return; }
      store.DeleteRoomMapping(m.value.id);
      var _ := cache.Remove(m.value.room);
      log := log + [SlackNotice(channel, ChannelUnbridged)];
    }

    method HandleSlackChannelDelete(now: int, channel: string, roomName: Option<string>, topic: Option<string>,
                                    deleteOk: bool)
      requires Valid()
      modifies this, store, cache
      ensures Current() == Step(cfg, old(Current()), now, SlackChannelDelete(channel, roomName, topic, deleteOk))
      ensures Valid()
    {
      StepKeepsInv(cfg, Current(), now, SlackChannelDelete(channel, roomName, topic, deleteOk));
      hide CacheAgrees, ValidTable, ByRoom, ByChannel, CachedLookup;
      var m := store.GetRoomBySlackChannel(channel);
      if m.None? { return; }
      log := log + FarewellCalls(cfg, m.value.room, roomName, topic);
      if !deleteOk { return; }
      store.DeleteRoomMapping(m.value.id);
      var _ := cache.Remove(m.value.room);
    }

    /** The web interface names a bridge by its id. */
    method DeleteBridge(now: int, id: int, roomName: Option<string>, topic: Option<string>, deleteOk: bool)
      requires Valid()
      modifies this, store, cache
      ensures Current() == Step(cfg, old(Current()), now, WebDelete(id, roomName, topic, deleteOk))
      ensures Valid()
    {
      StepKeepsInv(cfg, Current(), now, WebDelete(id, roomName, topic, deleteOk));
      hide CacheAgrees, ValidTable, ByRoom, CachedLookup;
      if id <= 0 {
        log := log + [Reply(InvalidBridgeId)];
        return;
      }
      var m := store.GetRoomById(id);
      if m.None? {
        log := log + [Reply(BridgeNotFound)];
        return;
      }
      UnbridgeMatrixRoom(now, m.value.room, roomName, topic, deleteOk);
    }

    method HandleSlackChannelArchive(now: int, channel: string, noticeOk: bool, roomName: Option<string>)
      requires Valid()
      modifies this
      ensures Current() == Step(cfg, old(Current()), now, SlackChannelArchive(channel, noticeOk, roomName))
      ensures Valid()
    {
      StepKeepsInv(cfg, Current(), now, SlackChannelArchive(channel, noticeOk, roomName));
      hide CacheAgrees, ValidTable, ByRoom, ByChannel, CachedLookup;
      var m := store.GetRoomBySlackChannel(channel);
      if m.None? { return; }
      log := log + [MatrixNotice(m.value.room, ChannelArchived)];
      if !noticeOk { return; }
      log := log + Prefixed(m.value.room, "m.room.name", cfg.namePrefix, roomName);
    }

    method HandleSlackChannelUpdate(now: int, e: Event)
      requires Valid() && e.SlackChannelUpdate?
      modifies this, store
      ensures Current() == Step(cfg, old(Current()), now, e)
      ensures Valid()
    {
      StepKeepsInv(cfg, Current(), now, e);
      hide CacheAgrees, ValidTable, ByRoom, ByChannel, CachedLookup;
      var m := store.GetRoomBySlackChannel(e.channel);
      if m.None? { return; }
      if e.newName.Some? && !e.nameReadOk { return; }
      if Renames(cfg, m.value, e) {
        log := log + [SetRoomName(m.value.room, FormattedName(cfg, m.value.team, e.newName.value))];
        if !e.setNameOk || !e.updateOk { return; }
        var _ := store.UpdateRoomMapping(m.value.(name := e.newName.value));
      }
      log := log + TopicCalls(m.value, e);
    }

    method BridgeMatrixRoom(now: int, e: Event)
      requires Valid() && e.MatrixBridge?
      modifies this, store
      ensures Current() == Step(cfg, old(Current()), now, e)
      ensures Valid()
    {
      StepKeepsInv(cfg, Current(), now, e);
      assert ValidTable(store.table);
      hide Inv, ValidTable, ByChannel, CanInsert, Inserted, FormattedName, BridgedCalls, Step, QueryOf;
      BridgeStep(cfg, Current(), now, e);
      if cfg.roomLimit >= 0 && |store.table.rows| >= cfg.roomLimit {
        log := log + [Reply(AtLimit(cfg.roomLimit))];
        return;
      }
      var existing := store.GetRoomBySlackChannel(e.channel);
      if existing.Some? {
        log := log + [Reply(AlreadyBridged)];
        return;
      }
      if e.info.None? {
        log := log + [GetChannel(e.channel), Reply(ChannelNotFound)];
        return;
      }
      RecordBridge(e);
    }

    /** The channel is there: its row, and what follows only if the row was inserted. */
    method RecordBridge(e: Event)
      requires ValidTable(store.table) && e.MatrixBridge? && e.info.Some?
      modifies `log, store
      ensures var row := RoomMapping(0, e.room, e.channel, e.info.value.name, e.guild);
              var ok := e.insertOk && CanInsert(old(store.table), row);
              && store.table == (if ok then Inserted(old(store.table), row) else old(store.table))
              && log == old(log) + ([GetChannel(e.channel)] + if ok then BridgedCalls(cfg, e) else [])
    {
      hide ValidTable, ByChannel, ByRoom, FormattedName;
      log := log + [GetChannel(e.channel)];
      if !e.insertOk { return; }
      var ok := store.CreateRoomMapping(RoomMapping(0, e.room, e.channel, e.info.value.name, e.guild));
      if !ok { return; }
      log := log + [SendState(e.room, "m.room.name", FormattedName(cfg, e.info.value.guild, e.info.value.name))];
      if cfg.backfillEnabled && cfg.backfillMax > 0 {
        log := log + [StartBackfill(e.room, e.channel)];
      }
      log := log + [Reply(Bridged)];
    }

    method RequestBridgeSlackChannel(now: int, e: Event)
      requires Valid() && e.SlackBridge?
      modifies this, store
      ensures Current() == Step(cfg, old(Current()), now, e)
      ensures Valid()
    {
      StepKeepsInv(cfg, Current(), now, e);
      SlackBridgeStep(cfg, Current(), now, e);
      hide CacheAgrees, ValidTable, ByRoom, ByChannel, Step;
      var existing := store.GetRoomBySlackChannel(e.channel);
      if existing.Some? {
        log := log + [Reply(ThatAlreadyBridged)];
        return;
      }
      log := log + [GetChannel(e.channel)];
      if e.info.None? {
        log := log + [Reply(ThatNotFound)];
        return;
      }
      log := log + [CreateRoom(e.channel, "[Slack] #" + e.info.value.name, e.info.value.topic)];
      if e.created.None? {
        log := log + [Reply(RoomNotCreated)];
        return;
      }
      if !e.insertOk { return; }
      var ok := store.CreateRoomMapping(RoomMapping(0, e.created.value, e.channel, e.info.value.name, e.guild));
      if ok {
        log := log + [Reply(BridgedTo(e.created.value))];
      }
    }

    method HandleMatrixMember(now: int, e: Event)
      requires Valid() && e.MatrixMember?
      modifies this, cache
      ensures Current() == Step(cfg, old(Current()), now, e)
      ensures Valid()
    {
      StepKeepsInv(cfg, Current(), now, e);
      hide CacheAgrees, ValidTable, ByRoom, CachedLookup, SlackUserIdFromMxid;
      if e.membership == "invite" && e.stateKey == Some(cfg.botUser) {
        log := log + [JoinRoom(e.room)];
        return;
      }
      if e.fromGhost { return; }
      if (e.membership != "leave" && e.membership != "ban") || e.stateKey.None? { return; }
      if e.stateKey.value == e.sender { return; }
      var m := GetRoomMappingCached(now, e.room);
      if m.None? { return; }
      var user := SlackUserIdFromMxid(cfg.domain, e.stateKey.value);
      if user.None? { return; }
      var reason := if e.reason.Some? then e.reason.value else "No reason provided";
      var word := if e.membership == "ban" then "banned" else "kicked";
      log := log + [DenyMember(m.value.channel, user.value),
                    SlackMessage(m.value.channel, "Matrix moderation: `" + e.stateKey.value + "` was " + word + " by `"
                                                  + e.sender + "`. Reason: " + reason)];
      if e.membership == "leave" && cfg.kickFor > 0 {
        log := log + [RestoreMemberLater(m.value.channel, user.value, cfg.kickFor)];
      }
    }

    method HandleMatrixRoomName(now: int, e: Event)
      requires Valid() && e.MatrixRoomName?
      modifies this, cache
      ensures Current() == Step(cfg, old(Current()), now, e)
      ensures Valid()
    {
      StepKeepsInv(cfg, Current(), now, e);
      hide CacheAgrees, ValidTable, ByRoom, ByChannel, CachedLookup;
      if e.fromGhost { return; }
      var m := GetRoomMappingCached(now, e.room);
      if m.None? || e.name == "" { return; }
      log := log + [RenameConversation(m.value.channel, e.name)];
    }

    method HandleMatrixRoomTopic(now: int, e: Event)
      requires Valid() && e.MatrixRoomTopic?
      modifies this, cache
      ensures Current() == Step(cfg, old(Current()), now, e)
      ensures Valid()
    {
      StepKeepsInv(cfg, Current(), now, e);
      hide CacheAgrees, ValidTable, ByRoom, ByChannel, CachedLookup;
      if e.fromGhost { return; }
      var m := GetRoomMappingCached(now, e.room);
      if m.None? { return; }
      log := log + [SetConversationTopic(m.value.channel, e.topic)];
    }

    method ChangedUsers(levels: seq<(string, Option<int>)>) returns (changed: seq<string>)
      ensures changed == PowerLevelChanges(cfg.domain, levels)
    {
      hide SlackUserIdFromMxid, IntToString;
      changed := [];
      for i := 0 to |levels|
        invariant changed == PowerLevelChanges(cfg.domain, levels[..i])
      {
        assert levels[..i + 1][..i] == levels[..i];
        var (mxid, level) := levels[i];
        if level.None? { continue; }
        var user := SlackUserIdFromMxid(cfg.domain, mxid);
        if user.None? { continue; }
        changed := changed + [user.value + " -> " + IntToString(level.value)];
      }
      assert levels[..|levels|] == levels;
    }

    method HandleMatrixPowerLevels(now: int, e: Event)
      requires Valid() && e.MatrixPowerLevels?
      modifies this, cache
      ensures Current() == Step(cfg, old(Current()), now, e)
      ensures Valid()
    {
      StepKeepsInv(cfg, Current(), now, e);
      hide CacheAgrees, ValidTable, ByRoom, CachedLookup, PowerLevelChanges, Join;
      var m := GetRoomMappingCached(now, e.room);
      if m.None? { return; }
      var changed := ChangedUsers(e.levels);
      if changed == [] { return; }
      var who := if e.profile.Some? then e.profile.value else e.sender;
      log := log + [SlackMessage(m.value.channel,
                                 "**" + who + "** updated Matrix power levels for bridged users: "
                                 + Join(changed, ", "))];
    }

    method HandleMatrixRedaction(now: int, e: Event)
      requires Valid() && e.MatrixRedaction?
      modifies this, cache
      ensures Current() == Step(cfg, old(Current()), now, e)
      ensures Valid()
    {
      StepKeepsInv(cfg, Current(), now, e);
      hide CacheAgrees, ValidTable, ByRoom, ByChannel, CachedLookup;
      if e.fromGhost || cfg.disableDeletionForwarding { return; }
      var m := GetRoomMappingCached(now, e.room);
      if m.None? || e.target.None? || e.linked.None? { return; }
      log := log + [DeleteSlackMessage(m.value.channel, e.linked.value)];
      if e.slackOk {
        log := log + [UnlinkEvent(e.target.value)];
      }
    }

    method HandleMatrixReaction(now: int, e: Event)
      requires Valid() && e.MatrixReaction?
      modifies this, cache
      ensures Current() == Step(cfg, old(Current()), now, e)
      ensures Valid()
    {
      StepKeepsInv(cfg, Current(), now, e);
      hide CacheAgrees, ValidTable, ByRoom, ByChannel, CachedLookup;
      if e.fromGhost { return; }
      var m := GetRoomMappingCached(now, e.room);
      if m.None? || e.key.None? || e.linked.None? { return; }
      log := log + [AddReaction(m.value.channel, e.linked.value, TrimColons(e.key.value))];
    }

    /** Slack has no typing call for bots: only the lookup is done. */
    method HandleMatrixTyping(now: int, e: Event)
      requires Valid() && e.MatrixTyping?
      modifies this, cache
      ensures Current() == Step(cfg, old(Current()), now, e)
      ensures Valid()
    {
      StepKeepsInv(cfg, Current(), now, e);
      hide CacheAgrees, ValidTable, ByRoom, ByChannel, CachedLookup;
      if cfg.disableTyping { return; }
      var _ := GetRoomMappingCached(now, e.room);
    }

    method HandleMatrixReceipt(now: int, e: Event)
      requires Valid() && e.MatrixReceipt?
      modifies this, cache
      ensures Current() == Step(cfg, old(Current()), now, e)
      ensures Valid()
    {
      StepKeepsInv(cfg, Current(), now, e);
      hide CacheAgrees, ValidTable, ByRoom, ByChannel, CachedLookup;
      if cfg.disableReadReceipts { return; }
      var m := GetRoomMappingCached(now, e.room);
      if m.None? { return; }
      MarkRead(m.value.channel, e.receipts);
    }

    method MarkRead(channel: string, receipts: seq<Receipt>)
      modifies `log
      ensures log == old(log) + Marks(channel, receipts)
    {
      for i := 0 to |receipts|
        invariant log == old(log) + Marks(channel, receipts[..i])
      {
        assert receipts[..i + 1][..i] == receipts[..i];
        if receipts[i].ghostUser { continue; }
        if receipts[i].linked.Some? {
          log := log + [MarkConversation(channel, receipts[i].linked.value)];
        }
      }
      assert receipts[..|receipts|] == receipts;
    }
  }
}
