/**
 The handlers of src/bridge.rs that read or change room mappings.  A handler's `Event` carries what the outside world
 answers during the call; `CallsOf` and `ChangeOf` say which outward calls are made and how the table changes.
 Ten handlers read the mapping through the timed cache, all others read the table.
 */
module RoomBridgeModel {
  import opened Prelude
  import opened TimedCacheModel
  import opened RoomStoreModel
  import Pattern = PatternModel

  const ROOM_CACHE_TTL_SECS := 900

  /** The fixed texts of the bridge. */
  datatype Phrase =
    | AlreadyBridged | ChannelNotFound | Bridged | ThatAlreadyBridged | ThatNotFound | RoomNotCreated
    | BridgedTo(room: string) | AtLimit(limit: int)
    | NotPlumbed | ChannelUnbridged | RoomUnbridged | RoomNotBridged | InvalidBridgeId | BridgeNotFound
    | ChannelArchived | EncryptionTurnedOn

  function Wording(p: Phrase): string {
    match p
    case AlreadyBridged => "This Slack channel is already bridged."
    case ChannelNotFound => "There was a problem bridging that channel - channel was not found."
    case Bridged => "I have bridged this room to your channel"
    case ThatAlreadyBridged => "That Slack channel is already bridged."
    case ThatNotFound => "Could not find the specified Slack channel."
    case RoomNotCreated => "Failed to create Matrix room for the bridge."
    case BridgedTo(room) => "Successfully bridged to Matrix room: " + room
    case AtLimit(limit) =>
      "This bridge has reached its room limit of " + IntToString(limit)
      + ". Unbridge another room to allow for new connections."
    case NotPlumbed => "This channel is not bridged to a plumbed matrix room"
    case ChannelUnbridged => "This channel has been unbridged"
    case RoomUnbridged => "This room has been unbridged"
    case RoomNotBridged => "This room is not bridged."
    case InvalidBridgeId => "invalid bridge id"
    case BridgeNotFound => "bridge not found"
    case ChannelArchived => "This Slack channel has been archived. No new messages will be bridged."
    case EncryptionTurnedOn =>
      "You have turned on encryption in this room, so the service will not bridge any new messages."
  }

  datatype Config = Config(
    domain: string, botUser: string, roomLimit: int, kickFor: nat, namePattern: string, namePrefix: Option<string>,
    topicPrefix: Option<string>, unsetRoomAlias: bool, aliasPrefix: string, disableDeletionForwarding: bool,
    disableTyping: bool, disableReadReceipts: bool, backfillEnabled: bool, backfillMax: nat)

  datatype ChannelInfo = ChannelInfo(name: string, guild: string, topic: Option<string>)

  /** One user of a read receipt: whether it is a ghost, and the Slack message its event is linked to. */
  datatype Receipt = Receipt(ghostUser: bool, linked: Option<string>)

  datatype Event =
    | MatrixMember(room: string, sender: string, fromGhost: bool, stateKey: Option<string>, membership: string,
                   reason: Option<string>)
    | MatrixEncryption(room: string, noticeOk: bool, leaveOk: bool, deleteOk: bool)
    | MatrixRoomName(room: string, fromGhost: bool, name: string)
    | MatrixRoomTopic(room: string, fromGhost: bool, topic: string)
    | MatrixPowerLevels(room: string, sender: string, levels: seq<(string, Option<int>)>, profile: Option<string>)
    | MatrixRedaction(room: string, fromGhost: bool, target: Option<string>, linked: Option<string>, slackOk: bool)
    | MatrixReaction(room: string, fromGhost: bool, key: Option<string>, linked: Option<string>)
    | MatrixTyping(room: string)
    | MatrixReceipt(room: string, receipts: seq<Receipt>)
    | MatrixUnbridge(room: string, roomName: Option<string>, roomTopic: Option<string>, deleteOk: bool)
    | MatrixText(room: string, text: string)
    | MatrixBridge(room: string, guild: string, channel: string, info: Option<ChannelInfo>, insertOk: bool)
    | SlackText(channel: string, text: string)
    | SlackUnbridge(channel: string, deleteOk: bool)
    | SlackBridge(guild: string, channel: string, info: Option<ChannelInfo>, created: Option<string>, insertOk: bool)
    | SlackChannelUpdate(channel: string, newName: Option<string>, newTopic: Option<string>, newPurpose: Option<string>,
                         nameReadOk: bool, currentName: Option<string>, topicReadOk: bool, currentTopic: Option<string>,
                         setNameOk: bool, updateOk: bool)
    | SlackChannelArchive(channel: string, noticeOk: bool, roomName: Option<string>)
    | SlackChannelDelete(channel: string, roomName: Option<string>, roomTopic: Option<string>, deleteOk: bool)
    | WebDelete(id: int, roomName: Option<string>, roomTopic: Option<string>, deleteOk: bool)

  datatype Call =
    | JoinRoom(room: string)
    | DenyMember(channel: string, user: string)
    | SlackMessage(channel: string, text: string)
    | RestoreMemberLater(channel: string, user: string, delay: nat)
    | MatrixNotice(room: string, phrase: Phrase)
    | SlackNotice(channel: string, phrase: Phrase)
    | MatrixMessage(room: string, text: string)
    | LeaveRoom(room: string)
    | RenameConversation(channel: string, name: string)
    | SetConversationTopic(channel: string, topic: string)
    | DeleteSlackMessage(channel: string, ts: string)
    | UnlinkEvent(event: string)
    | AddReaction(channel: string, ts: string, emoji: string)
    | MarkConversation(channel: string, ts: string)
    | GetState(room: string, kind: string)
    | SendState(room: string, kind: string, value: string)
    | DeleteAlias(alias: string)
    | GetChannel(channel: string)
    | CreateRoom(channel: string, name: string, about: Option<string>)
    | StartBackfill(room: string, channel: string)
    | SetRoomName(room: string, name: string)
    | SetRoomTopic(room: string, topic: string)
    | Reply(phrase: Phrase)

  datatype Change = Keep | Insert(m: RoomMapping) | Update(m: RoomMapping) | Delete(id: int)

  /** `slack_user_id_from_mxid`: the Slack user behind a ghost's Matrix id. */
  function SlackUserIdFromMxid(domain: string, mxid: string): Option<string> {
    if !StartsWith(mxid, "@_slack_") then None else
    var localpart := mxid[|"@_slack_"|..];
    var suffix := ":" + domain;
    if !EndsWith(localpart, suffix) then None else
    var user := localpart[..|localpart| - |suffix|];
    if user == "" || ':' in user then None else Some(user)
  }

  /** It inverts the way ghost ids are written, and accepts nothing else. */
  lemma GhostIdRoundTrip(domain: string, mxid: string, user: string)
    ensures SlackUserIdFromMxid(domain, mxid) == Some(user)
       <==> mxid == "@_slack_" + user + ":" + domain && user != "" && ':' !in user
  {
    var p, suffix := "@_slack_", ":" + domain;
    if mxid == p + user + ":" + domain {
      assert mxid[|p|..] == user + suffix;
      assert (user + suffix)[..|user|] == user;
    }
  }

  function PowerLevelChanges(domain: string, levels: seq<(string, Option<int>)>): seq<string> {
    if levels == [] then [] else
    var rest := PowerLevelChanges(domain, levels[..|levels| - 1]);
    var (mxid, level) := levels[|levels| - 1];
    var user := SlackUserIdFromMxid(domain, mxid);
    if level.Some? && user.Some? then rest + [user.value + " -> " + IntToString(level.value)] else rest
  }

  function TrimColons(s: string): string
    decreases |s|
  {
    if s != "" && s[0] == ':' then TrimColons(s[1..])
    else if s != "" && s[|s| - 1] == ':' then TrimColons(s[..|s| - 1])
    else s
  }

  function Marks(channel: string, receipts: seq<Receipt>): seq<Call> {
    if receipts == [] then [] else
    var rest := Marks(channel, receipts[..|receipts| - 1]);
    var read := receipts[|receipts| - 1];
    if !read.ghostUser && read.linked.Some? then rest + [MarkConversation(channel, read.linked.value)] else rest
  }

  /** Prepend `prefix`, when configured, to the current value of a room state event. */
  function Prefixed(room: string, kind: string, prefix: Option<string>, current: Option<string>): seq<Call> {
    if prefix.None? then []
    else [GetState(room, kind)]
         + if current.Some? then [SendState(room, kind, prefix.value + current.value)] else []
  }

  function FarewellCalls(cfg: Config, room: string, roomName: Option<string>, topic: Option<string>): seq<Call> {
    Prefixed(room, "m.room.name", cfg.namePrefix, roomName) + Prefixed(room, "m.room.topic", cfg.topicPrefix, topic)
  }

  function AliasCalls(cfg: Config, channel: string): seq<Call> {
    if cfg.unsetRoomAlias then [DeleteAlias("#" + cfg.aliasPrefix + channel + ":" + cfg.domain)] else []
  }

  function FormattedName(cfg: Config, guild: string, name: string): string {
    Pattern.ApplyPattern(cfg.namePattern, [("guild", guild), ("name", "#" + name)])
  }

  /** How a handler looks up its mapping. */
  datatype Query =
    NoQuery | Cached(room: string) | CachedRoomOf(id: int) | DirectRoom(room: string) | DirectChannel(channel: string)

  function QueryOf(cfg: Config, e: Event): Query {
    match e
    case MatrixMember(room, sender, fromGhost, stateKey, membership, _) =>
      if !(membership == "invite" && stateKey == Some(cfg.botUser)) && !fromGhost
         && (membership == "leave" || membership == "ban") && stateKey.Some? && stateKey.value != sender
      then Cached(room) else NoQuery
    case MatrixEncryption(room, _, _, _) => Cached(room)
    case MatrixRoomName(room, fromGhost, _) => if fromGhost then NoQuery else Cached(room)
    case MatrixRoomTopic(room, fromGhost, _) => if fromGhost then NoQuery else Cached(room)
    case MatrixPowerLevels(room, _, _, _) => Cached(room)
    case MatrixRedaction(room, fromGhost, _, _, _) =>
      if fromGhost || cfg.disableDeletionForwarding then NoQuery else Cached(room)
    case MatrixReaction(room, fromGhost, _, _) => if fromGhost then NoQuery else Cached(room)
    case MatrixTyping(room) => if cfg.disableTyping then NoQuery else Cached(room)
    case MatrixReceipt(room, _) => if cfg.disableReadReceipts then NoQuery else Cached(room)
    case MatrixUnbridge(room, _, _, _) => Cached(room)
    case WebDelete(id, _, _, _) => if id > 0 then CachedRoomOf(id) else NoQuery
    case MatrixText(room, _) => DirectRoom(room)
    case MatrixBridge(_, _, channel, _, _) => DirectChannel(channel)
    case SlackText(channel, _) => DirectChannel(channel)
    case SlackUnbridge(channel, _) => DirectChannel(channel)
    case SlackBridge(_, channel, _, _, _) => DirectChannel(channel)
    case SlackChannelUpdate(channel, _, _, _, _, _, _, _, _, _) => DirectChannel(channel)
    case SlackChannelArchive(channel, _, _) => DirectChannel(channel)
    case SlackChannelDelete(channel, _, _, _) => DirectChannel(channel)
  }

  predicate ReadsCache(q: Query) { q.Cached? || q.CachedRoomOf? }

  predicate Renames(cfg: Config, m: RoomMapping, e: Event)
    requires e.SlackChannelUpdate?
  {
    e.newName.Some? && e.nameReadOk && e.currentName != Some(FormattedName(cfg, m.team, e.newName.value))
  }

  predicate LimitReached(cfg: Config, t: RoomTable) {
    cfg.roomLimit >= 0 && |t.rows| >= cfg.roomLimit
  }

  /** `bridge_matrix_room`, for the Matrix command and the web interface. */
  ghost function BridgeChange(cfg: Config, t: RoomTable, m: Option<RoomMapping>, e: Event): Change
    requires e.MatrixBridge?
  {
    if LimitReached(cfg, t) || m.Some? || e.info.None? || !e.insertOk then Keep else
    var row := RoomMapping(0, e.room, e.channel, e.info.value.name, e.guild);
    if CanInsert(t, row) then Insert(row) else Keep
  }

  /** The one table change a handler makes, given the mapping its lookup returned. */
  ghost function ChangeOf(cfg: Config, t: RoomTable, m: Option<RoomMapping>, e: Event): Change {
    match e
    case MatrixEncryption(_, noticeOk, leaveOk, deleteOk) =>
      if m.Some? && noticeOk && leaveOk && deleteOk then Delete(m.value.id) else Keep
    case MatrixUnbridge(_, _, _, deleteOk) => if m.Some? && deleteOk then Delete(m.value.id) else Keep
    case WebDelete(id, _, _, deleteOk) =>
      if id > 0 && id in t.rows && m.Some? && deleteOk then Delete(m.value.id) else Keep
    case SlackUnbridge(_, deleteOk) => if m.Some? && deleteOk then Delete(m.value.id) else Keep
    case SlackChannelDelete(_, _, _, deleteOk) => if m.Some? && deleteOk then Delete(m.value.id) else Keep
    case MatrixBridge(_, _, _, _, _) => BridgeChange(cfg, t, m, e)
    case SlackBridge(guild, channel, info, created, insertOk) =>
      if m.Some? || info.None? || created.None? || !insertOk then Keep else
      var row := RoomMapping(0, created.value, channel, info.value.name, guild);
      if CanInsert(t, row) then Insert(row) else Keep
    case SlackChannelUpdate(_, newName, _, _, _, _, _, _, setNameOk, updateOk) =>
      if m.Some? && Renames(cfg, m.value, e) && setNameOk && updateOk
      then Update(m.value.(name := newName.value)) else Keep
    case _ => Keep
  }

  /** The cache key a handler removes after its change: only deletions remove one. */
  function EvictionOf(m: Option<RoomMapping>, e: Event, change: Change): Option<string> {
    if !change.Delete? || m.None? then None
    else if e.MatrixEncryption? then Some(e.room)
    else Some(m.value.room)
  }

  /** `unbridge_matrix_room` for the room named in the call, with the mapping `m` found for it. */
  function UnbridgeCalls(cfg: Config, room: string, m: Option<RoomMapping>, roomName: Option<string>,
                         topic: Option<string>, deleteOk: bool): seq<Call>
  {
    if m.None? then [Reply(RoomNotBridged)] else
    FarewellCalls(cfg, room, roomName, topic) + AliasCalls(cfg, m.value.channel)
    + if deleteOk then [Reply(RoomUnbridged)] else []
  }

  function MemberCalls(cfg: Config, m: RoomMapping, e: Event): seq<Call>
    requires e.MatrixMember? && e.stateKey.Some?
  {
    var user := SlackUserIdFromMxid(cfg.domain, e.stateKey.value);
    if user.None? then [] else
    var reason := if e.reason.Some? then e.reason.value else "No reason provided";
    var word := if e.membership == "ban" then "banned" else "kicked";
    [DenyMember(m.channel, user.value),
     SlackMessage(m.channel, "Matrix moderation: `" + e.stateKey.value + "` was " + word + " by `" + e.sender
                             + "`. Reason: " + reason)]
    + if e.membership == "leave" && cfg.kickFor > 0
      then [RestoreMemberLater(m.channel, user.value, cfg.kickFor)] else []
  }

  function PowerLevelCalls(cfg: Config, m: RoomMapping, e: Event): seq<Call>
    requires e.MatrixPowerLevels?
  {
    var changed := PowerLevelChanges(cfg.domain, e.levels);
    var who := if e.profile.Some? then e.profile.value else e.sender;
    if changed == [] then []
    else [SlackMessage(m.channel,
                       "**" + who + "** updated Matrix power levels for bridged users: " + Join(changed, ", "))]
  }

  /** The room's topic is read before it is compared; a failing read ends the handler. */
  function TopicCalls(m: RoomMapping, e: Event): seq<Call>
    requires e.SlackChannelUpdate?
  {
    if !e.topicReadOk then []
    else if e.newTopic.Some? then
      (if e.currentTopic != e.newTopic then [SetRoomTopic(m.room, e.newTopic.value)] else [])
    else if e.newPurpose.Some? && e.currentTopic != e.newPurpose then [SetRoomTopic(m.room, e.newPurpose.value)]
    else []
  }

  function ChannelUpdateCalls(cfg: Config, m: RoomMapping, e: Event): seq<Call>
    requires e.SlackChannelUpdate?
  {
    if e.newName.Some? && !e.nameReadOk then []
    else if !Renames(cfg, m, e) then TopicCalls(m, e)
    else
      [SetRoomName(m.room, FormattedName(cfg, m.team, e.newName.value))]
      + if e.setNameOk && e.updateOk then TopicCalls(m, e) else []
  }

  /** The backfill is started only if it is configured. */
  function BackfillCalls(cfg: Config, room: string, channel: string): seq<Call> {
    if cfg.backfillEnabled && cfg.backfillMax > 0 then [StartBackfill(room, channel)] else []
  }

  function BridgeCalls(cfg: Config, t: RoomTable, existing: Option<RoomMapping>, e: Event, change: Change): seq<Call>
    requires e.MatrixBridge?
  {
    if LimitReached(cfg, t) then
      [Reply(AtLimit(cfg.roomLimit))]
    else if existing.Some? then [Reply(AlreadyBridged)]
    else if e.info.None? then
      [GetChannel(e.channel), Reply(ChannelNotFound)]
    else
      [GetChannel(e.channel)]
      + if change.Insert? then BridgedCalls(cfg, e) else []
  }

  function BridgedCalls(cfg: Config, e: Event): seq<Call>
    requires e.MatrixBridge? && e.info.Some?
  {
    [SendState(e.room, "m.room.name", FormattedName(cfg, e.info.value.guild, e.info.value.name))]
    + BackfillCalls(cfg, e.room, e.channel) + [Reply(Bridged)]
  }

  function SlackBridgeCalls(existing: Option<RoomMapping>, e: Event, change: Change): seq<Call>
    requires e.SlackBridge?
  {
    if existing.Some? then [Reply(ThatAlreadyBridged)]
    else if e.info.None? then [GetChannel(e.channel), Reply(ThatNotFound)]
    else
      [GetChannel(e.channel), CreateRoom(e.channel, "[Slack] #" + e.info.value.name, e.info.value.topic)]
      + if e.created.None? then [Reply(RoomNotCreated)]
        else if change.Insert? then [Reply(BridgedTo(e.created.value))]
        else []
  }

  /** The calls of the handlers that only forward: they never change the table. */
  function ForwardedCalls(cfg: Config, m: Option<RoomMapping>, e: Event): seq<Call> {
    match e
    case MatrixMember(room, _, _, stateKey, membership, _) =>
      if membership == "invite" && stateKey == Some(cfg.botUser) then [JoinRoom(room)]
      else if !QueryOf(cfg, e).Cached? || m.None? then []
      else MemberCalls(cfg, m.value, e)
    case MatrixRoomName(_, fromGhost, name) =>
      if fromGhost || m.None? || name == "" then [] else [RenameConversation(m.value.channel, name)]
    case MatrixRoomTopic(_, fromGhost, topic) =>
      if fromGhost || m.None? then [] else [SetConversationTopic(m.value.channel, topic)]
    case MatrixPowerLevels(_, _, _, _) => if m.None? then [] else PowerLevelCalls(cfg, m.value, e)
    case MatrixRedaction(_, fromGhost, target, linked, slackOk) =>
      if fromGhost || cfg.disableDeletionForwarding || m.None? || target.None? || linked.None? then []
      else [DeleteSlackMessage(m.value.channel, linked.value)]
           + if slackOk then [UnlinkEvent(target.value)] else []
    case MatrixReaction(_, fromGhost, key, linked) =>
      if fromGhost || m.None? || key.None? || linked.None? then []
      else [AddReaction(m.value.channel, linked.value, TrimColons(key.value))]
    case MatrixReceipt(_, receipts) =>
      if cfg.disableReadReceipts || m.None? then [] else Marks(m.value.channel, receipts)
    case _ => []
  }

  /** The outward calls of each handler, in order. */
  ghost function CallsOf(cfg: Config, t: RoomTable, m: Option<RoomMapping>, e: Event): seq<Call> {
    match e
    case MatrixEncryption(room, noticeOk, _, _) =>
      if m.None? then [] else
      [MatrixNotice(room, EncryptionTurnedOn)]
      + if noticeOk then [LeaveRoom(room)] else []
    case MatrixUnbridge(room, roomName, topic, deleteOk) => UnbridgeCalls(cfg, room, m, roomName, topic, deleteOk)
    case WebDelete(id, roomName, topic, deleteOk) =>
      if id <= 0 then [Reply(InvalidBridgeId)]
      else if id !in t.rows then [Reply(BridgeNotFound)]
      else UnbridgeCalls(cfg, t.rows[id].room, m, roomName, topic, deleteOk)
    case MatrixText(_, text) => if m.None? then [] else [SlackMessage(m.value.channel, text)]
    case MatrixBridge(_, _, _, _, _) => BridgeCalls(cfg, t, m, e, ChangeOf(cfg, t, m, e))
    case SlackText(_, text) => if m.None? then [] else [MatrixMessage(m.value.room, text)]
    case SlackUnbridge(channel, deleteOk) =>
      if m.None? then [SlackNotice(channel, NotPlumbed)]
      else if deleteOk then [SlackNotice(channel, ChannelUnbridged)] else []
    case SlackBridge(_, _, _, _, _) => SlackBridgeCalls(m, e, ChangeOf(cfg, t, m, e))
    case SlackChannelUpdate(_, _, _, _, _, _, _, _, _, _) => if m.None? then [] else ChannelUpdateCalls(cfg, m.value, e)
    case SlackChannelArchive(_, noticeOk, roomName) =>
      if m.None? then [] else
      [MatrixNotice(m.value.room, ChannelArchived)]
      + if noticeOk then Prefixed(m.value.room, "m.room.name", cfg.namePrefix, roomName) else []
    case SlackChannelDelete(_, roomName, topic, _) =>
      if m.None? then [] else FarewellCalls(cfg, m.value.room, roomName, topic)
    case _ => ForwardedCalls(cfg, m, e)
  }

  ghost function Applied(t: RoomTable, c: Change): RoomTable {
    match c
    case Keep => t
    case Insert(m) => Inserted(t, m)
    case Update(m) => Updated(t, m)
    case Delete(id) => Deleted(t, id)
  }

  // ------------------------------------------------------------------ the run that always reads the table

  datatype Direct = Direct(table: RoomTable, log: seq<Call>)

  ghost function Read(t: RoomTable, q: Query): Option<RoomMapping> {
    match q
    case NoQuery => None
    case Cached(room) => ByRoom(t, room)
    case CachedRoomOf(id) => if id in t.rows then ByRoom(t, t.rows[id].room) else None
    case DirectRoom(room) => ByRoom(t, room)
    case DirectChannel(channel) => ByChannel(t, channel)
  }

  ghost function StepDirect(cfg: Config, s: Direct, e: Event): Direct {
    var m := Read(s.table, QueryOf(cfg, e));
    Direct(Applied(s.table, ChangeOf(cfg, s.table, m, e)), s.log + CallsOf(cfg, s.table, m, e))
  }

  ghost function RunDirect(cfg: Config, s: Direct, events: seq<(int, Event)>): Direct {
    if events == [] then s
    else StepDirect(cfg, RunDirect(cfg, s, events[..|events| - 1]), events[|events| - 1].1)
  }

  // ------------------------------------------------------------------ the run through the timed cache

  type Cache = Entries<string, RoomMapping>

  datatype State = State(table: RoomTable, cache: Cache, log: seq<Call>)

  /** `get_room_mapping_cached`: a live entry, or else the table's row, which is then remembered. */
  ghost function CachedLookup(t: RoomTable, cache: Cache, now: int, room: string): (Option<RoomMapping>, Cache) {
    var hit := LookUp(cache, ROOM_CACHE_TTL_SECS, now, room);
    if hit.Some? then (hit, cache) else
    var row := ByRoom(t, room);
    (row, if row.Some? then cache[room := TimedValue(row.value, now)] else cache)
  }

  ghost function ReadCached(t: RoomTable, cache: Cache, now: int, q: Query): (Option<RoomMapping>, Cache) {
    match q
    case Cached(room) => CachedLookup(t, cache, now, room)
    case CachedRoomOf(id) => if id in t.rows then CachedLookup(t, cache, now, t.rows[id].room) else (None, cache)
    case _ => (Read(t, q), cache)
  }

  ghost function Step(cfg: Config, s: State, now: int, e: Event): State {
    var (m, cache) := ReadCached(s.table, s.cache, now, QueryOf(cfg, e));
    var change := ChangeOf(cfg, s.table, m, e);
    State(Applied(s.table, change), Evicted(cache, EvictionOf(m, e, change)), s.log + CallsOf(cfg, s.table, m, e))
  }

  lemma BridgeStep(cfg: Config, s: State, now: int, e: Event)
    requires e.MatrixBridge?
    ensures var m := ByChannel(s.table, e.channel);
            var change := BridgeChange(cfg, s.table, m, e);
            Step(cfg, s, now, e)
            == State(Applied(s.table, change), s.cache, s.log + BridgeCalls(cfg, s.table, m, e, change))
  {
  }

  lemma SlackBridgeStep(cfg: Config, s: State, now: int, e: Event)
    requires e.SlackBridge?
    ensures var m := ByChannel(s.table, e.channel);
            var change := ChangeOf(cfg, s.table, m, e);
            Step(cfg, s, now, e)
            == State(Applied(s.table, change), s.cache, s.log + SlackBridgeCalls(m, e, change))
  {
  }

  lemma EncryptionStep(cfg: Config, s: State, now: int, e: Event)
    requires e.MatrixEncryption?
    ensures var (m, cache) := CachedLookup(s.table, s.cache, now, e.room);
            var gone := m.Some? && e.noticeOk && e.leaveOk && e.deleteOk;
            Step(cfg, s, now, e)
            == State(if gone then Deleted(s.table, m.value.id) else s.table, if gone then cache - {e.room} else cache,
                     s.log + if m.None? then []
                             else [MatrixNotice(e.room, EncryptionTurnedOn)]
                                  + if e.noticeOk then [LeaveRoom(e.room)] else [])
  {
  }

  function Evicted(cache: Cache, key: Option<string>): Cache {
    if key.Some? then cache - {key.value} else cache
  }

  ghost function Run(cfg: Config, s: State, events: seq<(int, Event)>): State {
    if events == [] then s
    else var (now, e) := events[|events| - 1];
         Step(cfg, Run(cfg, s, events[..|events| - 1]), now, e)
  }

  // ------------------------------------------------------------------ refinement

  /** Equal in every field but the channel name. */
  predicate SameLink(a: RoomMapping, b: RoomMapping) {
    a.id == b.id && a.room == b.room && a.channel == b.channel && a.team == b.team
  }

  predicate SameLookup(a: Option<RoomMapping>, b: Option<RoomMapping>) {
    a.Some? == b.Some? && (a.Some? ==> SameLink(a.value, b.value))
  }

  /** Every cache entry, live or expired, is keyed by its room and is the link of a current row. */
  ghost predicate CacheAgrees(t: RoomTable, cache: Cache) {
    forall room :: room in cache ==>
      var m := cache[room].value;
      m.room == room && m.id in t.rows && SameLink(t.rows[m.id], m)
  }

  ghost predicate Inv(s: State) {
    ValidTable(s.table) && CacheAgrees(s.table, s.cache)
  }

  lemma CachedLookupAgrees(t: RoomTable, cache: Cache, now: int, room: string)
    requires ValidTable(t) && CacheAgrees(t, cache)
    ensures SameLookup(CachedLookup(t, cache, now, room).0, ByRoom(t, room))
    ensures CacheAgrees(t, CachedLookup(t, cache, now, room).1)
  {
    if room in cache { LookupsFindTheRow(t, cache[room].value.id); }
  }

  /** A read through the cache answers as the table does, but for the name, and leaves an agreeing cache. */
  lemma LookupAgrees(t: RoomTable, cache: Cache, now: int, q: Query)
    requires ValidTable(t) && CacheAgrees(t, cache)
    ensures SameLookup(ReadCached(t, cache, now, q).0, Read(t, q))
    ensures CacheAgrees(t, ReadCached(t, cache, now, q).1)
    ensures !ReadsCache(q) ==> ReadCached(t, cache, now, q) == (Read(t, q), cache)
  {
    hide ValidTable, CacheAgrees, CachedLookup, ByRoom, ByChannel;
    match q
    case Cached(room) => CachedLookupAgrees(t, cache, now, room);
    case CachedRoomOf(id) => if id in t.rows { CachedLookupAgrees(t, cache, now, t.rows[id].room); }
    case _ =>
  }

  lemma MarksIgnoreTheName(cfg: Config, m: RoomMapping, n: RoomMapping, e: Event)
    requires SameLink(m, n)
    ensures e.MatrixMember? && e.stateKey.Some? ==> MemberCalls(cfg, m, e) == MemberCalls(cfg, n, e)
    ensures e.MatrixPowerLevels? ==> PowerLevelCalls(cfg, m, e) == PowerLevelCalls(cfg, n, e)
  {
    hide PowerLevelChanges, SlackUserIdFromMxid, Join;
  }

  lemma ForwardedCallsIgnoreTheName(cfg: Config, a: Option<RoomMapping>, b: Option<RoomMapping>, e: Event)
    requires SameLookup(a, b)
    ensures ForwardedCalls(cfg, a, e) == ForwardedCalls(cfg, b, e)
  {
    hide MemberCalls, PowerLevelCalls, Marks, TrimColons;
    if a.Some? { MarksIgnoreTheName(cfg, a.value, b.value, e); }
  }

  /** No handler that reads through the cache looks at the channel name. */
  lemma CachedCallsIgnoreTheName(cfg: Config, t: RoomTable, a: Option<RoomMapping>, b: Option<RoomMapping>, e: Event)
    requires ReadsCache(QueryOf(cfg, e)) && SameLookup(a, b)
    ensures CallsOf(cfg, t, a, e) == CallsOf(cfg, t, b, e)
  {
    hide ForwardedCalls, FarewellCalls, BridgeCalls, SlackBridgeCalls, ChannelUpdateCalls, ChangeOf;
    ForwardedCallsIgnoreTheName(cfg, a, b, e);
  }

  lemma CachedChangesIgnoreTheName(cfg: Config, t: RoomTable, a: Option<RoomMapping>, b: Option<RoomMapping>, e: Event)
    requires ReadsCache(QueryOf(cfg, e)) && SameLookup(a, b)
    ensures ChangeOf(cfg, t, a, e) == ChangeOf(cfg, t, b, e)
  {
  }

  /** What a handler may do to table and cache, given its query and the mapping found. */
  predicate Shape(q: Query, m: Option<RoomMapping>, change: Change, evict: Option<string>) {
    && (evict.Some? ==> change.Delete?)
    && (change.Delete? ==>
          && m.Some? && change.id == m.value.id && evict.Some?
          && (evict.value == m.value.room || q == Cached(evict.value)))
    && (change.Update? ==> m.Some? && !ReadsCache(q) && SameLink(change.m, m.value))
  }

  lemma HandlersHaveShape(cfg: Config, t: RoomTable, m: Option<RoomMapping>, e: Event)
    ensures var change := ChangeOf(cfg, t, m, e); Shape(QueryOf(cfg, e), m, change, EvictionOf(m, e, change))
  {
  }

  lemma ReadFindsRow(t: RoomTable, q: Query)
    requires ValidTable(t) && Read(t, q).Some?
    ensures var m := Read(t, q).value; m.id in t.rows && t.rows[m.id] == m && (q.Cached? ==> m.room == q.room)
  {
    var id :| id in t.rows && t.rows[id] == Read(t, q).value;
  }

  lemma InsertKeepsAgreement(t: RoomTable, cache: Cache, m: RoomMapping)
    requires ValidTable(t) && CacheAgrees(t, cache)
    ensures CacheAgrees(Inserted(t, m), cache)
  {
    NextIdIsFree(t);
  }

  /** A row changes its name, or none changes. */
  lemma RenameKeepsAgreement(t: RoomTable, cache: Cache, m: RoomMapping)
    requires CacheAgrees(t, cache) && (m.id in t.rows ==> SameLink(m, t.rows[m.id]))
    ensures CacheAgrees(Updated(t, m), cache)
  {
  }

  /** Deleting a row and evicting its room: the only key whose entry can refer to that row. */
  lemma DeleteKeepsAgreement(t: RoomTable, cache: Cache, m: RoomMapping)
    requires CacheAgrees(t, cache) && m.id in t.rows && t.rows[m.id] == m
    ensures CacheAgrees(Deleted(t, m.id), cache - {m.room})
  {
  }

  /** Whichever path deletes a row, it evicts the only key whose entry can refer to that row. */
  lemma ChangeKeepsInv(
      t: RoomTable, cache: Cache, q: Query, m: Option<RoomMapping>, change: Change, evict: Option<string>)
    requires ValidTable(t) && CacheAgrees(t, cache)
    requires SameLookup(m, Read(t, q)) && Shape(q, m, change, evict)
    ensures ValidTable(Applied(t, change)) && CacheAgrees(Applied(t, change), Evicted(cache, evict))
  {
    hide ValidTable, CacheAgrees, Inserted, Updated, Deleted, Read;
    if m.Some? { ReadFindsRow(t, q); }
    match change
    case Keep =>
    case Insert(row) =>
      TableStaysValid(t, row, 0);
      InsertKeepsAgreement(t, cache, row);
    case Update(row) =>
      TableStaysValid(t, row, 0);
      RenameKeepsAgreement(t, cache, row);
    case Delete(id) =>
      TableStaysValid(t, m.value, id);
      DeletedIsKnown(t, q, m, change, evict);
      DeleteKeepsAgreement(t, cache, Read(t, q).value);
  }

  lemma StepKeepsInv(cfg: Config, s: State, now: int, e: Event)
    requires Inv(s)
    ensures Inv(Step(cfg, s, now, e))
  {
    var q := QueryOf(cfg, e);
    var (m, cache) := ReadCached(s.table, s.cache, now, q);
    LookupAgrees(s.table, s.cache, now, q);
    HandlersHaveShape(cfg, s.table, m, e);
    var change := ChangeOf(cfg, s.table, m, e);
    ChangeKeepsInv(s.table, cache, q, m, change, EvictionOf(m, e, change));
  }

  lemma {:induction false} InvHolds(cfg: Config, s: State, events: seq<(int, Event)>)
    requires Inv(s)
    ensures Inv(Run(cfg, s, events))
    decreases |events|
  {
    if events != [] {
      var (now, e) := events[|events| - 1];
      InvHolds(cfg, s, events[..|events| - 1]);
      StepKeepsInv(cfg, Run(cfg, s, events[..|events| - 1]), now, e);
    }
  }

  /** One event, handled through the cache or directly, makes the same calls and the same table. */
  lemma StepRefines(cfg: Config, s: State, now: int, e: Event)
    requires Inv(s)
    ensures StepDirect(cfg, Direct(s.table, s.log), e)
         == Direct(Step(cfg, s, now, e).table, Step(cfg, s, now, e).log)
  {
    var q := QueryOf(cfg, e);
    LookupAgrees(s.table, s.cache, now, q);
    if ReadsCache(q) {
      CachedCallsIgnoreTheName(cfg, s.table, ReadCached(s.table, s.cache, now, q).0, Read(s.table, q), e);
      CachedChangesIgnoreTheName(cfg, s.table, ReadCached(s.table, s.cache, now, q).0, Read(s.table, q), e);
    }
  }

  /**
   The cache is invisible: from any valid table and any agreeing cache, for every list of events and every clock
   reading, the cached run makes exactly the outward calls and reaches exactly the table of the run that always
   reads the table.
   */
  lemma {:induction false} CacheRefinesTable(cfg: Config, s: State, events: seq<(int, Event)>)
    requires Inv(s)
    ensures RunDirect(cfg, Direct(s.table, s.log), events)
         == Direct(Run(cfg, s, events).table, Run(cfg, s, events).log)
    decreases |events|
  {
    if events != [] {
      var (now, e) := events[|events| - 1];
      CacheRefinesTable(cfg, s, events[..|events| - 1]);
      InvHolds(cfg, s, events[..|events| - 1]);
      StepRefines(cfg, Run(cfg, s, events[..|events| - 1]), now, e);
    }
  }

  // ------------------------------------------------------------------ what the handlers undo and leave

  /** After any of the deleting handlers, neither the table nor the cache finds the room or the channel, at any time. */
  lemma DeletionIsComplete(cfg: Config, s: State, now: int, e: Event, later: int)
    requires Inv(s)
    requires ChangeOf(cfg, s.table, ReadCached(s.table, s.cache, now, QueryOf(cfg, e)).0, e).Delete?
    ensures var m := Read(s.table, QueryOf(cfg, e));
            var s' := Step(cfg, s, now, e);
            && m.Some? && s'.table.rows == s.table.rows - {m.value.id}
            && m.value.room !in s'.cache
            && CachedLookup(s'.table, s'.cache, later, m.value.room).0.None?
            && ByChannel(s'.table, m.value.channel).None?
  {
    hide CallsOf, EvictionOf, LookUp;
    var q := QueryOf(cfg, e);
    var m := ReadCached(s.table, s.cache, now, q).0;
    var change := ChangeOf(cfg, s.table, m, e);
    LookupAgrees(s.table, s.cache, now, q);
    HandlersHaveShape(cfg, s.table, m, e);
    DeletedIsKnown(s.table, q, m, change, EvictionOf(m, e, change));
    NotCached(Evicted(ReadCached(s.table, s.cache, now, q).1, EvictionOf(m, e, change)), Read(s.table, q).value.room,
        later);
    RowIsGone(s.table, Read(s.table, q).value);
  }

  lemma DeletedIsKnown(t: RoomTable, q: Query, m: Option<RoomMapping>, change: Change, evict: Option<string>)
    requires ValidTable(t) && SameLookup(m, Read(t, q)) && Shape(q, m, change, evict) && change.Delete?
    ensures Read(t, q).Some? && change.id == Read(t, q).value.id && evict == Some(Read(t, q).value.room)
    ensures Read(t, q).value.id in t.rows && t.rows[Read(t, q).value.id] == Read(t, q).value
  {
    ReadFindsRow(t, q);
  }

  lemma NotCached(cache: Cache, room: string, now: int)
    requires room !in cache
    ensures LookUp(cache, ROOM_CACHE_TTL_SECS, now, room).None?
  {
  }

  lemma RowIsGone(t: RoomTable, m: RoomMapping)
    requires ValidTable(t) && m.id in t.rows && t.rows[m.id] == m
    ensures ByRoom(Deleted(t, m.id), m.room).None? && ByChannel(Deleted(t, m.id), m.channel).None?
  {
  }

  /** Unbridging undoes bridging: the rows are those from before, and only the id is spent. */
  lemma UnbridgeUndoesBridge(cfg: Config, s: State, now: int, later: int, bridge: Event, unbridge: Event)
    requires Inv(s) && bridge.MatrixBridge? && unbridge.MatrixUnbridge? && unbridge.deleteOk
    requires unbridge.room == bridge.room
    requires ChangeOf(cfg, s.table, Read(s.table, QueryOf(cfg, bridge)), bridge).Insert?
    ensures var s' := Step(cfg, Step(cfg, s, now, bridge), later, unbridge);
            && Step(cfg, s, now, bridge).table.rows.Keys == s.table.rows.Keys + {s.table.nextId}
            && s'.table == RoomTable(s.table.rows, s.table.nextId + 1)
            && bridge.room !in s'.cache
  {
    hide CallsOf, LookUp;
    var room, id := bridge.room, s.table.nextId;
    var s1 := Step(cfg, s, now, bridge);
    assert s1.cache == s.cache;
    RoomIsNew(s.table, s.cache, room);
    NotCached(s.cache, room, later);
    StepKeepsInv(cfg, s, now, bridge);
    assert id in s1.table.rows && s1.table.rows[id].room == room;
    LookupsFindTheRow(s1.table, id);
    assert s1.table.rows - {id} == s.table.rows;
  }

  lemma RoomIsNew(t: RoomTable, cache: Cache, room: string)
    requires ValidTable(t) && CacheAgrees(t, cache) && ByRoom(t, room).None?
    ensures room !in cache && t.nextId !in t.rows
  {
  }

  /**
   The name is the one field in which the cache may lag: a rename updates the row and leaves the entry alone, so the
   two names agree afterwards exactly when the cached copy already had the new one.
   */
  lemma RenameLeavesCachedName(cfg: Config, s: State, now: int, e: Event)
    requires Inv(s) && e.SlackChannelUpdate? && e.newName.Some?
    requires var m := ByChannel(s.table, e.channel);
             m.Some? && m.value.room in s.cache && ChangeOf(cfg, s.table, m, e).Update?
    ensures var m := ByChannel(s.table, e.channel).value;
            var s' := Step(cfg, s, now, e);
            && s'.table.rows == s.table.rows[m.id := m.(name := e.newName.value)]
            && s'.cache == s.cache
            && s'.cache[m.room].value.id == m.id
            && (s'.cache[m.room].value.name == s'.table.rows[m.id].name <==>
                  s.cache[m.room].value.name == e.newName.value)
  {
    hide CallsOf;
    var m := ByChannel(s.table, e.channel).value;
    var id :| id in s.table.rows && s.table.rows[id] == m;
    assert CanUpdate(s.table, m.(name := e.newName.value));
  }

  // ------------------------------------------------------------------ the room limit

  /** `request_bridge_slack_channel` reaches its insertion, and the insertion succeeds. */
  ghost predicate SlackInserts(t: RoomTable, e: Event) {
    && e.SlackBridge? && e.info.Some? && e.created.Some? && e.insertOk
    && ByChannel(t, e.channel).None? && ByRoom(t, e.created.value).None?
  }

  lemma SlackInsertsExactly(cfg: Config, t: RoomTable, e: Event)
    requires e.SlackBridge?
    ensures ChangeOf(cfg, t, Read(t, QueryOf(cfg, e)), e).Insert? <==> SlackInserts(t, e)
  {
  }

  /** Only the two bridging handlers insert, and the one for the Matrix command and the web stops at the limit. */
  lemma InsertsBelowLimit(cfg: Config, t: RoomTable, m: Option<RoomMapping>, e: Event)
    requires ChangeOf(cfg, t, m, e).Insert?
    ensures e.SlackBridge? || (e.MatrixBridge? && !LimitReached(cfg, t))
    ensures CanInsert(t, ChangeOf(cfg, t, m, e).m)
  {
  }

  lemma ChangedSize(t: RoomTable, change: Change)
    requires ValidTable(t)
    ensures change.Insert? && CanInsert(t, change.m) ==> |Applied(t, change).rows| == |t.rows| + 1
    ensures !change.Insert? ==> |Applied(t, change).rows| <= |t.rows|
  {
    match change
    case Keep =>
    case Insert(m) => NextIdIsFree(t);
    case Update(m) => assert m.id in t.rows ==> t.rows[m.id := m].Keys == t.rows.Keys;
    case Delete(id) => DeletedSize(t, id);
  }

  /**
   With whole handlers as steps, the limit is exceeded exactly by the Slack command: when the limit is reached, its
   channel and its new room are free, and the channel, the room and the insertion all succeed.
   */
  lemma LimitIsExceededExactly(cfg: Config, s: State, now: int, e: Event)
    requires Inv(s) && cfg.roomLimit >= 0 && |s.table.rows| <= cfg.roomLimit
    ensures |Step(cfg, s, now, e).table.rows| > cfg.roomLimit
            <==> LimitReached(cfg, s.table) && SlackInserts(s.table, e)
  {
    hide ChangeOf, CallsOf, QueryOf, CachedLookup, Read, CanInsert;
    var q := QueryOf(cfg, e);
    var change := ChangeOf(cfg, s.table, Read(s.table, q), e);
    StepRefines(cfg, s, now, e);
    ChangedSize(s.table, change);
    if change.Insert? { InsertsBelowLimit(cfg, s.table, Read(s.table, q), e); }
    if e.SlackBridge? { SlackInsertsExactly(cfg, s.table, e); }
  }

  /** A run that starts within the limit and ends above it has a Slack command that was inserted at the limit. */
  lemma {:induction false} LimitCrossedBySlackCommand(cfg: Config, s: State, events: seq<(int, Event)>) returns (k: nat)
    requires Inv(s) && cfg.roomLimit >= 0 && |s.table.rows| <= cfg.roomLimit
    requires |Run(cfg, s, events).table.rows| > cfg.roomLimit
    ensures k < |events|
    ensures LimitReached(cfg, Run(cfg, s, events[..k]).table)
            && SlackInserts(Run(cfg, s, events[..k]).table, events[k].1)
    decreases |events|
  {
    hide Inv, Step, LimitReached, SlackInserts;
    var n := |events| - 1;
    var before := Run(cfg, s, events[..n]);
    if |before.table.rows| > cfg.roomLimit {
      k := LimitCrossedBySlackCommand(cfg, s, events[..n]);
      assert events[..n][..k] == events[..k];
    } else {
      InvHolds(cfg, s, events[..n]);
      LimitIsExceededExactly(cfg, before, events[n].0, events[n].1);
      k := n;
    }
  }

  /** Without Slack bridge commands every run of whole handlers keeps the limit. */
  lemma {:induction false} LimitHoldsWithoutSlackBridge(cfg: Config, s: State, events: seq<(int, Event)>)
    requires Inv(s) && cfg.roomLimit >= 0 && |s.table.rows| <= cfg.roomLimit
    requires forall k :: 0 <= k < |events| ==> !events[k].1.SlackBridge?
    ensures |Run(cfg, s, events).table.rows| <= cfg.roomLimit
  {
    if |Run(cfg, s, events).table.rows| > cfg.roomLimit {
      var k := LimitCrossedBySlackCommand(cfg, s, events);
      assert false;
    }
  }

  /** One such input: with a limit of no rooms at all, the first Slack command bridges a room. */
  lemma SlackCommandExceedsLimit(cfg: Config, now: int)
    requires cfg.roomLimit == 0
    ensures var s := State(RoomTable(map[], 1), map[], []);
            var e := SlackBridge("T1", "C1", Some(ChannelInfo("general", "T1", None)), Some("!room"), true);
            |s.table.rows| <= cfg.roomLimit < |Step(cfg, s, now, e).table.rows|
  {
    hide Step;
    var s := State(RoomTable(map[], 1), map[], []);
    var e := SlackBridge("T1", "C1", Some(ChannelInfo("general", "T1", None)), Some("!room"), true);
    assert Inv(s) && LimitReached(cfg, s.table) && SlackInserts(s.table, e);
    LimitIsExceededExactly(cfg, s, now, e);
  }
}
