/** src/matrix/command_handler.rs and src/slack/command_handler.rs, after tokenising. */
module CommandsModel {
  import opened Prelude

  datatype Parsed = Parsed(command: string, args: seq<string>)

  const MANAGE_WEBHOOKS := "MANAGE_WEBHOOKS"
  const MANAGE_CHANNELS := "MANAGE_CHANNELS"

  // ------------------------------------------------------------------ !slack ... in a Matrix room

  datatype MatrixReply =
    Help | NotSelfService | CheckFailed | NotPermitted | AlreadyBridged | InvalidSyntax | NotBridged | Unknown

  datatype MatrixOutcome =
    | MatrixIgnored
    | MatrixReplied(reply: MatrixReply)
    | MatrixBridge(guild: string, channel: string)
    | MatrixUnbridge

  /** `parse_guild_and_channel`: `guild/channel`, or the two as separate arguments. */
  function GuildAndChannel(args: seq<string>): Option<(string, string)> {
    if args == [] then None else
    var cut := IndexOf(args[0], '/');
    var split := cut < |args[0]|;
    if |args| < 2 && !split then None else
    var guild := args[0][..cut];
    var channel := if |args| >= 2 then args[1] else args[0][cut + 1..];
    if guild == "" || channel == "" then None else Some((guild, channel))
  }

  /** Both spellings of a guild and a channel are read back. */
  lemma GuildAndChannelRoundTrip(guild: string, channel: string)
    requires guild != "" && channel != "" && '/' !in guild
    ensures GuildAndChannel([guild + "/" + channel]) == Some((guild, channel))
    ensures GuildAndChannel([guild, channel]) == Some((guild, channel))
  {
    var both := guild + "/" + channel;
    assert both[|guild|] == '/' && forall k :: 0 <= k < |guild| ==> both[k] == guild[k];
    assert IndexOf(both, '/') == |guild|;
    assert both[..|guild|] == guild && both[|guild| + 1..] == channel;
    assert guild[..|guild|] == guild;
  }

  /** `ensure_permission`; `granted` is the answer of the permission check, `None` when the check itself fails. */
  function EnsurePermission(selfService: bool, granted: Option<bool>): Option<MatrixReply> {
    if !selfService then Some(NotSelfService)
    else if granted.None? then Some(CheckFailed)
    else if granted.value then None
    else Some(NotPermitted)
  }

  function MatrixHandle(selfService: bool, parsed: Option<Parsed>, roomIsBridged: bool, granted: Option<bool>)
      : MatrixOutcome
  {
    if parsed.None? then MatrixIgnored else
    var p := parsed.value;
    var denied := EnsurePermission(selfService, granted);
    if p.command == "help" then MatrixReplied(Help)
    else if p.command == "bridge" then
      if denied.Some? then MatrixReplied(denied.value)
      else if roomIsBridged then MatrixReplied(AlreadyBridged)
      else
        var target := GuildAndChannel(p.args);
        if target.None? then MatrixReplied(InvalidSyntax) else MatrixBridge(target.value.0, target.value.1)
    else if p.command == "unbridge" then
      if denied.Some? then MatrixReplied(denied.value)
      else if !roomIsBridged then MatrixReplied(NotBridged)
      else MatrixUnbridge
    else MatrixReplied(Unknown)
  }

  /** A room is bridged or unbridged only for a permitted sender, with self-service enabled. */
  lemma MatrixGate(selfService: bool, parsed: Option<Parsed>, roomIsBridged: bool, granted: Option<bool>)
    ensures var outcome := MatrixHandle(selfService, parsed, roomIsBridged, granted);
            var permitted := selfService && granted == Some(true);
            && (outcome.MatrixBridge? <==>
                  && permitted && parsed.Some? && parsed.value.command == "bridge" && !roomIsBridged
                  && GuildAndChannel(parsed.value.args).Some?)
            && (outcome.MatrixUnbridge? <==>
                  permitted && parsed.Some? && parsed.value.command == "unbridge" && roomIsBridged)
  {
    assert "bridge" != "unbridge" && "help" != "bridge";
  }

  /** Why a command is refused: who may not, then what is missing, then what is malformed. */
  lemma MatrixRefusals(selfService: bool, p: Parsed, roomIsBridged: bool, granted: Option<bool>)
    ensures var outcome := MatrixHandle(selfService, Some(p), roomIsBridged, granted);
            var changes := p.command == "bridge" || p.command == "unbridge";
            && (outcome == MatrixReplied(Help) <==> p.command == "help")
            && (outcome == MatrixReplied(Unknown) <==> !changes && p.command != "help")
            && (outcome == MatrixReplied(NotSelfService) <==> changes && !selfService)
            && (outcome == MatrixReplied(CheckFailed) <==> changes && selfService && granted.None?)
            && (outcome == MatrixReplied(NotPermitted) <==> changes && selfService && granted == Some(false))
            && (outcome == MatrixReplied(AlreadyBridged) <==>
                  p.command == "bridge" && selfService && granted == Some(true) && roomIsBridged)
            && (outcome == MatrixReplied(NotBridged) <==>
                  p.command == "unbridge" && selfService && granted == Some(true) && !roomIsBridged)
    ensures MatrixHandle(selfService, None, roomIsBridged, granted) == MatrixIgnored
  {
    hide GuildAndChannel;
    assert "bridge" != "unbridge" && "help" != "bridge" && "help" != "unbridge";
  }

  /** A request names the guild and channel that were read. */
  lemma MatrixRequestIsRead(selfService: bool, p: Parsed, roomIsBridged: bool, granted: Option<bool>)
    ensures var outcome := MatrixHandle(selfService, Some(p), roomIsBridged, granted);
            outcome.MatrixBridge? ==> GuildAndChannel(p.args) == Some((outcome.guild, outcome.channel))
  {
    hide GuildAndChannel;
  }

  /** A guild and a channel are read exactly from two non-empty arguments or a slash between non-empty parts. */
  lemma GuildAndChannelExactly(args: seq<string>, guild: string, channel: string)
    requires '/' !in guild
    ensures GuildAndChannel(args) == Some((guild, channel)) ==>
              && guild != "" && channel != "" && args != []
              && (args[0] == guild || StartsWith(args[0], guild + "/"))
              && (|args| >= 2 ==> args[1] == channel) && (|args| == 1 ==> args[0] == guild + "/" + channel)
    ensures GuildAndChannel([guild]).None?
  {
    if GuildAndChannel(args) == Some((guild, channel)) {
      var cut := IndexOf(args[0], '/');
      assert guild == args[0][..cut];
      if cut < |args[0]| {
        assert args[0] == args[0][..cut] + [args[0][cut]] + args[0][cut + 1..];
        assert guild + "/" == args[0][..cut + 1];
      }
    }
  }

  // ------------------------------------------------------------------ !matrix ... in a Slack channel

  datatype Moderation = Kick | Ban | Unban

  datatype SlackReply =
    SlackHelp | PermissionDenied | SlackNotPlumbed | SlackAlreadyBridged | SlackSyntax | SlackUnknown

  datatype SlackOutcome =
    | SlackIgnored
    | SlackReplied(reply: SlackReply)
    | ApproveRequested
    | DenyRequested
    | ModerationRequested(action: Moderation, user: string)
    | SlackUnbridge
    | SlackBridge(guild: string, channel: string)

  function Moderate(args: seq<string>, granted: set<string>, needed: string, action: Moderation): SlackOutcome {
    if needed !in granted then SlackReplied(PermissionDenied)
    else if Join(args, " ") == "" then SlackReplied(SlackSyntax)
    else ModerationRequested(action, Join(args, " "))
  }

  function SlackHandle(parsed: Option<Parsed>, bridged: bool, granted: set<string>): SlackOutcome {
    if parsed.None? then SlackIgnored else
    var p := parsed.value;
    if p.command == "help" then SlackReplied(SlackHelp)
    else if p.command == "approve" then
      if MANAGE_WEBHOOKS !in granted then SlackReplied(PermissionDenied) else ApproveRequested
    else if p.command == "deny" then
      if MANAGE_WEBHOOKS !in granted then SlackReplied(PermissionDenied) else DenyRequested
    else if p.command == "bridge" then
      if !({MANAGE_WEBHOOKS, MANAGE_CHANNELS} <= granted) then SlackReplied(PermissionDenied)
      else if bridged then SlackReplied(SlackAlreadyBridged)
      else if |p.args| < 2 then SlackReplied(SlackSyntax)
      else SlackBridge(p.args[0], p.args[1])
    else if p.command == "unbridge" then
      if !({MANAGE_WEBHOOKS, MANAGE_CHANNELS} <= granted) then SlackReplied(PermissionDenied)
      else if !bridged then SlackReplied(SlackNotPlumbed)
      else SlackUnbridge
    else if p.command == "kick" then Moderate(p.args, granted, "KICK_MEMBERS", Kick)
    else if p.command == "ban" then Moderate(p.args, granted, "BAN_MEMBERS", Ban)
    else if p.command == "unban" then Moderate(p.args, granted, "BAN_MEMBERS", Unban)
    else SlackReplied(SlackUnknown)
  }

  /** Who may answer a bridge request, and who may change bridges, from a Slack channel. */
  lemma SlackGate(parsed: Option<Parsed>, bridged: bool, granted: set<string>)
    ensures var outcome := SlackHandle(parsed, bridged, granted);
            && (outcome.ApproveRequested? <==>
                  parsed.Some? && parsed.value.command == "approve" && MANAGE_WEBHOOKS in granted)
            && (outcome.DenyRequested? <==>
                  parsed.Some? && parsed.value.command == "deny" && MANAGE_WEBHOOKS in granted)
            && (outcome.SlackUnbridge? <==>
                  && parsed.Some? && parsed.value.command == "unbridge" && bridged
                  && MANAGE_WEBHOOKS in granted && MANAGE_CHANNELS in granted)
            && (outcome.SlackBridge? <==>
                  && parsed.Some? && parsed.value.command == "bridge" && !bridged && |parsed.value.args| >= 2
                  && MANAGE_WEBHOOKS in granted && MANAGE_CHANNELS in granted)
  {
    hide Moderate;
    if parsed.Some? {
      ModerationIsNoGate(parsed.value.args, granted, "KICK_MEMBERS", Kick);
      ModerationIsNoGate(parsed.value.args, granted, "BAN_MEMBERS", Ban);
      ModerationIsNoGate(parsed.value.args, granted, "BAN_MEMBERS", Unban);
    }
    CommandsDiffer();
  }

  /** A Slack command names its guild first and its channel second. */
  lemma SlackRequestIsRead(p: Parsed, bridged: bool, granted: set<string>)
    ensures var outcome := SlackHandle(Some(p), bridged, granted);
            outcome.SlackBridge? ==> |p.args| >= 2 && outcome.guild == p.args[0] && outcome.channel == p.args[1]
    ensures SlackHandle(None, bridged, granted) == SlackIgnored
  {
    hide Moderate;
    ModerationIsNoGate(p.args, granted, "KICK_MEMBERS", Kick);
    ModerationIsNoGate(p.args, granted, "BAN_MEMBERS", Ban);
    ModerationIsNoGate(p.args, granted, "BAN_MEMBERS", Unban);
  }

  /** Why a Slack command is refused: its sender may not, or the channel or its arguments are not as needed. */
  lemma SlackRefusals(p: Parsed, bridged: bool, granted: set<string>)
    ensures var outcome := SlackHandle(Some(p), bridged, granted);
            var manages := MANAGE_WEBHOOKS in granted && MANAGE_CHANNELS in granted;
            && (outcome == SlackReplied(SlackHelp) <==> p.command == "help")
            && (outcome == SlackReplied(SlackAlreadyBridged) <==> p.command == "bridge" && manages && bridged)
            && (outcome == SlackReplied(SlackNotPlumbed) <==> p.command == "unbridge" && manages && !bridged)
            && (outcome == SlackReplied(PermissionDenied) <==>
                  || ((p.command == "approve" || p.command == "deny") && MANAGE_WEBHOOKS !in granted)
                  || ((p.command == "bridge" || p.command == "unbridge") && !manages)
                  || (p.command == "kick" && "KICK_MEMBERS" !in granted)
                  || ((p.command == "ban" || p.command == "unban") && "BAN_MEMBERS" !in granted))
  {
    hide Join;
    CommandsDiffer();
    ModerationDiffers();
  }

  lemma ModerationIsNoGate(args: seq<string>, granted: set<string>, needed: string, action: Moderation)
    ensures Moderate(args, granted, needed, action).SlackReplied?
         || Moderate(args, granted, needed, action).ModerationRequested?
  {
  }

  /** Kicks need the right to kick, bans and their removal the right to ban, and each a name. */
  lemma ModerationGate(p: Parsed, bridged: bool, granted: set<string>, user: string)
    ensures var outcome := SlackHandle(Some(p), bridged, granted);
            var named := user == Join(p.args, " ") && user != "";
            && (outcome == ModerationRequested(Kick, user) <==>
                  p.command == "kick" && "KICK_MEMBERS" in granted && named)
            && (outcome == ModerationRequested(Ban, user) <==>
                  p.command == "ban" && "BAN_MEMBERS" in granted && named)
            && (outcome == ModerationRequested(Unban, user) <==>
                  p.command == "unban" && "BAN_MEMBERS" in granted && named)
  {
    hide Join;
    CommandsDiffer();
    ModerationDiffers();
  }

  lemma ModerationDiffers()
    ensures forall c :: c in ["help", "approve", "deny", "bridge", "unbridge"] ==>
              c != "kick" && c != "ban" && c != "unban"
    ensures "kick" != "ban" && "kick" != "unban" && "ban" != "unban"
  {
    assert "bridge"[1] == 'r' && "ban"[1] == 'a' && "unbridge"[2] == 'b' && "unban"[2] == 'b'
           && |"unbridge"| != |"unban"|;
  }

  lemma CommandsDiffer()
    ensures "help" != "approve" && "help" != "deny" && "help" != "bridge" && "help" != "unbridge"
    ensures "approve" != "deny" && "approve" != "unbridge" && "approve" != "bridge" && "deny" != "unbridge"
    ensures "deny" != "bridge" && "bridge" != "unbridge"
  {
    assert "help"[0] == 'h' && "approve"[0] == 'a' && "deny"[0] == 'd' && "bridge"[0] == 'b' && "unbridge"[0] == 'u';
  }
}
