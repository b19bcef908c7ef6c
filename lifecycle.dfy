/**
 * The ticket's end of life (`on_interaction`): the close button takes the
 * presser's overwrite away and posts the delete button; the delete button
 * writes the channel's transcript to the log channel, creating that channel
 * when it does not exist yet, and deletes the ticket channel.
 */
module Lifecycle {
  import opened Wrappers
  import opened Transcript
  import opened Platform
  import opened Tickets

  /** `interaction.type`: only component interactions (buttons, selects) are routed here. */
  datatype InteractionKind = Component | ApplicationCommand | Autocomplete | ModalSubmit

  datatype Action = Close | Delete | Ignore

  /** The name of the channel that collects transcripts. */
  const LogChannelName: string := "티켓-로그"

  /** The dispatch of `on_interaction` on the interaction type and `custom_id`. */
  function Route(kind: InteractionKind, customId: Option<string>): (a: Action)
    ensures a == Close <==> kind == Component && customId == Some(CloseButton)
    ensures a == Delete <==> kind == Component && customId == Some(DeleteButton)
    ensures a == Ignore <==> kind != Component || (customId != Some(CloseButton) && customId != Some(DeleteButton))
  {
    if kind != Component then Ignore
    else if customId == Some(CloseButton) then Close
    else if customId == Some(DeleteButton) then Delete
    else Ignore
  }

  /** The buttons the bot posts lead where they should: the welcome panel's button
      closes, the closing panel's button deletes, and no other panel has a button. */
  lemma PanelButtonsRoute(category: string)
    ensures Route(Component, ButtonOf(TicketPanel(category))) == Close
    ensures Route(Component, ButtonOf(ClosedPanel)) == Delete
    ensures forall p: Panel :: !p.TicketPanel? && !p.ClosedPanel? ==> ButtonOf(p) == None
  {
  }

  /** The closing panel, the response to the close button, sent into the ticket channel. */
  function ClosedPost(now: DateTime, bot: string): Post {
    Post(Message(now, bot, ""), ClosedPanel, None)
  }

  /** The message that carries a transcript into the log channel. */
  function LogPost(channelName: string, log: string, now: DateTime, bot: string): Post {
    Post(Message(now, bot, "📄 **티켓 종료 기록:** `" + channelName + "`"), NoPanel,
         Some(Attachment(channelName + ".txt", log)))
  }

  /** The overwrites a close leaves: the presser's member overwrite is gone. */
  function ClosedOverwrites(m: map<Target, Perms>, presser: User): (r: map<Target, Perms>)
    ensures forall t :: t in r <==> t in m && t != Member(presser.id)
    ensures forall t :: t in r ==> r[t] == m[t]
  {
    m - {Member(presser.id)}
  }

  /** The close button's branch: `set_permissions(interaction.user, overwrite=None)`, then
      the closing panel. */
  method CloseTicket(ch: TextChannel, presser: User, now: DateTime, bot: string)
    modifies ch
    ensures ch.overwrites == ClosedOverwrites(old(ch.overwrites), presser)
    ensures ch.posts == old(ch.posts) + [ClosedPost(now, bot)]
  {
    ch.ClearPermissions(Member(presser.id));
    ch.Send(ClosedPost(now, bot));
  }

  /** Closing twice takes away nothing more than closing once. */
  lemma CloseIdempotent(m: map<Target, Perms>, presser: User)
    ensures ClosedOverwrites(ClosedOverwrites(m, presser), presser) == ClosedOverwrites(m, presser)
  {
    var once := ClosedOverwrites(m, presser);
    SameOverwrites(ClosedOverwrites(once, presser), once);
  }

  /** When the requester presses close on a fresh ticket, the requester's own
      overwrite goes and every other overwrite keeps its value; unless the guild's
      id is itself an admin row, the default role is still denied the view. */
  lemma RequesterCloses(guildId: nat, roles: set<nat>, members: set<nat>, user: User, admins: set<nat>, t: Target)
    requires t != Member(user.id)
    ensures var m := TicketOverwrites(guildId, roles, members, user, admins);
            var c := ClosedOverwrites(m, user);
            && Member(user.id) !in c
            && (t in c <==> t in m)
            && (t in c ==> c[t] == m[t])
            && (guildId !in admins ==> Role(guildId) in c && c[Role(guildId)] == DenyView)
  {
    TicketPermissions(guildId, roles, members, user, admins, Role(guildId));
  }

  /** The overwrite removed is the presser's, not the requester's: when someone else
      (an admin) presses close on a fresh ticket whose requester's id is not an admin
      row, the requester keeps its overwrite, still with view, send and history. */
  lemma OtherPresserLeavesRequester(guildId: nat, roles: set<nat>, members: set<nat>, user: User, admins: set<nat>, presser: User)
    requires presser.id != user.id
    requires user.id !in admins
    ensures var c := ClosedOverwrites(TicketOverwrites(guildId, roles, members, user, admins), presser);
            Member(user.id) in c && c[Member(user.id)] == RequesterPerms
  {
    var m := TicketOverwrites(guildId, roles, members, user, admins);
    TicketPermissions(guildId, roles, members, user, admins, Member(user.id));
    assert forall a :: a in admins ==> Resolve(roles, members, a) != Some(Member(user.id));
  }

  /** The log channel as the delete branch finds it: the first channel with the log
      name, or a new one created last. */
  method FindOrCreateLog(g: Guild) returns (lid: nat, lch: TextChannel)
    requires g.Valid()
    modifies g
    ensures g.Valid()
    ensures lid in g.channels && g.channels[lid] == lch && lch.name == LogChannelName
    ensures FirstNamed(old(g.order), old(g.channels), LogChannelName) == Some(lid) ==>
              g.order == old(g.order) && g.channels == old(g.channels)
    ensures FirstNamed(old(g.order), old(g.channels), LogChannelName).None? ==>
              && fresh(lch) && lch.overwrites == map[] && lch.posts == []
              && lid !in old(g.channels) && g.order == old(g.order) + [lid] && g.channels == old(g.channels)[lid := lch]
    ensures FirstNamed(old(g.order), old(g.channels), LogChannelName) == Some(lid)
            || FirstNamed(old(g.order), old(g.channels), LogChannelName).None?
    ensures g.roles == old(g.roles) && g.members == old(g.members)
  {
    var found := g.FindByName(LogChannelName);
    if found.Some? {
      lid := found.value;
      lch := g.channels[lid];
    } else {
      lid, lch := g.CreateTextChannel(LogChannelName);
    }
  }

  /** A ticket channel is never taken for the log channel: their names differ at the first letter. */
  lemma TicketIsNotLogChannel(category: string, userName: string)
    ensures TicketName(category, userName) != LogChannelName
  {
    assert TicketName(category, userName)[0] == 't';
  }

  /** The delete button's branch: render the channel's history, append it to the log
      channel, delete the ticket channel. */
  method DeleteTicket(g: Guild, cid: nat, now: DateTime) returns (lid: nat, lch: TextChannel)
    requires g.Valid() && cid in g.channels
    modifies g, g.channels.Values
    ensures g.Valid()
    ensures cid !in g.channels && lch.name == LogChannelName
    ensures var ch := old(g.channels[cid]);
            var entry := LogPost(ch.name, TranscriptOf(ch.name, HistoryOf(old(ch.posts))), now, g.botName);
            if lid in old(g.channels) then
              && FirstNamed(old(g.order), old(g.channels), LogChannelName) == Some(lid)
              && lch == old(g.channels[lid]) && lch.posts == old(g.channels[lid].posts) + [entry]
              && lch.overwrites == old(g.channels[lid].overwrites)
              && g.channels == old(g.channels) - {cid}
              && g.order == Without(old(g.order), cid)
            else
              && FirstNamed(old(g.order), old(g.channels), LogChannelName).None?
              && fresh(lch) && lch.posts == [entry] && lch.overwrites == map[]
              && g.channels == old(g.channels)[lid := lch] - {cid}
              && g.order == Without(old(g.order) + [lid], cid)
    ensures forall c :: c in old(g.channels.Values) && c != lch ==> unchanged(c)
    ensures g.roles == old(g.roles) && g.members == old(g.members)
  {
    var ch := g.channels[cid];
    var log := BuildTranscript(ch.name, HistoryOf(ch.posts));
    lid, lch := FindOrCreateLog(g);
    lch.Send(LogPost(ch.name, log, now, g.botName));
    g.DeleteChannel(cid);
  }

  /** `on_interaction`: route the interaction, then close, delete, or change nothing.
      For a delete, `log` is the id and object of the log channel the transcript went to. */
  method OnInteraction(g: Guild, kind: InteractionKind, customId: Option<string>, cid: nat, presser: User, now: DateTime)
    returns (action: Action, log: Option<(nat, TextChannel)>)
    requires g.Valid() && cid in g.channels
    modifies g, g.channels.Values
    ensures g.Valid()
    ensures action == Route(kind, customId)
    ensures log.Some? <==> action == Delete
    ensures g.roles == old(g.roles) && g.members == old(g.members)
    ensures action != Delete ==> g.order == old(g.order) && g.channels == old(g.channels)
    ensures action == Ignore ==> forall c :: c in old(g.channels.Values) ==> unchanged(c)
    ensures action == Close ==>
              var ch := old(g.channels[cid]);
              && ch.overwrites == ClosedOverwrites(old(ch.overwrites), presser)
              && ch.posts == old(ch.posts) + [ClosedPost(now, g.botName)]
              && forall c :: c in old(g.channels.Values) && c != ch ==> unchanged(c)
    ensures action == Delete ==> cid !in g.channels && log.value.1.name == LogChannelName
    ensures action == Delete ==>
              var lid, lch := log.value.0, log.value.1;
              var ch := old(g.channels[cid]);
              var entry := LogPost(ch.name, TranscriptOf(ch.name, HistoryOf(old(ch.posts))), now, g.botName);
              if lid in old(g.channels) then
                && FirstNamed(old(g.order), old(g.channels), LogChannelName) == Some(lid)
                && lch == old(g.channels[lid]) && lch.posts == old(g.channels[lid].posts) + [entry]
                && lch.overwrites == old(g.channels[lid].overwrites)
                && g.channels == old(g.channels) - {cid}
                && g.order == Without(old(g.order), cid)
              else
                && FirstNamed(old(g.order), old(g.channels), LogChannelName).None?
                && fresh(lch) && lch.posts == [entry] && lch.overwrites == map[]
                && g.channels == old(g.channels)[lid := lch] - {cid}
                && g.order == Without(old(g.order) + [lid], cid)
    ensures action == Delete ==> forall c :: c in old(g.channels.Values) && c != log.value.1 ==> unchanged(c)
    ensures action == Delete && old(g.channels[cid].name) != LogChannelName ==>
              var lid := log.value.0;
              && lid in g.channels && g.channels[lid] == log.value.1
              && g.channels[lid].posts[|g.channels[lid].posts| - 1].file
                 == Some(Attachment(old(g.channels[cid].name) + ".txt",
                                    TranscriptOf(old(g.channels[cid].name), HistoryOf(old(g.channels[cid].posts)))))
  {
    action := Route(kind, customId);
    if action == Close {
      CloseTicket(g.channels[cid], presser, now, g.botName);
      log := None;
    } else if action == Delete {
      ghost var name := g.channels[cid].name;
      var lid, lch := DeleteTicket(g, cid, now);
      log := Some((lid, lch));
      if name != LogChannelName {
        assert lid != cid;
        assert lid in g.channels && g.channels[lid] == lch;
      }
    } else {
      log := None;
    }
  }
}
