/**
 * Ticket creation (`create_ticket_channel`), the two select callbacks that
 * lead to it, and the publish command `setup` that posts the entry menu.
 */
module Tickets {
  import opened Wrappers
  import opened Transcript
  import opened TicketStore
  import opened Selection
  import opened Platform

  /** The interacting user: `interaction.user`. */
  datatype User = User(id: nat, name: string)

  const CloseButton: string := "ticket_close"
  const DeleteButton: string := "ticket_delete"

  /** `view_channel=False`, for the default role. */
  const DenyView: Perms := Perms(Some(false), None, None)
  /** `view_channel`, `send_messages` and `read_message_history`, for the requester. */
  const RequesterPerms: Perms := Perms(Some(true), Some(true), Some(true))
  /** `view_channel` and `send_messages`, for every resolvable admin grant. */
  const AdminPerms: Perms := Perms(Some(true), Some(true), None)

  /** `f"ticket-{category_name}-{user.name}"`. */
  function TicketName(category: string, userName: string): string {
    "ticket-" + category + "-" + userName
  }

  /** `user.mention`: the user's id in decimal, without leading zeros, between `<@` and `>`. */
  function Mention(u: User): (r: string)
    ensures |r| >= 4 && r[..2] == "<@" && r[|r| - 1] == '>'
    ensures var digits := r[2..|r| - 1];
            AllDigits(digits) && ValueOf(digits) == u.id && (digits[0] == '0' <==> u.id == 0)
  {
    assert ("<@" + Decimal(u.id) + ">")[2..|Decimal(u.id)| + 2] == Decimal(u.id);
    "<@" + Decimal(u.id) + ">"
  }

  /** The button a panel carries, by its `custom_id`. */
  function ButtonOf(p: Panel): Option<string> {
    match p
    case TicketPanel(_) => Some(CloseButton)
    case ClosedPanel => Some(DeleteButton)
    case _ => None
  }

  /** The welcome message posted into a new ticket channel. */
  function WelcomePost(u: User, category: string, now: DateTime, bot: string): Post {
    Post(Message(now, bot, Mention(u) + "님, 문의가 접수되었습니다."), TicketPanel(category), None)
  }

  // ---------------------------------------------------------------- permissions

  /** Target `t` holds an admin grant: its id is an admin row, and that id resolves to
      `t` (a role id to the role, otherwise a member id to the member). */
  predicate Granted(roles: set<nat>, members: set<nat>, admins: set<nat>, t: Target) {
    t.id in admins && Resolve(roles, members, t.id) == Some(t)
  }

  /** The targets the admin rows resolve to; ids that resolve to nothing are skipped. */
  function ResolvedAdmins(roles: set<nat>, members: set<nat>, admins: set<nat>): (r: set<Target>)
    ensures forall t :: t in r <==> Granted(roles, members, admins, t)
  {
    (set a | a in admins && a in roles :: Role(a)) + (set a | a in admins && a !in roles && a in members :: Member(a))
  }

  /** The overwrites the admin loop writes, one per resolved target. */
  function AdminGrants(roles: set<nat>, members: set<nat>, admins: set<nat>): map<Target, Perms> {
    map t | t in ResolvedAdmins(roles, members, admins) :: AdminPerms
  }

  /** The first two writes: deny the default role, admit the requester. */
  function BaseOverwrites(guildId: nat, user: User): map<Target, Perms> {
    map[Role(guildId) := DenyView][Member(user.id) := RequesterPerms]
  }

  /** The overwrite map of a new ticket, as the ordered writes leave it: later writes
      for the same target replace earlier ones, so admin grants come out on top. */
  function TicketOverwrites(guildId: nat, roles: set<nat>, members: set<nat>, user: User, admins: set<nat>): map<Target, Perms> {
    BaseOverwrites(guildId, user) + AdminGrants(roles, members, admins)
  }

  /** The permission invariant of a new ticket, target by target: exactly the default
      role, the requester and the resolvable admin grants have an entry, and each
      entry is the one written last for that target. */
  lemma TicketPermissions(guildId: nat, roles: set<nat>, members: set<nat>, user: User, admins: set<nat>, t: Target)
    ensures var m := TicketOverwrites(guildId, roles, members, user, admins);
            && (t in m <==> (t == Role(guildId) || t == Member(user.id)
                             || exists a :: a in admins && Resolve(roles, members, a) == Some(t)))
            && (t in m && (exists a :: a in admins && Resolve(roles, members, a) == Some(t)) ==> m[t] == AdminPerms)
            && (t in m && (forall a :: a in admins ==> Resolve(roles, members, a) != Some(t)) ==>
                  m[t] == (if t == Member(user.id) then RequesterPerms else DenyView))
  {
    if exists a :: a in admins && Resolve(roles, members, a) == Some(t) {
      var a :| a in admins && Resolve(roles, members, a) == Some(t);
      assert a == t.id;
      assert Granted(roles, members, admins, t);
    }
  }

  /** An admin id equal to the guild's id names the default role itself; its grant
      replaces the initial deny, so the ticket becomes visible to everyone. */
  lemma AdminGuildIdOpensTicket(guildId: nat, roles: set<nat>, members: set<nat>, user: User, admins: set<nat>)
    requires guildId in roles && guildId in admins
    ensures TicketOverwrites(guildId, roles, members, user, admins)[Role(guildId)] == AdminPerms
  {
    assert Role(guildId) in ResolvedAdmins(roles, members, admins);
  }

  /** When no admin id names the requester or the default role, those two keep the
      overwrites written for them. */
  lemma RequesterAndEveryoneKept(guildId: nat, roles: set<nat>, members: set<nat>, user: User, admins: set<nat>)
    requires guildId !in admins && (user.id in admins ==> user.id in roles)
    ensures var m := TicketOverwrites(guildId, roles, members, user, admins);
            && Role(guildId) in m && m[Role(guildId)] == DenyView
            && Member(user.id) in m && m[Member(user.id)] == RequesterPerms
  {
  }

  /** Two overwrite maps that agree target by target are the same map. */
  lemma SameOverwrites(m: map<Target, Perms>, n: map<Target, Perms>)
    requires forall t :: t in m <==> t in n
    requires forall t :: t in m ==> m[t] == n[t]
    ensures m == n
  {
  }

  // ---------------------------------------------------------------- creation

  /** `create_ticket_channel`: create the channel, write the overwrites in order
      (default role, requester, then every admin row that resolves), post the welcome panel. */
  method CreateTicketChannel(g: Guild, store: Store, user: User, category: string, now: DateTime)
    returns (cid: nat, ch: TextChannel)
    requires g.Valid()
    modifies g
    ensures g.Valid() && fresh(ch)
    ensures cid !in old(g.channels) && g.order == old(g.order) + [cid] && g.channels == old(g.channels)[cid := ch]
    ensures ch.name == TicketName(category, user.name)
    ensures ch.overwrites == TicketOverwrites(g.id, g.roles, g.members, user, store.admins)
    ensures ch.posts == [WelcomePost(user, category, now, g.botName)]
    ensures g.roles == old(g.roles) && g.members == old(g.members)
  {
    cid, ch := g.CreateTextChannel(TicketName(category, user.name));
    ch.SetPermissions(Role(g.id), DenyView);
    ch.SetPermissions(Member(user.id), RequesterPerms);
    GrantAdmins(g, ch, store.admins);
    ch.Send(WelcomePost(user, category, now, g.botName));
  }

  /** One more admin row: a row that resolves adds (or replaces) the grant of its
      target, and one that resolves to nothing leaves the overwrites as they were. */
  lemma GrantStep(roles: set<nat>, members: set<nat>, base: map<Target, Perms>, done: set<nat>, a: nat)
    ensures Resolve(roles, members, a).None? ==>
              base + AdminGrants(roles, members, done + {a}) == base + AdminGrants(roles, members, done)
    ensures Resolve(roles, members, a).Some? ==>
              base + AdminGrants(roles, members, done + {a})
              == (base + AdminGrants(roles, members, done))[Resolve(roles, members, a).value := AdminPerms]
  {
    var before := base + AdminGrants(roles, members, done);
    var after := base + AdminGrants(roles, members, done + {a});
    var r := Resolve(roles, members, a);
    if r.None? {
      forall t ensures Granted(roles, members, done + {a}, t) <==> Granted(roles, members, done, t) {
        if t.id == a { assert !Granted(roles, members, done + {a}, t); }
      }
      SameOverwrites(after, before);
    } else {
      var next := before[r.value := AdminPerms];
      forall t ensures Granted(roles, members, done + {a}, t) <==> Granted(roles, members, done, t) || t == r.value {
        if t == r.value { assert t.id == a; }
      }
      SameOverwrites(after, next);
    }
  }

  /** The admin loop of `create_ticket_channel`: every admin id that resolves gets
      view and send, replacing any earlier overwrite of that target. The loop visits
      the rows in any order; the result does not depend on it. */
  method GrantAdmins(g: Guild, ch: TextChannel, admins: set<nat>)
    modifies ch
    ensures ch.overwrites == old(ch.overwrites) + AdminGrants(g.roles, g.members, admins)
    ensures ch.posts == old(ch.posts)
  {
    var todo := admins;
    ghost var done: set<nat> := {};
    assert AdminGrants(g.roles, g.members, done) == map[];
    while todo != {}
      invariant todo + done == admins && todo !! done
      invariant ch.overwrites == old(ch.overwrites) + AdminGrants(g.roles, g.members, done)
      invariant ch.posts == old(ch.posts)
      decreases |todo|
    {
      var a :| a in todo;
      var target := Resolve(g.roles, g.members, a);
      GrantStep(g.roles, g.members, old(ch.overwrites), done, a);
      if target.Some? {
        ch.SetPermissions(target.value, AdminPerms);
      }
      todo := todo - {a};
      done := done + {a};
    }
  }

  // ---------------------------------------------------------------- select callbacks

  /** `MainCategorySelect.callback`: route on the picked value; only the leaf case
      creates a channel, and the guild is untouched otherwise. */
  method OnMainSelected(g: Guild, store: Store, user: User, value: string, now: DateTime)
    returns (outcome: MainOutcome, created: Option<TextChannel>)
    requires g.Valid()
    modifies g
    ensures g.Valid()
    ensures outcome == SelectMain(store.categories, value)
    ensures created.Some? <==> outcome.CreateTicket?
    ensures outcome.CreateTicket? ==>
              && fresh(created.value)
              && |g.order| == |old(g.order)| + 1 && g.order[..|old(g.order)|] == old(g.order)
              && g.channels == old(g.channels)[g.order[|old(g.order)|] := created.value]
              && created.value.name == TicketName(value, user.name)
              && created.value.overwrites == TicketOverwrites(g.id, g.roles, g.members, user, store.admins)
              && created.value.posts == [WelcomePost(user, value, now, g.botName)]
    ensures !outcome.CreateTicket? ==> g.order == old(g.order) && g.channels == old(g.channels)
    ensures g.roles == old(g.roles) && g.members == old(g.members)
  {
    outcome := SelectMain(store.categories, value);
    if outcome.CreateTicket? {
      var cid, ch := CreateTicketChannel(g, store, user, outcome.category, now);
      created := Some(ch);
    } else {
      created := None;
    }
  }

  /** `SubCategorySelect.callback`: the picked sub becomes the ticket's category. */
  method OnSubSelected(g: Guild, store: Store, user: User, value: string, now: DateTime)
    returns (cid: nat, ch: TextChannel)
    requires g.Valid()
    modifies g
    ensures g.Valid() && fresh(ch)
    ensures cid !in old(g.channels) && g.order == old(g.order) + [cid] && g.channels == old(g.channels)[cid := ch]
    ensures ch.name == TicketName(value, user.name)
    ensures ch.overwrites == TicketOverwrites(g.id, g.roles, g.members, user, store.admins)
    ensures ch.posts == [WelcomePost(user, value, now, g.botName)]
    ensures g.roles == old(g.roles) && g.members == old(g.members)
  {
    cid, ch := CreateTicketChannel(g, store, user, value, now);
  }

  // ---------------------------------------------------------------- publish command

  /** The entry-point message `setup` posts: the configured texts and the main select. */
  function MenuPost(config: map<string, string>, rows: seq<CategoryRow>, now: DateTime, bot: string): Post {
    Post(Message(now, bot, ""),
         MenuPanel(ConfigOr(config, TitleKey, DefaultTitle), ConfigOr(config, DescKey, DefaultDesc), MainOptions(rows)),
         None)
  }

  /** `setup`: without administrator rights the platform rejects the command and nothing
      is posted; otherwise the menu is posted into the invoking channel. */
  method Setup(g: Guild, store: Store, ch: TextChannel, isAdministrator: bool, now: DateTime)
    modifies ch
    ensures ch.overwrites == old(ch.overwrites)
    ensures !isAdministrator ==> ch.posts == old(ch.posts)
    ensures isAdministrator ==> ch.posts == old(ch.posts) + [MenuPost(store.config, store.categories, now, g.botName)]
  {
    if isAdministrator {
      var title, desc := store.SetupTexts();
      var options := MainOptions(store.categories);
      ch.Send(Post(Message(now, g.botName, ""), MenuPanel(title, desc, options), None));
    }
  }

  // ---------------------------------------------------------------- names

  /** The channel name starts with the fixed prefix, then the category, a dash,
      and the user's name. */
  lemma TicketNameShape(category: string, userName: string)
    ensures var n := TicketName(category, userName);
            && n[..7] == "ticket-"
            && n[7..7 + |category|] == category
            && n[7 + |category|] == '-'
            && n[|n| - |userName|..] == userName
  {
  }

  /** Different (category, user) pairs can share a channel name: nothing prevents the collision. */
  lemma TicketNameCollides()
    ensures TicketName("a-b", "c") == TicketName("a", "b-c")
  {
  }

  /** A worked configuration: with billing (no sub) and tech (login, payment), billing
      creates a ticket directly and tech prompts for exactly its subs. */
  lemma Scenario()
    ensures var rows := [CategoryRow("billing", None), CategoryRow("tech", Some("login")), CategoryRow("tech", Some("payment"))];
            && SelectMain(rows, "billing") == CreateTicket("billing")
            && SelectMain(rows, "tech") == SubPrompt("tech", ["login", "payment"])
  {
    var rows := [CategoryRow("billing", None), CategoryRow("tech", Some("login")), CategoryRow("tech", Some("payment"))];
    assert rows[..2][..1][..0] == [];
    assert rows[..2][..1] == rows[..1];
    assert rows[..2] == rows[..|rows| - 1];
    assert SubsOf(rows[..1], "tech") == [];
    assert SubsOf(rows[..2], "tech") == ["login"];
    assert SubsOf(rows[..1], "billing") == [];
    assert SubsOf(rows[..2], "billing") == [];
  }
}
