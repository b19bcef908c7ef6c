/**
 * An abstract chat-platform guild: its roles and members and its text channels
 * in position order; a text channel is an object with a fixed name whose
 * permission overwrites and posted messages change in place. Only the effects the ticket bot relies on are modelled.
 */
module Platform {
  import opened Wrappers
  import opened Transcript

  /** Whom a permission overwrite applies to. The default (`@everyone`) role is the
      role whose id is the guild's own id. */
  datatype Target = Role(id: nat) | Member(id: nat)

  /** A permission overwrite: each flag allowed, denied, or left to inheritance. */
  datatype Perms = Perms(view: Option<bool>, send: Option<bool>, history: Option<bool>)

  /** The interactive part of a bot message (embed and buttons). */
  datatype Panel =
    | NoPanel
    | MenuPanel(title: string, desc: string, options: seq<string>)  // entry point with the main select
    | TicketPanel(category: string)                                 // welcome panel with the close button
    | ClosedPanel                                                   // closing panel with the delete button

  datatype Attachment = Attachment(filename: string, body: string)

  /** A message in a channel: what history returns, plus panel and file. */
  datatype Post = Post(message: Message, panel: Panel, file: Option<Attachment>)


  /** The messages of a channel, oldest first, as `channel.history(oldest_first=True)` yields them. */
  function HistoryOf(posts: seq<Post>): seq<Message> {
    seq(|posts|, k requires 0 <= k < |posts| => posts[k].message)
  }

  /** Sending a post adds its message at the newest end of the history: the history
      lists messages in the order they were sent. */
  lemma HistoryAfterSend(posts: seq<Post>, p: Post)
    ensures HistoryOf(posts + [p]) == HistoryOf(posts) + [p.message]
  {
    var h, h' := HistoryOf(posts + [p]), HistoryOf(posts) + [p.message];
    assert |h| == |h'|;
    forall k | 0 <= k < |h| ensures h[k] == h'[k] {
      assert k < |posts| ==> (posts + [p])[k] == posts[k];
    }
  }

  /** `guild.get_role(id) or guild.get_member(id)`: a role first, then a member. */
  function Resolve(roles: set<nat>, members: set<nat>, id: nat): (r: Option<Target>)
    ensures r == Some(Role(id)) <==> id in roles
    ensures r == Some(Member(id)) <==> id !in roles && id in members
    ensures r == None <==> id !in roles && id !in members
  {
    if id in roles then Some(Role(id))
    else if id in members then Some(Member(id))
    else None
  }

  /** `discord.utils.get(channels, name=...)`: the first channel in `order` with that name. */
  function FirstNamed(order: seq<nat>, channels: map<nat, TextChannel>, name: string): (r: Option<nat>)
    requires forall c :: c in order ==> c in channels
    ensures r.Some? ==> r.value in order && channels[r.value].name == name
    ensures r.Some? ==> forall i :: 0 <= i < |order| && order[i] != r.value && channels[order[i]].name == name ==>
                          exists j :: 0 <= j < i && order[j] == r.value
    ensures r.None? <==> forall c :: c in order ==> channels[c].name != name
  {
    if order == [] then None
    else if channels[order[0]].name == name then Some(order[0])
    else
      var rest := FirstNamed(order[1..], channels, name);
      assert forall c :: c in order[1..] ==> c in order;
      assert forall c :: c in order ==> c == order[0] || c in order[1..];
      if rest.Some? then
        assert forall i :: 1 <= i < |order| ==> order[i] == order[1..][i - 1];
        rest
      else rest
  }

  /** A text channel: the name it was created with, its permission overwrites
      and the messages posted to it, oldest first. */
  class TextChannel {
    const name: string
    var overwrites: map<Target, Perms>
    var posts: seq<Post>

    constructor (name: string)
      ensures this.name == name && overwrites == map[] && posts == []
    {
      this.name := name;
      overwrites := map[];
      posts := [];
    }

    /** `channel.set_permissions(target, **flags)`: the new overwrite replaces any earlier one. */
    method SetPermissions(target: Target, perms: Perms)
      modifies this
      ensures overwrites == old(overwrites)[target := perms]
      ensures posts == old(posts)
    {
      overwrites := overwrites[target := perms];
    }

    /** `channel.set_permissions(target, overwrite=None)`: the target's overwrite is removed. */
    method ClearPermissions(target: Target)
      modifies this
      ensures overwrites == old(overwrites) - {target}
      ensures posts == old(posts)
    {
      overwrites := overwrites - {target};
    }

    /** `channel.send(...)`: the post becomes the newest message of the channel. */
    method Send(post: Post)
      modifies this
      ensures posts == old(posts) + [post]
      ensures overwrites == old(overwrites)
    {
      posts := posts + [post];
    }
  }

  class Guild {
    /** The guild's id, which is also the id of its default role. */
    const id: nat
    /** The text the bot's messages render as author in a transcript (`str(author)`, for a bot account its name and discriminator). */
    const botName: string
    var roles: set<nat>
    var members: set<nat>
    /** Text channel ids in position order; a new channel goes last. */
    var order: seq<nat>
    var channels: map<nat, TextChannel>
    /** The id the platform gives the next created channel. */
    var nextId: nat

    ghost predicate Valid()
      reads this
    {
      && id in roles
      && Distinct(order)
      && (forall c :: c in order <==> c in channels)
      && (forall c :: c in channels ==> c < nextId)
    }

    constructor (id: nat, botName: string, roles: set<nat>, members: set<nat>)
      ensures Valid()
      ensures this.id == id && this.botName == botName
      ensures this.roles == roles + {id} && this.members == members
      ensures order == [] && channels == map[]
    {
      this.id := id;
      this.botName := botName;
      this.roles := roles + {id};
      this.members := members;
      order := [];
      channels := map[];
      nextId := 0;
    }

    /** `guild.create_text_channel(name)`: a new empty channel with no overwrites, last in order. */
    method CreateTextChannel(name: string) returns (cid: nat, ch: TextChannel)
      requires Valid()
      modifies this
      ensures Valid()
      ensures fresh(ch) && ch.name == name && ch.overwrites == map[] && ch.posts == []
      ensures cid == old(nextId) && cid !in old(channels)
      ensures order == old(order) + [cid]
      ensures channels == old(channels)[cid := ch]
      ensures roles == old(roles) && members == old(members)
    {
      cid := nextId;
      assert cid !in order;
      ch := new TextChannel(name);
      order := order + [cid];
      channels := channels[cid := ch];
      nextId := nextId + 1;
    }

    /** `channel.delete()`: the channel leaves the guild; nothing else moves. */
    method DeleteChannel(cid: nat)
      requires Valid() && cid in channels
      modifies this
      ensures Valid()
      ensures channels == old(channels) - {cid}
      ensures order == Without(old(order), cid)
      ensures nextId == old(nextId) && roles == old(roles) && members == old(members)
    {
      WithoutSpec(order, cid);
      order := Without(order, cid);
      channels := channels - {cid};
    }

    /** `discord.utils.get(guild.text_channels, name=name)`: a scan in position order. */
    method FindByName(name: string) returns (r: Option<nat>)
      requires Valid()
      ensures r == FirstNamed(order, channels, name)
    {
      var i := 0;
      while i < |order|
        invariant 0 <= i <= |order|
        invariant FirstNamed(order, channels, name) == FirstNamed(order[i..], channels, name)
      {
        assert order[i..][1..] == order[i + 1..];
        if channels[order[i]].name == name {
          return Some(order[i]);
        }
        i := i + 1;
      }
      return None;
    }
  }

  /** `order` with `c` taken out, the rest in the same order. */
  function Without(order: seq<nat>, c: nat): seq<nat> {
    if order == [] then []
    else if order[0] == c then Without(order[1..], c)
    else [order[0]] + Without(order[1..], c)
  }

  lemma {:induction false} WithoutSpec(order: seq<nat>, c: nat)
    requires Distinct(order)
    ensures forall x :: x in Without(order, c) <==> x in order && x != c
    ensures Distinct(Without(order, c))
  {
    if order != [] {
      var rest := order[1..];
      assert Distinct(rest);
      WithoutSpec(rest, c);
      assert forall x :: x in order <==> x == order[0] || x in rest;
      if order[0] != c {
        var w := Without(rest, c);
        assert order[0] !in rest by {
          forall k | 0 <= k < |rest| ensures rest[k] != order[0] { assert rest[k] == order[k + 1]; }
        }
        var r := [order[0]] + w;
        forall i, j | 0 <= i < j < |r| ensures r[i] != r[j] {
          if i == 0 { assert r[j] == w[j - 1]; assert w[j - 1] in w; } else { assert r[i] == w[i - 1] && r[j] == w[j - 1]; }
        }
      }
    }
  }
}
