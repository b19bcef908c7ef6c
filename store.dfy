/**
 * The bot's persistent store: the three sqlite tables `categories`,
 * `config` and `admins`, with the effects of the operator commands
 * `set_embed`, `add_category` and `add_admin`, and the reads made by `setup`.
 */
module TicketStore {
  import opened Wrappers

  /** One row of the `categories` table; `sub` is the nullable column. */
  datatype CategoryRow = CategoryRow(main: string, sub: Option<string>)

  const TitleKey: string := "title"
  const DescKey: string := "desc"

  /** Built-in texts the publish command falls back to when a key has no row. */
  const DefaultTitle: string := "고객센터 문의하기"
  const DefaultDesc: string := "아래 메뉴를 눌러 상담을 시작하세요."

  /** The value stored for `key`, or `default` when the key has no row. */
  function ConfigOr(config: map<string, string>, key: string, default: string): (r: string)
    ensures key in config ==> r == config[key]
    ensures key !in config ==> r == default
  {
    if key in config then config[key] else default
  }

  class Store {
    /** `categories(id, main, sub)`: rows in insertion order; never updated or deleted. */
    var categories: seq<CategoryRow>
    /** `config(key PRIMARY KEY, value)`. */
    var config: map<string, string>
    /** `admins(id PRIMARY KEY)`: role or member ids. */
    var admins: set<nat>

    /** The tables as `CREATE TABLE IF NOT EXISTS` leaves them on a fresh database. */
    constructor ()
      ensures categories == [] && config == map[] && admins == {}
    {
      categories := [];
      config := map[];
      admins := {};
    }

    /** `add_category`: a plain INSERT, so every call appends a row, duplicates included. */
    method AddCategory(main: string, sub: Option<string>)
      modifies this
      ensures categories == old(categories) + [CategoryRow(main, sub)]
      ensures |categories| == |old(categories)| + 1
      ensures config == old(config) && admins == old(admins)
    {
      categories := categories + [CategoryRow(main, sub)];
    }

    /** `set_embed`: two INSERT OR REPLACE statements, title first, then desc. */
    method SetEmbed(title: string, desc: string)
      modifies this
      ensures config == old(config)[TitleKey := title][DescKey := desc]
      ensures config.Keys == old(config).Keys + {TitleKey, DescKey}
      ensures config[TitleKey] == title && config[DescKey] == desc
      ensures forall k :: k in old(config) && k != TitleKey && k != DescKey ==>
                k in config && config[k] == old(config)[k]
      ensures categories == old(categories) && admins == old(admins)
    {
      config := config[TitleKey := title];
      config := config[DescKey := desc];
    }

    /** `add_admin`: INSERT OR REPLACE on the primary key, so an id is held at most once. */
    method AddAdmin(id: nat)
      modifies this
      ensures admins == old(admins) + {id}
      ensures id in admins
      ensures old(id in admins) ==> admins == old(admins)
      ensures categories == old(categories) && config == old(config)
    {
      admins := admins + {id};
    }

    /** The title and description `setup` publishes: the stored value when the key
        has a row, even an empty string, and the built-in default otherwise. */
    method SetupTexts() returns (title: string, desc: string)
      ensures TitleKey in config ==> title == config[TitleKey]
      ensures TitleKey !in config ==> title == DefaultTitle
      ensures DescKey in config ==> desc == config[DescKey]
      ensures DescKey !in config ==> desc == DefaultDesc
    {
      title := ConfigOr(config, TitleKey, DefaultTitle);
      desc := ConfigOr(config, DescKey, DefaultDesc);
    }
  }

  /** Setting the texts twice leaves one value per key, the last one written. */
  lemma SetEmbedTwiceKeepsLast(config: map<string, string>, t1: string, d1: string, t2: string, d2: string)
    ensures var c := config[TitleKey := t1][DescKey := d1][TitleKey := t2][DescKey := d2];
            c == config[TitleKey := t2][DescKey := d2]
  {
  }

  /** After `set_embed(t, d)` the publish command shows exactly `t` and `d`,
      even when they are empty strings. */
  lemma SetupAfterSetEmbed(config: map<string, string>, t: string, d: string)
    ensures var c := config[TitleKey := t][DescKey := d];
            ConfigOr(c, TitleKey, DefaultTitle) == t && ConfigOr(c, DescKey, DefaultDesc) == d
  {
  }
}
