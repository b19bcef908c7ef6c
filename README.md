# Ticket bot model

This project models the deterministic core of a single-file Discord ticket bot (`main.py`). It covers:

- The operator commands that fill the bot's three tables:
  - `categories(id, main, sub)`: main categories with optional sub-categories.
  - `config(key, value)`: the entry panel's title and description.
  - `admins(id)`: role or member ids granted access to every ticket opened while they are registered.
- The publish command `setup`, which posts the entry panel with a main-category select.
- The category cascade. Picking a main category either asks for a sub-category or opens a ticket straight away. The placeholder value `"none"` only produces a notice.
- `create_ticket_channel`. It creates a channel named `ticket-<category>-<user>`, then writes the permission overwrites in order:
  1. hide it from the default (`@everyone`) role;
  2. admit the requester;
  3. admit every admin id that resolves to a role or a member.

  Finally it posts the welcome panel with the close button.
- The button handler `on_interaction`:
  - Close takes away the presser's overwrite and posts the delete button.
  - Delete renders the channel history as a text transcript, sends it to the log channel `티켓-로그`, creating that channel if needed, and deletes the ticket channel.

Files and modules:

- `store.dfy`, module `TicketStore`: the tables. It is a `Store` class whose methods are the operator commands.
- `selection.dfy`, module `Selection`: the options of the main select and the routing of a choice, as pure functions over the category rows.
- `transcript.dfy`, module `Transcript`: the `%Y-%m-%d %H:%M` timestamps and the transcript format. `BuildTranscript` is the accumulating loop, proved against the reference function `TranscriptOf`.
- `platform.dfy`, module `Platform`: the part of the chat platform the bot uses:
  - a `Guild` class with roles, members, channels in position order and channel creation, lookup and deletion;
  - a `TextChannel` class whose overwrites and messages change in place.
- `tickets.dfy`, module `Tickets`: ticket creation, the select callbacks and `setup`.
- `lifecycle.dfy`, module `Lifecycle`: close and delete.
- `wrappers.dfy`, module `Wrappers`: an `Option` type (a nullable column, a missing row, an unresolved id) and the generic `Distinct` predicate (no element occurs twice).

Everything that talks to the platform becomes a parameter:

- the interacting user;
- the current time;
- whether the invoker holds administrator rights;
- the interaction type and `custom_id`.

Notes on behaviour the code has and a reader would not expect:

- **Close by someone else.** The close branch removes the overwrite of whoever pressed the button, not that of the ticket's requester. The closing panel says the user can no longer see the channel. When the requester presses close, the requester's own overwrite is removed and the default role stays denied, unless the guild's id is an admin row (`Lifecycle.RequesterCloses`). Access through an admin role the requester holds is not modelled. When someone else presses close, a requester whose own id is not an admin row keeps view, send and history (`Lifecycle.OtherPresserLeavesRequester`). The code stores no link from a ticket channel to its requester.
- **Admin id equal to the guild id.** The default role has the guild's own id. An admin row with that id grants it view and send. This replaces the initial deny and makes every ticket opened while that row exists public; tickets opened earlier keep the deny, because registering an admin writes only the table (`Tickets.AdminGuildIdOpensTicket`).
- **A main category named `none`.** Such a category is listed in the menu as an option labelled `none`. Its value equals the empty-table placeholder's value, so picking it shows the notice, and its sub-categories can never be reached (`Selection.NoneCategoryShadowed`).
- **A main with and without sub-categories.** If a main has rows both with and without a sub, its sub-less row can never open a ticket under the main's own name (`Selection.MixedMainNeverLeaf`).
- **Duplicate subs.** Registering the same sub twice makes the sub query return it twice (`Selection.DuplicateSubsKept`). The prompt then builds two options with the same value, which the platform may refuse.
- **Colliding names.** Ticket names of different (category, user) pairs can collide (`Tickets.TicketNameCollides`).

## Model

| member | source | states |
|---|---|---|
| TicketStore.ConfigOr | main.py:98-101 | the stored value when the key has a row, the built-in default exactly when it has none |
| TicketStore.Store.constructor | main.py:11-13 | a fresh database has no categories, no config rows and no admins |
| TicketStore.Store.AddCategory | main.py:116-119 | a plain insert: the row is appended after all earlier rows (duplicates kept), the other tables are untouched |
| TicketStore.Store.SetEmbed | main.py:109-113 | both keys now hold the new texts, every other key keeps its value, no key disappears, the other tables are untouched |
| TicketStore.Store.AddAdmin | main.py:122-125 | insert-or-replace on the primary key: the id is present afterwards and re-adding an existing id changes nothing |
| TicketStore.Store.SetupTexts | main.py:98-101 | each text is the stored value when its row exists (even an empty string) and the built-in default otherwise |
| TicketStore.SetEmbedTwiceKeepsLast | main.py:111-112 | two updates leave the same table as the last one alone |
| TicketStore.SetupAfterSetEmbed | main.py:98-112 | after an update, the publish command shows exactly the texts just written |
| Selection.DistinctMains | main.py:41-42 | the result holds each main category of the table exactly once and nothing else |
| Selection.MainOptions | main.py:41-46 | at least one option; the lone `"none"` placeholder for an empty table, otherwise exactly the distinct mains |
| Selection.SubsOf | main.py:55-56 | a string is listed iff it is non-empty and some row pairs it with that main; never longer than the table |
| Selection.SelectMain | main.py:49-63 | the notice iff the value is `"none"`; the sub prompt iff some row of that main has a non-empty sub, listing exactly those subs; otherwise a ticket named after the main |
| Selection.SubPromptListsSubs | main.py:56-61 | the second select offers the sub query's result itself (in insertion order, the model's choice), duplicates included |
| Selection.SubsAfterAddCategory | main.py:55-56 | a newly registered row extends its main's sub list by its sub when it qualifies and leaves it unchanged otherwise |
| Selection.DuplicateSubsKept | main.py:118 | the same sub registered twice is returned twice by the sub query |
| Selection.NoneCategoryShadowed | main.py:43-52 | in every table, a main literally named `none` with a qualifying sub is offered in the menu and has that sub in its list, yet picking it gives the notice |
| Selection.MixedMainNeverLeaf | main.py:55-63 | a main with any qualifying sub never creates a ticket directly |
| Transcript.Pad2RoundTrip | main.py:148 | a two-digit field reads back as the number it renders |
| Transcript.Pad4RoundTrip | main.py:148 | a four-digit year reads back as the year it renders |
| Transcript.Decimal | main.py:90 | the id in a mention is a non-empty digit string that reads back as the id and has no leading zero (only 0 itself starts with `0`) |
| Transcript.TimeStampRoundTrip | main.py:148 | a valid time renders as 16 characters with digits, dashes, a space and a colon in fixed places, and parses back to itself |
| Transcript.TimeStampInjective | main.py:148 | distinct valid times render differently |
| Transcript.TimeStamp | main.py:148 | the `%Y-%m-%d %H:%M` rendering; characterised by Transcript.TimeStampRoundTrip and Transcript.TimeStampInjective |
| Transcript.Header | main.py:146 | the transcript's first line, `--- Ticket Log: <name> ---` and a line break; counted as one line in Transcript.TranscriptLineCount |
| Transcript.LogLine | main.py:149 | one message's line; characterised by Transcript.LogLineIsOneLine and Transcript.LineAt |
| Transcript.TranscriptOf | main.py:146-149 | the reference transcript; Transcript.BuildTranscript is proved equal to it, and Transcript.LineAt and Transcript.TranscriptLineCount state its shape |
| Transcript.BuildTranscript | main.py:146-149 | the accumulated log equals the reference transcript: the header, then one line per message in history order |
| Transcript.LinesAppend | main.py:147-149 | the transcript lines of two consecutive stretches of history concatenate |
| Transcript.LineAt | main.py:147-149 | the k-th message contributes exactly its own line, between the lines of earlier and later messages |
| Transcript.LogLineIsOneLine | main.py:149 | a message whose author and content have no line break renders as exactly one line |
| Transcript.TranscriptLineCount | main.py:146-149 | a transcript of single-line messages has one line more than the channel has messages |
| Platform.HistoryAfterSend | main.py:147 | a sent post's message joins the history at the newest end, so the history lists messages oldest first in sending order |
| Platform.Resolve | main.py:81 | an id resolves to its role when a role has it, else to its member, else to nothing |
| Platform.FirstNamed | main.py:152 | the found channel has the name and no earlier channel has it; nothing is found iff no channel has it |
| Platform.Guild.constructor | main.py:67 | a guild starts with its default role and no channels |
| Platform.Guild.CreateTextChannel | main.py:71 | a fresh, empty channel with no overwrites gets an unused id and goes last in position order |
| Platform.Guild.FindByName | main.py:152 | the position-order scan returns the first channel with the name |
| Platform.Guild.DeleteChannel | main.py:158 | the channel leaves the guild and the others keep their positions |
| Platform.WithoutSpec | main.py:158 | removing a channel id keeps exactly the other ids, still without repeats |
| Platform.TextChannel.constructor | main.py:71 | a new channel has its name, no overwrites and no messages |
| Platform.TextChannel.SetPermissions | main.py:74 | the new overwrite replaces any earlier one for that target; messages are untouched |
| Platform.TextChannel.ClearPermissions | main.py:136 | the target's overwrite is gone and the rest are kept |
| Platform.TextChannel.Send | main.py:157 | the post becomes the newest message; the overwrites are untouched |
| Tickets.TicketName | main.py:71 | the channel name; characterised by Tickets.TicketNameShape, Tickets.TicketNameCollides and Lifecycle.TicketIsNotLogChannel |
| Tickets.Mention | main.py:90 | `<@`, the user's id in decimal without leading zeros (reading back as the id), then `>` |
| Tickets.WelcomePost | main.py:85-90 | the welcome message: the mention and the fixed text, with the ticket panel carrying the close button (Lifecycle.PanelButtonsRoute) |
| Tickets.TicketOverwrites | main.py:74-83 | the overwrites after the ordered writes; characterised target by target by Tickets.TicketPermissions |
| Tickets.MenuPost | main.py:103-107 | the entry panel: the configured texts (TicketStore.SetupTexts) and the main options (Selection.MainOptions); posted by Tickets.Setup |
| Tickets.ResolvedAdmins | main.py:79-83 | a target is granted iff its id is an admin row and that id resolves to it |
| Tickets.TicketPermissions | main.py:73-83 | a new ticket has overwrites for exactly the default role, the requester and every resolved admin; an admin grant wins over the first two writes, which otherwise keep their values |
| Tickets.AdminGuildIdOpensTicket | main.py:74-83 | an admin row equal to the guild id turns the default role's deny into view and send |
| Tickets.RequesterAndEveryoneKept | main.py:74-83 | without such admin rows the default role stays denied and the requester keeps full access |
| Tickets.GrantStep | main.py:80-83 | one more admin row adds its target's grant when it resolves and changes nothing when it does not |
| Tickets.GrantAdmins | main.py:79-83 | after the loop the overwrites are the earlier ones with every resolved admin's grant laid over them, whatever the row order; messages are untouched |
| Tickets.CreateTicketChannel | main.py:66-91 | a fresh channel appears last with the ticket name, exactly the ticket overwrites and the welcome panel as its only message; no other channel changes |
| Tickets.OnMainSelected | main.py:49-63 | the outcome is the routing decision; a channel is created iff the decision is to create a ticket, and otherwise the channels and their order are unchanged; roles and members never change |
| Tickets.OnSubSelected | main.py:35-36 | the picked sub names the new ticket, created as by ticket creation, with roles and members unchanged |
| Tickets.Setup | main.py:95-107 | without administrator rights nothing is posted; with them the entry panel (configured texts, main options) becomes the channel's newest message |
| Tickets.TicketNameShape | main.py:71 | the channel name is `ticket-`, the category, a dash, then the user name |
| Tickets.TicketNameCollides | main.py:71 | two different (category, user) pairs can produce the same channel name |
| Tickets.Scenario | main.py:49-63 | with billing (no subs) and tech (login, payment), billing opens a ticket and tech prompts for exactly login and payment |
| Lifecycle.Route | main.py:130-144 | close iff a component interaction carries the close id, delete iff it carries the delete id, ignored otherwise |
| Lifecycle.PanelButtonsRoute | main.py:87 | the welcome panel's button routes to close, the closing panel's to delete, and no other panel has a button |
| Lifecycle.ClosedPost | main.py:138-142 | the closing panel with the delete button (Lifecycle.PanelButtonsRoute), sent by Lifecycle.CloseTicket |
| Lifecycle.LogPost | main.py:156-157 | the log message naming the channel, with the transcript attached as `<name>.txt`; sent by Lifecycle.DeleteTicket |
| Lifecycle.ClosedOverwrites | main.py:136 | exactly the presser's member overwrite is removed and every other overwrite keeps its value |
| Lifecycle.CloseTicket | main.py:134-142 | the presser's overwrite is removed and the closing panel becomes the newest message |
| Lifecycle.CloseIdempotent | main.py:136 | closing twice removes no more than closing once |
| Lifecycle.RequesterCloses | main.py:136 | when the requester closes a fresh ticket, the requester's own overwrite is removed and every other overwrite keeps its value; unless the guild's id is an admin row, the default role is still denied the view |
| Lifecycle.OtherPresserLeavesRequester | main.py:136 | when someone else closes a fresh ticket whose requester's id is not an admin row, the requester keeps view, send and history |
| Lifecycle.FindOrCreateLog | main.py:152-154 | the first channel named `티켓-로그` when there is one, with the guild unchanged; otherwise a fresh empty channel of that name created last |
| Lifecycle.TicketIsNotLogChannel | main.py:71 | a ticket channel's name never equals the log channel's |
| Lifecycle.DeleteTicket | main.py:144-158 | the first channel named `티켓-로그` (or a new one created last) gains one message carrying the ticket's transcript as `<name>.txt`, and an existing log channel keeps its overwrites; the ticket channel leaves the guild and the position order; no other channel changes |
| Lifecycle.OnInteraction | main.py:129-158 | the action is the routing decision; ignore changes nothing; close has the close effect with every other channel unchanged; delete has exactly the delete effect (which log channel, the new channel map and order, every other channel unchanged), and the log channel then ends with the transcript file |

## Left out

- The platform SDK itself: event dispatch, command registration and `tree.sync`, login with the bot token, and views that outlive a restart. The model starts from the values an interaction carries.
- The sub-category prompt's view has the platform's default 180-second timeout (main.py:59). After it the second select stops responding. The model treats the prompt as answerable at any time.
- Ephemeral replies: the "created", "updated" and "registered" acknowledgements and the sub-category prompt's message text. The prompt is modelled only by the options it offers.
- Embed text, colours, button labels and select placeholders. A panel is modelled only by the fields the logic depends on: the category, the options and the button ids.
- Discord's channel-name normalisation (lower case, spaces to dashes). Names are the raw formatted strings.
- The platform limit of 25 options per select. A table with more main categories or subs makes the real call fail; the model lists them all.
- API failures: missing permissions, rate limits, or deleting an overwrite that does not exist. Every platform call is modelled as succeeding.
- Concurrency. Each handler runs to completion on the state it starts from.
- Platform.Guild: roles and members are fixed sets. Recomputing positions when channels are moved by hand is not modelled; a created channel goes last.
- Selection.DistinctMains: SQL `DISTINCT` promises no order. The model lists mains in order of first occurrence, and its contract promises only membership and distinctness.
- Selection.SubsOf: the sub query has no `ORDER BY`, so its order is not promised by SQL. The model returns subs in insertion order; only its membership contract is what the query promises.
- TicketStore.Store.AddAdmin: the command's parameter type admits only roles. The model accepts any id, as a hand-edited table could hold member ids, which resolution also handles.
- Transcript.TimeStamp: the year is always padded to four digits. For years below 1000 the platform's `strftime('%Y')` may not pad. Times are in the timezone of the message's own timestamp.
- Transcript.LogLine: a message author is rendered by the text it is given. The conversion of a user object to text (`str(author)`) is not modelled.
- Lifecycle.DeleteTicket: the transcript is kept as text. The UTF-8 encoding into the attached file is not modelled.
- Lifecycle.OnInteraction: the promise that the log channel ends with the transcript assumes the channel being deleted is not itself named `티켓-로그`. When it is, and it is the first such channel, the transcript goes into that channel and is deleted with it.
