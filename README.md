# Blind bag bot: the bag and session manager

BlindBagBot is a chat bot that keeps named bags of text items and runs
"blind bag" sessions on them. A session is a shuffled copy of a bag. It is
tied to one status message, and every reaction on that message hands the
next item to the user who reacted. All of the bot's state lives in three
module-level dictionaries of `main.py`:

- `bags`: bag name to its list of items;
- `active_sessions`: status message id to the items of its session not pulled yet;
- `bag_tracker`: bag name to the status message of the session running on it.

This project models those dictionaries and every handler that reads or
changes them, except `$showallbags`, which only lists the keys of `bags`. The model is in three modules:

- `ItemText` (`items.dfy`): the comma parser shared by `$add` and `$remove`.
  It is `str.split(',')`, then `str.strip()` on each piece, then dropping
  the empty pieces. This module is pure functions with lemmas about them.
- `ItemLists` (`lists.dfy`): the list operations the handlers use:
  - `list.index`;
  - `list.remove` behind its `in` guard;
  - the remove handler's sequence of removals;
  - `random.shuffle` (CPython's Fisher-Yates loop), with its random draws passed in.
- `BlindBag` (`bot.dfy`): class `BagBot`.
  - Its three `map` fields are the three dictionaries.
  - Its methods are the command handlers and the state part of the reaction handler.
  - Each method returns a `Result` or `Reaction` value in place of the chat message.
  - `Valid()` is the object invariant. The tracker and the sessions index each
    other, so every session is tracked by exactly one bag and every tracked id is a
    session. A tracked bag exists. Everything stored is an item as the parser yields it.

`Scenario` (`scenario.dfy`) is a client of `BagBot`. It uses only the handlers'
contracts to run one bag through its whole life:
- fill it and fail a drop;
- start a session and pull all three items, then get an empty pull;
- fail to delete the bag or start a second session while the first runs;
- end the session and start a new one.

Behaviour the code does not have, which the model therefore leaves out too:
- Bags are not scoped per server. `bags` is one dictionary for the whole bot.
- `$add` appends duplicates; it skips nothing.
- Of the handlers that change a bag, only `$delete` looks at `bag_tracker`. `$add`,
  `$remove` and `$drop` change a bag even while a session runs on it. The session is unaffected because it holds a copy.
- `$start` reports a missing bag and an empty bag in one branch, so both give the
  single error `MissingOrEmpty`.
- A session that runs out of items stays registered, and its bag stays locked,
  until `$end`.

## Model

| member | source | states |
|---|---|---|
| `ItemText.Strip` | main.py:97 | the stripped piece has no whitespace at either end |
| `ItemText.TrimStartSpec` | main.py:97 | stripping the front leaves the suffix after a run of whitespace, and that suffix starts with a non-space |
| `ItemText.TrimEndSpec` | main.py:97 | stripping the back leaves the prefix before a run of whitespace, and that prefix ends with a non-space |
| `ItemText.StripAllSpace` | main.py:96-97 | a piece made only of whitespace strips to the empty string, which the comprehension then drops |
| `ItemText.StripPadded` | main.py:95-97 | for any whitespace padding around a stripped text, strip returns exactly that text (strip's reference characterisation) |
| `ItemText.StripKeepsChars` | main.py:97 | strip keeps only characters of its input, so a stripped piece of a comma split has no comma |
| `ItemText.StripEmptyIff` | main.py:96-97 | a piece strips to empty if and only if it is all whitespace |
| `ItemText.Split` | main.py:97 | `split(',')` yields at least one piece, and no piece contains the separator |
| `ItemText.SplitConcat` | main.py:97 | splitting `a,b` gives the pieces of `a` followed by those of `b` |
| `ItemText.SplitNoSep` | main.py:119 | text without a comma is one piece |
| `ItemText.JoinSplit` | main.py:97 | joining the pieces with the separator gives back the text (split loses nothing) |
| `ItemText.SplitJoin` | main.py:119 | splitting the join of separator-free pieces gives back the pieces |
| `ItemText.Keep` | main.py:96-97 | stripping and filtering never yields more items than there were pieces |
| `ItemText.KeepConcat` | main.py:97 | the strip-and-filter step distributes over concatenated piece lists, so order is preserved |
| `ItemText.KeepNoComma` | main.py:97 | stripped, non-empty pieces without commas are all valid items |
| `ItemText.ParseItems` | main.py:97 | every parsed item is non-empty, has no surrounding whitespace and contains no comma |
| `ItemText.ParseConcat` | main.py:97 | parsing `a,b` gives the items of `a` followed by those of `b`, so one `$add` of `a,b` equals `$add a` then `$add b` |
| `ItemText.ParseItem` | main.py:97 | a stored item parses back to exactly itself |
| `ItemText.ParsePadded` | main.py:95-97 | whitespace around a single item is ignored |
| `ItemText.ParseJoin` | main.py:97 | parsing the comma-join of any list of items gives that list back (round trip) |
| `ItemText.KeepEmptyIff` | main.py:96-97 | filtering keeps nothing if and only if every piece is whitespace |
| `ItemText.SplitBlank` | main.py:97 | every piece is whitespace if and only if the text holds only commas and whitespace |
| `ItemText.ParseEmptyIff` | main.py:97-101 | the parse is empty, and `$add`/`$remove` reject the text, exactly when the text holds only commas and whitespace |
| `ItemLists.IndexOf` | main.py:235 | `list.index` returns the first position holding the value |
| `ItemLists.RemoveEach` | main.py:125-129 | the bag after the removal loop is never longer than before it |
| `ItemLists.Removals` | main.py:125-129 | the loop's `removed_count` is at most the number of parsed items, since each removes at most one copy |
| `ItemLists.RemoveFirst` | main.py:127-128 | a guarded `list.remove` shortens a list holding the item by one, and leaves a list without it unchanged |
| `ItemLists.RemoveFirstMultiset` | main.py:127-128 | a guarded `list.remove` takes exactly one copy of the item out of the multiset, if there was one |
| `ItemLists.RemoveFirstAtIndex` | main.py:127-128 | `list.remove(x)` is deletion at the index `list.index(x)` finds |
| `ItemLists.RemovalsShrink` | main.py:125-129 | after the removal loop the bag is shorter by exactly `removed_count` |
| `ItemLists.RemoveEachMultiset` | main.py:125-129 | the removal loop leaves the multiset difference of the bag and the parsed items |
| `ItemLists.RemoveEachKeeps` | main.py:125-129 | the removal loop never adds an element |
| `ItemLists.Shuffle` | main.py:190-191 | for any draws in range, the shuffled list is a permutation of the copied bag |
| `BlindBag.BagOf` | main.py:235 | under the index invariant, the reverse lookup finds a bag tracking the message, and that bag is the only one |
| `BlindBag.StartKeepsIndex` | main.py:185-198 | registering an untracked bag under a fresh message in both maps keeps the tracker and the sessions indexing each other |
| `BlindBag.EndKeepsIndex` | main.py:209-221 | removing a bag's entry from the tracker and its message from the sessions keeps the index |
| `BlindBag.InterleavedStartsOrphanSession` | main.py:185-198 | two starts of one bag that both pass the check at 185 before either registers leave the first session untracked, and the index is broken |
| `BlindBag.InterleavedStartDeleteStrandsTracker` | main.py:57-62 | a delete that runs while a start of the same bag awaits (main.py:193-194) removes the bag, and the registration at main.py:198 then leaves the tracker naming a bag that does not exist, so the tracked keys are no longer a subset of the bags |
| `BlindBag.BagBot.constructor` | main.py:22-29 | the bot starts with three empty dictionaries, and the invariant holds |
| `BlindBag.BagBot.CreateBag` | main.py:44-48 | a taken name gives `AlreadyExists` with nothing changed; otherwise exactly that name is added with an empty bag; sessions and tracker are untouched |
| `BlindBag.BagBot.DeleteBag` | main.py:57-63 | a missing bag gives `NotFound`; a tracked bag gives `ActiveSession`; in both cases nothing changes; otherwise exactly that key is removed |
| `BlindBag.BagBot.AddToBag` | main.py:90-104 | a missing bag gives `NotFound` and an empty parse gives `NoValidItems`, with nothing changed; otherwise the bag becomes the old bag followed by the parsed items, duplicates included, it grows by the reported count, and no other bag changes |
| `BlindBag.BagBot.RemoveFromBag` | main.py:112-131 | the same error cases as add; otherwise each parsed item in turn removes its first occurrence; `removed_count` is the number of removals; the bag shrinks by exactly that; the result is the multiset difference; no other bag changes |
| `BlindBag.BagBot.DropItem` | main.py:140-157 | a missing bag gives `NotFound`, an empty bag `Empty`, an index outside `[0, len)` `IndexOutOfRange`, and then nothing changes; otherwise it returns `bag[index]`, the bag becomes `bag[..index] + bag[index+1..]`, and it shrinks by one |
| `BlindBag.BagBot.CheckBag` | main.py:164-170 | a known bag yields its items in order, all of them valid items; an unknown one gives `NotFound` |
| `BlindBag.BagBot.StartSession` | main.py:180-198 | a missing or empty bag, or a tracked one, fails with nothing changed; otherwise the session under the new id is a permutation of the bag, the tracker maps the bag to that id, nothing else is added, and `bags` is unchanged |
| `BlindBag.BagBot.EndSession` | main.py:209-221 | an untracked bag gives `NoSession` with nothing changed; otherwise exactly the tracker entry and its session are removed; afterwards the bag is untracked, so `start` is no longer blocked |
| `BlindBag.BagBot.OnReaction` | main.py:230-271 | the bot's own reaction, or one on a message that is not a session, changes nothing; on a session the bag is the unique one tracking it; a non-empty session loses and returns its front item, with the new count; an empty one reports an empty pull; `bags` and the tracker never change |
| `Scenario.FillBag` | main.py:44-157 | create, a second create that fails, an add of a text parsing to three items, then an out-of-range drop that fails; the bag holds the three items |
| `Scenario.StartFruit` | main.py:180-198 | starting a session on a three-item bag gives a three-item permutation of it |
| `Scenario.EndAndRestart` | main.py:185-221 | on a drained session the bag cannot be deleted or started again; after `$end` a new start succeeds, tracks the bag under the new message, and holds a permutation of the bag |
| `Scenario.DrainSession` | main.py:248-271 | four reactions on a three-item session empty it, and the fourth finds nothing; the bag stays tracked and unchanged |

## Left out

- `webserver.py`: a Flask keep-alive server on a daemon thread. It is network I/O and never touches the bot's state.
- All chat I/O is left out, replaced by the result values the methods return:
  - the message texts of every handler;
  - `msg.add_reaction`, `channel.fetch_message`, `message.edit` and `message.remove_reaction`;
  - the direct message to the puller, with its `discord.Forbidden` fallback and `delete_after` (main.py:236-266).
- `$showallbags` (main.py:65-79) only renders the keys of `bags`. It changes nothing and is text formatting.
- `$check`'s join of the items into a message (main.py:165) is left out. `CheckBag` returns the list itself.
- Token loading, intents, bot construction, `on_ready` and `bot.run` (main.py:8-20, 31-34, 273-274) are start-up and I/O.
- Message ids are not generated. The caller supplies the id of the new status message, and `StartSession` requires it not to be a session already, as the platform's unique ids guarantee.
- Randomness is not modelled. The values `randbelow` returns to `random.shuffle` are passed in as `draws`.
- Shuffle: states only that the result is a permutation of its input. It does not say which one the draws select or that permutations are equally likely.
- `str.strip()` is modelled over the whitespace characters below 128 (codes 9-13 and 28-32). The Unicode whitespace above that range is not modelled.
- The conversion of command arguments by the chat library is not modelled. This covers the `int` conversion of the drop index and the errors for missing arguments.
- Interleaving of handlers at their `await` points is not modelled: each handler runs as one atomic step. Two consequences that corrupt state are stated as the findings below: two starts of one bag, and a delete during a start. Another is that an `$end` between the lookup at main.py:235 and the read at main.py:248 makes the reaction handler raise `KeyError` there before it changes anything; that case is not modelled.
- The reaction's emoji is never checked by the code, so any reaction on a session message pulls an item. The model has no emoji parameter.
- In the reaction handler, `bot.get_channel` returning nothing (main.py:236) or `channel.fetch_message` raising (main.py:237) stops the handler before the pop at main.py:251. The real bot then hands out nothing where `OnReaction` pulls an item; the model has no such failure.
- A reaction whose `payload.member` is absent makes `user.send` fail after the pop at main.py:251. That is an I/O failure after the state change, which the model does not distinguish.

## Findings

| source | as written | input that shows it | evidently intended | confidence | as-written member | corrected member |
|---|---|---|---|---|---|---|
| main.py:185-198 | The check that the bag is not tracked (185) and the registration in both maps (197-198) are split by two awaited chat calls (193-194). A second `$start` for the same bag can pass the check before the first registers. | Two `$start fruit` commands on a non-empty untracked bag, the second arriving while the first awaits `ctx.send`. Both register. `bag_tracker` keeps only the second id. The first id stays in `active_sessions` untracked. A reaction on it fails at the reverse lookup (235), and `$end fruit` can never remove it. | At most one session per bag: the check and the registration happen as one step. | not executed; medium, since it relies on the chat library running each command in its own task | `BlindBag.InterleavedStartsOrphanSession` | `BlindBag.BagBot.StartSession` |
| main.py:57-62, 185-198 | `$delete` checks only that the bag is not tracked (main.py:59). A `$start` of the same bag that is awaiting its chat calls (main.py:193-194) has passed its checks but not yet registered. | A non-empty untracked bag `fruit`: `$start fruit`, then `$delete fruit` while the start awaits `ctx.send`. The delete removes the bag, then the start sets `bag_tracker['fruit']`. The tracker names a missing bag. A later `$create fruit` makes a bag that `$delete` refuses as having an active session. | A bag with a session starting cannot be deleted, so every tracked bag exists: the check and the registration in start happen as one step. | not executed; medium, since it relies on the chat library running each command in its own task | `BlindBag.InterleavedStartDeleteStrandsTracker` | `BlindBag.BagBot.StartSession` |
