# Image broadcast cog, modelled in Dafny

This project models the core of `bot/image.py`, the image cog of a Discord bot.

- The cog keeps a destination table (`config_settings`). It maps a guild key, the guild id written with `str`, to the list of channel ids that get images.
- The `add-channel` and `remove-channel` commands update that table in place.
- Every four hours the image task globs the image directory for five patterns (`*.png`, `*.jpg`, `*.jpeg`, `*.webp`, `*.gif`) and picks one file at random.
- It loads that file into a byte stream and sends it to every channel of every table entry.
- The `random` command sends one image to the channel the command came from.
- Sending (`send_image_to_channels`) parses the guild key back with `int`. It resolves the guild, then walks the channel ids. It skips unresolvable channels and passes over sends that fail with `PermissionError` or `HTTPException`. The shared stream is rewound before every send.

Modules, leaf first:

- `Wrappers` (wrappers.dfy): `Option` and `Result`.
- `GuildKey` (guild_key.dfy): Python's `str` and `int` on guild ids, and their round trip.
- `Selection` (selection.dfy): `IMAGE_TYPES`, glob matching and the candidate list. Also the loop that builds the list and the pick. `random.choice` becomes an index supplied by the caller.
- `ImageFile` (image_file.dfy): the `File` record as a class whose byte stream has a read cursor, plus `get_file` and `random_image`. The directory is abstracted as a listing of names plus a read function.
- `Dispatch` (dispatch.dfy): the chat platform is abstracted as three functions: guild lookup, channel lookup and the outcome of a send. This module gives the specification of one dispatch and its properties.
- `Registry` (registry.dfy): the table updates as functions, with their lemmas.
- `Cog` (cog.dfy): the class `ImageCog`. Its fields are the table, the dict's key order and the last saved snapshot. Its methods are the dispatch loop, the two table commands, the tick and the `random` command. Each method is proved against the functions above.

Three behaviours of the code worth knowing:

- When the guild does not resolve, the code returns with no outcome per channel. The model reports `GuildMissing`.
- A key that `int` rejects, or a send that raises some other exception, escapes the dispatch. It ends the tick and skips the remaining guilds. The code has no handler for them.
- `remove-channel` on an unknown guild creates an empty entry for it.

## Model

| member | source | states |
|---|---|---|
| GuildKey.NatToDecimal | bot/image.py:79 | `str` of a non-negative guild id is all digits, one digit exactly below ten, and starts with `0` only for zero (no leading zeros) |
| GuildKey.Str | bot/image.py:79 | a key is non-empty; negative ids get a `-` followed by digits with no leading zero |
| GuildKey.ParseInt | bot/image.py:55 | `int` of a key: the empty string raises, a negative value comes only from a leading `-`, and a plain digit string parses to its decimal value |
| GuildKey.DecimalRoundTrip | bot/image.py:79 | reading back the decimal digits that `str` writes gives the same number |
| GuildKey.KeyRoundTrip | bot/image.py:55 | `int(str(g)) == g` for every guild id: the key written at registration parses back to that guild |
| GuildKey.KeyInjective | bot/image.py:91 | distinct guild ids never share a table key |
| Selection.Glob | bot/image.py:35 | every name a glob returns matches its pattern |
| Selection.GlobCount | bot/image.py:35 | a glob keeps each matching name exactly as often as the directory lists it and drops all others |
| Selection.MatchesCount | bot/image.py:34-35 | after concatenating the globs of several patterns, a name appears (number of patterns it matches) times its listing count |
| Selection.ImageTypesExclusive | bot/image.py:18 | no name matches two patterns of `IMAGE_TYPES`; exactly one matches when the name has a recognised extension |
| Selection.ExtensionsExclusive | bot/image.py:18 | no name ends with two different extensions of `IMAGE_TYPES` |
| Selection.Matches | bot/image.py:33-35 | the list `images` after the loop: the glob results of each pattern, concatenated in pattern order (its multiplicities are given by MatchesCount) |
| Selection.Candidates | bot/image.py:33-35 | every name on the list `random.choice` draws from is a listed name with a recognised extension |
| Selection.CandidatesCount | bot/image.py:32-36 | each image file is a candidate exactly as often as it is listed, and non-images never are, so the pick is over the union of all extensions with no file counted twice |
| Selection.CandidateMembership | bot/image.py:32-36 | a name is a candidate iff it is in the directory and has a recognised extension |
| Selection.Pick | bot/image.py:36 | `random.choice` fails with `NoImages` exactly on an empty list, otherwise returns the element at the drawn index |
| Selection.ChoicesCount | bot/image.py:36 | a name is drawn by exactly as many indices as the list holds copies of it |
| Selection.ChoicesOfImage | bot/image.py:33-36 | every listed image file is drawn by as many valid indices as it is listed, at least one, and each of them picks that file |
| Selection.CollectImages | bot/image.py:33-35 | the loop that extends `images` pattern by pattern yields the concatenation of the globs in `IMAGE_TYPES` order |
| ImageFile.File.constructor | bot/image.py:19-22 | a `File` pairs a path with its bytes, cursor at the start |
| ImageFile.File.Seek | bot/image.py:64 | `seek` sets the cursor |
| ImageFile.File.Read | bot/image.py:65 | reading returns everything from the cursor on and moves the cursor to the end |
| ImageFile.GetFile | bot/image.py:25-29 | an unreadable file is an `Unreadable` error; a readable one yields a fresh stream of exactly its bytes at position 0 |
| ImageFile.Select | bot/image.py:32-37 | a chosen image is listed in the directory, has a recognised extension and carries the file's bytes; an empty candidate list fails with `NoImages` and with nothing else; an `Unreadable` error names a listed image that cannot be read; and for a non-empty candidate list the result is exactly the loading of the candidate at the drawn index, failing only on that file |
| ImageFile.SelectReachesEveryImage | bot/image.py:32-37 | each listed image file can come out of `random_image`: every one of its `multiset(listing)[x]` drawing indices loads that very file, or fails naming it when it cannot be read |
| ImageFile.RandomImage | bot/image.py:32-37 | `random_image` returns a fresh stream at position 0 holding exactly the selected file, or fails exactly as the selection does |
| Dispatch.StepFor | bot/image.py:60-68 | one iteration: the step is about that channel id, a send is attempted exactly when the channel resolves, and an attempt carries the file name, the bytes and the platform's outcome of that send |
| Dispatch.DispatchTo | bot/image.py:56-68 | dispatch to a parsed guild id: never an invalid key, `GuildMissing` exactly when the guild does not resolve, otherwise at most one step per channel and none only for an empty list |
| Dispatch.Steps | bot/image.py:59-68 | the channel loop takes at most one step per channel id and takes none exactly when the list is empty |
| Dispatch.DispatchKey | bot/image.py:54-68 | `send_image_to_channels`: a key `int` rejects raises; a parsed guild that does not resolve gets `GuildMissing`; otherwise the loop runs, one step at most per channel and at least one for a non-empty list |
| Dispatch.StepsShape | bot/image.py:59-68 | the loop takes the channel ids in order, one step each. An unresolvable channel is skipped. A resolvable one gets a send with the file's name and its whole content. The loop stops early only right after a send that raised something other than the two handled exceptions |
| Dispatch.AttemptsAreResolvableChannels | bot/image.py:59-68 | unless a send raises an unhandled exception, sends are attempted on exactly the resolvable channels, in input order, and every channel gets its step |
| Dispatch.FailureIsolation | bot/image.py:63-68 | one failure never stops later channels: platforms that resolve the same channels but answer sends differently (delivered, `PermissionError`, `HTTPException`) see the same send attempts |
| Dispatch.MissingGuildGetsNothing | bot/image.py:56-58 | a guild that does not resolve gets no send attempt and raises nothing |
| Dispatch.RegisteredGuildIsReached | bot/image.py:55 | dispatch under the key `str(g)` is dispatch to guild `g` |
| Registry.TargetChannel | bot/image.py:80 | the channel a command applies to (the same expression is line 92): the one named, else the one the command was issued in |
| Registry.AddEntry | bot/image.py:81-84 | the add update: the key is present afterwards and lists the channel, no key disappears, only that key is added, and every other guild keeps its list |
| Registry.RemoveEntry | bot/image.py:93-99 | the remove update: the key is present afterwards, only that key is added, every other guild keeps its list, and removing an unlisted channel from a known guild changes nothing |
| Registry.RemoveFirst | bot/image.py:97 | `list.remove` leaves a list without the value unchanged and otherwise shortens it by one |
| Registry.IndexOf | bot/image.py:97 | the first occurrence of a present value is found, with no earlier occurrence |
| Registry.RemoveFirstAt | bot/image.py:97 | `list.remove` deletes exactly the first occurrence and keeps the rest in order |
| Registry.RemoveFirstCount | bot/image.py:97 | `list.remove` takes away one occurrence of the value, if any, and nothing else |
| Registry.AddRegisters | bot/image.py:79-84 | after adding, the guild key exists and lists the channel. An absent channel goes at the end, existing entries keep their order, and no other guild changes |
| Registry.AddPresentIsNoOp | bot/image.py:83-84 | adding a channel already listed leaves the table as it was |
| Registry.AddIdempotent | bot/image.py:81-84 | adding twice is adding once |
| Registry.AddKeepsDistinct | bot/image.py:83-84 | adding keeps every guild's list free of duplicates |
| Registry.RemoveUnknownGuild | bot/image.py:93-94 | removing on an unknown guild raises nothing and maps that guild to the empty list; nothing else changes |
| Registry.RemoveAbsentIsNoOp | bot/image.py:96-99 | removing a channel the guild does not list swallows the `ValueError` and changes nothing |
| Registry.RemoveMakesAbsent | bot/image.py:97 | on a duplicate-free list, removal takes the channel out completely and keeps the list duplicate-free |
| Registry.RemoveKeepsDistinct | bot/image.py:93-99 | removal keeps every list duplicate-free and the channel is then absent from its guild |
| Registry.RemoveUndoesAdd | bot/image.py:79-99 | removing a channel just added to a guild that did not list it restores the table |
| Registry.AddThenRemoveOnNewGuild | bot/image.py:79-99 | add then remove on a new guild leaves that guild with an empty list |
| Cog.Fanout | bot/image.py:107-108 | the tick's loop gives at most one report per entry, and none exactly when there are no entries |
| Cog.TickOutcome | bot/image.py:105-108 | a tick fails exactly when selecting or loading the image fails, with `NoImages` when there are no candidates; otherwise it names a listed image file and reports on at most every entry |
| Cog.FanoutShape | bot/image.py:107-108 | the tick dispatches to the entries in key order, one dispatch each, and stops early only after a dispatch that raised |
| Cog.TickSendsOneImage | bot/image.py:106-108 | every send attempt of one tick carries the single chosen image: a listed image file, its name and all of its bytes |
| Cog.TickReachesEveryEntry | bot/image.py:107-108 | for a key order that lists exactly the table's keys, when no dispatch raises, every guild key of the table gets a report, and that report is the dispatch of the one image to that key's channel list |
| Cog.TwoChannelTick | bot/image.py:54-68 | guild `100` with channels 1 and 2, both resolvable and accepting: exactly two sends, in that order, with the same bytes |
| Cog.EmptyTableSendsNothing | bot/image.py:106-108 | with an empty table (and so, by the key-order invariant, no keys), a tick that loads its image sends nothing |
| Cog.ImageCog.constructor | bot/image.py:45-48 | the cog starts from a loaded table whose key order matches its keys |
| Cog.ImageCog.SendImageToChannels | bot/image.py:54-68 | the report is the dispatch specification for the key: a key `int` rejects raises, a missing guild gets nothing, and a resolved guild gets the channel loop below |
| Cog.ImageCog.SendToEach | bot/image.py:59-68 | the loop's steps are the specified steps for the file's name and whole content, so the cursor is rewound before every send. The cursor ends at the end after any send and is untouched otherwise |
| Cog.ImageCog.AddChannel | bot/image.py:76-85 | the table becomes the add update for `str(guild_id)` and the named or originating channel. A new key goes last in the key order, the table is saved, and duplicate-freedom is preserved |
| Cog.ImageCog.RemoveChannel | bot/image.py:88-100 | the table becomes the remove update. An unknown guild gets an empty entry, appended to the key order, and the table is saved. On a duplicate-free table the channel is gone afterwards |
| Cog.ImageCog.ImageTask | bot/image.py:104-108 | one tick picks and loads one image, then dispatches it to every entry in key order, stopping only at a dispatch that raised; a failed pick or load ends the tick |
| Cog.ImageCog.SendToEntries | bot/image.py:107-108 | the loop over the table's entries yields exactly the specified fan-out of the image, in key order |
| Cog.ImageCog.RandomCommand | bot/image.py:70-73 | the `random` command selects one image and dispatches it to exactly the originating channel of the originating guild, or fails as the selection does |

## Left out

- Discord itself (`bot.get_guild`, `guild.get_channel`, `channel.send`, `discord.File`, `discord_file` at bot/image.py:40-41). These are foreign calls. Lookups and send outcomes are parameters of the model; the file name sent is the chosen directory entry's name.
- `async`/`await` and the `tasks.loop(hours=4, reconnect=True)` timer, including its reconnect and stop-on-exception behaviour and `before_loop`/`wait_until_ready` (bot/image.py:104, 110-113). This is scheduling, not logic. `ImageTask` models one tick.
- Concurrent table updates while a tick iterates the dict. This is concurrency.
- The replies to the user ("Channel Added", "Channel Removed", "A random image!") and the permission-check decorators. They are interaction glue.
- `save_settings` and the `ConfigMixin` store are not part of this model. Saving is modelled only as the snapshot `saved`, taken after each update. Loading is the constructor's argument.
- Cog.ImageCog.SendToEach: the cursor position after a send is the model's own choice (at the end of the stream). In the code the stream is read inside `discord.File`/`channel.send`; a send that raises before reading leaves the cursor where the rewind put it. Only the rewind before each send is the code's.
- Logging of failed sends (bot/image.py:67).
- `setup` and its environment-variable checks (bot/image.py:116-121). This is start-up configuration.
- The filesystem. The directory is a list of names plus a read function. Glob's case-sensitivity (platform-dependent), its matching of directories, and the full paths it returns are not modelled.
- `random.choice` randomness: a caller-supplied index stands in for it.
- `get_random_discord_image` (bot/image.py:51-52) only forwards to `random_image`. The model calls `RandomImage` directly.
- GuildKey.ParseInt: Python's `int` also accepts surrounding whitespace, underscores between digits and non-ASCII decimal digits (Arabic-Indic, fullwidth and other Unicode `Nd` digits). The model rejects all of those forms; `str` never writes them.
- Cog.ImageCog.RandomCommand: takes the guild id as an int. A command from a direct message has `guild_id` None, which the code turns into the key "None". That key makes `int` raise; this case is not modelled.
