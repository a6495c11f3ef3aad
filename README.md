# Utilities and help builder of a Discord bot, modelled in Dafny

This project models two source files of the bot:

- The pure helpers of `src/lib/utils/utils.ts`:
  - `splitMessage` cuts a long message into chunks at a delimiter character.
  - `snakeToCamel` and `createSubcommandMappings` derive handler names for subcommands.
  - `usesPomelo` and `getTag` deal with Discord's unique usernames.
  - The default-avatar index of `getDisplayAvatar`.
  - `checkPermissions` decides on the role hierarchy.
  - `reply` chooses between a reply and an edit.
- The `LanguageHelp` builder of `src/lib/i18n/LanguageHelp.ts`. It holds six section headers, set by fluent setters, and renders a command's detailed help.

The files are:

| file | module | models |
|---|---|---|
| `wrappers.dfy` | `Wrappers` | `Option`, standing for `null`/`undefined` |
| `strings.dfy` | `Strings` | `lastIndexOf`, `join` and concatenation over `seq<char>`, plus `SplitOn`, the inverse of `join` used to state its round trip (neither modelled file calls `split`) |
| `message_split.dfy` | `MessageSplit` | `splitMessage` and its imperative loop |
| `camel_case.dfy` | `CamelCase` | `snakeToCamel` and `createSubcommandMappings` |
| `users.dfy` | `Users` | `usesPomelo`, `getTag` and the default-avatar index |
| `permissions.dfy` | `Permissions` | `checkPermissions` and the choice made by `reply` |
| `language_help.dfy` | `I18n` | the `LanguageHelp` class and `LanguageHelpDisplayOptions` |

`splitMessage` is a loop over a cursor, so `MessageSplit.SplitMessage` is a method with a `while` loop. It is proved equal to the function `MessageChunks`, and the function's properties are lemmas.

The result type `SplitResult` names the three things the source can do:

- return the chunks;
- throw `Unable to split content.`;
- loop forever (`Loops`). This happens when the only delimiter within reach is the one just cut at: the source then pushes empty strings without moving its cursor.

`LanguageHelp` updates its fields in place, so it is a `class` with six `Option<string>` fields. Each setter states the builder's whole new state and that it returns the builder itself. `Display` is proved to produce the lines of `HelpLines` joined by `'\n'`.

The remaining helpers are pure and are modelled as functions.

## Model

| member | source | states |
|---|---|---|
| Users.UsesPomelo | src/lib/utils/utils.ts:87-89 | a user uses pomelo when the discriminator is absent, empty or `'0'` |
| CamelCase.SnakeToCamel | src/lib/utils/utils.ts:77-79 | `snakeToCamel` is the first replacement followed by the second |
| MessageSplit.SplitFrom | src/lib/utils/utils.ts:122-139 | from cursor `last`: an empty rest gives no chunks, a fitting rest is the last chunk, otherwise the slice up to the cut is pushed and the loop goes on after it; no delimiter throws, and a cut before the cursor stalls; from a cursor right after a cut, such a cut is the delimiter just cut at, so the source pushes an empty slice and stays put |
| MessageSplit.Loop | src/lib/utils/utils.ts:122-139 | the loop of the source, searching at or before `last + maxLength` |
| MessageSplit.MessageChunks | src/lib/utils/utils.ts:119-140 | content that fits is one chunk, otherwise the loop runs from cursor 0 |
| Strings.Join | src/lib/i18n/LanguageHelp.ts:75 | `join` puts one separator between neighbouring lines, none around them |
| I18n.Text | src/lib/i18n/LanguageHelp.ts:75 | `join` renders a `null` header as the empty string |
| I18n.UsageLine | src/lib/i18n/LanguageHelp.ts:45 | `→ /name`, followed by ` *usage*` for a non-empty usage |
| I18n.PairLine | src/lib/i18n/LanguageHelp.ts:55-60 | `→ **first**: second` |
| I18n.ExampleLine | src/lib/i18n/LanguageHelp.ts:65 | `→ /name`, followed by ` *example*` for a truthy example |
| I18n.UsagesSection | src/lib/i18n/LanguageHelp.ts:44-46 | with usages: the header, one line per usage and a blank line; nothing otherwise |
| I18n.ExtendedHelpSection | src/lib/i18n/LanguageHelp.ts:49-51 | with a truthy extended help: the header, the text and a blank line |
| I18n.PairsSection | src/lib/i18n/LanguageHelp.ts:54-61 | with pairs: the header, one line per pair and a blank line; used for explained usage and possible formats |
| I18n.ExamplesSection | src/lib/i18n/LanguageHelp.ts:64-68 | the header, one line per example or the bare `→ /name`, and a blank line |
| I18n.ReminderSection | src/lib/i18n/LanguageHelp.ts:71-73 | with a truthy reminder: the header and the text |
| I18n.HelpLines | src/lib/i18n/LanguageHelp.ts:41-73 | the six sections in source order |
| Users.DecimalValue | src/lib/utils/utils.ts:93 | `Number` of a string of decimal digits, read left to right in base 10 |
| Permissions.TargetPosition | src/lib/utils/utils.ts:167 | a role's own position, or a member's highest role position |
| Strings.LastIndexOf | src/lib/utils/utils.ts:132 | `lastIndexOf` with a one-character needle returns -1 or an index at or before the start position, inside the string, that holds the needle; a start past the end is clamped |
| Strings.LastIndexOfIsLast | src/lib/utils/utils.ts:132 | no occurrence of the needle lies between the found index and the start position |
| Strings.SplitOnJoin | src/lib/i18n/LanguageHelp.ts:75 | splitting `lines.join(sep)` at `sep` gives the lines back for a non-empty list of lines, none of which contains `sep` (`[].join(sep)` is `""`, which splits into `[""]`) |
| MessageSplit.CutIndex | src/lib/utils/utils.ts:132 | the cut index searched from the cursor is -1 or a delimiter position below `last + limit` |
| MessageSplit.SplitMessage | src/lib/utils/utils.ts:119-140 | the loop computes exactly `MessageChunks`; content that fits is returned as the single chunk |
| MessageSplit.LoopStep | src/lib/utils/utils.ts:126-136 | one iteration on content that does not fit: no delimiter throws, a delimiter before the cursor stalls, otherwise the slice up to and including the delimiter is pushed and the cursor moves past it |
| MessageSplit.SplitFromConcat | src/lib/utils/utils.ts:122-139 | the chunks from a cursor on concatenate to the rest of the content, and there is at least one when the rest is non-empty |
| MessageSplit.SplitFromShape | src/lib/utils/utils.ts:126-136 | every chunk ends with the delimiter and is at most the search window long, except a last chunk that fits `maxLength` |
| MessageSplit.MessageChunksConcat | src/lib/utils/utils.ts:119-140 | round trip: a successful split yields at least one chunk, and the chunks concatenate to the content |
| MessageSplit.MessageChunksShape | src/lib/utils/utils.ts:119-140 | every chunk but a fitting last one ends with the delimiter and is at most `maxLength + 1` long |
| MessageSplit.CutAfterCursor | src/lib/utils/utils.ts:132-135 | from a cursor right after a cut, the search finds that delimiter or a later one, and a cut before the cursor pushes the empty slice |
| MessageSplit.NoThrowAfterDelimiter | src/lib/utils/utils.ts:132-136 | once the cursor stands right after a delimiter, no later iteration throws |
| MessageSplit.ThrowWithoutDelimiter | src/lib/utils/utils.ts:132-133 | content that does not fit and has no delimiter in its first `maxLength + 1` characters throws |
| MessageSplit.NoThrowWithDelimiter | src/lib/utils/utils.ts:132-133 | a delimiter at a position up to `maxLength` rules the throw out |
| MessageSplit.MessageChunksThrowIff | src/lib/utils/utils.ts:119-136 | `splitMessage` throws if and only if the content does not fit and no delimiter occurs in its first `maxLength + 1` characters |
| MessageSplit.SplitFromSucceeds | src/lib/utils/utils.ts:122-137 | when every window the loop can search holds a delimiter, the loop always advances and returns chunks |
| MessageSplit.MessageChunksSucceed | src/lib/utils/utils.ts:119-140 | `splitMessage` returns chunks when every window `[k, k + maxLength]` of a cursor that does not fit holds the delimiter |
| MessageSplit.LoopsExample | src/lib/utils/utils.ts:132-136 | on `"a,bbbbbbb"` with `','` and 3, the loop stops advancing and never returns |
| MessageSplit.OverlongChunkExample | src/lib/utils/utils.ts:132-135 | on `"aaa,b"` with `','` and 3, the split returns `"aaa,"`, a chunk of 4 characters |
| MessageSplit.CorrectedChunks | src/lib/utils/utils.ts:132-136 | the corrected split never loops |
| MessageSplit.CorrectedChunksFit | src/lib/utils/utils.ts:132-136 | every chunk of the corrected split fits `maxLength`, and the chunks concatenate to the content |
| MessageSplit.CorrectedChunksSucceed | src/lib/utils/utils.ts:132-136 | the corrected split returns chunks when every window `[k, k + maxLength - 1]` of a cursor that does not fit holds the delimiter |
| MessageSplit.CorrectedLoopsExample | src/lib/utils/utils.ts:132-136 | where the source spins on `"a,bbbbbbb"`, the corrected split throws |
| CamelCase.ToUpper | src/lib/utils/utils.ts:78 | `toUpperCase` maps an ASCII lower-case letter to the upper-case letter at the same offset |
| CamelCase.UpperAfterSeparator | src/lib/utils/utils.ts:78 | the first replacement keeps the length of the string |
| CamelCase.KeepLetters | src/lib/utils/utils.ts:78 | the second replacement leaves only ASCII letters and never lengthens the string |
| CamelCase.UpperAfterSeparatorAt | src/lib/utils/utils.ts:78 | the left-to-right scan agrees position by position with the reference definition `CamelAt`: a lower-case letter right after `-` or `_` is uppercased, everything else is kept |
| CamelCase.KeepLettersAlike | src/lib/utils/utils.ts:78 | filtering two strings that agree letter for letter up to case gives two such strings |
| CamelCase.SnakeToCamelKeepsLetters | src/lib/utils/utils.ts:77-79 | `snakeToCamel` keeps exactly the input's letters, in order, each unchanged or uppercased |
| CamelCase.SnakeToCamelPointwise | src/lib/utils/utils.ts:77-79 | `snakeToCamel` is the letter filter applied to the pointwise reference definition |
| CamelCase.LettersUnchanged | src/lib/utils/utils.ts:78 | a string of letters passes both replacements unchanged |
| CamelCase.SnakeToCamelIdempotent | src/lib/utils/utils.ts:77-79 | `snakeToCamel` is idempotent |
| CamelCase.PassesSplitAfterLetter | src/lib/utils/utils.ts:78 | the first replacement distributes over a boundary that follows a letter |
| CamelCase.KeepLettersAppend | src/lib/utils/utils.ts:78 | the second replacement distributes over concatenation |
| CamelCase.SeparatorThenWord | src/lib/utils/utils.ts:78 | after a separator, a word's first lower-case letter is uppercased and the rest is kept |
| CamelCase.TwoWords | src/lib/utils/utils.ts:77-79 | two words joined by `-` or `_` become the first word followed by the capitalised second word |
| CamelCase.AnnouncementChannelExample | src/commands/general/config.ts:36-56 | the `announcement-channel` subcommand of the config command is handled by its `announcementChannel` method |
| CamelCase.CreateSubcommandMappings | src/lib/utils/utils.ts:66-75 | there is one entry per subcommand, in order; each keeps its name, is bound to the camel-case handler, and carries preconditions exactly when given with them |
| CamelCase.CreateSubcommandMappingsAppend | src/lib/utils/utils.ts:66-75 | mapping a list in two parts gives the two parts' mappings, one after the other |
| CamelCase.HandlersAreCamelCase | src/lib/utils/utils.ts:66-79 | `snakeToCamel` leaves every handler name unchanged |
| Users.GetTag | src/lib/utils/utils.ts:100-102 | pomelo users get `@username`, the others `username#discriminator` |
| Users.TagMarksPomelo | src/lib/utils/utils.ts:87-89 | for a username without `#` and not starting with `@`, the tag starts with `@` exactly when the user uses pomelo |
| Users.SplitAtHash | src/lib/utils/utils.ts:101 | a `#`-free name and the text after the `#` are recovered from `name#rest` |
| Users.GetTagInjective | src/lib/utils/utils.ts:87-102 | two users with plain usernames and the same tag have the same username and the same discriminator, or both have none |
| Users.DigitValue | src/lib/utils/utils.ts:93 | a decimal digit has a value below 10 |
| Users.DefaultAvatarIndex | src/lib/utils/utils.ts:93 | pomelo users get `(id >> 22) % 6`. Other users get `Number(discriminator) % 5`, below 5; the index is defined exactly when the discriminator is a decimal number |
| Users.PomeloAvatarByTimestamp | src/lib/utils/utils.ts:93 | a pomelo user's default avatar depends only on the snowflake's timestamp bits |
| Users.LegacyAvatarByLastDigit | src/lib/utils/utils.ts:93 | a legacy user's default avatar depends only on the last digit of the discriminator |
| Permissions.CheckPermissions | src/lib/utils/utils.ts:156-170 | acting on oneself or on the owner is refused; otherwise the owner may act, and anyone else only when their highest role position, 0 without roles, exceeds the target's |
| Permissions.CheckPermissionsAsymmetric | src/lib/utils/utils.ts:156-170 | two members can never both act on each other |
| Permissions.CheckPermissionsTransitive | src/lib/utils/utils.ts:156-170 | among members other than the owner, permission is transitive |
| Permissions.CheckPermissionsMonotone | src/lib/utils/utils.ts:166-169 | a higher role position for the caller never removes a permission |
| Permissions.ReplyKindFor | src/lib/utils/utils.ts:57-59 | the reply is edited exactly when the interaction was already replied to or deferred |
| I18n.UsageLines | src/lib/i18n/LanguageHelp.ts:45 | one usage line per usage |
| I18n.PairLines | src/lib/i18n/LanguageHelp.ts:55-60 | one line per explained argument or format |
| I18n.ExampleLines | src/lib/i18n/LanguageHelp.ts:65 | one example line per example |
| I18n.LanguageHelp.constructor | src/lib/i18n/LanguageHelp.ts:2-7 | a new builder has all six headers unset (`null`) |
| I18n.LanguageHelp.SetUsages | src/lib/i18n/LanguageHelp.ts:9-12 | sets the usages header, leaves the other five as they were, and returns the builder itself |
| I18n.LanguageHelp.SetExplainedUsage | src/lib/i18n/LanguageHelp.ts:14-17 | sets the explained-usage header only and returns the builder itself |
| I18n.LanguageHelp.SetExtendedHelp | src/lib/i18n/LanguageHelp.ts:19-22 | sets the extended-help header only and returns the builder itself |
| I18n.LanguageHelp.SetPossibleFormats | src/lib/i18n/LanguageHelp.ts:24-27 | sets the possible-formats header only and returns the builder itself |
| I18n.LanguageHelp.SetExamples | src/lib/i18n/LanguageHelp.ts:29-32 | sets the examples header only and returns the builder itself |
| I18n.LanguageHelp.SetReminder | src/lib/i18n/LanguageHelp.ts:34-37 | sets the reminder header only and returns the builder itself |
| I18n.LanguageHelp.Display | src/lib/i18n/LanguageHelp.ts:39-76 | the help text is the lines of the six sections, in source order, joined with `'\n'` |
| I18n.HelpLinesCount | src/lib/i18n/LanguageHelp.ts:43-73 | the number of lines each section contributes; the examples section always contributes |
| I18n.HelpLinesLast | src/lib/i18n/LanguageHelp.ts:63-73 | the help ends with the reminder text when there is one, and with the examples' blank line otherwise |
| I18n.HelpLinesFirst | src/lib/i18n/LanguageHelp.ts:43-68 | the help opens with the header of the first section present |
| I18n.HelpLinesFree | src/lib/i18n/LanguageHelp.ts:43-73 | when no input holds a line break, no rendered line does |
| I18n.HelpTextSplitsIntoLines | src/lib/i18n/LanguageHelp.ts:75 | when no header, name or option text holds a line break, splitting the rendered help at line breaks gives exactly the section lines back |
| I18n.UnsetHeadersRenderEmpty | src/lib/i18n/LanguageHelp.ts:2-7 | with headers never set and no options, the help is `"\n→ /name\n"`, because `join` renders `null` as an empty string |

## Left out

- `pickRandom` and `sendLoadingMessage` are left out: they depend on randomness and on Discord I/O.
- `resolveTarget`, `isUserSelf`, `getEmbedAuthor` and `getFooterAuthor` are left out. They only read the environment or assemble values from the modelled helpers.
- The CDN URL that `getDisplayAvatar` builds is left out. Only the default-avatar index is modelled; it is computed only when the user has no avatar.
- `reply` itself sends a message over the network. Only its choice between `reply` and `editReply` is modelled.
- MessageSplit.SplitMessage: `maxLength` is a natural number and the delimiter a single character. The source accepts any number and any string for both.
- MessageSplit.SplitMessage: lengths and indices count characters of `seq<char>`, not UTF-16 code units.
- MessageSplit.SplitMessage: `Loops` stands for the source's non-terminating loop. The model does not represent its ever-growing array.
- Strings.LastIndexOf: only non-negative start positions are modelled, which are the only ones `splitMessage` passes.
- CamelCase.ToUpper: only ASCII lower-case letters are uppercased. The first pattern matches `-` or `_` followed by an ASCII lower-case letter, so `toUpperCase` only sees a separator, which it returns unchanged, and such a letter.
- CamelCase.Subcommand: a precondition entry is an opaque type parameter, and its resolution is left out.
- Users.DefaultAvatarIndex: `Number` is modelled only on non-empty strings of decimal digits.
  - Every other discriminator is `None`, standing for `NaN`. In fact `Number` also accepts surrounding spaces, signs and other notations.
  - Double-precision rounding of very long discriminators is not modelled.
  - The snowflake id is an unbounded natural, and `>> 22` is division by 2^22.
- Permissions.CheckPermissions: there is one caller id. The source compares `interaction.member.id` and `interaction.user.id`, which Discord guarantees to be equal.
- Permissions.CheckPermissions: the target's position is an integer, and the caller's highest role is an `Option`.
- I18n.DisplayOptions: an absent list is the empty list it defaults to.
  - `null` entries inside `usages`, `explainedUsage` and `possibleFormats` are not modelled.
  - A `null` example is `None`.
- Translation keys and the command and context files that feed `LanguageHelp` are not part of this model.

## Findings

| source | as written | input that shows it | evidently intended | confidence | as-written member | corrected member |
|---|---|---|---|---|---|---|
| src/lib/utils/utils.ts:132 | the search starts at `last + maxLength`, so a cut chunk can hold `maxLength + 1` characters | `splitMessage("aaa,b", { char: ',', maxLength: 3 })` returns `["aaa,", "b"]` | search from `last + maxLength - 1`, so that every chunk fits `maxLength` | medium, not executed | MessageSplit.OverlongChunkExample | MessageSplit.CorrectedChunksFit |
| src/lib/utils/utils.ts:132-136 | when the only delimiter within reach is the one just cut at, `lastIndexOf` returns `last - 1`; an empty chunk is pushed and `last` stays where it is, for ever | `splitMessage("a,bbbbbbb", { char: ',', maxLength: 3 })` never returns | throw `Unable to split content.` when the cut does not advance | high, not executed | MessageSplit.LoopsExample | MessageSplit.CorrectedChunks |

Neither modelled file calls `splitMessage` anywhere else, so the correction changes no other part of the model.
