# Command grammar and dispatch of the GSA bot, in Dafny

This project models `global_modules/BotOperator/Command/index.js` of the GSA
chat bot: the command entities and their dispatcher. It is written as Dafny
datatypes, functions, lemmas, and classes with methods, and the model's
properties are proved by the Dafny verifier.

The module has five parts:

- **Argument descriptors.** `IntArg`, `StrArg` and `DateArg` each build a
  regular-expression fragment (`toRegExp`) and read one captured group
  (`parse`). `parse` gives three kinds of result: a value, an absent value
  (`null` or `[]`), or the failure sentinel `false`.
- **The usage compiler.** This is the `StructuredCommand` constructor. It
  turns a usage string such as `시간표 <day:int min=1> <name:str?>` into:
  - the ordered lists `args` and `_arguments`;
  - the source of an anchored pattern with one capture group per
    placeholder.
- **The alias table.** This is the `NaturalCommand` constructor. It turns a
  token → aliases dictionary into an alias → token table, longest
  alias first.
- **`Registry.register`.** It checks the new command, appends it, and sorts
  the registry in place: structured commands before natural ones, each kind
  by argument or slot count, descending. It then validates the command's cron
  jobs and picks each job's option.
- **`Registry.get`.** It goes through the registered commands in order. A
  command is filtered by channel and debug room. A structured command matches
  through its pattern and descriptor parsing. A natural command goes through a
  left-to-right alias scanner, an optional date step, a budget of leftover
  characters (`margin`), a completeness check, and the evaluation of default
  suppliers. The first command that matches wins. Every natural command tried
  overwrites `chat.filteredText` on the way.

The project is organised by module:

- `Wrappers`: `Option`/`Result`.
- `JsText`: the JavaScript string primitives the module uses: `\s`,
  `split`, `trim`, `Number()` on integers, `String(n)`, `replace` of a first
  occurrence, and `.length` in UTF-16 units.
- `Values`: argument values, thrown errors, and the date-time collaborator as
  a record of functions.
- `Args`: the three descriptors.
- `RegexText`: a lexer that just counts capturing groups.
- `UsageCompiler`: the constructor of structured commands.
- `Sorting`: `Array.prototype.sort` as an insertion sort, specified only by
  sortedness and permutation.
- `Entries`: JavaScript objects as entry sequences.
- `AliasTable`, `Commands`, `NaturalMatch`, and `CommandRegistry`: the class
  `Registry`, the class `Chat`, and the dispatch specification.

The code is followed where it is less tidy than its comments suggest:

- A `StrArg` descriptor is stored in the state its own `toRegExp` leaves it
  in. A lone `maxLength` gives `minLength = 1`.
- A duplicate name, or a non-command, throws before `data` changes. A cron
  job with both `before` and `after` throws after the command is already in
  `data`. The jobs scheduled before the failing one stay scheduled.
- Literal usage text is spliced into the pattern unescaped. The groups line up
  with the arguments only when that text holds no `(`, `[` or `\`
  (`UsageCompiler.CompileAligns`).
- `chat.filteredText` keeps the value written by the last natural command
  tried, even when that command is rejected and none after it matches. If
  no natural command is tried, the value it had before stays.

## Model

| member | source | states |
|---|---|---|
| JsText.SplitOnWhitespace | global_modules/BotOperator/Command/index.js:285 | `split(/\s+/)` gives at least one part and no part holds whitespace; text without whitespace is its own single part |
| JsText.SplitJoinsCollapse | global_modules/BotOperator/Command/index.js:285 | the parts of `split(/\s+/)` joined by single spaces are the text with each whitespace run made one space (`replace(/\s+/g, ' ')`), so the parts are the text's non-whitespace runs in order, with an empty part for whitespace at either end |
| JsText.SplitOn | global_modules/BotOperator/Command/index.js:290 | `split(c)` gives at least one part, no part holds the separator, and joining the parts with it gives the text back; the first part is the text up to the first separator, and there is a second part exactly when the separator occurs, reaching up to the next one |
| JsText.Trim | global_modules/BotOperator/Command/index.js:322 | `trim()` is the slice of the text left between its leading and its trailing run of whitespace, neither starting nor ending with whitespace; text without whitespace is unchanged |
| JsText.TrimPadded | global_modules/BotOperator/Command/index.js:322 | trimming whitespace, then text that neither starts nor ends with whitespace, then whitespace, gives that text |
| JsText.ParseNumber | global_modules/BotOperator/Command/index.js:154 | `Number(v)` is 0 for blank text, an integer exactly when the trimmed text is an optionally signed run of digits, and then the digits' decimal value, negated after `-` |
| JsText.ParsePadded | global_modules/BotOperator/Command/index.js:154 | whitespace around the text does not change what `Number` reads |
| JsText.ParseNumberPadded | global_modules/BotOperator/Command/index.js:154 | digits with whitespace around them read as their decimal value |
| JsText.SignedIntegerValue | global_modules/BotOperator/Command/index.js:154 | a sign followed by digits reads as the digits' value, negated for `-` |
| JsText.ParseDecimalString | global_modules/BotOperator/Command/index.js:194 | `Number(String(n)) == n`: the decimal writing of a bound reads back as the same number |
| JsText.CollapseWhitespace | global_modules/BotOperator/Command/index.js:821 | `replace(/\s+/g, ' ')` is empty only for empty text, keeps whether it starts with whitespace, and leaves only single spaces as whitespace, never two in a row |
| JsText.CollapseKeepsText | global_modules/BotOperator/Command/index.js:821 | collapsing whitespace keeps the non-whitespace characters, in order: with the whitespace removed, the collapsed text and the original are the same |
| JsText.StripWhitespace | global_modules/BotOperator/Command/index.js:881 | `replace(/\s+/g, '')` holds no whitespace, is no longer than the text, and leaves text without whitespace unchanged |
| JsText.StripKeepsText | global_modules/BotOperator/Command/index.js:881 | removing the whitespace keeps every other character as often as it occurs and drops every whitespace character |
| JsText.StripConcat | global_modules/BotOperator/Command/index.js:881 | removing the whitespace of two texts put together is removing it from each and putting the results together, which keeps the characters' order |
| JsText.Utf16Length | global_modules/BotOperator/Command/index.js:513 | `.length` counts one unit for a character below U+10000 and two for one above, between one and two units per character |
| JsText.Utf16Concat | global_modules/BotOperator/Command/index.js:513 | the length of two texts put together is the sum of their lengths, so with the one-character case the count is exact for every text |
| JsText.RemoveFirst | global_modules/BotOperator/Command/index.js:878 | `replace(word, '')` leaves text without the word unchanged and otherwise cuts out its first occurrence |
| Args.NewArg | global_modules/BotOperator/Command/index.js:93-100 | `new mapType[k](name)` is a descriptor of that kind with that name and every flag and bound unset |
| Args.IntToRegExp | global_modules/BotOperator/Command/index.js:121-132 | RangeError exactly when both bounds are truthy and min > max; otherwise `[+-]?\d+`/`*`, wrapped as `(?:…\s?)+`/`*` when `many` |
| Args.StrToRegExp | global_modules/BotOperator/Command/index.js:177-204 | fails exactly on the four length conflicts, in the source's order; on success a lone `maxLength` sets `minLength` to 1, and the stored bounds are then ordered |
| Args.ToRegExp | global_modules/BotOperator/Command/index.js:231-233 | only a string descriptor is changed by `toRegExp`, never its name or flags; a date descriptor's fragment is the fixed class |
| Args.ToRegExpIdempotent | global_modules/BotOperator/Command/index.js:186-187 | a second `toRegExp` gives the same fragment and writes nothing more |
| Args.IntParse | global_modules/BotOperator/Command/index.js:134-162 | an absent group gives `[]` or `null` and never `false`; a present one is `false` exactly when the pattern test fails or a number is outside a truthy bound; otherwise the number(s) |
| Args.StrParse | global_modules/BotOperator/Command/index.js:206-222 | an absent group gives `[]` or `null`; a present one is `false` exactly when its test fails, else the token or its `' '`-split list |
| Args.LongestRunMeans | global_modules/BotOperator/Command/index.js:207 | the test of `\S{n}` finds a match in the value exactly when it holds a run of at least `n` non-whitespace characters |
| Args.DateParse | global_modules/BotOperator/Command/index.js:235-254 | text outside the date class is `false`; otherwise the collaborator's parse or duration, `false` when it finds nothing |
| Args.Parse | global_modules/BotOperator/Command/index.js:134-152 | an absent group never rejects a number or string descriptor |
| UsageCompiler.NextMatchIsLeftmost | global_modules/BotOperator/Command/index.js:281 | the search for `\s*<.+?>` finds the leftmost match, with the first `>` and no line terminator inside, and nothing when no position matches |
| UsageCompiler.MatchesInOrder | global_modules/BotOperator/Command/index.js:281 | the global search's matches lie inside the usage, left to right, without overlapping |
| UsageCompiler.MatchesAreLazy | global_modules/BotOperator/Command/index.js:281 | every match of the global search has the lazy placeholder shape |
| UsageCompiler.MatchedTextsCount | global_modules/BotOperator/Command/index.js:281 | one matched text per match and one kept gap more |
| UsageCompiler.GapsAndMatchesCoverUsage | global_modules/BotOperator/Command/index.js:281 | gaps and matched texts interleaved give the usage back: nothing is lost or repeated |
| UsageCompiler.CoerceValue | global_modules/BotOperator/Command/index.js:292-300 | a value `Number()` accepts becomes a number, `'true'`/`'false'` a boolean, anything else stays text, and a missing one is undefined |
| UsageCompiler.CoerceProperty | global_modules/BotOperator/Command/index.js:290-302 | the key is the text before the first `=`; the value is `CoerceValue` of the text between the first and the second `=`, and undefined when there is no `=` |
| UsageCompiler.AsBound | global_modules/BotOperator/Command/index.js:319 | a number or boolean is a set bound exactly when it is truthy, and then its numeric value (`true` is 1); undefined and text are unset |
| UsageCompiler.ApplyProperty | global_modules/BotOperator/Command/index.js:318-320 | `arg[key] = value` keeps the kind; `name` becomes the value as text, `many`/`includeEmpty`/`duration` its truthiness, `min`/`max`/`length`/`minLength`/`maxLength` the bound it gives, each only where the descriptor has that field; every other field, and every other key, leaves the fields as they were (the keys `toRegExp` and `parse` also hide a method: see `CompileTyped` and "## Left out") |
| UsageCompiler.ApplyPropertiesSnoc | global_modules/BotOperator/Command/index.js:318-320 | applying one more property applies it to the result of the ones before |
| UsageCompiler.LastValue | global_modules/BotOperator/Command/index.js:318-320 | the value of the last property with a key, and none exactly when no property has that key |
| UsageCompiler.ApplyPropertiesCommon | global_modules/BotOperator/Command/index.js:318-320 | after the loop, `name`, `many` and `includeEmpty` are decided by the last property with that key, and keep their value when there is none |
| UsageCompiler.ApplyPropertiesInt | global_modules/BotOperator/Command/index.js:318-320 | the same for `min` and `max` of a number descriptor |
| UsageCompiler.ApplyPropertiesStr | global_modules/BotOperator/Command/index.js:318-320 | the same for `length`, `minLength` and `maxLength` of a string descriptor |
| UsageCompiler.ApplyPropertiesDate | global_modules/BotOperator/Command/index.js:318-320 | the same for `duration` of a date descriptor |
| UsageCompiler.ApplyPropertiesInOrder | global_modules/BotOperator/Command/index.js:318-320 | the `for … of properties` loop applies them in order |
| UsageCompiler.KindOf | global_modules/BotOperator/Command/index.js:305-311 | the kind is the first of `int`, `str`, `date` the type starts with, and none when it starts with none of them |
| UsageCompiler.ApplyModifiers | global_modules/BotOperator/Command/index.js:322-340 | TypeError exactly for a suffix other than `''`, `[]`, `?`, `[]?`; `[]` sets `many`, `?` sets `includeEmpty`, `[]?` both, a date gets neither from `[]`/`[]?`; nothing else changes |
| UsageCompiler.CompilePlaceholder | global_modules/BotOperator/Command/index.js:282-287 | a first word without `:` leaves the type undefined and throws; otherwise the name is the text before the first `:`, the type the text between the first and the second, and the other words are the properties; a success records a name without `:` that, with a `:` after it, starts the first word |
| UsageCompiler.ToRegExpKeyThrows | global_modules/BotOperator/Command/index.js:318-342 | a placeholder of a known type with any item whose key is `toRegExp` does not compile, whatever the value |
| UsageCompiler.CompileTyped | global_modules/BotOperator/Command/index.js:305-346 | an unknown type is `Invalid type`; otherwise the descriptor is `new mapType[k](name)` with the coerced properties applied in order, then the modifiers of the trimmed rest of the type; it fails exactly when a modifier throws, a property named `toRegExp` hides the method so that calling it throws a TypeError, or `toRegExp` throws; otherwise it stores the descriptor `toRegExp` leaves, recorded as `[name, k]`, with the text `leading(fragment)` |
| UsageCompiler.PlaceholderFields | global_modules/BotOperator/Command/index.js:305-346 | each field of a compiled descriptor: its name and bounds are the last property of that key or the unset default, `many` and `includeEmpty` come from a property or a modifier (a date never gets `many` from one), and `minLength` is 1 when only `maxLength` is set |
| UsageCompiler.FinishPlaceholder | global_modules/BotOperator/Command/index.js:342-346 | fails exactly when `toRegExp` throws; otherwise the descriptor as `toRegExp` left it, with its group text |
| UsageCompiler.ReplaceMatchesCounts | global_modules/BotOperator/Command/index.js:281-347 | a replacement that succeeds records one descriptor, one `[name, type]` pair and one text per match |
| UsageCompiler.ReplaceMatchesKeeps | global_modules/BotOperator/Command/index.js:281-347 | what holds of every descriptor the callback returns holds of every descriptor recorded |
| UsageCompiler.ReplaceMatchesSource | global_modules/BotOperator/Command/index.js:281-347 | the replaced text is the kept gaps with the callback's texts between them |
| UsageCompiler.ReplaceMatchesPieces | global_modules/BotOperator/Command/index.js:342-346 | the k-th recorded text is the k-th match's whitespace followed by the k-th descriptor's group |
| UsageCompiler.Compile | global_modules/BotOperator/Command/index.js:276-350 | one descriptor and one `_arguments` entry per placeholder, every descriptor compiled, the source anchored by `^…$`; a usage without `<` compiles to itself, anchored |
| UsageCompiler.CompileShape | global_modules/BotOperator/Command/index.js:281-350 | the source is `^`, the usage with each `\s*<…>` replaced by its whitespace and `(fragment)` (as `(?:…)?` when `includeEmpty`), and `$` |
| UsageCompiler.FragmentSelfContained | global_modules/BotOperator/Command/index.js:121-233 | no fragment `toRegExp` builds opens a capturing group of its own |
| UsageCompiler.PieceOneGroup | global_modules/BotOperator/Command/index.js:342-346 | each replacement text opens exactly one capturing group |
| UsageCompiler.InterleaveGroups | global_modules/BotOperator/Command/index.js:281 | plain gaps around one-group texts give as many groups as texts |
| UsageCompiler.CompileAligns | global_modules/BotOperator/Command/index.js:342-350 | when the literal text holds no `(`, `[` or `\`, the pattern has exactly one capture group per descriptor, so group k is argument k |
| Sorting.Sort | global_modules/BotOperator/Command/index.js:729-742 | the sort returns the elements sorted by the key and a permutation of what they were |
| Sorting.PermutationKeepsMembers | global_modules/BotOperator/Command/index.js:729 | a sort neither adds nor drops an element |
| Sorting.PermutationKeepsDistinct | global_modules/BotOperator/Command/index.js:729 | a sort keeps names distinct |
| Entries.PutEntries | global_modules/BotOperator/Command/index.js:509 | `o[key] = v` keeps keys distinct; the entries are the new pair and the old pairs of other keys |
| Entries.GetPut | global_modules/BotOperator/Command/index.js:814 | after `o[key] = v`, reading `key` gives `v`, other keys read as before, and `key in o` holds |
| AliasTable.LastToken | global_modules/BotOperator/Command/index.js:507-511 | the last token, in dictionary order, whose aliases hold the alias: no later token lists it; none exactly when no token lists it |
| AliasTable.FlattenEntries | global_modules/BotOperator/Command/index.js:506-511 | the object built holds each alias once, with the last token that lists it |
| AliasTable.BuildMap | global_modules/BotOperator/Command/index.js:506-511 | the nested loops build exactly that object |
| AliasTable.CompareAliases | global_modules/BotOperator/Command/index.js:513 | the comparator `b[0].length - a[0].length` puts `a` first exactly when its alias is not shorter |
| AliasTable.BuildAliasTable | global_modules/BotOperator/Command/index.js:506-513 | the table holds every alias once with its last token, is a permutation of the object's entries, and is sorted longest first |
| AliasTable.LongerFirst | global_modules/BotOperator/Command/index.js:513 | an entry earlier in the table has an alias at least as long |
| Commands.NewCommon | global_modules/BotOperator/Command/index.js:10-37 | TypeError for a missing name, icon, description, in that order; otherwise those fields, the handlers as given, `channels` and `examples` defaulting to `[]`, `cronJobs` to no job, and `lazy` exactly when `executeLazy` is given |
| Commands.NewStructured | global_modules/BotOperator/Command/index.js:270-351 | a missing usage is checked first, then the common fields, then the compiler's errors; a success is well formed, with the usage, the common fields, and the `args`, `_arguments` and pattern source that compiling the usage gives |
| Commands.NewNatural | global_modules/BotOperator/Command/index.js:488-514 | a missing query is checked first, then the common fields; otherwise a command with the common fields, the query, margin and date flags given, the path `options.dictionaryPath || 'dict.json'`, and the table of the dictionary loaded from it |
| Commands.MissingField | global_modules/BotOperator/Command/index.js:409-418 | the first missing of name, icon, description, usage/query, execute, in that order, and none when all are given |
| Commands.BuildStructured | global_modules/BotOperator/Command/index.js:408-432 | `build()` reports the first missing field; otherwise it succeeds exactly when the usage compiles, with every builder field in the command and the `args`, `_arguments` and pattern source the compiler gives |
| Commands.BuildNatural | global_modules/BotOperator/Command/index.js:589-618 | `build()` reports the first missing field; otherwise it always succeeds, with every builder field in the command: the common fields and handlers, the query, margin and date flags, and `dictionaryPath || 'dict.json'` |
| NaturalMatch.TokensOf | global_modules/BotOperator/Command/index.js:828 | a token is in `foundTokens` exactly when some hit has it |
| NaturalMatch.Pick | global_modules/BotOperator/Command/index.js:836-844 | the entry taken is eligible: a query slot not found yet whose alias starts at the offset |
| NaturalMatch.PickFirst | global_modules/BotOperator/Command/index.js:836-844 | no entry before the one taken is eligible, and none at all when nothing is taken |
| NaturalMatch.ScanFinds | global_modules/BotOperator/Command/index.js:830-847 | soundness of the scan: every hit is a table entry for a query slot whose alias occurs where found at a non-skipped character; hits are in text order, do not overlap, and no token is found twice |
| NaturalMatch.ScanComplete | global_modules/BotOperator/Command/index.js:827-847 | completeness of the scan: each hit is the entry the inner loop picks at its offset given the tokens found before it, and at every offset it takes nothing from (not skipped, not inside an alias already taken) no entry of the table could be taken |
| NaturalMatch.PickIsLongest | global_modules/BotOperator/Command/index.js:836-844 | with the table sorted, the alias taken is at least as long as any other eligible at that offset |
| NaturalMatch.ScanText | global_modules/BotOperator/Command/index.js:827-847 | the `while` loop records exactly the scan's hits and leaves `args` as the query with each found slot set to its alias |
| NaturalMatch.PickAlias | global_modules/BotOperator/Command/index.js:836-844 | the inner loop over the table, testing `token in args` and `foundTokens`, takes the entry `Pick` names |
| NaturalMatch.FillOthers | global_modules/BotOperator/Command/index.js:823 | a slot whose token was not found keeps its default |
| NaturalMatch.FillFound | global_modules/BotOperator/Command/index.js:838 | every found token's slot holds the alias found for it |
| NaturalMatch.DateStep | global_modules/BotOperator/Command/index.js:849-872 | without date parsing nothing changes; with it, when the collaborator finds a date (both ends of a duration) the `duration` or `datetime` slot holds it and the text becomes the collaborator's remainder; otherwise the text stays and the slot keeps its value, or is `null` when the query has none |
| NaturalMatch.DateStepOthers | global_modules/BotOperator/Command/index.js:849-872 | the date step changes no slot but its own |
| NaturalMatch.RemoveAllShortens | global_modules/BotOperator/Command/index.js:877-879 | cutting out the aliases never lengthens the text |
| NaturalMatch.EvaluateSlots | global_modules/BotOperator/Command/index.js:884-899 | the loop reports a full object exactly when no slot is `null`, and then the evaluated object |
| NaturalMatch.RequiredSlotUnfilled | global_modules/BotOperator/Command/index.js:886-891 | a slot with a `null` default whose token is not found keeps the command from matching |
| NaturalMatch.DateSlotRequired | global_modules/BotOperator/Command/index.js:849-891 | with date parsing and no date slot in the query, a message in which the collaborator finds no date does not match |
| NaturalMatch.DateSlotFilled | global_modules/BotOperator/Command/index.js:849-879 | when the collaborator finds a date, the text written is its remainder with the found aliases cut out, and a match holds that date in its slot |
| NaturalMatch.NaturalAccepts | global_modules/BotOperator/Command/index.js:820-899 | the converse: a command without date parsing, whose leftover text is within the margin and whose `null` slots were all found, matches |
| NaturalMatch.FoundTokensBound | global_modules/BotOperator/Command/index.js:838 | in a natural match every found token's slot holds its alias, unless it is a date slot |
| NaturalMatch.EvaluateGet | global_modules/BotOperator/Command/index.js:893-895 | after the evaluation a slot that held a supplier holds the supplier's result, any other slot is unchanged, and no slot is added |
| NaturalMatch.TryNatural | global_modules/BotOperator/Command/index.js:820-899 | the loops of the natural path compute the text written to `chat.filteredText` and the arguments `NaturalOutcome` describes |
| CommandRegistry.CompareCommands | global_modules/BotOperator/Command/index.js:729-742 | the comparator puts `a` first exactly when its rank is not after `b`'s: structured first, then more arguments or slots first |
| CommandRegistry.PlanFrom | global_modules/BotOperator/Command/index.js:747-771 | the cron loop adds no more schedules than there are jobs; it throws only the conflict error, and then the job right after those added has both `before` and `after`; without an error it adds one schedule per job |
| CommandRegistry.PlanStopsAtConflict | global_modules/BotOperator/Command/index.js:747-771 | the cron loop schedules job by job with the option `before`, else `startDate`, else `endDate`; it stops with the conflict error at the first job with both `before` and `after`, and only if there is such a job |
| CommandRegistry.Registry.constructor | global_modules/BotOperator/Command/index.js:691-698 | an empty registry without a cron manager |
| CommandRegistry.Registry.SetCronManager | global_modules/BotOperator/Command/index.js:700-703 | sets the cron manager and changes nothing else |
| CommandRegistry.Registry.Register | global_modules/BotOperator/Command/index.js:716-772 | a non-command or a taken name throws and changes nothing; otherwise `data` gains exactly that command and stays sorted with distinct names; without a cron manager nothing is scheduled, with one its jobs are scheduled as the cron loop plans |
| CommandRegistry.Registry.ScheduleJobs | global_modules/BotOperator/Command/index.js:747-771 | the loop appends the planned schedules and returns the planned error |
| CommandRegistry.Registry.Get | global_modules/BotOperator/Command/index.js:780-906 | the loop returns the command and arguments `Dispatch` picks and leaves `chat.filteredText` as it says |
| CommandRegistry.TryOne | global_modules/BotOperator/Command/index.js:784-900 | one pass of the loop body: the arguments of the attempt, and `chat.filteredText` written only by a natural attempt |
| CommandRegistry.IdsMembers | global_modules/BotOperator/Command/index.js:782 | an id is in `channelToIdArray(cs)` exactly when some non-null channel has it |
| CommandRegistry.VisibleMeans | global_modules/BotOperator/Command/index.js:786-791 | in debug mode only a debug room sees commands; otherwise a command with a channel list is seen only from those channels and the debug rooms |
| CommandRegistry.ValidUpToMeans | global_modules/BotOperator/Command/index.js:807-818 | `is_satisfy` stays true exactly when no `parse` returned `false` |
| CommandRegistry.ParseGroups | global_modules/BotOperator/Command/index.js:805-818 | the `forEach` reports satisfaction exactly when every group parses, and builds the object of the valid results |
| CommandRegistry.BindGet | global_modules/BotOperator/Command/index.js:814 | the value stored for a name is that of the last descriptor with the name |
| CommandRegistry.BindKeys | global_modules/BotOperator/Command/index.js:814 | the object holds only names of descriptors that parsed |
| CommandRegistry.TryCommand | global_modules/BotOperator/Command/index.js:784-900 | one pass of the loop body: a command not visible from the channel is skipped, only a visible command can accept, a structured command never writes the filtered text, and a visible natural command writes its text and accepts as its own path says |
| CommandRegistry.FirstAcceptingIsFirst | global_modules/BotOperator/Command/index.js:784-905 | the walk returns the first accepting command with its arguments, or nothing when none accepts |
| CommandRegistry.NothingTried | global_modules/BotOperator/Command/index.js:784-791 | when no remaining command matches or writes `chat.filteredText`, the loop ends with `{cmd: null, args: null}` and the text as it was |
| CommandRegistry.FilteredIsLastTried | global_modules/BotOperator/Command/index.js:784-880 | the loop leaves in `chat.filteredText` the text of the last natural command it tried, up to the one it returns, or the value it had when it tried none |
| CommandRegistry.DispatchFirst | global_modules/BotOperator/Command/index.js:784-905 | `get` returns the first command in `data` order that accepts, with its arguments, and `{cmd: null, args: null}` exactly when none accepts |
| CommandRegistry.DebugIsolation | global_modules/BotOperator/Command/index.js:786-787 | in debug mode, a channel outside the debug rooms matches nothing and leaves `chat.filteredText` untouched |
| CommandRegistry.AcceptedIsVisible | global_modules/BotOperator/Command/index.js:786-791 | the command returned is visible from the channel |
| CommandRegistry.StructuredBeforeNatural | global_modules/BotOperator/Command/index.js:729-742 | in a sorted registry a natural command is returned only when no structured command accepts |
| CommandRegistry.StructuredAccepts | global_modules/BotOperator/Command/index.js:798-819 | a visible structured command matches exactly when its pattern matches and every descriptor parses its group; each argument is then its parsed value, and `chat.filteredText` is not written |

## Left out

- `createManual`, both `manual` methods and `CronLog` produce help and log text only. They rely on `String` prototype extensions and `humanize`, which are not part of this model.
- The builders' setters are not modelled. A builder is its field record, and `build()` is modelled. The `setExamples` formatting is display only. The `setChannels` filter of falsy channels is modelled by channel lists of `Option`.
- `Command.execute`, `executeLazy` and `executeCron` run the bot's own callbacks. A callback is an opaque handler id. `StructuredCommand.add` and `NaturalCommand.add` are `new …(options).register()` and are not modelled separately.
- The cron job body (`Thread.sleep`, `DateTime.now`, `logRoom.send`) and `setWakeLock` are timing and I/O. A scheduled job is recorded as its cron text, command name, index, delay (`after`) and option, in the registry's `scheduled` log.
- The singleton return of an existing `Registry.CommandRegistry` is not modelled: each registry is a fresh object. `Registry.loop` only hands each command to a callback and is not modelled.
- Loading the dictionary (`require`/`FileStream.read`) is file I/O. It is the parameter `load`, from path to dictionary. The dictionary's key order is taken as given. JavaScript's `for…in` visits integer-like keys first, in ascending order, and this is not modelled anywhere: not for the dictionary, not for `foundTokens` when the found aliases are cut out (the model cuts them in hit order), and not for `args` in the completeness check.
- `DateTime.parse`/`parseDuration` live in `../DateTime`, which is not part of this model. They are the functions of `Values.DateTimeLib`.
- The JavaScript `RegExp` engine is the parameter `RegexEngine` of `Env`, from pattern and text to the groups. The model proves facts about the pattern text only.
- `Number()` is modelled on integers: an optional sign and decimal digits, with blank text as 0. Floats, hexadecimal, `Infinity` and exponents are not modelled. Numeric bounds are integers.
- `RegExp` construction errors (`SyntaxError` for a malformed usage) are not modelled. The source text is kept as built.
- Strings are sequences of code points. `.length` is taken in UTF-16 units where it matters: the alias sort (index.js:513, `AliasTable.LongerFirst`) and the margin test (index.js:881, `NaturalMatch.OverMargin`). `String.prototype.startsWith` and `replace` work on characters.
- The abstract-class checks (`this.constructor === Command` / `Arg`) cannot fail for the constructors modelled, so they are not modelled.
- The text of engine-generated errors, such as the `TypeError` for an undefined type, is a fixed stand-in.
- `Sorting.Sort`: it states sortedness and permutation only, not the tie order of `Array.prototype.sort`, which the engine chooses.
- `UsageCompiler.AsBound`: a property value of `true` for a numeric bound is taken as the bound 1. That agrees with the source for `min` and `max`, which compare numbers with `true` as 1. For `length`, `minLength` and `maxLength` the source differs: it writes `true` into the pattern, as the literal text `\S{true}` (read by JavaScript as `\S` followed by `{true}`), while the model builds `\S{1}`. A text value for a bound is taken as unset; JavaScript would coerce it when the pattern is built or compared.
- `UsageCompiler.CompileAligns`: it states the group alignment only for usages whose literal text holds no `(`, `[` or `\`. Other usages splice regular-expression syntax into the pattern, and their groups can shift.
- `UsageCompiler.ApplyProperty`: a property named `parse` (`<x:int parse=1>`) replaces the descriptor's `parse` method, so in the source that command compiles but `get` throws a TypeError at index.js:808 as soon as its pattern matches; the model keeps the method and parses the group. A property named `toRegExp` is modelled, as the compile failure of `UsageCompiler.CompileTyped`.
- `in` on a JavaScript object also sees the keys of `Object.prototype`. A token named `toString` or `constructor` is therefore never taken by the source's scanner (`token in args` is true and `!(token in foundTokens)` is false from the start), while `NaturalMatch.Eligible` sees only the query's own keys. Likewise a dictionary alias `__proto__` is dropped by the source at index.js:509, since assigning a string to `__proto__` does nothing, while `AliasTable.BuildAliasTable` keeps it.
- A missing `cronJobs` becomes the empty object `{}` in the source. Its `length` is undefined, so the cron loop adds nothing. The model uses the empty job list, which schedules the same nothing.
- A query is a JavaScript object, so its keys are distinct. The model's query is an entry list and does not carry that fact as an invariant; `NaturalMatch.NaturalAccepts` assumes it instead.
- `NaturalMatch.NaturalAccepts`: it is stated for commands without date parsing and for a query with distinct keys. With date parsing, `NaturalMatch.DateSlotFilled` and `NaturalMatch.DateSlotRequired` state what the date step adds and when it blocks the match.
- `Bots/main/main.js` reads `chat.filteredText` and wires the bot to the platform. It is not part of this model.
