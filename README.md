# WA_BOT message-dispatch core, modelled in Dafny

WA_BOT is a WhatsApp auto-responder. It receives each `messages.upsert` batch and answers a
private chat in one of these ways:

- it sends the catalog text;
- it sends a QRIS payment code: the saved catalog template, else the cached `qris.png`, else an
  apology;
- it sends a product's description, when the text names a configured product or one of its
  aliases;
- it sends a thank-you reply;
- it runs an owner command: `saveqris`, `exclude`, `unexclude` or `listexclude`.

Every automatic answer is gated by a per-chat cooldown. All sends go through one FIFO send queue,
optionally paced by a random delay. Each routed message leaves at most one log line.

This project models that core: one Dafny module per source file.

**Pure parts**

- `Strings`: the JavaScript string operations used.
- `Utils`: JID and number normalisation, text extraction, the random delay.
- `Config`: the environment parsing.
- `Alternation`: the case-insensitive regular-expression alternation, stated directly over
  strings.

**Stateful parts** are classes whose methods change their fields:

- `Cooldown.Store`;
- `SendQueue.Queue`;
- `Cache.QrisCache`;
- `Products.Catalog`;
- `ExcludeHandler.RuntimeExcludes`;
- `QrisHandler.MediaGate`;
- `MessageHandler.Bot`.

**Inputs**

- The process environment is a map from variable names to values.
- The clock is an explicit `now` (read at a cooldown check) and `sentAt` (read when a send
  resolved).
- Whether the transport accepts a job is a function `net: Job -> bool`.
- The draw of `Math.random()` is a real in [0, 1), and the delay is computed in exact
  arithmetic (see `Utils.RandomDelay` under "## Left out").
- Each file read or file write is an input saying what was found or whether the write succeeded.
  A write is recorded as a snapshot in a ghost history.

**Sentence detection is leftmost, then longest.** The code builds one regular expression of all
keys, sorted longest first, and takes the first match. That match is at the leftmost position
where any key occurs, and it is the longest key there; a short key early in the text beats a
long key later. `Alternation.ExecLeftmostLongest` and `Products.DetectLeftmostLongest` state
exactly this.

## Model

| member | source | states |
|---|---|---|
| Strings.Trim | src/config.js:16 | `trim` leaves no ECMAScript white space or line terminator at either end, and a trimmed string is unchanged |
| Strings.TrimDecomposes | src/config.js:16 | the input is the trimmed text with only spaces before and after it, which pins the trimmed text down |
| Strings.TrimIdempotent | src/config.js:16 | trimming twice is trimming once |
| Strings.TrimPadded | src/handlers/catalogHandler.js:12 | spaces around a text without spaces at its ends are removed and nothing else is |
| Strings.Lower | src/config.js:16 | `toLowerCase` keeps the length and maps each character through the case mapping |
| Strings.LowerKeepsTrimmed | src/config.js:16 | lower-casing a trimmed string leaves it trimmed, so trim-then-lower yields clean triggers |
| Strings.KeepDigits | src/utils.js:36 | `replace(/\D/g, "")` yields only digits, holds exactly the digits that occur in the input, and leaves a digit string as it is |
| Strings.KeepDigitsAppend | src/utils.js:36 | the digits of a concatenation are the digits of the first part followed by those of the second, so the input's digits are kept in order |
| Strings.KeepDigitsChar | src/utils.js:36 | a single digit is kept and any other character dropped |
| Strings.ParseInt | src/config.js:53 | `parseInt(_, 10)` of `""` is `NaN`, a digit string reads as its value, and a negative result needs a leading `-` after the spaces |
| Strings.ParseIntAfterSpaces | src/config.js:53 | leading white space is skipped before the number is read |
| Strings.ParseIntReads | src/config.js:53 | after the spaces, the longest run of digits is read and whatever follows the first non-digit is ignored |
| Strings.ParseIntReadsSigned | src/config.js:53 | one `+` or `-` may come before the digits, and `-` negates the number |
| Strings.ParseIntNaN | src/config.js:53 | with no digit after the spaces and the optional sign, the result is `NaN` |
| Strings.ParseIntDecimal | src/config.js:53 | `parseInt(_, 10)` reads back the decimal rendering of every natural number |
| Strings.Decimal | src/config.js:53 | the decimal rendering of a default is a non-empty digit string, one digit exactly below 10 |
| Strings.Upper | src/products.js:25 | `toUpperCase` keeps the length and maps each character through the case mapping |
| Strings.Split | src/config.js:15 | `split` of a one-character separator never returns an empty list and no piece contains the separator |
| Strings.JoinSplit | src/config.js:15 | joining the pieces of a split with the same separator gives back the string |
| Strings.SplitJoin | src/handlers/excludeHandler.js:191 | splitting a join of separator-free pieces gives back the pieces |
| Strings.SplitHead | src/utils.js:44 | the first piece of a split is the text before the first separator, or the whole string |
| Strings.CollapseSpaces | src/products.js:25 | `replace(/\s+/g, "_")` leaves no space in the product id, is no longer than its input, and leaves a space-free text as it is |
| Utils.NormalizeIndoNumberDigits | src/utils.js:34-41 | the result is only digits, and empty input gives `""` |
| Utils.IndoNumberCases | src/utils.js:34-41 | a leading `0` becomes `62`, a leading `8` gets `62` in front, and any other digit string is returned unchanged |
| Utils.IndoNumberIdempotent | src/utils.js:34-41 | normalising a number twice is normalising it once |
| Utils.IndoNumberForms | src/utils.js:34-41 | `0812…`, `812…` and `62812…` normalise to the same number |
| Utils.DigitsFromJid | src/utils.js:43-47 | the result is only digits |
| Utils.DigitsFromJidReadsUser | src/utils.js:43-47 | the digits come from the text before the first `@` and before the first `:` |
| Utils.NormalizeJidForCompare | src/utils.js:49-54 | the result is trimmed and never ends in the legacy `@c.us` suffix (in any letter case) |
| Utils.NormalizeJidForCompareCases | src/utils.js:49-54 | an empty JID stays empty; a JID without the legacy suffix comes back trimmed and otherwise unchanged; one with it ends in `@s.whatsapp.net` after the same user part |
| Utils.PersonalForm | src/utils.js:52 | the case-insensitive `@c.us` rewrite ends in `@s.whatsapp.net` |
| Utils.NormalizeJidIdempotent | src/utils.js:49-54 | normalising a JID twice is normalising it once |
| Utils.NormalizeLegacy | src/utils.js:52 | a JID ending in `@c.us` (any case) becomes its trimmed user part plus `@s.whatsapp.net` |
| Utils.NormalizePersonal | src/utils.js:49-54 | a JID with the personal suffix only loses its leading spaces |
| Utils.NormalizeJidSuffixForms | src/utils.js:49-54 | `x@c.us` and `x@s.whatsapp.net` normalise to the same value |
| Utils.JidVariants | src/utils.js:56-87 | an empty JID has no variants; any other has its trimmed form and that form normalised |
| Utils.JidVariantsCover | src/utils.js:56-78 | the variants contain the trimmed JID and its normalised form, plus the three suffixed forms of its digits and of their normalised spelling when it has digits |
| Utils.JidSet.Add | src/utils.js:61 | `Set.add` adds exactly one element |
| Utils.AddSuffixForms | src/utils.js:68-70 | the three suffixed forms of a number are added, and nothing else |
| Utils.AddNumberForms | src/utils.js:66-78 | the suffixed forms of the digits, and of their different normalised spelling, are added only when there are digits |
| Utils.AddSwapForms | src/utils.js:81-86 | the personal/legacy swap of a JID with either suffix is added, and nothing else |
| Utils.AddJidVariants | src/utils.js:56-87 | the set only grows, by exactly the JID's variants; an empty JID adds nothing |
| Utils.RandomDelay | src/utils.js:90-93 | an empty range gives `min`; otherwise the delay is in [min, max) |
| Utils.RandomDelayReachesAll | src/utils.js:90-93 | every delay in [min, max) is produced by some draw of `Math.random()` |
| Utils.FirstNonEmpty | src/utils.js:104-114 | an `a \|\| b \|\| …` chain yields the first non-empty string, or `""` exactly when all are empty |
| Utils.ExtractTextFromMessage | src/utils.js:96-115 | no body gives `""`; a non-empty result is one of the unwrapped body's text fields |
| Utils.ExtractTextIsFirstNonEmpty | src/utils.js:96-115 | the text is the first non-empty field, in the source's priority order, of the body after the ephemeral, view-once and view-once-v2 unwrapping |
| Utils.ExtractTextEmpty | src/utils.js:96-115 | the text is `""` exactly when every field of the unwrapped body is empty |
| Utils.EphemeralOpenedOnce | src/utils.js:100 | each wrapper is opened at most once: a doubly wrapped text is not found |
| Config.EnvOr | src/config.js:10 | `process.env[name] \|\| fallback`: a set, non-empty value is used, otherwise the fallback |
| Config.Flag | src/config.js:10-11 | a flag is on exactly when the value, or the default when unset or empty, lower-cases to `true` |
| Config.FlagValues | src/config.js:10-11 | a flag is on exactly when its value, lower-cased, is `true`; an unset or empty flag takes its default; `TRUE` is on and `1` and `yes` are off |
| Config.CleanTriggers | src/config.js:14-30 | every kept piece is non-empty, trimmed and lower-case, and the kept pieces are exactly the cleaned non-empty pieces |
| Config.TriggerList | src/config.js:14-17 | every catalog, QRIS or thanks trigger is non-empty, trimmed and lower-case |
| Config.TriggerListMembers | src/config.js:14-30 | a string is a trigger exactly when it is some comma-separated piece, trimmed and lower-cased, and is not empty |
| Config.CleanRaw | src/config.js:38-46 | owner and product-key entries are trimmed and non-empty and keep their case, and are exactly the trimmed non-empty pieces |
| Config.RawList | src/config.js:81-84 | every `PRODUCT_KEYS` or owner entry is trimmed and non-empty |
| Config.SingleEntryLists | src/config.js:81-84 | a single entry keeps its case in a raw list and is lower-cased in a trigger list |
| Config.WithBayarAlias | src/config.js:24 | `bayar` is appended exactly when the alias is accepted and absent; the earlier triggers are kept, and no other entry's count changes |
| Config.BayarAliasOnce | src/config.js:24 | the rule never duplicates `bayar`, and applying it again changes nothing |
| Config.RateEnabled | src/config.js:59-64 | `RATE_LIMIT_ENABLED` decides whenever it is set; otherwise `RATE_ENABLED` does; with neither, rate limiting is on |
| Config.RateLimitTakesPrecedence | src/config.js:59-64 | once `RATE_LIMIT_ENABLED` is set, even to `""`, `RATE_ENABLED` no longer matters |
| Config.RateEnabledDefaults | src/config.js:59-64 | with neither variable set rate limiting is on; either variable alone decides by its own value |
| Config.HoursSettingMs | src/config.js:70-73 | a cooldown is the parsed hours times 3,600,000 ms, and is undefined (`NaN`) exactly when the hours are |
| Config.HoursSettingRoundTrip | src/config.js:70-73 | a setting of `h` hours, or an unset one with default `h`, is `h × 3,600,000` ms |
| Config.NormalizeNumbers | src/config.js:49 | the normalised owner numbers are the raw ones, element by element, through the number normaliser, and are digit strings |
| Config.NormalizeJids | src/config.js:50 | the normalised owner JIDs are the raw ones, element by element, through the JID normaliser |
| Config.OwnerListsNormal | src/config.js:49-50 | normalising the pre-normalised owner lists again changes nothing |
| Config.LoadSettings | src/config.js:10-84 | settings exist exactly when every numeric setting parses; then every field is its rule's value: the three flags and the rate switch, the three trigger lists with the `bayar` rule, the raw and normalised owner lists, the product keys, the trimmed texts, and the numbers with the cooldowns converted from hours |
| Config.Assemble | src/config.js:10-84 | the exported record has each field from its rule: flags, trigger lists and the `bayar` rule, raw owner lists and their normalised forms, product keys, trimmed texts, and the parsed numbers |
| Config.SettingsClean | src/config.js:14-50 | in the exported record every trigger is non-empty, trimmed and lower-case, `bayar` is a QRIS trigger when the alias is accepted, product keys are trimmed and non-empty, and the normalised owner lists are digits and JIDs already in normal form |
| Config.DefaultNumbers | src/config.js:53-78 | with nothing set, every numeric setting takes its documented default |
| Config.UnsetInt | src/config.js:53 | an unset integer setting reads as its default |
| Cooldown.CanSend | src/cooldown.js:51-58 | a send is allowed exactly when the JID has no record of the key, the record is 0, or `now` is at least the record plus the cooldown |
| Cooldown.Stamp | src/cooldown.js:60-66 | a mark creates the JID's map when missing, adds only that key, and records the time |
| Cooldown.NoRecordAllows | src/cooldown.js:51-58 | with no record, or a record of 0, a send is allowed |
| Cooldown.RecordDecides | src/cooldown.js:51-58 | with a record `last ≠ 0`, a send is allowed exactly when `now - last ≥ cooldownMs` |
| Cooldown.StampBlocks | src/cooldown.js:57 | after a mark at `t`, a positive cooldown blocks every check until `t + cooldownMs` |
| Cooldown.StampExpires | src/cooldown.js:57 | from `t + cooldownMs` on, the check passes again |
| Cooldown.StampIsolated | src/cooldown.js:60-66 | a mark changes only its own (JID, key) entry |
| Cooldown.NamespacesDisjoint | src/cooldown.js:53 | no `cmd:` key equals a `prod:` key |
| Cooldown.ProductMarkKeepsCommands | src/cooldown.js:71 | marking a product never changes a command cooldown, even one of the same name |
| Cooldown.StampAllLast | src/cooldown.js:60-66 | after a series of marks, an entry holds the time of its last mark |
| Cooldown.StampAllUntouched | src/cooldown.js:60-66 | marks on other entries leave an entry as it was |
| Cooldown.Store.constructor | src/cooldown.js:14-18 | the store starts empty, with no save pending and nothing written |
| Cooldown.Store.Load | src/cooldown.js:21-29 | a parsed file replaces the data, a corrupt file empties it, a missing file changes nothing |
| Cooldown.Store.SaveCooldown | src/cooldown.js:32-41 | a save schedules one flush unless one is already pending; there is never a second timer |
| Cooldown.Store.FireFlushTimer | src/cooldown.js:35-40 | the timer writes the data as it then is (a failed write is dropped) and clears the flag |
| Cooldown.Store.ForceSave | src/cooldown.js:44-48 | the data is written at once, and the debounce state is untouched |
| Cooldown.Store.CanSendCommand | src/cooldown.js:51-58 | the check reads the `cmd:` key of the JID: allowed with no stamp or once the given cooldown has passed |
| Cooldown.Store.CanSendProduct | src/cooldown.js:69-76 | the check reads the `prod:` key of the JID with the configured product cooldown |
| Cooldown.Store.MarkCommandSent | src/cooldown.js:60-66 | `cmd:<key>` of that JID is stamped with `now` and a flush is pending, nothing yet written |
| Cooldown.Store.MarkProductSent | src/cooldown.js:78-84 | `prod:<mainKey>` of that JID is stamped with `now` and a flush is pending |
| Cooldown.Store.MarkBurst | src/cooldown.js:32-41 | a burst of marks all land in the data, while at most one flush is pending and nothing is written |
| SendQueue.Outcomes | src/queue.js:20-24 | each job is settled once: resolved exactly when the transport accepts it |
| SendQueue.ServeNoArrivals | src/queue.js:16-17 | with nothing arriving, a drain runs exactly the waiting jobs, in order |
| SendQueue.ServeIsFifo | src/queue.js:16-17 | the drain runs the waiting jobs, then the arrivals in enqueue order; with the arrivals it misses, that is everything enqueued, each once |
| SendQueue.ServeStep | src/queue.js:16-17 | one loop turn takes the head, and what arrived meanwhile joins the tail |
| SendQueue.ServeRunsAll | src/queue.js:16 | jobs enqueued while others are still waiting are consumed by the same loop |
| SendQueue.Queue.constructor | src/queue.js:9-10 | the queue starts empty and idle |
| SendQueue.Queue.Push | src/queue.js:33 | a job is appended at the tail and nothing else changes |
| SendQueue.Queue.ProcessQueue | src/queue.js:12-29 | a call while a drain runs returns at once; otherwise the loop runs every job in FIFO order, settles each once, does not stop at a failure, and ends empty and idle |
| SendQueue.Queue.Drain | src/queue.js:16-26 | the loop empties the queue, runs the jobs in FIFO order, and sleeps one allowed delay before each job exactly when rate limiting is on |
| SendQueue.Queue.Enqueue | src/queue.js:31-36 | on an idle queue the job is appended, drained, and its promise settles as the transport answers; during a drain it only waits at the tail |
| SendQueue.Queue.Await | src/queue.js:31-36 | `await enqueue(fn)` from an idle queue runs exactly this job and succeeds exactly when the transport accepts it |
| Alternation.FirstAt | src/products.js:76 | at one position the first alternative in list order that matches there is chosen, or none when none matches |
| Alternation.Search | src/products.js:76 | the scan finds a match, or there is no match at any later position |
| Alternation.LongestAtPosition | src/products.js:74 | with the list longest first, the alternative chosen at a position is a longest one matching there |
| Alternation.Exec | src/products.js:125 | a match names one of the alternatives and a position within the text; no alternatives give no match (where the match falls is stated by `Alternation.ExecLeftmostLongest`) |
| Alternation.ExecLeftmostLongest | src/products.js:73-76 | there is no match exactly when no key occurs; otherwise the match is at the leftmost occurrence and is the longest key occurring there |
| Alternation.ExecOrderIrrelevant | src/products.js:74 | any two longest-first orders of the same keys find the same match, up to case |
| Alternation.SameLengthSameText | src/products.js:76 | two keys of one length matching at one position are the same up to case |
| Products.DefaultIcon | src/products.js:45 | the fallback icon is never empty |
| Products.Icon | src/products.js:35-45 | a product's icon is never empty |
| Products.ProductId | src/products.js:25 | the variable suffix has no white space and is no longer than the key; a key without spaces is just upper-cased |
| Products.MakeProduct | src/products.js:39-46 | `mainKey` is the lower-cased key, `name` the key as written, and the description trimmed |
| Products.Aliases | src/products.js:52-61 | every alias is non-empty and lower-case |
| Products.Claims | src/products.js:48-61 | a product is stored under its main key first, then under its aliases, all lower-case |
| Products.Assign | src/products.js:58-60 | assigning claims adds exactly those keys, each mapped to the product, and other keys keep their entries |
| Products.AppendNew | src/products.js:49 | the property order gains each newly assigned key once, keeps its old prefix, and stays without repetitions |
| Products.KeyOrder | src/products.js:86 | `Object.keys(products)` lists every map key exactly once |
| Products.FoldOrderListsKeys | src/products.js:49 | the property order lists every map key exactly once |
| Products.FoldLookup | src/products.js:24-61 | a key is in the map exactly when some entry claims it, and it holds the product of the last entry claiming it |
| Products.ProductMapKeys | src/products.js:17-65 | a string is a map key exactly when some listed product claims it as main key or alias |
| Products.ProductMapLookup | src/products.js:17-65 | a key's entry is the product of the last listed configured key that claims it |
| Products.ProductMap | src/products.js:17-66 | the product map buildProducts returns; no product keys give the empty map |
| Products.SharedEntry | src/products.js:39-61 | every key a product claims and no later product reclaims holds that same entry, whose `mainKey` is the lower-cased key |
| Products.BlankDescriptionAbsent | src/products.js:30-33 | a product whose description is blank has no entry in the map |
| Products.MapKeysLower | src/products.js:39-57 | every map key is lower-case, and non-empty when the configured keys are |
| Products.EntriesUnderMainKey | src/products.js:49 | every entry is stored under its own main key as well |
| Products.AssignClaims | src/products.js:58-60 | the alias loop assigns each claim the product in turn and records new keys in order |
| Products.AddProduct | src/products.js:25-61 | one pass assigns a listed key's claims and skips a key whose description is blank |
| Products.BuildProducts | src/products.js:17-65 | the loop builds exactly the specified map and property order |
| Products.Dedupe | src/products.js:90 | `Array.from(new Set(xs))` keeps each element once, and nothing else |
| Products.MainKeys | src/products.js:90 | the boot list holds exactly the non-empty main keys of the listed keys |
| Products.UniqueMain | src/products.js:90 | the boot list holds no main key twice, and no keys give an empty list |
| Products.BootCounts | src/products.js:90-95 | `productCount` is the number of distinct main keys and `aliasCount` the number of map keys |
| Products.UniqueMainCount | src/products.js:90-92 | listing every key, in the sorted order or any other, gives one boot-list entry per distinct main key |
| Products.OfLengthAppend | src/products.js:74 | the entries of one length in a concatenation are those of each part, in order |
| Products.SwapDifferentLengths | src/products.js:74 | swapping neighbours of different lengths keeps the order of the entries of every length |
| Products.SortLongestFirst | src/products.js:74 | the in-place sort leaves the keys longest first, a permutation of the input, with keys of equal length in their old order, as JavaScript's stable sort does |
| Products.BuildProductRegex | src/products.js:70-77 | no keys give no pattern; otherwise the array passed in is sorted in place, longest first and stably, and the pattern is that array |
| Products.GetProduct | src/products.js:108-110 | the lookup answers exactly the catalog's own keys, with their entries |
| Products.GetProductAsWritten | src/products.js:108-110 | the plain property read answers own keys and also the names inherited from `Object.prototype` |
| Products.PrototypeLookupAnswers | src/products.js:108-110 | with an empty catalog, `constructor` still gets an answer from the property read |
| Products.GetProductOnlyOwnKeys | src/products.js:108-110 | the corrected lookup answers a text exactly when some listed product claims it |
| Products.Detect | src/products.js:122-134 | no pattern means nothing is detected; a detected product is the entry of some key that is not the whole text |
| Products.DetectOfMatch | src/products.js:125-130 | after a match, the matched text lower-cased is looked up, unless it is the whole text |
| Products.DetectLeftmostLongest | src/products.js:125-130 | detection finds the product of the longest key at the leftmost position where any key occurs; no key occurs earlier |
| Products.DetectIsExecMatch | src/products.js:125-130 | a detected product is the entry of the key the alternation matched |
| Products.DetectWholeKeyNone | src/products.js:129 | a text that is itself a key detects nothing |
| Products.EmptyCatalogDetectsNothing | src/products.js:20-22 | no configured keys give an empty map and no pattern, and detection finds nothing |
| Products.Catalog.constructor | src/products.js:11-12 | the catalog starts empty, with no pattern |
| Products.BuildCatalog | src/products.js:82-96 | the map is ProductMap; the pattern is the key array sorted stably longest first; the boot list is read off that sorted array; the counts are the distinct main keys and the map keys |
| Products.Catalog.InitProducts | src/products.js:82-96 | the catalog is rebuilt; its pattern covers exactly its keys, longest first, equal lengths in insertion order; the boot list is read from that sorted key array; the boot counts are the distinct main keys and the number of keys |
| Cache.FindProductMessageAny | src/cache.js:92-100 | no message gives nothing; a message with a product message is itself the wrapper; else a quoted product message is; else nothing |
| Cache.QuoteSearchedOnce | src/cache.js:96-97 | only the message and the message it quotes are searched |
| Cache.QrisCache.constructor | src/cache.js:11-15 | no image and no template are cached at first |
| Cache.QrisCache.GetQrisTemplate | src/cache.js:76-78 | the template getter returns the template in memory, without reading the file |
| Cache.QrisCache.GetQrisImageBuffer | src/cache.js:38-53 | a cached image is returned without reading the disk; on a miss the readable file is cached and returned, else nothing |
| Cache.QrisCache.LoadQrisTemplate | src/cache.js:58-71 | a missing or unreadable file keeps the cached template and yields nothing; a parsed file replaces it |
| Cache.QrisCache.SaveQrisTemplate | src/cache.js:83-87 | after a successful write the template is the saved message; a failed write changes nothing |
| Cache.QrisCache.InitCache | src/cache.js:20-33 | the image is cached when readable, then the template is loaded |
| CatalogHandler.GetCatalogText | src/handlers/catalogHandler.js:10-13 | the text is the trimmed `CATALOG_TEXT` when it has any text, else the fixed placeholder |
| CatalogHandler.CatalogTextIgnoresPadding | src/handlers/catalogHandler.js:12 | spaces and line breaks around the configured text never reach the chat |
| CatalogHandler.HandleCatalog | src/handlers/catalogHandler.js:15-23 | on cooldown it returns false and sends nothing; otherwise it sends exactly the catalog text, and marks `cmd:catalog` only once the send resolved |
| HandlerSteps.SendThenMark | src/handlers/catalogHandler.js:20-22 | a send is awaited, then the command is stamped only if it resolved; a refused send throws before the stamp |
| ThanksHandler.ContainsThanksTrigger | src/handlers/thanksHandler.js:15-17 | true exactly when some trigger occurs anywhere in the text |
| ThanksHandler.ThanksInLongerText | src/handlers/thanksHandler.js:15-17 | there are no word boundaries: text added around a trigger keeps it matching |
| ThanksHandler.HandleThanks | src/handlers/thanksHandler.js:22-37 | no trigger gives false without a cooldown check; an active cooldown gives `"cooldown"` with nothing sent; otherwise the reply is sent once and `cmd:thanks` stamped after it resolves |
| ProductHandler.ProductText | src/handlers/productHandler.js:17 | the text is the icon, the name in asterisks, a blank line, then the description |
| ProductHandler.ChooseProduct | src/handlers/productHandler.js:12-26 | an exact key is answered with its own entry, before any sentence detection |
| ProductHandler.ChooseProductIff | src/handlers/productHandler.js:10-40 | a product is chosen exactly when the text is a key or some key occurs in it, with no word boundaries |
| ProductHandler.DetectFindsOccurrence | src/handlers/productHandler.js:25-26 | a key occurring in a text that is not itself a key is always detected |
| ProductHandler.SentenceChoiceLeftmostLongest | src/handlers/productHandler.js:25-26 | in a sentence the product of the longest key at the leftmost occurrence is chosen |
| ProductHandler.HandleProduct | src/handlers/productHandler.js:10-40 | nothing chosen gives false; the chosen product's cooldown, kept under its main key whatever alias was asked, gives `"cooldown"` with nothing sent; otherwise its text is sent and its main key stamped once the send resolved |
| QrisHandler.MediaGate.constructor | src/handlers/qrisHandler.js:14 | the last media send starts at 0 |
| QrisHandler.GapWait | src/handlers/qrisHandler.js:21-23 | the handler sleeps exactly until the gap since the last media send is over, and not at all once it is |
| QrisHandler.AttemptsShape | src/handlers/qrisHandler.js:26-57 | the template goes before the image; every try before the last was refused; the apology goes out exactly when no media send resolved, only last and only once; the result is true exactly when a media send resolved |
| QrisHandler.Outcome | src/handlers/qrisHandler.js:26-57 | true exactly when the template relay or the image send resolved; a throw only when the apology was refused too |
| QrisHandler.HandleQris | src/handlers/qrisHandler.js:16-58 | on cooldown it returns false with nothing sent and the gap untouched; otherwise the layers run as specified, the gap moves only on a media send that resolved, and `cmd:qris` is stamped after the apology too |
| QrisHandler.SendLayers | src/handlers/qrisHandler.js:26-57 | layer 1 relays the template only when it holds a product message; on a refusal or no template the image layer follows |
| QrisHandler.ImageOrApology | src/handlers/qrisHandler.js:39-57 | the cached image goes with its caption; when there is none or it is refused, one apology is sent, `cmd:qris` is stamped, and the result is false |
| SaveQrisHandler.IsOwnerMessageAsWritten | src/handlers/saveqrisHandler.js:18-37 | the owner check as written: `fromMe`, or no owner numbers configured, always admit |
| SaveQrisHandler.IsOwnerMessage | src/handlers/saveqrisHandler.js:18-37 | the corrected owner check admits `fromMe` and, with no owner numbers configured, everyone |
| SaveQrisHandler.CorrectedCheckStricter | src/handlers/saveqrisHandler.js:33-36 | the corrected owner check admits nobody the written check rejects |
| SaveQrisHandler.OwnerMessageCases | src/handlers/saveqrisHandler.js:18-37 | for the corrected check of the second Findings row: `fromMe`, an owner JID, the bot's own account, or no owner numbers configured each make the sender an owner; otherwise the sender is an owner exactly when a non-empty normalised number of theirs is an owner number (the written check also matches an empty number) |
| SaveQrisHandler.NoDigitEntryAdmitsEveryone | src/handlers/saveqrisHandler.js:33-36 | as written, an owner-number entry without digits makes every private chat an owner |
| SaveQrisHandler.NoDigitEntryAdmitsNobody | src/handlers/saveqrisHandler.js:33-36 | in the corrected check, owner numbers without digits admit nobody by number |
| SaveQrisHandler.OwnerChecksAgreeOnDigits | src/handlers/saveqrisHandler.js:18-37 | with no digit-free owner number, the corrected check and the written one agree |
| SaveQrisHandler.HandleSaveQris | src/handlers/saveqrisHandler.js:39-74 | a non-owner gets the rejection and nothing is saved; without a product message the hint is sent and nothing saved; otherwise the found wrapper is written, becomes the template, and the confirmation is sent |
| ExcludeHandler.Without | src/handlers/excludeHandler.js:153 | `Set.delete` removes exactly that JID and keeps the rest in order, without repetitions |
| ExcludeHandler.WithoutMember | src/handlers/excludeHandler.js:153 | deleting a member shortens the set by one |
| ExcludeHandler.QuotedSenderJid | src/handlers/excludeHandler.js:60-70 | the quoted participant is preferred, then the quoted chat; with neither there is none |
| ExcludeHandler.NumberedLines | src/handlers/excludeHandler.js:191 | one numbered line per member |
| ExcludeHandler.ListBlockReadsBack | src/handlers/excludeHandler.js:191 | the list block reads back as line `i. jid` per member, in set order, numbered from 1 |
| ExcludeHandler.ListText | src/handlers/excludeHandler.js:180-196 | a non-empty list is shown under the list header and ends with its total in `nomor` |
| ExcludeHandler.RuntimeExcludes.constructor | src/handlers/excludeHandler.js:18 | the set starts empty |
| ExcludeHandler.RuntimeExcludes.IsRuntimeExcluded | src/handlers/excludeHandler.js:53-55 | `Set.has`: a JID is excluded exactly when that exact string is a member |
| ExcludeHandler.RuntimeExcludes.Load | src/handlers/excludeHandler.js:23-33 | a missing file keeps the set, a bad one empties it, a parsed one replaces it, without repetitions |
| ExcludeHandler.RuntimeExcludes.Save | src/handlers/excludeHandler.js:38-48 | the set as it is is written; a failed write is dropped |
| ExcludeHandler.RuntimeExcludes.Add | src/handlers/excludeHandler.js:103 | `Set.add` is idempotent: a new JID goes last, an old one stays, and the JID is then excluded |
| ExcludeHandler.RuntimeExcludes.Delete | src/handlers/excludeHandler.js:153 | afterwards the JID is no longer excluded and nothing else changes |
| ExcludeHandler.HandleExclude | src/handlers/excludeHandler.js:75-116 | a non-owner or an owner replying to nothing gets the matching reply, false, and an unchanged set; otherwise the raw quoted sender is added, the set saved, and the JID returned |
| ExcludeHandler.HandleUnexclude | src/handlers/excludeHandler.js:121-163 | a non-owner, no reply, or a JID not in the set gives false and an unchanged set; otherwise exactly that JID is removed, the set saved, and true returned |
| ExcludeHandler.HandleListExclude | src/handlers/excludeHandler.js:168-200 | a non-owner gets false; an owner gets the numbered list, or the placeholder when it is empty, and true; the set never changes |
| MessageHandler.IsExcludedMessage | src/handlers/messageHandler.js:56-66 | the raw or normalised chat JID on the list excludes; an empty list excludes nobody; without a participant only the chat JID decides |
| MessageHandler.ExcludedAcrossLegacySuffix | src/handlers/messageHandler.js:56-66 | a number excluded in its `@s.whatsapp.net` form is excluded when it writes as `@c.us` too |
| MessageHandler.ExcludedParticipantAnywhere | src/handlers/messageHandler.js:63 | an excluded participant stays excluded in whatever chat it writes |
| MessageHandler.ShortText | src/handlers/messageHandler.js:46 | the logged text is at most 20 characters; a longer text becomes its first 17 characters and `...` |
| MessageHandler.FactsOf | src/handlers/messageHandler.js:71-97 | a batch is taken exactly when it has a first message, a `notify` or absent type, and a body; then the chat filters, the lowered trimmed text, `fromMe` and the exclusion are read from that message |
| MessageHandler.RouteFor | src/handlers/messageHandler.js:73-188 | only an accepted private-chat batch is routed; an owner command route is taken exactly for an owner command text; the excluded-sender route exactly for an excluded sender's other text not from the bot |
| MessageHandler.RouteOf | src/handlers/messageHandler.js:71-188 | a routed batch was accepted and its chat passed the filters; it reaches an owner command exactly when its lowered, trimmed text is one |
| MessageHandler.RoutedOnlyPrivateChats | src/handlers/messageHandler.js:73-92 | every route but the drops needs an accepted batch from a chat that passes the status, group and individual filters |
| MessageHandler.OwnerCommandsBeforeFromMe | src/handlers/messageHandler.js:99-134 | owner commands are routed before the `fromMe` filter, so `fromMe` does not change their route |
| MessageHandler.FromMeOnlyFlipsFromMe | src/handlers/messageHandler.js:134 | changing `fromMe` on a message changes only that fact of the batch |
| MessageHandler.FromMeOnlyOwnerCommands | src/handlers/messageHandler.js:134 | the bot's own messages reach nothing but the owner commands |
| MessageHandler.ExcludedSenderNotAnswered | src/handlers/messageHandler.js:136-140 | an excluded sender reaches no handler but the owner commands, and is logged as excluded |
| MessageHandler.TriggerPrecedence | src/handlers/messageHandler.js:143-168 | catalog triggers win over QRIS triggers; a chat text is non-empty and neither trigger nor owner command; none of these routes comes from the bot or an excluded sender |
| MessageHandler.ExactlyOneStatus | src/handlers/messageHandler.js:102-188 | a routed batch whose handlers did not throw leaves exactly one log line, with the status its rule gives; a QRIS false, apology included, is logged as cooldown; a dropped batch leaves none |
| MessageHandler.LogFor | src/handlers/messageHandler.js:101-188 | a batch leaves at most one log line, none when dropped, always with the sender's number and the shortened text |
| MessageHandler.ThrowLeavesOnlyEarlyLog | src/handlers/messageHandler.js:190-192 | a handler that throws leaves a log line only where it was written before the handler was called |
| MessageHandler.Bot.constructor | src/handlers/messageHandler.js:71 | the dispatcher holds the module states it touches |
| MessageHandler.Bot.RunChat | src/handlers/messageHandler.js:167-188 | the product rule runs first and the thanks rule only when no product was chosen; cooldowns and the no-match case change nothing |
| MessageHandler.Bot.RunOwnerCommand | src/handlers/messageHandler.js:101-131 | each owner command runs its handler; a non-owner changes neither the set nor the template |
| MessageHandler.Bot.RunExclude | src/handlers/messageHandler.js:109-117 | a returned JID is the quoted sender, and it is now excluded |
| MessageHandler.Bot.RunUnexclude | src/handlers/messageHandler.js:120-124 | a non-owner leaves the set unchanged |
| MessageHandler.Bot.RunRoute | src/handlers/messageHandler.js:99-188 | a routed batch reaches its one handler; only owner commands touch the set and template, only QRIS the gap and image cache, and owner commands no cooldown; a catalog request's sends and stamp are the catalog handler's |
| MessageHandler.Bot.HandleMessage | src/handlers/messageHandler.js:71-193 | the route is the rule chain's; the log is one line per the rule and handler results; a drop or an excluded sender changes nothing; a catalog request sends exactly the catalog text and stamps it as the catalog handler does; the caught error is exactly a handler that threw |

## Left out

- The transport (`sendMessage`, `relayMessage`, `generateMessageTag`) is the input `net`. A job
  succeeds or fails as `net` says, and the image bytes are not part of an image job.
- Async interleaving: handlers run against an idle send queue, and each awaited send completes
  before the handler goes on. `SendQueue.Queue.ProcessQueue` models jobs that arrive during a
  drain, but the handlers do not overlap.
- SendQueue.Queue.Await: requires an idle queue (`AtRest`). A send awaited behind jobs of other
  batches still in flight is not modelled.
- The clock is two readings per handler, `now` for the cooldown check and `sentAt` when a send
  resolved. The QRIS handler's `sleep` returns the wait instead of sleeping.
- File I/O (`fs.*`, `JSON.stringify`/`JSON.parse`, the `updatedAt` timestamp) is a parameter
  saying what the read found or whether the write succeeded. Each write is a snapshot in a ghost
  history.
- Timers: the cooldown debounce timer firing is the explicit step
  `Cooldown.Store.FireFlushTimer`.
- Config.LoadSettings: returns no settings when a numeric setting reads as `NaN`, instead of
  carrying `NaN` into later comparisons.
- Strings.Lower and Strings.Upper map ASCII letters only. Full Unicode case mapping is not
  modelled.
- String lengths and indices count characters, not UTF-16 code units. `ShortText` can differ
  from the source on texts with characters outside the Basic Multilingual Plane.
- Products.KeyOrder: the property order is insertion order. JavaScript lists keys that look like
  array indices first, and a `__proto__` key is not a plain property; neither is modelled.
- Regular-expression escaping: keys are matched as literal strings, which is what the escaping
  achieves.
- `null` entries in a `messages.upsert` batch and message fields that hold a non-string value are
  not modelled. A text field is a string, `""` when absent.
- logger.js, the timestamp and column padding of the log line, and `dbgLine` are left out. The
  log is the list of (number, text, status, detail) lines.
- wabot.js (socket, authentication, reconnect back-off, shutdown) is not part of this model. The
  reconnect settings are parsed, nothing more.
- Utils.RandomDelay: the delay is computed in exact arithmetic, so it is always below `max`. The
  source computes `Math.floor(min + Math.random() * (max - min))` in doubles. For some ranges,
  such as 1200 to 2500, the largest draw rounds up to exactly `max`.
- SendQueue.Queue.Drain: the delay slept before each job is one that `Utils.RandomDelay` allows
  (`SendQueue.Queue.DelayAllowed`), so it too is below `max`; the source's rounding can reach `max`.
- `getProductBootInfo` and `getAllProducts` are field reads, modelled as the class fields.
- ProductHandler.ChooseProduct uses the corrected own-key lookup of the first Findings row
  (`Products.GetProduct`). As written, `constructor` or `__proto__` is also chosen, even with an
  empty catalog; that case is stated only by `Products.PrototypeLookupAnswers`.
- ProductHandler.ChooseProductIff holds for the corrected lookup. As written, a text that is
  `constructor` or `__proto__` is also chosen when no key occurs in it.
- ProductHandler.HandleProduct uses the corrected lookup, so a text `constructor` gives false,
  where the source sends a product with undefined fields and logs it as sent.
- SaveQrisHandler.OwnerMessageCases states the corrected owner check of the second Findings row.
  As written, a digit-free owner number also admits a sender whose number is empty; that case is
  stated only by `SaveQrisHandler.NoDigitEntryAdmitsEveryone`.
- SaveQrisHandler.HandleSaveQris uses the corrected owner check of the Findings section, so with a
  digit-free `OWNER_NUMBERS` entry a private-chat sender gets the rejection where the source saves
  the template.
- ExcludeHandler.HandleExclude uses the corrected owner check of the Findings section, so with a digit-free
  `OWNER_NUMBERS` entry a private-chat sender gets the not-owner reply where the source excludes
  the quoted JID.
- ExcludeHandler.HandleUnexclude uses the corrected owner check of the Findings section; with a digit-free
  owner number the source would unexclude where the model rejects.
- ExcludeHandler.HandleListExclude uses the corrected owner check of the Findings section; with a
  digit-free owner number the source would list the set where the model rejects.
- MessageHandler.Bot.RunOwnerCommand: "non-owner" in its contract is the corrected owner check
  of the Findings section, passed on from the handlers above.
- MessageHandler.Bot.RunExclude: "non-owner" is the corrected owner check of the Findings section.
- MessageHandler.Bot.RunUnexclude: "non-owner" is the corrected owner check of the Findings section.
- MessageHandler.Bot.RunChat uses the corrected product lookup of the Findings section.
- MessageHandler.Bot.RunRoute inherits both corrections of the Findings section from the handlers
  it calls.
- MessageHandler.Bot.HandleMessage inherits both corrections of the Findings section. It states
  the sends and stamps of a catalog request; for the other routes they are stated by each
  handler's own contract, not lifted to the dispatcher.

## Findings

| source | as written | input that shows it | evidently intended | confidence | as-written member | corrected member |
|---|---|---|---|---|---|---|
| src/products.js:108-110 | `products[key] \|\| null` also answers names inherited from `Object.prototype` | text `constructor` with no products configured: the lookup answers the `Object` constructor, and a product with undefined fields is sent | answer only the catalog's own keys | not executed | Products.PrototypeLookupAnswers | Products.GetProductOnlyOwnKeys |
| src/handlers/saveqrisHandler.js:33-36 | an `OWNER_NUMBERS` entry without digits normalises to `""`, and a private chat's empty participant has digits `""` too | `OWNER_NUMBERS=+` and any private-chat message: the sender counts as an owner | match a number only when it has digits | not executed | SaveQrisHandler.NoDigitEntryAdmitsEveryone | SaveQrisHandler.NoDigitEntryAdmitsNobody |
