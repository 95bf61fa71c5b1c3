# A verified model of fw-context

fw-context indexes firmware projects for AI tools. This project models six parts of it in Dafny 4.11
and proves what they promise, over every input or every run:

| part | modules |
|---|---|
| the cache of file contents, and the atomic write with its cleaners, as steps of interleaved threads and processes | ReadCache, Encodings, AtomicWrite, TempNames |
| the layered configuration: check, merge, conversion, provenance, the line editor of `[llm]` | TomlTree, LayerMerge, MergeOrder, ConfigSchema, ConfigCheck, ConfigLoad, FieldTables, ConfigExamples, LlmTable, LlmEdit, LlmScan, LlmRight, LlmExamples, LlmLines |
| the repair and the cleanup of configuration files | PathOrder, ConfigRepair, ConfigCleanup |
| the limiter of failed authentications | RateLimiter |
| the shared analysis cache: server, client, and both over a network that loses answers | CacheServer, CacheClient, CacheNetwork |
| text: the `.gitignore` planner under the rules of git, the variant blocks, LIKE patterns, number ranges | GitignorePlan, GitIgnored, Gitignore, VariantBlocks, VariantDocs, Variants, VariantNames, LikeEscape, NumberRanges, PyText, GitText, Decimals |

The module Collections holds what they share.

Code that changes state is a class or a method with loops, proved against functions; the promises are
lemmas about these functions. Concurrent code is a state machine: a datatype of events, a function that
takes one step, an invariant that every step keeps, and statements about whole runs. What the program
asks the machine (file contents, clocks, the liveness of a PID, replies of the network, `expanduser`,
the result of a TOML parse) is a parameter, and every statement holds for all its values.

`dafny verify dfyconfig.toml` checks the project.

## Where the code does less than its text says

Each item names a lemma about one concrete input, and a lemma with the exact condition under which the
promise holds for all inputs.

- **Reading while a file changes.** `read_file_lines` opens the file once per encoding. When the file
  changes between two opens, an encoding that an earlier content ruled out is skipped for the later one:
  the call can return the content of its time in the wrong encoding. `ReadsTheWrongEncoding` is a run
  with the real utf-8, cp1252 and latin1, from the byte FF to the bytes C3 A9; `RightExactlyWithoutMixtures`
  says for which contents of the files that cannot happen, and `Utf8FilesAreReadRight` that files that
  are utf-8 throughout are among them.
- **A PID that comes back at once.** A cleaner that probed a PID as dead unlinks the file of a new
  process that got the PID in between; the rename of that process then fails
  (`EarlyReissueLosesAWrite`, `CleanersSpareTheLivingExactly`). The target file is never harmed.
- **Provenance.** `llm_key_sources` names the last file that sets a key, also when the value there has
  the wrong type and was dropped: `enabled = 5` above `enabled = true` (`FiveForEnabled`,
  `SourceAgreement`).
- **Strings over several lines.** The editor of `[llm]` goes by what a line looks like, also in a string. A
  line of a prompt that looks like an updated key is replaced and the key is not set, one that looks like
  a cleared key is deleted, and one that looks like a header takes the new line; the text is valid, so
  nothing refuses it (`LineOfPromptIsReplaced`, `LineOfPromptIsCleared`, `HeaderInPromptTakesTheLine`,
  `EditIsRight`). The parse of the new text does refuse most edits of a line that opens such a string, but
  not all (`PromptIsRefused`, `PromptLeavesAKey`).
- **Other spellings of `[llm]`.** With updates they are refused; a clearing leaves the keys where they are
  (`HiddenTableKeepsTheKey`, `EditIsRight`, `RefusedExactly`).
- **Unknown sections.** Accepted layers may hold sections that no check knows, and there the merge is not
  associative: a section `debug` (`DebugSectionBreaksTheGrouping`, `MergeAssociativity`).
- **`.gitignore` lines that git reads differently.** The planner strips a line before it compares it, git
  does not; and it splits lines at every break of `splitlines`, git at newlines only. An indented pair,
  or one after a line separator U+2028, satisfies the planner and not git (`IndentedPairIsNotRead`,
  `OddBreakPairIsNotRead`, `PlannedFileGivesSplit`).
- **Nameless variants.** The search for the name of a variant block stops at `[[` only, so a variant
  without a name goes with a `[section]` below it that has one (`NamelessVariantGoes`,
  `NamedBlocksGoByName`).
- **Tables below a variant.** `[build.variants.env]` stays when its variant goes, and then belongs to the
  variant before it or to none (`EnvTableStays`, `RemovalInDocument`).
- **Old nested image tables.** The comment in `_remove_variant` says that `[[build.variants.images]]`
  tables go with the block before them; the code keeps them, always (`LegacyImagesStay`).
- **Names that the scan reads in its own way.** After `name =` TOML and the scan read the same name exactly
  when it stands there in double quotes as it is: `name = 'a'` and `name = "a" # b` are other names for
  the scan, `name="a"` is none (`LiteralNameReads`, `NameWithNoteReads`, `TightNameIsNotRead`,
  `ScanAgreesExactly`).
- **Names that need an escape.** `_fmt_kv` writes none: a name such as `a"b` makes a line that is no TOML
  (`QuoteBreaksTheLine`, `WrittenValueReadsBack`). A variant whose name starts or ends with `"` is not
  found again (`QuotedNameIsNotFound`, `AddThenRemove`).
- **Odd line breaks.** Adding and removing a variant turns breaks such as U+2028 into newlines
  (`OddBreakIsLost`, `AddThenRemove`).
- **Chunks over 1000.** The server cuts a batch at 1000 entries and says so in a field that the client
  does not read; with a larger `batch_size` hashes stay without an answer, and entries that were
  acknowledged are not stored (`LargeLookupLosesAHash`, `EveryHashIsAnswered`; `CacheNetwork.LargeWriteLosesAnEntry`,
  `EverythingDelivered`).

## Model

| member | source | states |
|---|---|---|
| `ReadCache.FindIsFirst` | src/fw_context_mcp/utils.py:708-711 | the lookup of a key finds its first slot, and misses exactly when no slot has the key |
| `ReadCache.TouchKeeps` | src/fw_context_mcp/utils.py:709-711 | a hit makes its slot the last one, the others stay in order; no slot, key or length changes |
| `ReadCache.InsertKeeps` | src/fw_context_mcp/utils.py:745-748 | an insert keeps at most 500 slots and distinct keys, sets its key, drops at most the least recently used slot |
| `ReadCache.SharedCache.Lookup` | src/fw_context_mcp/utils.py:708-711 | the first locked section: reorders on a hit, and returns what was stored under the key |
| `ReadCache.SharedCache.Store` | src/fw_context_mcp/utils.py:745-748 | the second locked section: evict at capacity, then assign |
| `ReadCache.ReadFileLines` | src/fw_context_mcp/utils.py:694-749 | one call on an unchanging file, with opens that may fail: a hit returns the stored lines; a miss returns and stores the decoding by the first encoding that accepts the content, or None and stores nothing if an open up to that one fails |
| `ReadCache.StepKeepsInv` | src/fw_context_mcp/utils.py:702-749 | every step of any interleaving keeps the invariant of files, cache and calls |
| `ReadCache.CacheIsFresh` | src/fw_context_mcp/utils.py:673-691 | over every run: at most 500 entries, and an entry under the mtime that a file has now holds the right decoding of what it holds now |
| `ReadCache.ReadsAreLinearizable` | src/fw_context_mcp/utils.py:694-749 | over every interleaving in which writes raise the mtime: a call returns a content that the file held during the call, None only if the file was gone then or for an I/O error, and the right decoding if no write came during the call |
| `ReadCache.RightExactlyWithoutMixtures` | src/fw_context_mcp/utils.py:726-735 | while the files hold contents of one kind only: every call of every run returns the right decoding of a content of its time if and only if no mixture of three of these contents over the three opens gives lines of its own |
| `ReadCache.OneEncodingIsReadRight` | src/fw_context_mcp/utils.py:726-735 | files whose contents are all decided by one and the same encoding are always read right |
| `ReadCache.Utf8FilesAreReadRight` | src/fw_context_mcp/utils.py:726-735 | with the real decoders: files that are valid utf-8 throughout are always read right |
| `ReadCache.ReadsTheWrongEncoding` | src/fw_context_mcp/utils.py:726-735 | with the real decoders: a run whose file goes from FF to C3 A9 returns two characters that neither content decodes to |
| `AtomicWrite.StepKeepsInv` | src/fw_context_mcp/utils.py:987-1029 | every step of writers, cleaners, crashes and PID reuse keeps: distinct owners, one name per inode, each writer alone on its inode with exactly what it wrote |
| `AtomicWrite.StepRefinesRegister` | src/fw_context_mcp/utils.py:1012-1029 | refinement of an atomic register: a step changes nothing that a reader of a target sees, or it is the rename of a writer that wrote all of its text, which the target then holds |
| `AtomicWrite.TargetsHoldCompleteTexts` | src/fw_context_mcp/utils.py:987-1029 | over every run, with crashes, failures, reused PIDs and cleaners: a target stays, with its initial text or one complete text that a writer passed for it |
| `AtomicWrite.CleanersSpareTheLivingExactly` | src/fw_context_mcp/utils.py:1099-1121 | a run keeps every cleaner off the names of live owners if and only if no PID comes back between a probe and its unlink |
| `AtomicWrite.LiveWritersAreUndisturbed` | src/fw_context_mcp/utils.py:1012-1029 | in such a run every rename of a finished writer commits, no exclusive open fails, and every cleaner unlinks names of dead owners only |
| `AtomicWrite.EarlyReissueLosesAWrite` | src/fw_context_mcp/utils.py:1201-1216 | a run with a reused PID in which a cleaner unlinks a live writer's file: the write is lost, the target is as before |
| `TempNames.TagIsAccepted` | src/fw_context_mcp/utils.py:917-943 | the tag of any host and any namespace link is one that the patterns accept |
| `TempNames.TemporaryOwnerReadsBack` | src/fw_context_mcp/utils.py:1184-1197 | for every PID, accepted tag, stem, inner name (also with dots and '@') and suffix, the reader returns exactly the token in the name |
| `TempNames.TmpOwnerReadsBack` | src/fw_context_mcp/utils.py:1199-1214 | the same for the names of `write_text_atomic` and their pattern |
| `TempNames.TokenIsInjective` | src/fw_context_mcp/utils.py:946-952 | a token fixes its PID and its tag |
| `TempNames.TmpNamesAreApart` | src/fw_context_mcp/utils.py:1012-1012 | two writers share a temporary name only for one target from one PID of one namespace |
| `TempNames.TargetsAreNoTmpNames` | src/fw_context_mcp/utils.py:1199-1214 | a target without '@' in its name is the temporary name of no writer, and no cleaner takes it |
| `TempNames.TokenSplits` | src/fw_context_mcp/utils.py:971-975 | splitting a token at '@' gives the PID text and the tag |
| `TempNames.SearchIsSound` | src/fw_context_mcp/utils.py:1051-1051 | what the pattern returns is a token, and it stands at the end, after a dot |
| `TempNames.DeadExactly` | src/fw_context_mcp/utils.py:955-984 | a printed token is dead if and only if its tag is the own one and its PID is gone |
| `TempNames.StaleTmpExactly` | src/fw_context_mcp/utils.py:1201-1216 | the file of a writer is removed if and only if its process is of this namespace and gone |
| `TempNames.DeadTemporaryExactly` | src/fw_context_mcp/utils.py:1099-1121 | the same for `clear_dead_temporaries`, for every stem, inner name and suffix |
| `TempNames.Directory.RemoveStaleTmp` | src/fw_context_mcp/utils.py:1201-1216 | removes exactly the stale names of the listing and counts them; the first unlink that raises ends it |
| `TempNames.Directory.ClearDeadTemporaries` | src/fw_context_mcp/utils.py:1099-1121 | removes exactly the dead names that can be unlinked, and counts them |
| `Decimals.DecimalReadsBack` | src/fw_context_mcp/utils.py:952-952 | a decimal text is digits and reads as its number |
| `LikeEscape.ReplacementsAreOneEscape` | src/fw_context_mcp/utils.py:842-844 | the three ordered replacements equal one pass that puts a backslash before each special character |
| `LikeEscape.OrderMattersExactly` | src/fw_context_mcp/utils.py:842-844 | with the backslash replaced last the result is the same if and only if the value has no wildcard |
| `LikeEscape.EscapedMatchesOnlyItself` | src/fw_context_mcp/utils.py:827-844 | under LIKE with ESCAPE '\' the escaped value matches exactly the value, up to case folding |
| `LikeEscape.EscapedPrefix` | src/fw_context_mcp/utils.py:827-844 | with '%' after it, exactly the strings with that prefix |
| `LikeEscape.EscapedSuffix` | src/fw_context_mcp/indexer/db/_files.py:433-433 | with '%' before it, exactly the strings with that suffix |
| `LikeEscape.EscapedContains` | src/fw_context_mcp/indexer/db/_files.py:892-892 | with '%' on both sides, exactly the strings that contain it |
| `NumberRanges.FormatNumberRanges` | src/fw_context_mcp/utils.py:178-200 | the loop prints the fold of the numbers |
| `NumberRanges.FoldExpands` | src/fw_context_mcp/utils.py:178-200 | for any list the fold expands to the same numbers in the same order, and no range goes on where the one before it ends |
| `NumberRanges.MaximalListIsUnique` | src/fw_context_mcp/utils.py:178-200 | the numbers fix the list of maximal ranges |
| `NumberRanges.NeighboursAreApart` | src/fw_context_mcp/utils.py:178-200 | two ranges of increasing numbers are at least 2 apart |
| `NumberRanges.FewestRanges` | src/fw_context_mcp/utils.py:178-187 | no list of ranges, in any order and with any overlaps, covers the numbers with fewer |
| `NumberRanges.NumbersReadBack` | src/fw_context_mcp/utils.py:178-200 | reading the printed text gives the numbers back, for every list of naturals |
| `TomlTree.RemoveOneMore` | src/fw_context_mcp/housekeeping.py:283-290 | a removal that no removal before it moved finds its target and removes exactly that node |
| `TomlTree.OrderedRemovalIsSimultaneous` | src/fw_context_mcp/housekeeping.py:244-259 | one removal after the other in a safe order never misses and equals the removal of exactly those nodes at once |
| `TomlTree.AscendingOrderRemovesTheWrongElement` | src/fw_context_mcp/housekeeping.py:244-259 | the order is needed: two positions in ascending order remove a wrong element |
| `PathOrder.SortedIsDescending` | src/fw_context_mcp/housekeeping.py:244-259 | the sort orders distinct places from last to first and keeps them all |
| `PathOrder.PlacesOfOneDocumentAreSameKind` | src/fw_context_mcp/housekeeping.py:244-259 | two places of one document first differ in two keys or two positions, so the sort compares no key with a position |
| `PathOrder.SortedRemovalIsSimultaneous` | src/fw_context_mcp/housekeeping.py:244-259 | removal in sorted order is the removal of all places at once |
| `LayerMerge.MergeAbsorbs` | src/fw_context_mcp/config/settings.py:632-648 | a merge leaves the upper layer as it is if and only if it has every key of the lower one, at every depth |
| `LayerMerge.MergeAssociativity` | src/fw_context_mcp/config/settings.py:632-648 | the merge of three trees does not depend on the grouping if and only if no middle value hides a table |
| `MergeOrder.UsableLayersMergeInAnyGrouping` | src/fw_context_mcp/config/settings.py:632-648 | accepted layers with typed keys only merge the same in any grouping |
| `MergeOrder.UnknownSectionsBreakTheGrouping` | src/fw_context_mcp/config/settings.py:632-648 | three accepted layers with a section that no check knows, where the grouping counts |
| `ConfigExamples.DebugSectionBreaksTheGrouping` | src/fw_context_mcp/config/settings.py:632-648 | the same with the real field tables and a section `debug` |
| `ConfigSchema.ProblemsArePresent` | src/fw_context_mcp/config/settings.py:1234-1331 | every reported place is in the document |
| `ConfigSchema.ProblemsApart` | src/fw_context_mcp/config/settings.py:1234-1331 | no reported place is inside another |
| `ConfigSchema.OnePassIsEnough` | src/fw_context_mcp/config/settings.py:1234-1331 | removing all reported places but the spared ones leaves exactly the spared ones to report: no removal makes a new problem, at any nesting of variants and images |
| `ConfigCheck.ImageKeyProblems` | src/fw_context_mcp/config/settings.py:1316-1331 | lists exactly the wrong fields of one image, each once |
| `ConfigCheck.ImageProblems` | src/fw_context_mcp/config/settings.py:1316-1331 | lists exactly the wrong places of the images of a variant |
| `ConfigCheck.VariantKeyProblems` | src/fw_context_mcp/config/settings.py:1285-1314 | lists exactly the wrong places of one named variant |
| `ConfigCheck.VariantProblems` | src/fw_context_mcp/config/settings.py:1285-1314 | lists exactly the wrong places of the variants |
| `ConfigCheck.FieldProblems` | src/fw_context_mcp/config/settings.py:1234-1283 | lists exactly the fields whose value does not fit, with their flags |
| `ConfigCheck.ConfigValueProblems` | src/fw_context_mcp/config/settings.py:1234-1283 | lists exactly the places of a file that `load` cannot use, each once, with the flags removable and critical |
| `ConfigLoad.CleanedIsUsable` | src/fw_context_mcp/config/settings.py:1436-1475 | a checked layer has no problem left |
| `ConfigLoad.LayerFile.CheckLayer` | src/fw_context_mcp/config/settings.py:1436-1475 | refuses exactly a layer with a critical problem, and leaves it alone; otherwise the layer is the old one without exactly the wrong values, with one warning each |
| `ConfigLoad.DropUsable` | src/fw_context_mcp/config/settings.py:1512-1578 | dropping the retired and the selection keys keeps a layer usable |
| `ConfigLoad.MergeIsUsable` | src/fw_context_mcp/config/settings.py:632-648 | validity against the field tables is closed under the deep merge |
| `ConfigLoad.MergeAllIsUsable` | src/fw_context_mcp/config/settings.py:1817-1853 | so is the merge of any list of layers |
| `ConfigLoad.EffectiveIsTop` | src/fw_context_mcp/config/settings.py:632-648 | the merged value of a key that is not a table is the value of the last layer that sets it |
| `ConfigLoad.UsableIsConvertible` | src/fw_context_mcp/config/settings.py:768-802 | every value of a usable document converts |
| `ConfigLoad.Config.ApplySection` | src/fw_context_mcp/config/settings.py:718-766 | sets exactly the fields of one section that the document has, each to its conversion |
| `ConfigLoad.Config.FromDict` | src/fw_context_mcp/config/settings.py:718-766 | succeeds exactly when every applied value converts, and then holds exactly the conversions |
| `ConfigLoad.SplitOverrides` | src/fw_context_mcp/config/settings.py:964-975 | every key that is not the variant's own goes to exactly one override table, with its value |
| `ConfigLoad.ReadVariant` | src/fw_context_mcp/config/settings.py:921-988 | reads a variant exactly when its reads raise nothing, and describes its table |
| `ConfigLoad.BuildVariants` | src/fw_context_mcp/config/settings.py:921-988 | the same for the list of variants, in order |
| `ConfigLoad.UsableVariantsAreReadable` | src/fw_context_mcp/config/settings.py:921-988 | the variants of a usable document are readable and named |
| `ConfigLoad.AcceptedLayersGiveAConfig` | src/fw_context_mcp/config/settings.py:1761-1908 | for any list of accepted layers the merged document meets every precondition of the conversions and of the variants |
| `ConfigLoad.LlmKeySources` | src/fw_context_mcp/config/settings.py:1654-1686 | names for each key the last file that sets it, and none when no file does |
| `ConfigLoad.SourceAgreement` | src/fw_context_mcp/config/settings.py:1654-1686 | the named file holds the value that applies, and one is named exactly when one applies, if and only if the value in the named file is one that `load` can use |
| `ConfigExamples.FiveForEnabled` | src/fw_context_mcp/config/settings.py:1654-1686 | `enabled = true` below `enabled = 5`: both files are accepted, true applies, and the file with the 5 is named |
| `ConfigLoad.MergeLayers` | src/fw_context_mcp/config/settings.py:1817-1853 | succeeds exactly when no layer is refused, with the merge of the prepared layers |
| `ConfigLoad.Load` | src/fw_context_mcp/config/settings.py:1761-1908 | a configuration results exactly when no file is refused; it holds the conversion of the merged document and its variants |
| `FieldTables.TablesMeetTheConditions` | src/fw_context_mcp/config/settings.py:821-918 | the real field tables meet every condition that the statements ask |
| `ConfigRepair.RepairIsComplete` | src/fw_context_mcp/housekeeping.py:244-272 | after one pass at most the project ID is left to report, and only if it was wrong before; a second pass changes nothing |
| `ConfigRepair.RepairedFileLoads` | src/fw_context_mcp/housekeeping.py:220-281 | a repaired file with a right project ID is accepted without a warning |
| `ConfigRepair.ProblemPlacesCompare` | src/fw_context_mcp/housekeeping.py:244-259 | the sort of reported places never compares a key with a position |
| `ConfigRepair.ConfigFile.RemovePlaces` | src/fw_context_mcp/housekeeping.py:244-259 | the in-place removals leave the document without exactly the given nodes |
| `ConfigRepair.ConfigFile.RemoveUnusableValues` | src/fw_context_mcp/housekeeping.py:220-281 | the file changes exactly when places were removed, then without exactly these; the report names removed and failed places, also for a failed write and a dry run |
| `ConfigCleanup.Clean` | src/fw_context_mcp/housekeeping.py:124-191 | the layer loop computes what each file holds afterwards |
| `ConfigCleanup.CleanLayerEffect` | src/fw_context_mcp/housekeeping.py:152-177 | what one layer does to its own value of the database and to the value that the layers above see |
| `ConfigCleanup.CleanKeepsTheDatabase` | src/fw_context_mcp/housekeeping.py:449-478 | for any number of layers, unreadable ones, values that are not strings, failed writes: the merged database is the same, or both name the own build; a different value never changes and never comes up |
| `ConfigCleanup.DroppingWithoutTheTestWouldChangeTheDatabase` | src/fw_context_mcp/housekeeping.py:462-478 | the test of the layers below is needed |
| `ConfigCleanup.CleanTwice` | src/fw_context_mcp/housekeeping.py:384-435 | when every file can be written, a second cleanup changes nothing |
| `RateLimiter.AuthLimiter.PruneAuthFailures` | src/fw_context_mcp/cache_server/auth.py:160-174 | drops exactly the lists whose last time is old |
| `RateLimiter.AuthLimiter.CheckRateLimit` | src/fw_context_mcp/cache_server/auth.py:177-201 | trims the list, prunes at every 100th check, allows below 20 |
| `RateLimiter.AuthLimiter.DispatchRequest` | src/fw_context_mcp/cache_server/auth.py:252-272 | records exactly the failures that it answers with 401 |
| `RateLimiter.RunRefines` | src/fw_context_mcp/cache_server/auth.py:160-212 | over every run with a monotone clock the server answers as a limiter that forgets nothing |
| `RateLimiter.PruningIsInvisible` | src/fw_context_mcp/cache_server/auth.py:160-174 | pruning at any interval changes no answer |
| `RateLimiter.SlidingWindowBound` | src/fw_context_mcp/cache_server/auth.py:177-212 | over every run any half-open window of 60 s holds at most 20 recorded failures of an address |
| `RateLimiter.RefusedExactlyAtTheBound` | src/fw_context_mcp/cache_server/auth.py:252-272 | an attempt is refused if and only if 20 failures of its address were recorded in the 60 s before |
| `CacheServer.InsertMeaning` | src/fw_context_mcp/cache_server/backend.py:397-464 | an insert keeps every stored row and adds the first entry of each new hash |
| `CacheServer.UpsertMeaning` | src/fw_context_mcp/cache_server/backend.py:397-464 | an overwrite sets exactly the given hashes |
| `CacheServer.Server.ValidateToken` | src/fw_context_mcp/cache_server/backend.py:331-360 | the permissions of a token that is there and not revoked |
| `CacheServer.Server.Get` | src/fw_context_mcp/cache_server/backend.py:362-395 | every asked hash gets its row or None |
| `CacheServer.Server.PutEntries` | src/fw_context_mcp/cache_server/backend.py:397-464 | the whole new state and the count of a write, with and without overwrite |
| `CacheServer.Server.HandleRequest` | src/fw_context_mcp/cache_server/app.py:257-339 | the routes with their permission checks and caps |
| `CacheServer.Server.AddProjectToken` | src/fw_context_mcp/cache_server/backend.py:509-544 | adds a token to an existing project only, never an admin |
| `CacheServer.Server.RemoveOneProject` | src/fw_context_mcp/cache_server/backend.py:598-642 | removes a project with its tokens |
| `CacheServer.Server.PurgeOlderThan` | src/fw_context_mcp/cache_server/backend.py:666-683 | removes exactly the old rows and counts them |
| `CacheServer.RowChanges` | src/fw_context_mcp/cache_server/app.py:276-339 | first write wins: a row changes only by an overwriting PUT of a permitted token, goes only by a permitted clear or a purge of an old row, comes only by a permitted PUT |
| `CacheServer.TablesAreApart` | src/fw_context_mcp/cache_server/backend.py:468-642 | administration leaves the cache alone, requests leave tokens and projects alone |
| `CacheServer.SoundRun` | src/fw_context_mcp/cache_server/backend.py:468-642 | in every reachable state the project of every token exists |
| `CacheServer.RevocationIsPermanent` | src/fw_context_mcp/cache_server/backend.py:546-564 | an issued token that does not validate never validates again |
| `CacheServer.RevokedNeverServes` | src/fw_context_mcp/cache_server/backend.py:598-642 | a revoked token, or one of a removed project, never validates from then on |
| `CacheServer.RowStaysUntilPermittedEvent` | src/fw_context_mcp/cache_server/auth.py:295-339 | over a whole run a row stays while no permitted event comes |
| `CacheServer.EveryRowWasPut` | src/fw_context_mcp/cache_server/backend.py:397-464 | nothing is stored that no permitted PUT of the run said |
| `CacheClient.ServerInsertIsPut` | src/fw_context_mcp/cache_server/backend.py:397-464 | the client's view of the store, without timestamps, follows the insert of the server |
| `CacheClient.ServerStepIsOp` | src/fw_context_mcp/cache_server/app.py:257-339 | the store after any event of the server is what these operations make of it: a served PUT inserts or overwrites its first 1000 entries, a served clear and a purge remove exactly the rows that go, every other event does nothing |
| `CacheClient.OthersSpare` | src/fw_context_mcp/cache_server/app.py:257-339 | an event that may neither overwrite nor remove the row of a hash spares it, and a PUT without overwrite only inserts |
| `CacheClient.RetryHttpCall` | src/fw_context_mcp/cache_client.py:439-493 | at most three tries, the outcome of the first final reply, and what the tries leave in the store |
| `CacheClient.Client.BatchPut` | src/fw_context_mcp/cache_client.py:537-592 | the whole outcome of a chunked write: store, report, and the learnt permission |
| `CacheClient.RetriesAreOneWrite` | src/fw_context_mcp/cache_client.py:439-493 | a call applied any number of times leaves the store as one write |
| `CacheClient.ChunkedPutIsOneWrite` | src/fw_context_mcp/cache_client.py:537-592 | with no other writer, chunks and retries leave the store as one write of the delivered chunks |
| `CacheClient.EverythingDelivered` | src/fw_context_mcp/cache_client.py:537-561 | the delivered entries are all entries if and only if every chunk that is not empty arrives and is not over the cap of the server |
| `CacheClient.ReportAndGrowth` | src/fw_context_mcp/cache_client.py:537-592 | the growth of the store is the report, the rows whose answer was lost and what others did; while others only insert, the report never exceeds the growth, and equals it if and only if the other two are 0 |
| `CacheClient.NothingLost` | src/fw_context_mcp/cache_client.py:439-493 | for one call: with every answer received and no other writer nothing is lost |
| `CacheClient.NothingLostInChunks` | src/fw_context_mcp/cache_client.py:537-592 | the same for a whole chunked write |
| `CacheClient.ReportIsGrowth` | src/fw_context_mcp/cache_client.py:537-592 | where every applied try was answered and nobody else wrote, the report of a chunked write is the growth of the store |
| `CacheClient.BatchGet` | src/fw_context_mcp/cache_client.py:495-535 | the merge of the answers of the chunks, each from the store of its time, also for a `batch_size` of 0 or less |
| `CacheClient.ChunkedGetIsOneLookup` | src/fw_context_mcp/cache_client.py:495-535 | for chunks of 1 to 1000 and distinct hashes every hash is answered, with None for a failed chunk; a row that was stored before, and that nobody overwrote or removed up to then, is found; with no other writer exactly the stored rows are |
| `CacheClient.EveryHashIsAnswered` | src/fw_context_mcp/cache_server/app.py:257-274 | every hash gets an answer if and only if no answered chunk is over the cap of the server |
| `CacheClient.LargeLookupLosesAHash` | src/fw_context_mcp/cache_server/app.py:257-274 | 1001 hashes in one chunk: the last one gets no answer |
| `CacheNetwork.RunIsOps` | src/fw_context_mcp/cache_server/app.py:257-339 | over every run of the server the operations of its events, one after the other, make the store |
| `CacheNetwork.RunSpares` | src/fw_context_mcp/cache_server/app.py:257-339 | a run without a permitted overwrite, clear or purge of a row spares it, as the statement on chunked lookups asks of other clients |
| `CacheNetwork.PutIsAttempt` | src/fw_context_mcp/cache_server/app.py:276-301 | a PUT that the server handles after any run of other events is an honest attempt of the client: same store, same count |
| `CacheNetwork.ServedGet` | src/fw_context_mcp/cache_server/app.py:257-274 | a lookup that the server handles gives what the client takes for the answer of a chunk |
| `CacheNetwork.LargeWriteLosesAnEntry` | src/fw_context_mcp/cache_server/app.py:276-301 | 1001 valid entries in one PUT of a token that may write: the server answers 1000 inserted, and the last entry is not stored |
| `LlmTable.ClearKeys` | src/fw_context_mcp/config/settings.py:2079-2095 | the scan removes exactly the lines of the cleared keys inside the table |
| `LlmTable.FindTable` | src/fw_context_mcp/config/settings.py:2097-2111 | the bounds that the scan goes by |
| `LlmTable.BoundsMeaning` | src/fw_context_mcp/config/settings.py:2097-2111 | these are a line `[llm]`, lines that look like no header, and a line that looks like one or the end of the file; without such a line there is none |
| `LlmTable.SetOne` | src/fw_context_mcp/config/settings.py:2124-2134 | replaces the first matching line, else inserts before the end |
| `LlmTable.RewriteLines` | src/fw_context_mcp/config/settings.py:2074-2134 | the lines after clearing and setting |
| `LlmEdit.SaysExactly` | src/fw_context_mcp/config/settings.py:2045-2159 | for every way to keep, drop and put in lines of some keys that open and end no string: the new file has the table (old minus these keys) overridden by the new lines, every other table and line as before and in order, and the new lines as entries of the table, if and only if every change is outside strings in the table and no active line of the keys is left there |
| `LlmEdit.LeftIsRefused` | src/fw_context_mcp/config/settings.py:2119-2147 | an active line that is left beside a written one of its key makes the text invalid |
| `LlmRight.EditIsRight` | src/fw_context_mcp/config/settings.py:2045-2159 | for every valid file in which no touched line opens or ends a string: the edit is right if and only if the scan takes lines of the table only (none in a string), sees every active line of a cleared key, puts every value into the table, and no updated key has a second active line |
| `LlmRight.RefusedExactly` | src/fw_context_mcp/config/settings.py:2136-2147 | where the scan agrees with the reader the text is refused if and only if an updated key stands twice; with updates and an [llm] table in a spelling that the scan does not see it always is |
| `LlmRight.TwiceExactly` | src/fw_context_mcp/config/settings.py:2119-2134 | a key stands twice if and only if it has an active line in the table and the scan comes to a commented line of it first (`uncomment`), or does not see it |
| `LlmRight.OrdinaryFilesAgree` | src/fw_context_mcp/config/settings.py:2045-2159 | in every file without strings over several lines, with the plain header and bare keys, the scan agrees with the reader, for every edit |
| `LlmRight.EditLlmTable` | src/fw_context_mcp/config/settings.py:2045-2159 | what the editor writes or refuses, with these conditions |
| `LlmExamples.LineOfPromptIsReplaced` | src/fw_context_mcp/config/settings.py:2124-2134 | a line of a prompt over several lines looks like the updated key: it is replaced, the prompt has changed, the key is not set, and the text is valid |
| `LlmExamples.LineOfPromptIsCleared` | src/fw_context_mcp/config/settings.py:2079-2095 | a line of a prompt looks like a cleared key: it is missing from the prompt |
| `LlmExamples.HeaderInPromptTakesTheLine` | src/fw_context_mcp/config/settings.py:2097-2134 | a line of a prompt looks like a header: the new line goes into the prompt |
| `LlmExamples.HiddenTableKeepsTheKey` | src/fw_context_mcp/config/settings.py:2079-2095 | under `["llm"]` a cleared key stays, and the file is not refused |
| `LlmExamples.PromptIsRefused` | src/fw_context_mcp/config/settings.py:2136-2147 | the first line of a prompt over several lines is itself replaced: the words below make the text invalid |
| `LlmExamples.PromptLeavesAKey` | src/fw_context_mcp/config/settings.py:2119-2147 | the same with a line that reads as a key, and a comment as the last line: the text is valid, and has a new key |
| `LlmExamples.ExampleAboveActiveLineIsRefused` | src/fw_context_mcp/config/settings.py:2119-2134 | a template example above the active line of its key is refused, and only with `uncomment` |
| `LlmLines.PatternsAreOneReading` | src/fw_context_mcp/config/settings.py:2092-2128 | for every stripped line and key, the pattern of the key matches if and only if one reading of the line, the same for all keys, gives that key |
| `LlmLines.WrittenLineReads` | src/fw_context_mcp/config/settings.py:1956-1979 | a written line reads as an active entry of its key |
| `GitignorePlan.PairIsOrdered` | src/fw_context_mcp/cli/_init.py:948-968 | the loop over two indices answers whether both halves are there and the last half is the negation |
| `GitignorePlan.HalvesAfter` | src/fw_context_mcp/cli/_init.py:971-1023 | what any reader that agrees on the two halves finds of them in the new file |
| `GitignorePlan.PlanIsFixpoint` | src/fw_context_mcp/cli/_init.py:971-1023 | for any lines the plan of the new file keeps all of it, removes nothing and adds nothing |
| `GitignorePlan.AfterHasNoSuperseded` | src/fw_context_mcp/cli/_init.py:932-946 | no superseded form is left |
| `GitignorePlan.UnrelatedLinesStay` | src/fw_context_mcp/cli/_init.py:1008-1018 | every other line stays as it is and in order; what is added is blank, the comment, or a missing entry |
| `GitIgnored.PairMatches` | src/fw_context_mcp/cli/_init.py:914-930 | which paths the two patterns match, at any depth |
| `GitIgnored.OrderedPairSplits` | src/fw_context_mcp/cli/_init.py:914-930 | with the pair in order and no other line on the path, git ignores a path if and only if it is below some `.fw-context` and not its `config.toml` |
| `GitIgnored.SplitExactly` | src/fw_context_mcp/cli/_init.py:948-968 | the order of the pair, as git reads it, is necessary and sufficient for that split |
| `GitIgnored.BlanketHidesConfig` | src/fw_context_mcp/cli/_init.py:988-991 | a line that excludes the directory hides `config.toml`, whatever the pair says |
| `GitIgnored.PairIsSilentOnDirectory` | src/fw_context_mcp/cli/_init.py:914-930 | and the pair cannot bring the file back: it never includes a `.fw-context` directory, and has no say on one at all unless it is in another `.fw-context` |
| `GitIgnored.LastPairDecides` | src/fw_context_mcp/cli/_init.py:914-930 | with the pair at the end and any other lines above it: a path is ignored if and only if the split hides it, or those lines exclude it or a directory above it where the pair is silent |
| `GitIgnored.ConfigIsSeenExactly` | src/fw_context_mcp/cli/_init.py:914-930 | and git sees a `config.toml` if and only if those lines exclude neither its `.fw-context` nor a directory above that |
| `Gitignore.WordsAreValid` | src/fw_context_mcp/cli/_init.py:930-946 | the real texts of the planner are what the statements about it ask |
| `Gitignore.GitignoreFile.EnsureGitignore` | src/fw_context_mcp/cli/_init.py:1026-1061 | the file changes exactly with `fix` and a plan that is not empty, and then into the planned text |
| `Gitignore.GitignoreFile.WriteGitignore` | src/fw_context_mcp/cli/_init.py:1064-1082 | the text that is written: the kept lines or the old text, then the comment and the entries, for any text with or without a last line end |
| `Gitignore.AfterTextLines` | src/fw_context_mcp/cli/_init.py:1026-1082 | the lines of that text are the planned lines, for every text |
| `Gitignore.AfterTextIsFixpoint` | src/fw_context_mcp/cli/_init.py:1026-1061 | a second run has an empty plan and leaves the text |
| `Gitignore.PlannedFileGivesSplit` | src/fw_context_mcp/cli/_init.py:971-1023 | for every text: after its plan git makes the split if and only if the planner put the pair there, or the pair that it found is in order in the lines that git reads; these are the lines at newlines only, where the plan removed nothing |
| `Gitignore.WrittenPairShowsConfig` | src/fw_context_mcp/cli/_init.py:971-1023 | where the planner writes the pair, git sees a `config.toml` if and only if no line above the pair excludes its `.fw-context` or a directory above, whatever else the file holds |
| `Gitignore.IndentedPairIsNotRead` | src/fw_context_mcp/cli/_init.py:960-968 | an indented pair: the planner keeps it, git does not make the split |
| `Gitignore.OddBreakPairIsNotRead` | src/fw_context_mcp/cli/_init.py:1026-1061 | a pair after a line separator: the planner finds it in order, git makes no split after the plan |
| `VariantBlocks.RemoveLines` | src/fw_context_mcp/cli/_init_variants.py:113-144 | the scan terminates, leaves the remaining lines, and says whether a block went |
| `VariantBlocks.NameMatches` | src/fw_context_mcp/cli/_init_variants.py:123-131 | the inner scan finds the first name line before a line that starts with `[[` |
| `VariantBlocks.SkipBlock` | src/fw_context_mcp/cli/_init_variants.py:132-138 | the inner scan stops at the next line that starts with `[` |
| `VariantBlocks.RemovalIsByBlocks` | src/fw_context_mcp/cli/_init_variants.py:113-144 | for all files: whole blocks go, exactly the ones with the name (or, without a name, with the first name of the sections after them), the others stay in order |
| `VariantBlocks.NamedBlocksGoByName` | src/fw_context_mcp/cli/_init_variants.py:113-144 | for all files: exactly the blocks of the name go if and only if no variant block without a name line has this name in the sections after it |
| `VariantBlocks.NamelessBlockGoes` | src/fw_context_mcp/cli/_init_variants.py:123-131 | a nameless variant goes with the name of a section below it |
| `VariantDocs.RemovalInDocument` | src/fw_context_mcp/cli/_init_variants.py:113-144 | for all files: the document after a removal is the one without the variants that go, each with its tables, if and only if none of them has a table below it; other sections stay |
| `VariantDocs.EnvTableStays` | src/fw_context_mcp/cli/_init_variants.py:132-142 | `[build.variants.env]` below a variant stays when the variant goes |
| `VariantBlocks.AddedThenRemoved` | src/fw_context_mcp/cli/_init_variants.py:106-150 | for any reading of lines and any text: an added block is found again exactly when it reads as the name, and the text is restored exactly when it breaks lines with newlines only |
| `VariantBlocks.ConfigText.AddVariant` | src/fw_context_mcp/cli/_init_variants.py:73-110 | adds exactly a new name to a file that parses, else changes nothing |
| `VariantBlocks.ConfigText.RemoveVariant` | src/fw_context_mcp/cli/_init_variants.py:113-150 | rewrites the file exactly when a block goes |
| `Variants.NameLineReads` | src/fw_context_mcp/cli/_init_variants.py:127-130 | a written name line reads as the name without the quotes at its ends |
| `Variants.WrittenBlockIsRead` | src/fw_context_mcp/cli/_init_variants.py:28-51 | a written block is one that the scan takes as a variant |
| `Variants.AddThenRemove` | src/fw_context_mcp/cli/_init_variants.py:73-150 | for any text: removing a variant that was just added finds it if and only if its name has no quote at an end, and restores the text up to trailing line ends if and only if it breaks lines with newlines only |
| `Variants.LegacyImagesStay` | src/fw_context_mcp/cli/_init_variants.py:139-142 | old nested image tables stay when the variant before them goes |
| `VariantNames.ScanAgreesExactly` | src/fw_context_mcp/cli/_init_variants.py:127-130 | where TOML reads a string after the equals sign, the scan reads the same one if and only if it stands there in double quotes as it is: no escape, no apostrophes, no comment |
| `VariantNames.WrittenValueReadsBack` | src/fw_context_mcp/cli/_init_variants.py:20-25 | TOML reads a written name back if and only if it needs no escape |
| `VariantNames.PlainNamesReadAlike` | src/fw_context_mcp/cli/_init_variants.py:73-110 | for such a name the added variant has this name for TOML and for the scan |
| `VariantNames.InnerQuote` | src/fw_context_mcp/cli/_init_variants.py:20-25 | a name with a quote inside makes a line that is not TOML |
| `VariantNames.QuoteBreaksTheLine` | src/fw_context_mcp/cli/_init_variants.py:20-25 | the name `a"b` does |
| `VariantNames.TightNameIsNotRead` | src/fw_context_mcp/cli/_init_variants.py:127-130 | the line `name="a"` has no name for the scan |
| `VariantNames.LiteralNameReads` | src/fw_context_mcp/cli/_init_variants.py:127-130 | `name = 'a'` is the name a for TOML and another for the scan |
| `VariantNames.NameWithNoteReads` | src/fw_context_mcp/cli/_init_variants.py:127-130 | `name = "a" # b` too |
| `VariantNames.NamelessVariantGoes` | src/fw_context_mcp/cli/_init_variants.py:113-144 | removing "a" from a file with a nameless variant above `[index]` and `name = "a"` removes the variant |
| `VariantNames.QuotedNameIsNotFound` | src/fw_context_mcp/cli/_init_variants.py:73-150 | the name `"a`, added to an empty file, is not found |
| `VariantNames.OddBreakIsLost` | src/fw_context_mcp/cli/_init_variants.py:73-150 | a comment with U+2028 in it is two lines after adding and removing a variant |

## Left out

- Texts of warnings and reports; `remove_unusable_values` compares labels of left-over problems, which the model states as "a removable problem is left".
- The order of the keys of a TOML table, `inf` and `nan`, and the fields of dates: tables are maps, floats are reals, dates are texts.
- TOML text: the trees, the names of the variants and the tables of the line editor are what a TOML reader gives; comments and layout that `tomlkit` keeps during a repair are not modelled.
- LlmRight.EditIsRight: says nothing of an edit whose touched lines open or end a string over several lines; what is left of the string is then read on its own, and both outcomes occur (LlmExamples).
- LlmRight.EditLlmTable: the look of a line is given (LlmLines is the bridge for one line); arrays over several lines, `llm = {…}`, dotted keys, and a last line without a line end are not modelled.
- The default values that the embedding model brings for `embed_dim` and the prompts, the mtime cache of `load`, and the project-only rule of the `[updates]` warning.
- ReadCache: the last-resort open with `errors="replace"`, which latin1 never lets happen.
- AtomicWrite: targets and temporary files are two kinds of names; that the texts are apart is `TempNames.TargetsAreNoTmpNames`. Not modelled: the mode bits of the file, Windows sharing errors beyond "the rename fails", and threads of one process that write one path at once, which share a name by design.
- TempNames.DeadTemporaryExactly: stems and suffixes without glob wildcards, as all callers pass them; digits outside ASCII, which `\d` accepts and `owner_is_dead` refuses.
- The uniqueness of the tag of a PID namespace: AtomicWrite takes it as given that two processes of different namespaces have different tags.
- RateLimiter: the resolution of the client address behind proxies.
- CacheServer.Server.HandleRequest: answers 401 to every invalid token; the limiter's 429 is in RateLimiter. Duplicate hashes in one overwriting batch are an error of the database, as PostgreSQL has it.
- CacheServer: the fields `truncated` and `total` of the answers, usage statistics, descriptions, listings, hashing of tokens; that a new token was never issued before is an assumption.
- CacheClient: waits between tries, `Retry-After`, and a server that answers 200 without doing the work. Writes with `force`, which overwrite, are modelled on the side of the server. `clear_remote` has the same chunk loop.
- Gitignore: I/O errors; a lone carriage return, which reading the file turns into a newline and git does not; the pattern language of git beyond the two lines of the pair is a parameter.
- Variants.WrittenBlockIsRead: the `images` of `_fmt_variant_block`, which `_add_variant` never passes; the parse of the `--env` arguments.
- VariantNames.ScanAgreesExactly: values that are strings on one line, after a key that is written `name =`; strings of several lines, and keys in quotes or with a tab, which the scan takes for no name.
- VariantBlocks.RemovalIsByBlocks: a block ends at the next line that starts with `[`, as in the code; a multi-line array whose inner lines start so is cut there.
- The index run lock and its takeover: parts of it are in files that are not part of this model.
- Indexing, call graph, embeddings, build backends, CLI parsers and prompts: they would add input and output only.
