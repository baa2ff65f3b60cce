# Chapter summaries in lnreader: a Dafny model

This project models the chapter-summary feature of the lnreader app in Dafny and
proves properties of the model. The feature has three parts.

- **The SQLite store** (`src/database/db.ts`).
  - `createTables` is a three-way dispatch. It chooses on the onboarded flag and on `PRAGMA user_version`.
  - A first run builds the whole schema in one transaction. That includes the `Summaries` table and its two triggers.
  - An onboarded store below version 1 runs `updateToDBVersion1`. This adds five derived Novel columns and fills them with `COUNT(*)` and `MAX` over the Chapter table. It also installs the Novel counter triggers.
  - `recreateDBIndex` rebuilds two indexes and reports any error through a toast.
  - Chapter inserts and updates clear that chapter's cached summary through the two summary triggers, but only on a store that has them: the first-run path installs them and the migration does not. Deletes clear it through the `ON DELETE CASCADE` foreign key, and only while `PRAGMA foreign_keys` is on.
- **The summary resolver** (`src/services/SummarizationService.ts`). `fetchOrGenerateSummary` tries these in order:
  1. the cached row, where only a non-empty summary counts;
  2. the Chapter–Novel lookup;
  3. the chapter text, from the local file when downloaded and present, otherwise from the plugin;
  4. a completion request;
  5. a trimmed summary, written back with `INSERT OR REPLACE`.
- **The file-backed cache** (`src/plugins/SummarizerPlugin.ts`). There is one text file per chapter under a storage directory. `summarizeChapter` returns the file if it exists; otherwise it writes a placeholder. `invalidateCache` deletes the file.

How each part is modelled:

- `Store`: the class `Database` holds the installed schema objects, `user_version`, and the Novel, Chapter and Summaries rows. It updates them in place.
  - Schema statements are values. `Step` gives the effect of one statement, and `Run` the effect of a transaction's worth. Creating the Novel index, the Chapter index or either summary trigger fails with "no such table" while the table it is on is missing.
  - `Run` takes a fault oracle. It names the statement, if any, at which the engine reports an error.
  - `WithTransaction` executes statements one at a time and restores the snapshot when one fails.
  - The migration aggregates are functions over the chapter sequence. Lemmas relate them to the rows they count and to the maximum under SQLite's BINARY collation.
- `Summarization`: `Resolve` is the whole resolution as a value: its result, the new Summaries table, and the calls it makes to the outside world. `FetchOrGenerateSummary` performs it on a `Database` and is proved to agree with it; the steps after the lookup sit in `GenerateSummary`, which agrees with `Generate`, the matching part of `Resolve`. The file system, `fetchChapter`, the completion backend, the clock and write errors are parameters (`Oracles`).
- `SummarizerPlugin`: the class `SummarizerPlugin` holds the existing directories and the files with their contents. Its methods are proved to agree with `Initialized`, `Summarized` and `Invalidated`.
- `Strings`: the three built-in string behaviours the code relies on: JavaScript `trim`, the decimal rendering of a number, and SQLite's BINARY text order.

The model follows the code in two places where one might expect otherwise:

- A failed summary write is not swallowed. The code awaits the `INSERT OR REPLACE` before it returns, so the error reaches the caller (`WriteFailed`).
- The migration path does not create the `Summaries` table or its triggers; only the first-run path does. The model keeps this gap. `MigratedStoreCannotResolve` shows that the resolver then fails on a migrated store that lacked the table.

## Model

| member | source | states |
|---|---|---|
| Strings.Trim | src/services/SummarizationService.ts:50 | The result has no whitespace at either end, and the input is the result wrapped in JavaScript whitespace only |
| Strings.TrimUnique | src/services/SummarizationService.ts:50 | Any string without edge whitespace that the input wraps in whitespace is the trim: trim is fully determined by its contract |
| Strings.TrimIdempotent | src/services/SummarizationService.ts:50 | Trimming a trimmed string changes nothing |
| Strings.TrimEmptyIffAllSpace | src/services/SummarizationService.ts:50 | The trim is empty exactly when the input is all whitespace |
| Strings.DecimalRoundTrip | src/services/SummarizationService.ts:38 | Parsing the decimal rendering of `${novelId}` gives back the number |
| Strings.DecimalStringInjective | src/services/SummarizationService.ts:38 | Distinct novel ids render as distinct path segments |
| Strings.TextLeTotal | src/database/db.ts:142-155 | BINARY collation is total |
| Strings.TextLeTransitive | src/database/db.ts:142-155 | BINARY collation is transitive |
| Strings.TextLeAntisymmetric | src/database/db.ts:142-155 | BINARY collation is antisymmetric |
| Strings.TextMax | src/database/db.ts:142-155 | `MAX` of two TEXT values is one of them and is at least both |
| Store.FindChapter | src/services/SummarizationService.ts:28-31 | The lookup by primary key finds a row exactly when the id is present, and the row it finds has that id |
| Store.RemoveChapter | src/database/db.ts:56-61 | Deleting a chapter removes exactly the rows with that id and keeps ids unique |
| Store.Step | src/database/db.ts:46-76 | One statement never touches Chapter or Summaries rows and removes no schema object except the two indexes; only the version statement changes the version; a CREATE succeeds exactly when its host table (Novel for the novel index, Chapter for the chapter index and both summary triggers) is installed, and then the object is installed |
| Store.RunFrame | src/database/db.ts:95-100 | A transaction body's worth of statements keeps the Chapter and Summaries rows and every schema object but the two indexes, keeps the store consistent, and fails whenever the engine errs at one of its statements |
| Store.CountChapters | src/database/db.ts:121-141 | A backfilled count never exceeds the number of chapter rows |
| Store.Migrated | src/database/db.ts:121-155 | A backfilled novel keeps its plugin and has no more downloaded or unread chapters than chapters in total |
| Store.CreateTablesEffect | src/database/db.ts:30-82 | `createTables` never changes Chapter or Summaries rows; when it commits it either leaves version 1 or changes nothing; a first run that commits installs every first-run object |
| Store.ReplaceChapter | src/database/db.ts:67-71 | Updating a chapter replaces exactly the row with its id, position by position, and keeps the id set |
| Store.CountIsCardinality | src/database/db.ts:121-141 | Each backfilled count is the number of distinct chapters of the novel that meet the filter (all, `isDownloaded = 1`, `unread = 1`) |
| Store.TalliesBoundedByTotal | src/database/db.ts:121-141 | `chaptersDownloaded` and `chaptersUnread` never exceed `totalChapters` |
| Store.NoChaptersGivesZero | src/database/db.ts:121-155 | A novel without chapters gets counts 0 and NULL `lastReadAt`/`lastUpdatedAt` |
| Store.MaxTimeIsMaximum | src/database/db.ts:142-155 | The backfilled time is NULL iff no chapter of the novel has that time; otherwise it is one of those times and at least every other one |
| Store.CommitMeansNoFault | src/database/db.ts:112-160 | A transaction that commits met no engine error in any statement |
| Store.FreshSchemaOutcome | src/database/db.ts:46-76 | The first-run transaction either installs every first-run object, including Summaries and both summary triggers, and sets version 1 with all rows untouched, or fails with the engine's message |
| Store.MigratedByColumns | src/database/db.ts:113-155 | Five ADD COLUMNs followed by five UPDATEs leave each novel with exactly the five aggregates over its chapters |
| Store.MigratedNovels | src/database/db.ts:113-155 | The five ADD COLUMNs and five UPDATEs together install the five columns and give every novel its migrated row, leaving chapters, summaries and version alone |
| Store.MigrationV1Outcome | src/database/db.ts:112-160 | On a store with Novel and Chapter tables and none of the five columns, an error-free migration adds the columns and counter triggers, sets version 1, and backfills every novel |
| Store.MigrationV1Succeeds | src/database/db.ts:112-160 | The migration commits only on a store with both tables and none of the five columns, and only when no statement errs |
| Store.MigrationV1NotRerunnable | src/database/db.ts:113-115 | Re-running the migration on a store that already has `chaptersDownloaded` fails with "duplicate column name" |
| Store.MigrationV1Completes | src/database/db.ts:159 | A committed migration leaves `user_version = 1` |
| Store.IndexRebuildOutcome | src/database/db.ts:95-100 | The index rebuild commits exactly when no statement errs and both Novel and Chapter exist (DROP INDEX taken as IF EXISTS), and then adds both indexes and changes nothing else; an error in a DROP gives its message; otherwise a missing Novel gives "no such table: main.Novel" and a missing Chapter "no such table: main.Chapter" |
| Store.CreateTablesIdempotent | src/database/db.ts:30-82 | A second `createTables`, with the version the first one left, changes nothing |
| Store.Database.Open | src/database/db.ts:28 | A new connection sees the stored tables, with foreign keys off |
| Store.Database.RunSync | src/database/db.ts:47-55 | One statement either applies its effect or fails and leaves the tables as they were |
| Store.Database.WithTransaction | src/database/db.ts:46-76 | The transaction commits exactly when the statements run without error; a failure rolls every table back |
| Store.Database.CreateTables | src/database/db.ts:30-82 | The version row read is the stored version. Not onboarded: first-run schema plus version 1 in one transaction. Onboarded below version 1 (a missing version row counts as 0): migrated novels and version 1. Otherwise nothing changes. Foreign keys are on afterwards |
| Store.Database.UpdateToDBVersion1 | src/database/db.ts:107-161 | Success adds the five columns and counter triggers, sets version 1 and backfills every novel from its chapters. Failure leaves every table and the version unchanged |
| Store.Database.RecreateDBIndex | src/database/db.ts:84-105 | Never throws. No toast exactly when no statement errs and both tables exist (DROP INDEX taken as IF EXISTS), and then both indexes are installed. An error becomes a toast carrying its message (on a store without Novel, "no such table: main.Novel"), with nothing changed. Rows and version are never changed |
| Store.Database.InsertChapter | src/database/db.ts:62-66 | An insert appends the chapter and, with the trigger installed, deletes exactly that chapter's summary; a duplicate id fails and changes nothing |
| Store.Database.UpdateChapter | src/database/db.ts:67-71 | An update replaces the chapter's row and, with the trigger installed, deletes exactly that chapter's summary; other summaries are untouched |
| Store.Database.DeleteChapter | src/database/db.ts:56-61 | A delete removes the chapter's row and, with foreign keys on, cascades to exactly that chapter's summary |
| Summarization.ChapterKey | src/services/SummarizationService.ts:14-17 | `Number(chapterId)` of a `-`-signed string is never positive and of an unsigned or `+`-signed one never negative; the model maps the empty string to no row |
| Summarization.ChapterKeyOfNumber | src/services/SummarizationService.ts:14-17 | `Number(chapterId)` reads a decimally rendered id back as that id, with or without a leading `+` |
| Summarization.CachedSummary | src/services/SummarizationService.ts:14-20 | A cache hit exactly when a row exists for the key and its summary is non-empty (truthy), and then the hit is that summary |
| Summarization.LookupInfo | src/services/SummarizationService.ts:22-35 | The join yields the chapter's path, novel id, downloaded flag and plugin id exactly when the chapter exists and its novel exists; otherwise "Chapter not found" or the engine's error |
| Summarization.ChapterFilePathShape | src/services/SummarizationService.ts:38 | The local path starts with the novel storage directory and a slash and ends with `/index.html` |
| Summarization.ChapterFilePathInjective | src/services/SummarizationService.ts:38 | Distinct (plugin, novel, chapter) triples whose plugin ids contain no '/' map to distinct local paths |
| Summarization.SourceAndRead | src/services/SummarizationService.ts:37-43 | The local file is chosen exactly when the chapter is downloaded and its file exists, and is read as stored; otherwise the plugin fetch of the chapter's plugin and path, which succeeds exactly when the fetcher does and returns its text; every failed read is a fetch failure |
| Summarization.PromptRoundTrip | src/services/SummarizationService.ts:47 | The prompt carries the whole chapter text, unaltered, between the fixed head and a newline |
| Summarization.SummaryOf | src/services/SummarizationService.ts:50 | No choices throws. An absent first-choice text gives `''`. Otherwise the result is the trimmed first-choice text |
| Summarization.SummaryIsTrimmed | src/services/SummarizationService.ts:50 | Every stored summary is already trimmed |
| Summarization.ResolveShape | src/services/SummarizationService.ts:11-59 | A failed resolution leaves Summaries as they were. No call is made exactly when the Summaries query throws or hits the cache; otherwise the first call is the lookup and there are at most four. A success after a miss ends with the write of the returned summary, stored under its key |
| Summarization.FetchOrGenerateSummary | src/services/SummarizationService.ts:11-59 | Its result, its calls and the new Summaries table are those of `Resolve`; no other table changes |
| Summarization.GenerateSummary | src/services/SummarizationService.ts:37-58 | Once the chapter is found: its result, its calls and the new Summaries table are those of `Generate`, the read, completion and write part of `Resolve` |
| Summarization.GenerateCalls | src/services/SummarizationService.ts:37-49 | After the lookup the text is read from the chosen source, and the completion request, if made, is built from the text read |
| Summarization.CacheHitShortCircuits | src/services/SummarizationService.ts:14-20 | A non-empty cached summary is returned with no lookup, read, completion or write |
| Summarization.EmptyCachedSummaryIsMiss | src/services/SummarizationService.ts:18 | An empty cached summary is a miss: the lookup runs |
| Summarization.MissingChapterFails | src/services/SummarizationService.ts:22-35 | Without a chapter joined to a novel, the result is "Chapter not found" after the lookup alone, with nothing written |
| Summarization.TextSourceChoice | src/services/SummarizationService.ts:37-49 | The local file is read iff the chapter is downloaded and its file exists, otherwise the plugin fetch. The completion asks `text-davinci-003` for 150 tokens with the fixed prompt around that text |
| Summarization.MissThenStore | src/services/SummarizationService.ts:52-58 | After a miss, success stores exactly the returned trimmed summary under the chapter's key with the current time, leaves every other row as it was, and ends with the write. Failure writes nothing |
| Summarization.ResolveTwice | src/services/SummarizationService.ts:14-58 | After a successful resolution, the next one returns the same non-empty summary from the cache with no calls |
| Summarization.MigratedStoreCannotResolve | src/services/SummarizationService.ts:14-17 | On a store migrated without a Summaries table, the resolver fails with "no such table: Summaries" |
| Summarization.ChapterChangeForcesRegeneration | src/services/SummarizationService.ts:14-22 | With no summary row for the chapter (as a chapter insert, update or delete leaves it), the resolver goes on to the lookup |
| Summarization.UpdateThenSummarize | src/database/db.ts:67-71 | Updating an existing chapter on a store with the update trigger, then resolving it, starts with the lookup: no stale summary is returned |
| Summarization.DeleteThenSummarize | src/database/db.ts:56-61 | Deleting an existing chapter with foreign keys on, then resolving it, starts with the lookup: the cascade removed its summary |
| SummarizerPlugin.StorageDir | src/plugins/SummarizerPlugin.ts:3-4 | The storage directory is the document directory, else the cache directory, else "null", followed by `summaries` |
| SummarizerPlugin.CacheFile | src/plugins/SummarizerPlugin.ts:25 | The cache path is the storage directory, a slash, the chapter id and `.txt` |
| SummarizerPlugin.Placeholder | src/plugins/SummarizerPlugin.ts:33 | The placeholder is "Summary for chapter " followed by the id |
| SummarizerPlugin.Initialized | src/plugins/SummarizerPlugin.ts:10-17 | Afterwards something exists at the storage path; no file changes and at most that directory is added; nothing changes when the path already exists |
| SummarizerPlugin.Summarized | src/plugins/SummarizerPlugin.ts:24-38 | Succeeds exactly when the cache file exists or the path is free and the storage directory exists; success leaves the returned text in the cache file, failure leaves the disk unchanged and names the cache path; no directory changes |
| SummarizerPlugin.Invalidated | src/plugins/SummarizerPlugin.ts:43-49 | Afterwards nothing exists at the cache path and nothing else is removed |
| SummarizerPlugin.CacheFileInjective | src/plugins/SummarizerPlugin.ts:25 | Distinct chapter ids have distinct cache files |
| SummarizerPlugin.PlaceholderInjective | src/plugins/SummarizerPlugin.ts:33 | Distinct chapter ids get distinct placeholders |
| SummarizerPlugin.InitializeIdempotent | src/plugins/SummarizerPlugin.ts:10-17 | Initializing twice is initializing once; no file is touched |
| SummarizerPlugin.InitializeAllowsWrites | src/plugins/SummarizerPlugin.ts:10-37 | Once initialized, summarizing succeeds unless a file occupies the storage path or a directory occupies the cache path |
| SummarizerPlugin.SummarizeReturnsStored | src/plugins/SummarizerPlugin.ts:26-31 | A cached file is returned as stored and the disk is unchanged |
| SummarizerPlugin.SummarizeStoresPlaceholder | src/plugins/SummarizerPlugin.ts:33-37 | On a miss, "Summary for chapter " + id is stored under that chapter's file and returned; no other file or directory changes |
| SummarizerPlugin.SummarizeTwice | src/plugins/SummarizerPlugin.ts:24-38 | The second call returns the same string and writes nothing |
| SummarizerPlugin.InvalidateRemovesOnlyThat | src/plugins/SummarizerPlugin.ts:43-49 | Invalidation removes that chapter's file and leaves every other chapter's cached summary present and unchanged |
| SummarizerPlugin.InvalidateIdempotent | src/plugins/SummarizerPlugin.ts:45-48 | Invalidating an absent entry is a no-op; invalidating twice is invalidating once |
| SummarizerPlugin.InvalidateThenSummarize | src/plugins/SummarizerPlugin.ts:24-49 | After invalidation, the next summary is the placeholder again |
| SummarizerPlugin.SummarizerPlugin.constructor | src/plugins/SummarizerPlugin.ts:3-4 | The plugin's storage directory is `StorageDir` of the platform's directories |
| SummarizerPlugin.SummarizerPlugin.Initialize | src/plugins/SummarizerPlugin.ts:10-17 | The directory is created only when nothing exists at its path |
| SummarizerPlugin.SummarizerPlugin.SummarizeChapter | src/plugins/SummarizerPlugin.ts:24-38 | The result and the new disk are those of `Summarized` |
| SummarizerPlugin.SummarizerPlugin.InvalidateCache | src/plugins/SummarizerPlugin.ts:43-49 | The new disk is that of `Invalidated` |

## Left out

- PRAGMAs other than `foreign_keys` (journal mode, cache size, synchronous, temp store, busy timeout, analysis limit, optimize) have no logical effect on the tables and are not modelled.
- The text of the imported CREATE queries (Novel, Category, NovelCategory, Chapter and Repository tables, their indexes, the category trigger, the default-category row) is not part of this model. They are schema objects that a CREATE installs if absent. Only the two indexes and the two summary triggers check that their table exists; the other imported objects are assumed to have what they need.
- Store.Step: the Novel table that a CREATE installs is assumed to carry the five derived columns (`totalChapters` and the rest). The migration's ADD COLUMNs imply that the imported Novel definition has them, and a first run is recorded as version 1 so it is never migrated.
- Store.Step: the imported DROP INDEX queries are taken to be DROP INDEX IF EXISTS, so dropping an absent index succeeds. The index-rebuild rows (`IndexRebuildOutcome`, `RecreateDBIndex`) rely on this: with a plain DROP INDEX, a store with both tables but no index would show a "no such index" toast.
- Summarization.ChapterFilePathInjective: plugin ids are assumed to contain no '/'. With a slash the path template collides, e.g. plugin "a/1", novel 2, chapter "c" and plugin "a", novel 1, chapter "2/c" share one path.
- The Novel counter triggers' bodies are not part of this model either. Their effect is a parameter (`CounterTriggers`), applied when they are installed.
- The onboarded flag (`MMKVStorage`) is a parameter of `CreateTables`. The `PRAGMA user_version` row is also a parameter, but it must be absent or equal to the stored version.
- `datetime('now')` is the `now` parameter.
- Engine errors are the `Fault` oracle. An error in a PRAGMA outside a transaction is not modelled.
- The Chapter→Novel foreign key, cascades from Novel deletes, and constraints inside the imported table definitions are not modelled.
- The foreign-key check on the summary write is not modelled, because the preceding lookup guarantees the chapter row exists.
- Summaries rows with a NULL summary are not modelled: the resolver only ever writes strings.
- Summarization.ChapterKey: `Number(chapterId)` is modelled only for a string of decimal digits with an optional `+` or `-` sign. Other strings (surrounding whitespace, exponents, hex, the empty string) are taken to match no row. Precision beyond 2^53 is not modelled.
- The decimal rendering of `novelId` ignores JavaScript's exponent form for very large numbers.
- The file system, `fetchChapter`, `NativeFile` and the completion backend are oracles. Network time, API keys, timeouts, concurrency and the ordering of asynchronous calls are not modelled; the code has no single-flight guard or timeout.
- SummarizerPlugin: `makeDirectoryAsync` with `intermediates` is modelled as creating the one directory. Missing parents and permission errors are not modelled.
- SummarizerPlugin: deleting a directory that sits at a cache path removes that entry only, not its contents.
- SummarizerPlugin: file-system errors other than a directory at the cache path or a missing storage directory are not modelled, nor are UTF-8 encoding details.
- The summary screen (`src/screens/SummaryScreen/SummaryScreen.tsx`) is user interface and is not modelled.
