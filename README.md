# APK bot core, modelled in Dafny

A model of the core of a WhatsApp bot that finds and delivers Android apps,
together with its Python scraping API server. The model covers four parts.

- **File splitter** (`src/utils/file-splitter.js`). WhatsApp will not deliver
  a file above 1.9 GiB, so larger downloads are cut into 1 GiB
  `name.partNNN` files in `/tmp/file_splits`. The parts are cached per URL for
  two minutes. The cache expires in two ways: a deferred callback after each
  store, and a one-minute sweep. `splitFileFromUrl` coordinates the steps in
  order: cache lookup, download, threshold check, split, removal of the
  staged file, store.
- **Record stores** (`src/storage.js`): the blocklist, users, the download
  log with its statistics, group settings, the anti-private settings and the
  warnings counter.
- **Bot policies** (`bot.js`):
  - the bot-mode gate;
  - who counts as a developer, and phone validation;
  - the hourly download limit;
  - the fast and hourly message-spam limiters;
  - the concurrent-download counter;
  - the bounded message store;
  - the lite-app table.
- **API server rules** (`src/api/api_server.py`):
  - APK/XAPK classification from an archive's entry names;
  - APKPure app-id extraction from a link;
  - the one-hour "not found" memory of `download_apk`;
  - the three matching tiers and the result capping of `search_modyolo`.

## Files and modules

| file | module | content |
|---|---|---|
| `wrappers.dfy` | `Wrappers` | `Option`, `Result` |
| `text.dfy` | `Text` | strings, as the source's string methods use them: ASCII lower-casing, prefix/suffix/substring tests, digit stripping, decimal printing and parsing, `padStart`, splitting on a separator, whitespace words, `replace` |
| `lists.dfy` | `Lists` | `filter`, `reverse`, `slice` with a negative start |
| `split_plan.dfy` | `SplitPlan` | the pure arithmetic of `splitFile`, `needsSplitting` and `getJoinInstructions` |
| `file_splitter.dfy` | `FileSplitter` | class `Splitter`, which holds the staging directory and the parts cache. Its methods are proved against state functions, and the cache and coordinator properties are lemmas |
| `storage.dfy` | `Storage` | one class per exported store, each proved against functions on its data, plus lemmas about those functions |
| `bot_policy.dfy` | `BotPolicy` | one class per mutable tracker or store, the pure predicates, and lemmas |
| `api_server.dfy` | `ApiServer` | the file-type decision, the app-id rule, class `NotFoundCache`, and the matching loops of `search_modyolo` proved against the tier functions |

Each stateful method states its whole new state as a function of the old one,
for example `ensures blocked == AddBlock(old(blocked), phone, reason, blockedAt)`.
The properties the source promises are proved about those functions.

Two behaviours of the code are worth knowing:

- **Empty files.** `splitFile` of a zero-byte file returns an empty part
  list, not an error. `Math.ceil(0 / chunkSize)` is 0, so the loop never runs
  (src/utils/file-splitter.js:141-151, `SplitPlan.EmptyFileHasNoParts`).
- **Expired lookups.** When `getCachedParts` meets an expired entry, it
  deletes the entry and leaves its part files on disk
  (src/utils/file-splitter.js:25-35). The entry's deferred callback
  (src/utils/file-splitter.js:49-55) and the sweep then no longer see the
  entry, so neither of them deletes those files
  (`FileSplitter.ExpiredLookupKeepsFiles`). Only `cleanupParts` still
  removes them, and only for a caller that passes the parts to it; a caller
  that keeps the parts leaves them on disk.

`splitFile` names each part after the staged, timestamped basename, while the
coordinator reports the requested `filename` as `originalName`. The model
keeps both.

## Model

| member | source | states |
|---|---|---|
| SplitPlan.NeedsSplitting | src/utils/file-splitter.js:6-136 | a whole byte count is split exactly when it is at least 2040109466, the first integer above 1.9 GiB |
| SplitPlan.ThresholdBoundary | src/utils/file-splitter.js:134-136 | 2040109465 bytes are sent whole and 2040109466 bytes are split |
| SplitPlan.OffsetIsProduct | src/utils/file-splitter.js:153 | the start offset of part `i` is `i * chunkSize` |
| SplitPlan.OffsetMonotone | src/utils/file-splitter.js:153 | start offsets do not decrease with the part index |
| SplitPlan.NumParts | src/utils/file-splitter.js:141 | `ceil(size / chunk)` is the fewest chunks that cover the file; it is 0 exactly for an empty file |
| SplitPlan.StartInsideFile | src/utils/file-splitter.js:151-155 | every part starts strictly inside the file, so no part is empty |
| SplitPlan.Pad3 | src/utils/file-splitter.js:152 | the padded part number is all digits, at least three wide, and reads back as the number (width pinned down by `Pad3Width`) |
| SplitPlan.Pad3Width | src/utils/file-splitter.js:152 | `padStart(3, '0')` is exactly three characters below 1000 and the plain decimal above: the decimal at the end, zeros before it |
| SplitPlan.PartPath | src/utils/file-splitter.js:152 | the path of part `n`: the staging directory joined with `base.partNNN`; `PartPathBasename`, `PartPathInjective` and `PartPathIsNotSource` state its properties |
| SplitPlan.PartPathBasename | src/utils/file-splitter.js:152 | a part path lies in `/tmp/file_splits/`, and for a slash-free base name its own file name is `base.partNNN` |
| SplitPlan.Basename | src/utils/file-splitter.js:144 | `path.basename` is the suffix of the path after its last `/` (all of it when there is none), and holds no `/` |
| SplitPlan.BasenameOfJoin | src/utils/file-splitter.js:144-152 | the basename of `dir/name` is `name` when `name` has no `/` |
| SplitPlan.ConcatCancel | src/utils/file-splitter.js:152 | equal strings with a common prefix have equal remainders |
| SplitPlan.PartPathInjective | src/utils/file-splitter.js:152 | equal part paths have equal part numbers |
| SplitPlan.PartPathsDiffer | src/utils/file-splitter.js:152 | different part numbers give different part paths |
| SplitPlan.PartPathIsNotSource | src/utils/file-splitter.js:152 | no part path is the staged file being split |
| SplitPlan.Plan | src/utils/file-splitter.js:141-164 | the part array has exactly `ceil(size / chunk)` entries |
| SplitPlan.PlanShape | src/utils/file-splitter.js:151-163 | part `i` is number `i + 1` of `n`, has the part path and the base name, and holds `chunk` bytes unless it is the last part, which holds the remainder |
| SplitPlan.EmptyFileHasNoParts | src/utils/file-splitter.js:141-151 | a zero-byte file yields an empty part list and no error |
| SplitPlan.SmallFileIsOnePart | src/utils/file-splitter.js:141-164 | a file of at most one chunk gives one part, holding the whole file |
| SplitPlan.PlanPathsDistinct | src/utils/file-splitter.js:152 | the parts of one split have pairwise distinct paths |
| SplitPlan.PlanPrefixSum | src/utils/file-splitter.js:153-155 | the first `k` parts together hold `min(k * chunk, size)` bytes |
| SplitPlan.PlanSizesSum | src/utils/file-splitter.js:153-155 | the part sizes add up to the file size |
| SplitPlan.TwoAndAHalfGiB | src/utils/file-splitter.js:134-164 | a 2.5 GiB file is split into 1 GiB, 1 GiB and 512 MiB parts |
| SplitPlan.Chunks | src/utils/file-splitter.js:168-172 | there is one byte range per part |
| SplitPlan.ChunksPrefix | src/utils/file-splitter.js:153-172 | the first `k` ranges, concatenated, are the first `min(k * chunk, size)` bytes of the file |
| SplitPlan.ChunkSizeIsPartSize | src/utils/file-splitter.js:155-172 | each byte range is as long as its part's recorded size |
| SplitPlan.ChunksReassemble | src/utils/file-splitter.js:153-172 | concatenating the parts in order gives back the file |
| SplitPlan.RangesTile | src/utils/file-splitter.js:153-155 | each range ends where the next one starts, and the last ends at the file size |
| SplitPlan.JoinPartNames | src/utils/file-splitter.js:264-268 | the loop lists `name.part001` up to `name.partN`, in order, and lists nothing for a non-positive count |
| SplitPlan.JoinNamesNumbered | src/utils/file-splitter.js:267 | the `k`-th listed name carries the number `k + 1` |
| SplitPlan.JoinNamesMatchParts | src/utils/file-splitter.js:264-268 | for `numParts = parts.length`, the `k`-th listed name carries the number of the `k`-th part, and it differs from that part file's own name only in the base name before `.partNNN` (the part files carry the staged, timestamped base name) |
| FileSplitter.Splitter.constructor | src/utils/file-splitter.js:15 | the cache starts empty |
| FileSplitter.Lookup | src/utils/file-splitter.js:21-37 | `getCachedParts` on the state: a hit is an entry younger than CACHE_TTL whose part files all exist, returned with no change; any other entry under the key is dropped with its files kept (`HitNeverFetches`, `ExpiredLookupKeepsFiles`) |
| FileSplitter.StagedPath | src/utils/file-splitter.js:60 | where `downloadWithAria2` stages a download: `TEMP_DIR`, `/`, the timestamp, `_` and the name, with the clock as a parameter (`StagedPathBasename`) |
| FileSplitter.StagedPathBasename | src/utils/file-splitter.js:60 | the staged file lies in the staging directory, and for a slash-free name its file name is the timestamp, `_` and the name |
| FileSplitter.Store | src/utils/file-splitter.js:39-47 | `setCachedParts` on the state: the key's entry is replaced and nothing else changes (`DeferredExpirySparesNewerEntry`) |
| FileSplitter.FireExpiry | src/utils/file-splitter.js:49-55 | the deferred callback on the state: the entry present when it fires is removed with its part files only if it is at least CACHE_TTL old (`DeferredExpiryRemovesEntry`, `DeferredExpirySparesNewerEntry`) |
| FileSplitter.Sweep | src/utils/file-splitter.js:299-308 | `clearExpiredCache` on the state: every expired entry goes with its part files, the rest stays (`SweepKeepsYoungEntries`, `SweepThenRefetch`) |
| FileSplitter.Obtain | src/utils/file-splitter.js:195-242 | `splitFileFromUrl` on the state: a hit, a fetch error, a whole small file, or a fresh split that is cached (`SplitResultIsCached`, `FreshSplitReassembles`, `RepeatWithinTtlIsCacheHit`, `SmallDownloadIsWhole`) |
| FileSplitter.Splitter.GetCachedParts | src/utils/file-splitter.js:21-37 | a hit needs an entry younger than CACHE_TTL whose part files all exist; otherwise the key's entry is dropped and null is returned |
| FileSplitter.Splitter.SetCachedParts | src/utils/file-splitter.js:39-56 | the key's entry is replaced by one stamped `now`, and a timer is armed for `now + CACHE_TTL + 5000` |
| FileSplitter.Splitter.FireDeferredExpiry | src/utils/file-splitter.js:49-55 | the callback removes the entry under the key, and its part files, only if that entry is at least CACHE_TTL old when it fires |
| FileSplitter.Splitter.CleanupParts | src/utils/file-splitter.js:244-255 | exactly the listed paths are deleted; the cache is unchanged |
| FileSplitter.Splitter.CleanupPartsIfNotCached | src/utils/file-splitter.js:257-262 | nothing is deleted while the URL's key is cached; otherwise exactly the listed paths are deleted |
| FileSplitter.Splitter.ClearExpiredCache | src/utils/file-splitter.js:299-308 | the sweep removes every expired entry together with its part files, and nothing else |
| FileSplitter.Splitter.SplitFile | src/utils/file-splitter.js:138-193 | a missing file is an error; otherwise the result is the plan for the file, and each part path is written with its byte range |
| FileSplitter.Splitter.WritePartFiles | src/utils/file-splitter.js:151-188 | the loop builds exactly the planned part list and writes each part's range to its path |
| FileSplitter.Splitter.Fetch | src/utils/file-splitter.js:101-108 | a download is staged under `TEMP_DIR/<now>_<filename>`; a failure changes nothing |
| FileSplitter.Splitter.SplitFileFromUrl | src/utils/file-splitter.js:195-242 | the coordinator's whole effect is the state function `Obtain` (cache hit, else fetch, threshold, split, unlink, store); the timer is armed only for a fresh split |
| FileSplitter.WriteStep | src/utils/file-splitter.js:151-173 | writing one more part adds exactly that part's file |
| FileSplitter.WriteParts | src/utils/file-splitter.js:151-173 | the staging directory once the first k parts are written (`WriteStep`, `WrittenPartHolds`, `WritingKeepsOthers`) |
| FileSplitter.SplitStaged | src/utils/file-splitter.js:225-231 | the directory after the staged download is split and unlinked (`StagedPartHolds`, `FreshSplitReassembles`) |
| FileSplitter.PartsExtend | src/utils/file-splitter.js:157-164 | appending the next descriptor keeps the list equal to the plan, element by element |
| FileSplitter.PlanByElements | src/utils/file-splitter.js:157-164 | a list that agrees with the plan element by element is the plan |
| FileSplitter.ExpiredPathsAdd | src/utils/file-splitter.js:301-304 | visiting one more key adds that entry's part files exactly when it has expired |
| FileSplitter.WrittenPartHolds | src/utils/file-splitter.js:151-188 | after `k` parts are written, part `i`'s path holds byte range `i - 1` |
| FileSplitter.WritingKeepsOthers | src/utils/file-splitter.js:151-188 | writing the parts leaves every other path as it was |
| FileSplitter.SplitResultIsCached | src/utils/file-splitter.js:196-241 | after a split result, fresh or cached, the URL's entry is in the cache with those parts, sizes and name, and all its part files exist; a fresh entry is stamped at the end of the split |
| FileSplitter.StagedPartHolds | src/utils/file-splitter.js:225-231 | after the split and the unlink, each part file holds its byte range |
| FileSplitter.RepeatWithinTtlIsCacheHit | src/utils/file-splitter.js:21-37 | a repeat call within CACHE_TTL of a fresh split is served from the cache with the same parts, changes nothing, and does not depend on the downloader |
| FileSplitter.HitNeverFetches | src/utils/file-splitter.js:196-206 | a cache hit returns `fromCache: true` from the entry alone, without a fetch |
| FileSplitter.FreshSplitReassembles | src/utils/file-splitter.js:195-242 | after a fresh split, the part files read in order concatenate to the downloaded bytes |
| FileSplitter.SmallDownloadIsWhole | src/utils/file-splitter.js:196-221 | on any miss (no entry, an expired one, or one with a missing part file), a download below the threshold is returned whole as the staged file; the stale entry is dropped and nothing is cached |
| FileSplitter.DeferredExpiryRemovesEntry | src/utils/file-splitter.js:39-56 | if an entry is not replaced, its deferred expiry removes it and its part files |
| FileSplitter.DeferredExpirySparesNewerEntry | src/utils/file-splitter.js:49-55 | a newer store under the same key survives the older store's callback |
| FileSplitter.SweepThenRefetch | src/utils/file-splitter.js:195-308 | after the sweep an expired entry and its files are gone, and the next call goes to the downloader |
| FileSplitter.ExpiredLookupKeepsFiles | src/utils/file-splitter.js:25-55 | a lookup that finds an expired entry drops it but keeps its part files, and the entry's own callback then deletes nothing |
| FileSplitter.SweepKeepsYoungEntries | src/utils/file-splitter.js:299-308 | the sweep keeps exactly the entries younger than CACHE_TTL, unchanged, and every file that no expired entry lists |
| Storage.Blocklist.constructor | src/storage.js:34-40 | the list starts as loaded |
| Storage.HasPhone | src/storage.js:42-47 | `isBlocked` on the list: some record holds the phone (`AddBlockSpec`, `HasPhoneWithout`, `RemoveSpec`) |
| Storage.Blocklist.IsBlocked | src/storage.js:42-47 | `isBlocked` is `HasPhone` of the list, so a phone is blocked after `add` and not after `remove` (`AddBlockSpec`, `RemoveSpec`) |
| Storage.Blocklist.Count | src/storage.js:71-73 | `count()` is the length of the list, which `add` raises by one only for a new phone (`AddBlockSpec`) |
| Storage.AddBlock | src/storage.js:49-57 | `add` on the list: a record is appended only for a phone not yet blocked (`AddBlockSpec`, `RemoveUndoesAdd`) |
| Storage.Blocklist.Add | src/storage.js:49-57 | `add` is `AddBlock` of the old list |
| Storage.Blocklist.Remove | src/storage.js:59-65 | `remove` is the old list without the phone's records |
| Storage.AddBlockSpec | src/storage.js:42-57 | after `add` the phone is blocked; a listed phone leaves the list unchanged; the list grows by one only for a new phone; no phone is ever listed twice |
| Storage.HasPhoneWithout | src/storage.js:46-63 | after removing a phone, another phone is blocked exactly if it was before |
| Storage.RemoveSpec | src/storage.js:59-65 | after `remove` the phone is not blocked, others keep their state, and the order of the rest is kept (removal distributes over concatenation); removing an absent phone changes nothing |
| Storage.RemoveUndoesAdd | src/storage.js:49-65 | removing a newly added phone restores the list |
| Storage.FindIndex | src/storage.js:93-98 | `find` stops at the first record with the phone, or there is none |
| Storage.Users.constructor | src/storage.js:76-90 | the users start as loaded |
| Storage.FindUser | src/storage.js:91-94 | `get`: the first record holding the phone, or none (`FindIndex`, `UpdateThenGet`) |
| Storage.Users.Get | src/storage.js:91-94 | `get` is `FindUser` of the list, which after `update` is the refreshed or new record (`UpdateThenGet`) |
| Storage.Users.Count | src/storage.js:117-120 | `count()` is the length of the list, which `update` raises by one only for a new phone (`UpdateThenGet`) |
| Storage.UpdateUser | src/storage.js:96-111 | `update` on the list: the first record of the phone is refreshed, keeping the old name for an empty one, or a new record is appended (`UpdateThenGet`, `UpdateLeavesOthers`, `UpdateKeepsPhonesDistinct`) |
| Storage.Users.Update | src/storage.js:96-111 | `update` is `UpdateUser` of the old list |
| Storage.UpdateThenGet | src/storage.js:91-111 | after `update`, `get` finds the phone active at `now`, under the new name or, if that is empty, the old one; a new phone is created at `now`; the list grows only for a new phone |
| Storage.FindIndexIsFirst | src/storage.js:93-98 | the first index that holds the phone is the one `find` returns |
| Storage.UpdateLeavesOthers | src/storage.js:96-111 | `update` of one phone does not change what `get` returns for any other phone |
| Storage.UpdateKeepsPhonesDistinct | src/storage.js:96-111 | `update` keeps one record per phone |
| Storage.Downloads.constructor | src/storage.js:123-130 | the log starts as loaded |
| Storage.AppendDownload | src/storage.js:138-152 | `add` on the log: append, then keep the last 5000 past 10000 records (`AppendDownloadSpec`) |
| Storage.Downloads.Add | src/storage.js:138-152 | `add` is `AppendDownload` of the old log |
| Storage.AppendDownloadSpec | src/storage.js:138-152 | after `add` the log is non-empty, holds at most 10000 records and ends with the new one; it is a suffix of the old log plus the new record, and is exactly that below the limit; past 10000 records exactly the last 5000 are kept |
| Storage.ByUser | src/storage.js:154-160 | `getByUser`: the phone's records, the last `limit` of them, newest first (`ByUserOwnRecords`, `ByUserNewestFirst`, `ByUserNonPositive`) |
| Storage.Downloads.GetByUser | src/storage.js:154-160 | `getByUser` is `ByUser` of the log (`ByUserOwnRecords`, `ByUserNewestFirst`, `ByUserNonPositive`, `AddedComesFirst`) |
| Storage.ByUserOwnRecords | src/storage.js:154-160 | `getByUser` returns only that phone's records, and only records from the log |
| Storage.ByUserNewestFirst | src/storage.js:154-160 | with a positive limit, `getByUser` returns `min(limit, n)` records, the phone's newest first |
| Storage.ByUserNonPositive | src/storage.js:154-160 | a zero limit returns all of the phone's records reversed; a negative limit drops that many of the oldest first |
| Storage.AddedComesFirst | src/storage.js:138-160 | a record just added is the first that `getByUser` returns for its phone |
| Storage.LookupHit | src/storage.js:170-175 | in a tally with distinct names, an entry's count is the count looked up for its name |
| Storage.NamedCons | src/storage.js:170-175 | a name occurs in a non-empty tally exactly when it is the first entry's name or occurs in the rest |
| Storage.LookupMiss | src/storage.js:173 | a name that is absent counts as 0 (`|| 0`) |
| Storage.BumpNamed | src/storage.js:170-175 | after counting a name, the tally holds the old names and that name |
| Storage.BumpEntry | src/storage.js:173 | counting a name raises its entry by one and leaves the other entries as they were |
| Storage.BumpDistinct | src/storage.js:170-175 | each name still has at most one entry |
| Storage.TallySpec | src/storage.js:170-175 | the tally has one entry per non-empty app name in the log, holding that name's exact download count |
| Storage.InsertPermutes | src/storage.js:179 | inserting an entry adds exactly that entry |
| Storage.InsertSorted | src/storage.js:179 | inserting into a list in descending count order keeps the order |
| Storage.SortOrders | src/storage.js:179 | the sort orders entries by descending count |
| Storage.SortPermutes | src/storage.js:179 | the sort is a permutation of its input |
| Storage.SortSpec | src/storage.js:179 | the sort is ordered by descending count and is a permutation |
| Storage.SortByCount | src/storage.js:179 | `sort((a, b) => b[1] - a[1])` on the entries (`SortSpec`, `SortOrders`, `SortPermutes`) |
| Storage.SortedTallyEntries | src/storage.js:170-179 | every sorted entry is an app with its exact count, in descending order |
| Storage.SortedTallyHas | src/storage.js:170-179 | every downloaded app has an entry, with its exact count, in the sorted tally |
| Storage.LeftOutRanksLower | src/storage.js:177-181 | an app left out of the top ten was downloaded no more often than the last app listed |
| Storage.TopAppsSpec | src/storage.js:162-191 | `topApps` has at most ten entries in descending count order, each an app with its exact count; every app left out has a count no higher than any listed one |
| Storage.SizeAdditive | src/storage.js:168 | `totalSize` adds up over concatenated logs |
| Storage.CountTodayBound | src/storage.js:164-167 | `todayDownloads` never exceeds `totalDownloads` |
| Storage.CountToday | src/storage.js:165-167 | `todayDownloads`: the records with a set `createdAt` that starts with today (`CountTodayBound`) |
| Storage.TotalSize | src/storage.js:168 | `totalSize`: the sum of the recorded sizes (`SizeAdditive`) |
| Storage.Tally | src/storage.js:170-175 | the `appCounts` the `forEach` builds, as its entry list: one entry per non-empty app name with its exact count (`TallySpec`) |
| Storage.StatsOf | src/storage.js:162-191 | `getStats`: the counts, the total size and the ten most downloaded apps (`TopAppsSpec`, `SizeAdditive`, `CountTodayBound`) |
| Storage.Downloads.GetStats | src/storage.js:162-207 | `getStats` is `StatsOf` of the log, with the user and blocklist counts passed in (`TopAppsSpec`, `SizeAdditive`, `CountTodayBound`) |
| Storage.GroupSettings.constructor | src/storage.js:195-201 | groups start as loaded |
| Storage.SettingsOf | src/storage.js:209-224 | `get`: the stored settings, or the defaults for an unknown group (`MergeSettingsSpec`, `RemoveRestoresDefaults`) |
| Storage.GroupSettings.Get | src/storage.js:209-224 | `get` is `SettingsOf` of the groups (`MergeSettingsSpec`, `RemoveRestoresDefaults`) |
| Storage.MergeSettings | src/storage.js:226-230 | `set` on the groups: a shallow merge of the new settings over `get(groupId)` (`MergeSettingsSpec`) |
| Storage.GroupSettings.Set | src/storage.js:226-230 | `set` merges the settings over `get(groupId)` |
| Storage.GroupSettings.Remove | src/storage.js:232-236 | `remove` drops the group |
| Storage.MergeSettingsSpec | src/storage.js:209-230 | after `set`, the group's keys are the old keys plus the given ones; given keys take the given values and other keys keep theirs; other groups are unchanged; repeating the same `set` changes nothing |
| Storage.RemoveRestoresDefaults | src/storage.js:209-236 | after `remove`, `get` returns the defaults, with `antiTime.status` "opened" |
| Storage.AntiPrivateSettings.constructor | src/storage.js:245 | the settings are those of the loaded file, or, when there is none, off, with the default group link and no phones |
| Storage.AntiPrivateSettings.IsEnabled | src/storage.js:247-249 | `isEnabled` reads the flag, which only `setEnabled` changes (`SetEnabled` and the other setters' ensures) |
| Storage.AntiPrivateSettings.GetGroupLink | src/storage.js:256-258 | `getGroupLink` reads the link, which only `setGroupLink` changes (`SetGroupLink` and the other setters' ensures) |
| Storage.AntiPrivateSettings.IsBlockedInPrivate | src/storage.js:275-277 | `isBlockedInPrivate`: the phone is in the list, so true after adding it and false after removing it (`PrivateBlockSpec`) |
| Storage.AntiPrivateSettings.SetEnabled | src/storage.js:251-254 | only `enabled` changes |
| Storage.AntiPrivateSettings.SetGroupLink | src/storage.js:260-263 | only the group link changes |
| Storage.AntiPrivateSettings.AddBlockedInPrivate | src/storage.js:265-273 | the phone is appended only if absent; nothing else changes |
| Storage.AntiPrivateSettings.RemoveBlockedInPrivate | src/storage.js:279-284 | the phone's entries are filtered out; nothing else changes |
| Storage.PrivateBlockSpec | src/storage.js:265-284 | after adding, the phone is listed and never twice, and the list grows only for a new phone; after removing, it is not listed and other phones keep their state |
| Storage.WarningsTracker.constructor | src/storage.js:288 | the records are those of the loaded file, or none when there is no file |
| Storage.WarningsOf | src/storage.js:290-292 | `getWarnings`: the phone's count, or 0 without a record (`WarningSpec`) |
| Storage.WarningsTracker.GetWarnings | src/storage.js:290-292 | `getWarnings` is `WarningsOf` of the records, one higher after each `addWarning` and 0 after `resetWarnings` (`WarningSpec`) |
| Storage.WarningsTracker.AddWarning | src/storage.js:294-303 | `addWarning` updates the phone's record and returns its new count |
| Storage.WarningsTracker.ResetWarnings | src/storage.js:305-308 | the phone's record is deleted |
| Storage.WarningSpec | src/storage.js:290-308 | `addWarning` raises the phone's count by exactly one, logs the reason last and sets `lastWarning`; other phones are unchanged; after `resetWarnings` the count is 0 |
| BotPolicy.BotMode.constructor | bot.js:43 | the mode starts as "all" |
| BotPolicy.BotMode.SetBotMode | bot.js:77-84 | `setBotMode` succeeds exactly for the three modes in any letter case, and the mode becomes `NewMode` of the old one |
| BotPolicy.NewMode | bot.js:77-84 | the mode `setBotMode` leaves: the lower-cased request when it names a mode, else the old mode (`NewModeSpec`) |
| BotPolicy.Admits | bot.js:90-96 | `shouldProcessMessage` under a mode (`AdmitsSpec`) |
| BotPolicy.BotMode.GetBotMode | bot.js:86-88 | `getBotMode` reads the mode, which `setBotMode` keeps one of the three, lower-cased (`NewModeSpec`) |
| BotPolicy.BotMode.ShouldProcessMessage | bot.js:90-96 | `shouldProcessMessage` is `Admits` under the current mode (`AdmitsSpec`) |
| BotPolicy.NewModeSpec | bot.js:77-84 | the mode stays one of the three; an accepted mode is stored lower-cased; anything else leaves the mode unchanged; repeating the call, or changing the request's letter case, changes nothing |
| BotPolicy.LowerIdempotent | bot.js:79-80 | lower-casing twice is lower-casing once |
| BotPolicy.AdmitsSpec | bot.js:90-96 | admins always pass; "all" passes everything; "groups" passes exactly groups and "private" exactly private chats; under any other stored mode only admins pass |
| BotPolicy.DigitsIdempotent | bot.js:1296-1302 | stripping non-digits twice is stripping once |
| BotPolicy.IsValidPhoneNumber | bot.js:1267-1271 | `isValidPhoneNumber`: 10 to 15 digits once the non-digits are dropped (`ValidPhoneSpec`) |
| BotPolicy.ValidPhoneSpec | bot.js:1267-1271 | a phone is valid exactly when it contains 10 to 15 digit characters, whatever its formatting |
| BotPolicy.IsDeveloper | bot.js:1296-1302 | `isDeveloper`: the phone's digits equal or end with the bot number or a developer phone (`IsDeveloperSpec`) |
| BotPolicy.IsDeveloperSpec | bot.js:1296-1302 | a developer's digits end with the non-empty bot number or with a developer phone; formatting does not matter; an empty developer entry matches every phone |
| BotPolicy.CanDownloadLargeFile | bot.js:50-52 | `canDownloadLargeFile`: admins, VIPs and developers (`LargeFileSpec`) |
| BotPolicy.LargeFileSpec | bot.js:50-52 | large files are allowed exactly for admins, VIPs and developers |
| BotPolicy.RecentSpec | bot.js:536 | pruning keeps only timestamps inside the window; pruning again later equals pruning once at that later time; a timestamp pushed at `now` stays |
| BotPolicy.MinOf | bot.js:541 | `Math.min(...)` is an element no greater than any other |
| BotPolicy.CeilMinutes | bot.js:542 | `Math.ceil(ms / 60000)` is the least number of whole minutes covering `ms` |
| BotPolicy.DownloadLimiter.constructor | bot.js:521 | no phone has a tracker at first |
| BotPolicy.HourlyLimit | bot.js:525-548 | `checkHourlyDownloadLimit` on the trackers: the decision, and the phone's pruned tracker (`HourlyLimitSpec`, `TenDownloadsBlock`) |
| BotPolicy.RecordDownloadIn | bot.js:550-559 | `recordDownload` on the trackers: `now` is appended for a phone that is not exempt (`RecordThenCheck`) |
| BotPolicy.DownloadLimiter.CheckHourlyDownloadLimit | bot.js:525-548 | the decision and the pruned trackers are `HourlyLimit` of the old trackers |
| BotPolicy.DownloadLimiter.RecordDownload | bot.js:550-559 | the trackers become `RecordDownloadIn` of the old ones |
| BotPolicy.HourlyLimitSpec | bot.js:525-548 | exempt phones get allowed with 999 left and cause no change; otherwise the check allows exactly below 10 recent downloads and reports `10 - count` left, or refuses with 0 left and a reset time of at least one minute; it prunes and never records |
| BotPolicy.RecordThenCheck | bot.js:525-559 | a download recorded now counts against a check at the same instant |
| BotPolicy.TenDownloadsBlock | bot.js:525-548 | ten downloads within the hour refuse the eleventh |
| BotPolicy.MessageRateGuard.constructor | bot.js:514-516 | both trackers start empty |
| BotPolicy.FastSpam | bot.js:1356-1379 | `checkFastSpam` on the tracker: prune, add `now`, block at the limit (`SpamSpec`, `FastBlockPersists`, `FifthFastMessageBlocks`) |
| BotPolicy.HourlySpam | bot.js:1381-1400 | `checkHourlySpam` on the tracker: prune, add `now`, block above the limit (`SpamSpec`) |
| BotPolicy.MessageRateGuard.CheckFastSpam | bot.js:1356-1379 | the verdict and the fast tracker are `FastSpam` of the old tracker; the hourly tracker is unchanged |
| BotPolicy.MessageRateGuard.CheckHourlySpam | bot.js:1381-1400 | the verdict and the hourly tracker are `HourlySpam` of the old tracker; the fast tracker is unchanged |
| BotPolicy.SpamSpec | bot.js:1356-1400 | exempt phones pass without change; otherwise the fast check blocks exactly when the pruned count plus this message reaches the limit (default 5), and the hourly check exactly when that count exceeds the limit (default 25); the tracker keeps the in-window messages and ends with `now` |
| BotPolicy.FastBlockPersists | bot.js:1356-1379 | once the fast check blocks, another message at the same instant is blocked too |
| BotPolicy.FifthFastMessageBlocks | bot.js:1356-1379 | with the default limits a fifth message within ten seconds is blocked |
| BotPolicy.DownloadSpamGuard.constructor | bot.js:515 | no phone is tracked at first |
| BotPolicy.DownloadSpam | bot.js:1402-1414 | `checkDownloadSpam` on the counters: an untracked phone passes, a tracked one is blocked at the maximum and counted otherwise (`OksInRunSpec`, `UntrackedSpec`) |
| BotPolicy.DownloadSpamGuard.CheckDownloadSpam | bot.js:1402-1414 | the verdict and the counters are `DownloadSpam` of the old counters |
| BotPolicy.DownloadSpamGuard.StartDownloadTracking | bot.js:1416-1418 | the phone's counter is reset to 0 |
| BotPolicy.DownloadSpamGuard.StopDownloadTracking | bot.js:1420-1422 | the phone's counter is removed |
| BotPolicy.OksInRunSpec | bot.js:1402-1414 | `k` checks of a tracked phone at count `c` let exactly `min(k, max(0, max - c))` through, so the counter never passes the maximum |
| BotPolicy.UntrackedSpec | bot.js:1402-1422 | an untracked phone, including one after `stopDownloadTracking`, always passes and gains no counter |
| BotPolicy.MessageStore.constructor | bot.js:518 | the store starts empty |
| BotPolicy.StoreIn | bot.js:950-958 | `messageStore.set` with the eviction of the 200 earliest keys past 1000 (`StoreSpec`, `EvictionDropsEarliest`) |
| BotPolicy.LookupMessage | bot.js:960-964 | `getStoredMessage`: nothing for a key without an id, else the message stored under `remoteJid_id` (`StoreSpec`) |
| BotPolicy.MessageStore.GetStoredMessage | bot.js:960-964 | `getStoredMessage` is `LookupMessage` of the map, which returns a message just stored (`StoreSpec`) |
| BotPolicy.MessageStore.StoreMessage | bot.js:950-958 | the keys and the map become `StoreIn` of the old ones; the eviction loop deletes the earliest keys one by one |
| BotPolicy.StoreSpec | bot.js:950-964 | storing keeps at most 1000 distinct keys in insertion order, matching the map; the message can be read back under its key; a key without an id changes nothing; storing under a key already present only replaces its message |
| BotPolicy.StoredCount | bot.js:954 | the map has exactly as many entries as the distinct key list |
| BotPolicy.DistinctCard | bot.js:954 | a list of distinct keys has as many elements as its set |
| BotPolicy.EvictionDropsEarliest | bot.js:950-958 | storing removes another entry only when eviction runs and that entry is among the 200 earliest |
| BotPolicy.GetLiteAlternative | bot.js:561-585 | an empty name gives nothing; otherwise the result is the first table entry whose keyword occurs in the lower-cased name, or nothing when no keyword occurs |
| ApiServer.LowerAll | src/api/api_server.py:159 | the names lower-cased position by position, in a new list |
| ApiServer.DetectRealFileTypeSpec | src/api/api_server.py:154-188 | the type is "apk" or "xapk", and "xapk" exactly for a readable archive with a `manifest.json`, `.apk` or `.obb` entry in any letter case |
| ApiServer.UnreadableIsApk | src/api/api_server.py:183-188 | an unreadable or empty archive is an APK |
| ApiServer.DetectRealFileType | src/api/api_server.py:153-188 | `detect_real_file_type` from the entry names (`DetectRealFileTypeSpec`, `UnreadableIsApk`) |
| ApiServer.StripChar | src/api/api_server.py:774 | `strip(c)` never lengthens its input; `StripCharSpec` states what it removes |
| ApiServer.StripCharSpec | src/api/api_server.py:774 | `strip(c)` removes exactly the leading and the trailing run of `c`: the input is such a run, then the result, then such a run, and the result neither starts nor ends with `c` |
| ApiServer.ExtractAppId | src/api/api_server.py:767-781 | an accepted id is non-empty and slash-free, contains a dot and not "download" in any case, and comes from an absolute path with at least two segments; the id is the last segment of the link with its host removed |
| ApiServer.StripHostOfPath | src/api/api_server.py:768-773 | a link that is already a path is left alone |
| ApiServer.StripHost | src/api/api_server.py:768-771 | the host removal of `extract_app_id`, every occurrence as `str.replace` does (`StripHostOfPath`, `ExtractAppIdOnHost`) |
| ApiServer.SegmentsOfTwo | src/api/api_server.py:774 | `/app/id` has the segments `app` and `id` |
| ApiServer.ExtractAppIdAccepts | src/api/api_server.py:767-781 | `/app/id` gives `id` when it has a dot and does not name the download page |
| ApiServer.ExtractAppIdOfStripped | src/api/api_server.py:768-773 | the id depends only on the link with its host removed |
| ApiServer.ExtractAppIdOnHost | src/api/api_server.py:767-781 | `https://apkpure.com/app/id` and `https://m.apkpure.com/app/id` give `id` under the same conditions as `/app/id`, since removing every occurrence of the host leaves exactly the path |
| ApiServer.ExtractAppIdRefusesDownload | src/api/api_server.py:777-778 | a last segment containing "download" is refused |
| ApiServer.ExtractAppIdNeedsTwoSegments | src/api/api_server.py:775-781 | a single segment is refused |
| ApiServer.ExtractAppIdNeedsAbsolutePath | src/api/api_server.py:768-773 | a link that starts neither with `/` nor with either APKPure host is refused, whatever follows (for example `http://example.com/a/b.c`) |
| ApiServer.NotFoundCache.constructor | src/api/api_server.py:222 | nothing is remembered at first |
| ApiServer.DownloadApkFlow | src/api/api_server.py:1040-1108 | `download_apk` as it reads and writes the not-found memory (`DownloadApkFlowSpec`, `FailureIsRememberedForAnHour`) |
| ApiServer.CheckNotFound | src/api/api_server.py:1040-1046 | the not-found guard: refuse within the hour, forget an older memory (`DownloadApkFlowSpec`, `FailureIsRememberedForAnHour`) |
| ApiServer.NotFoundCache.DownloadApk | src/api/api_server.py:1040-1108 | the response and the memory are `DownloadApkFlow` of the old memory |
| ApiServer.DownloadApkFlowSpec | src/api/api_server.py:1040-1108 | a package remembered less than an hour ago gets 404 and no download is attempted; otherwise an older memory is forgotten, a failure is remembered at the failure time, and a success leaves no memory; other packages are untouched |
| ApiServer.FailureIsRememberedForAnHour | src/api/api_server.py:1040-1108 | after a failure, every request within the next hour gets the cached 404 |
| ApiServer.CommonChars | src/api/api_server.py:318 | the count is the number of characters of the first word, with repetition, that occur anywhere in the second |
| ApiServer.IsSimilar | src/api/api_server.py:312-319 | `is_similar`: containment either way, equality for words under three characters, otherwise at least 70% common characters |
| ApiServer.FuzzyAdds | src/api/api_server.py:334-342 | whether the nested tier-3 loops append an app, including the `app in matching` check that compares by value (`FuzzyStep`, `FuzzyMatchesOfDistinct`) |
| ApiServer.FilterStep | src/api/api_server.py:321-330 | one more loop turn appends the app exactly when it passes |
| ApiServer.AllWordsTier | src/api/api_server.py:321-324 | the loop collects exactly the apps whose title holds every query word, in order |
| ApiServer.AnyWordTier | src/api/api_server.py:326-330 | the loop collects exactly the apps whose title holds some query word, in order |
| ApiServer.FuzzyStep | src/api/api_server.py:334-342 | the nested loops append the app exactly when `FuzzyAdds` holds |
| ApiServer.FuzzyTier | src/api/api_server.py:332-342 | the third tier is the left fold of `FuzzyStep` over the apps |
| ApiServer.FuzzyMatches | src/api/api_server.py:332-342 | the third tier's matches, app by app through `FuzzyAdds` (`FuzzyTier`, `FuzzyMatchesFromApps`, `FuzzyMatchesOfDistinct`) |
| ApiServer.Matching | src/api/api_server.py:321-342 | the `matching` list: tier one, else tier two, else tier three (`AllWordsTierWins`, `AnyWordTierWins`, `FuzzyTierDecides`, `MatchesAreScraped`) |
| ApiServer.TakePrefix | src/api/api_server.py:349 | `matching[:num_results]` with Python's negative bound (`ResultsSpec`) |
| ApiServer.SearchModyolo | src/api/api_server.py:309-356 | the results are the matched apps, capped at `num_results`, each with its title marked as modded |
| ApiServer.AsResult | src/api/api_server.py:350-352 | a result is the app with " (مهكرة)" appended to its title (`ResultsSpec`) |
| ApiServer.FuzzyMatchesFromApps | src/api/api_server.py:332-342 | every fuzzy match is a scraped app |
| ApiServer.FuzzyMatchesOfDistinct | src/api/api_server.py:332-342 | for distinct apps, the third tier keeps exactly the apps with a query word similar to a title word |
| ApiServer.TierMembers | src/api/api_server.py:321-330 | an app is in a tier exactly when it is scraped and passes that tier's test |
| ApiServer.AllWordsTierWins | src/api/api_server.py:321-344 | if some title holds every query word, the result is exactly tier one |
| ApiServer.AnyWordTierWins | src/api/api_server.py:326-330 | otherwise, if some title holds some query word, the result is exactly tier two |
| ApiServer.FuzzyTierDecides | src/api/api_server.py:332-342 | for a non-empty query that no title contains a word of, the fuzzy tier decides |
| ApiServer.EmptyQueryMatchesAll | src/api/api_server.py:309-324 | a query with no words matches every scraped app |
| ApiServer.MatchesAreScraped | src/api/api_server.py:309-342 | every match is a scraped app |
| ApiServer.ResultsSpec | src/api/api_server.py:348-353 | at most `num_results` results, a prefix of the matches, each titled with " (مهكرة)" and keeping its URL |
| Text.Lower | bot.js:79 | lower-casing keeps the length and lower-cases each character |
| Text.Digits | bot.js:1267-1271 | `replace(/\D/g, '')` leaves only digits and never lengthens the string (`DigitsAreFilter` pins it down) |
| Text.DigitsAreFilter | bot.js:1267-1271 | the result is exactly the string's digit characters, in their order |
| Text.DigitsOfDigits | bot.js:1267-1271 | a string of digits is its own digit string |
| Text.PadStart | src/utils/file-splitter.js:152 | `padStart` reaches the width (a longer string is kept), ends with the original string, and every character before it is the fill |
| Text.DecimalWidth | src/utils/file-splitter.js:152 | `String(n)` has one digit below 10, at most two below 100 and at most three below 1000 |
| Text.ParseDecimalOfDecimal | src/utils/file-splitter.js:152 | a printed number reads back as itself |
| Text.ParseDecimalIgnoresLeadingZeros | src/utils/file-splitter.js:152 | leading zeros do not change the value read |
| Text.Words | src/api/api_server.py:309 | `split()` yields non-empty words, none of which holds a whitespace character |
| Text.NonEmpty | src/api/api_server.py:309 | the non-empty pieces: every kept piece is non-empty and from the input, and every non-empty input piece is kept |
| Text.WordsKeepText | src/api/api_server.py:309 | `split()` drops no text: the words joined are the string's non-whitespace characters, in order |
| Text.SplitOnAt | src/api/api_server.py:774 | splitting `a/b` yields `a` followed by the pieces of `b` |
| Text.RemoveAllAbsent | src/api/api_server.py:769 | `replace(pat, '')` leaves a string in which `pat` does not occur unchanged |
| Lists.Filter | src/storage.js:63 | `filter` keeps elements of the input that pass, and never grows the list |
| Lists.FilterAppend | src/storage.js:63 | `filter` distributes over concatenation, so it keeps the order |
| Lists.FilterMembers | src/storage.js:63 | an element is kept exactly when it is in the input and passes |
| Lists.FilterFilter | bot.js:536 | filtering by a stronger test after a weaker one is filtering by the stronger test |
| Lists.Reverse | src/storage.js:159 | `reverse` puts element `i` at position `n - 1 - i` |
| Lists.SliceFromLast | src/storage.js:149-158 | `slice(-n)` is the last `min(n, length)` elements |

## Left out

- `BotPolicy.LookupMessage` returns any stored message. The source's `|| undefined` (bot.js:963) turns a falsy stored message into nothing; its one caller of `storeMessage` (bot.js:1965) stores only a truthy `msg.message`, so the model does not carry message truthiness.

- The downloads themselves, and every spawned process and network call. This
  covers `downloadWithAria2`, `getRemoteFileSize`, apkeep and the scrapers. A
  download is a parameter (`FetchOutcome`, `DownloadOutcome`), and the
  scraped app list of `search_modyolo` is an input.
- Stream copying and `Promise.all` in `splitFile`. Each part's content is
  its byte range, and the writes are sequential map updates.
- `FileSplitter.Splitter.SplitFile` never fails on a part write. In the
  source a read or write stream error rejects `splitFile`
  (src/utils/file-splitter.js:182-188). The parts already written then stay
  on disk, and which ones they are depends on how the parallel streams are
  scheduled.
- `FileSplitter.Splitter.SplitFileFromUrl` omits the stream-error path. In
  the source that error rejects `splitFileFromUrl`, the staged file is not
  unlinked, and nothing is cached.
- `FileSplitter.Splitter.SplitFileFromUrl` runs as one atomic step. The
  source awaits between the cache lookup and the store
  (src/utils/file-splitter.js:209-225). Other calls, deferred callbacks and
  the sweep can run in that gap. So the model misses two concurrent calls
  for one URL that both miss, download and split. In that case the later
  store replaces the earlier entry, and the earlier parts belong to no entry.
- `FileSplitter.Obtain` is that same atomic step on values. It also reads
  one clock `now` for the lookup and for the staged name, where the source
  reads `Date.now()` twice (src/utils/file-splitter.js:25,60).
- `FileSplitter.StagedPath` joins `TEMP_DIR`, `/` and the name as they are.
  `path.join` would also normalise `..` and `//` inside `filename`.
- `FileSplitter.Splitter.Fetch` leaves nothing at the staged path when
  aria2 fails. The real downloader may leave a partial file there.
- `SplitPlan.Basename` returns the empty string for a path that ends in
  `/`, where Node's `path.basename("/a/b/")` is "b". The staged paths the
  splitter passes never end in `/`.
- MD5 in `getCacheKey`, a foreign hash. It is a deterministic function given
  to the `Splitter` constructor, so two URLs with the same digest share an
  entry.
- `setTimeout` and `setInterval`. The deferred expiry and the sweep are
  methods the environment calls at a `now` it chooses.
  `SetCachedParts` returns the due time of its timer.
- Clocks. Every `Date.now()`, ISO date string and `time.time()` is a
  parameter. Both timestamps of a new user record take the same `now`.
- `saveJson`, `loadJson` and file persistence. Each store's constructor
  takes what `loadJson` returns. For the anti-private settings and the
  warnings, `None` stands for an absent file and selects the default. Every
  save is a no-op.
- The `_ensureArray`/`_ensureObject` repairs of malformed loaded data. A
  loaded store is always a well-formed list or map, and loaded settings
  have every field.
- Floating-point helpers: `formatBytes`, `formatFileSize`, progress
  percentages and reconnect backoff.
- `SplitPlan.NeedsSplitting` compares with the exact real 1.9 × 2^30, not
  its double-precision rounding. No integer byte count falls between the two.
- `ApiServer.IsSimilar` compares `10 * common >= 7 * maxLength` exactly
  instead of the floating-point ratio `>= 0.7`. The two could differ only
  for a ratio within rounding distance of 0.7, which needs words millions of
  characters long.
- Lower-casing is ASCII only: `toLowerCase` and `str.lower` also fold other
  alphabets. `split()` splits on every character `str.isspace` accepts
  (`Text.IsSpace`).
- `Storage.Tally` treats app names as plain keys. In the source
  `appCounts` is a plain object (src/storage.js:170-175), so the names of
  `Object.prototype` members break the count. "constructor", "toString" and
  "valueOf" start from a function, and `+ 1` then builds a string;
  "__proto__" creates no entry at all.
- `Storage.TallySpec`: its exact counts hold in the source only for app
  names that are not `Object.prototype` members (see `Storage.Tally`).
- `Storage.TopAppsSpec` has the same limit on app names. It also does not
  state that the sort is stable (equal counts keep insertion order), or
  JavaScript's object key order for integer-like app names. `Tally` keeps
  an app name's first-appearance order.
- The log entries of `getStats` carry `fileSize` as a number. An absent or
  `NaN` size, which `|| 0` turns into 0, is not modelled.
- `Storage.WarningsTracker.AddWarning` keeps the two ISO timestamps equal.
  They come from one `now`.
- `BotPolicy.DownloadSpamGuard.CheckDownloadSpam` takes
  `maxConcurrentDownloads` as a parameter. `getUserLimits`
  (bot.js:904-909) always picks the unauthenticated limits at that point,
  because developers have already passed.
- The configured `SPAM_LIMITS` are a parameter. A 0 stands for an absent
  setting, which makes the `||` defaults apply.
- `BotPolicy.StoreSpec` models eviction as deleting
  `keys[..min(200, |keys|)]`, which is the slice semantics of `slice(0, 200)`.
  `remoteJid` prints as "undefined" when it is absent.
- `ApiServer.NotFoundCache.DownloadApk` runs as one atomic step. The
  source awaits between the not-found guard and recording a failure
  (src/api/api_server.py:1040-1105), with the downloads inside
  `async with lock`. A request that passed the guard before another
  request's failure was recorded still downloads, and the model does not
  show that.
- `ApiServer.DownloadApkFlow` is that same atomic step on values.
- `get_info`, `get_not_found_cache`, `remove_from_not_found_cache` and
  `clear_cache` of the API server are endpoints over the same dictionary.
  They are not modelled.
- `search_modyolo`'s `title_lower` deletion and title suffix mutate the app
  dictionaries in place. The model builds new result records instead
  (`AsResult`), which loses the aliasing with the scraped list.
- The `semaphore`/`processRequest` queueing, the WhatsApp socket, AI calls,
  image handling, ZIP building and plugins in bot.js. These are concurrency
  and foreign libraries.
- The Arabic text of `getJoinInstructions`. Only its part-name list is
  modelled.
- `detect_real_file_type` opening and listing the ZIP. The entry names are
  an input, and `None` stands for an unreadable file.
