# Tamil TV playlist guardian: a Dafny model

This project models the two scripts of a playlist keeper for IPTV streams.

- **Ingestion** (`scripts/fetch_once.py`) takes the provider's stream list and keeps the streams that answer a HEAD request. A HEAD that answers 403 gets one more try as a ranged GET. The kept streams are merged into the stream database `data/streams.json`, grouped under a normalised channel name. A group never receives a url it already holds.
- **Guardian loop** (`scripts/guardian_loop.py`) runs ticks. Each tick:
  - sorts every channel group newest first;
  - picks the first candidate whose HEAD status says it is alive, or else the newest candidate marked with " ❌";
  - renders an extended-M3U document: `#EXTM3U`, then an `#EXTINF:-1 group-title="…",name` line and a url line per channel;
  - rewrites `master.m3u` only when the new lines differ from the lines read back from the file.

Network answers, the clock and the file system are inputs:
- a HEAD or GET request is a function from url to `Option<int>`, where `None` means the request raised;
- `datetime.utcnow()` is a function of the stream's position;
- `data/streams.json` is a `StreamsFile` value: absent, cannot be opened, rejected by `json.load` (invalid JSON or invalid UTF-8), or a parsed database;
- `master.m3u` is `Option<string>` holding its text.

The database is a sequence of `(key, candidates)` groups in dict iteration order.

Files:
- `wrappers.dfy` holds `Option`.
- `text.dfy` models the Python string operations the scripts use:
  - white space as `str.isspace` defines it, with `strip`/`rstrip`;
  - ASCII `lower`, and `replace`;
  - `"\n".join`;
  - reading a text file line by line with universal newlines;
  - `str` ordering.
- `streams.dfy` holds the database types.
- `guardian_loop.dfy` and `fetch_once.dfy` model the two scripts.

Behaviours of the code worth noting:
- `is_stream_alive` accepts a HEAD 403 directly, with no GET fallback. Only the ingestion script has the fallback.
- In the ingestion script, `open("data/streams.json")` is outside the `try`. A file that exists but cannot be opened stops the script instead of reading as `{}`. Only a missing file, or one `json.load` rejects, gives the empty database.
- `normalize` replaces each space, hyphen and period one for one. It collapses nothing.
- A database that exists but has no non-empty group renders as the bare header, not as a placeholder.

## Model

The merge properties (`FetchOnce.Merge…`) are stated for any grouping key. The script's key is `normalize(item["name"])`, which is `FetchOnce.GroupKey`, the key `Merge` and `Ingest` use.

| member | source | states |
|---|---|---|
| `GuardianLoop.IsStreamAlive` | scripts/guardian_loop.py:28-38 | alive exactly when the HEAD status is 200, 206, 301, 302 or 403; an exception is dead |
| `FetchOnce.HealthyIsAliveForGuardian` | scripts/fetch_once.py:64-85 | every stream the ingestion health check keeps is also alive for the guardian |
| `FetchOnce.ForbiddenHeadDiffers` | scripts/guardian_loop.py:36 | a HEAD 403 whose ranged GET answers 404 is dropped by ingestion but alive for the guardian |
| `GuardianLoop.NewestFirstPermutes` | scripts/guardian_loop.py:57 | the sort returns a permutation of the group: no candidate lost, added or duplicated |
| `GuardianLoop.NewestFirstIsOrdered` | scripts/guardian_loop.py:57 | the sorted group is ordered by `added_at` descending (a missing value counts as `""`), by Python string order |
| `GuardianLoop.NewestFirstIsStable` | scripts/guardian_loop.py:57 | candidates with equal `added_at` keep their input order (stable sort, also when reversed) |
| `GuardianLoop.NewestFirstHead` | scripts/guardian_loop.py:57 | the first candidate after sorting has the greatest `added_at` and is the earliest input candidate with it |
| `Text.LessTotal` | scripts/guardian_loop.py:57 | two different strings are ordered one way or the other |
| `Text.NotLessTransitive` | scripts/guardian_loop.py:57 | "not less than" is transitive, so the descending order is consistent |
| `GuardianLoop.FirstAlive` | scripts/guardian_loop.py:58-62 | the index found is alive and every candidate before it is dead; there is none exactly when all are dead |
| `GuardianLoop.FindAlive` | scripts/guardian_loop.py:58-62 | the `for`/`break` search returns the candidate at the first alive index, or nothing when all are dead |
| `GuardianLoop.SelectionIsNewestAlive` | scripts/guardian_loop.py:57-66 | when some candidate is alive, the entry is a live candidate's category, unmodified name and url, and every strictly newer candidate is dead |
| `GuardianLoop.SelectionAllAlive` | scripts/guardian_loop.py:57-65 | when all are alive, the entry is the candidate with the greatest `added_at`, the earliest in input order among ties |
| `GuardianLoop.SelectionDeadFallback` | scripts/guardian_loop.py:63-65 | when none is alive, the entry is the newest candidate's category and url and its name followed by " ❌" |
| `GuardianLoop.GroupEntryFromCandidate` | scripts/guardian_loop.py:63-65 | the entry's fields come from one candidate of the group, its name possibly followed by the dead marker |
| `GuardianLoop.NonEmptyGroups` | scripts/guardian_loop.py:53-55 | the groups that emit lines are exactly the database's non-empty groups, in order |
| `GuardianLoop.Playlist` | scripts/guardian_loop.py:40-68 | a built document is never empty and starts with `#EXTM3U` |
| `GuardianLoop.PlaylistLayout` | scripts/guardian_loop.py:52-68 | a loaded database gives the header and then, for the k-th non-empty group, its `#EXTINF` line and its url verbatim; length 1 + 2 × non-empty groups |
| `GuardianLoop.EmptyDatabaseIsHeaderOnly` | scripts/guardian_loop.py:52-55 | a database with no non-empty group gives just `["#EXTM3U"]` |
| `GuardianLoop.SelectEntry` | scripts/guardian_loop.py:57-65 | sorting, searching and picking name, category and url give the specified entry of the group |
| `GuardianLoop.BuildM3u` | scripts/guardian_loop.py:40-68 | the loops build exactly the specified document; a missing file gives the "No streams" placeholder and one that cannot be opened or that `json.load` rejects the "Error loading" placeholder |
| `Text.RStrip` | scripts/guardian_loop.py:83 | `rstrip` removes exactly the trailing white space |
| `Text.WriteReadRoundTrip` | scripts/guardian_loop.py:83-88 | writing `"\n".join(lines) + "\n"` and reading back with per-line `rstrip` returns the lines, if there is at least one and none has a line break or trailing white space |
| `GuardianLoop.PlaylistClean` | scripts/guardian_loop.py:43-67 | if no name, category or url has a line break, and no name or url ends in white space, every line of the document survives the round trip |
| `GuardianLoop.FirstTickWrites` | scripts/guardian_loop.py:80-88 | with no `master.m3u`, the tick always writes |
| `GuardianLoop.WrittenSettles` | scripts/guardian_loop.py:83-88 | after a tick with clean lines, reading the file back gives those lines |
| `GuardianLoop.SecondTickIsNoop` | scripts/guardian_loop.py:77-88 | with a clean database, a second tick that builds the same document writes nothing and leaves the file as it was |
| `GuardianLoop.TrailingSpaceAlwaysRewrites` | scripts/guardian_loop.py:83-88 | a document with a line ending in white space differs from any read-back, so every tick rewrites it |
| `GuardianLoop.TrailingSpaceNameAlwaysRewrites` | scripts/guardian_loop.py:66-88 | a channel whose emitted name ends in white space makes every tick rewrite `master.m3u` |
| `GuardianLoop.Guardian.Tick` | scripts/guardian_loop.py:77-99 | writes iff the built lines differ from the lines read back (a missing file reads as `[]`); the new file text is `"\n".join(lines) + "\n"`, or the old text unchanged; the channel figure is the one the update message carries as written, `len(new_m3u)-1` |
| `GuardianLoop.Guardian.Run` | scripts/guardian_loop.py:76-104 | after a run of ticks the file and the number of writes are those of the ticks applied in order |
| `GuardianLoop.SteadyTicksWriteAtMostOnce` | scripts/guardian_loop.py:76-88 | ticks that all build the same clean document write at most once, exactly once when the file starts absent or different |
| `GuardianLoop.ReportedChannelsDoubleCount` | scripts/guardian_loop.py:99 | as written, the update notification's "channels" figure is twice the number of channel entries |
| `GuardianLoop.ReportedChannelsOneChannel` | scripts/guardian_loop.py:99 | one channel is reported as "2 channels" |
| `GuardianLoop.ChannelCountCorrect` | scripts/guardian_loop.py:99 | the corrected count equals the number of non-empty groups, and 0 for a placeholder document |
| `FetchOnce.CategoryMap` | scripts/fetch_once.py:29 | the category map's keys are exactly the category ids |
| `FetchOnce.CategoryMapLastWins` | scripts/fetch_once.py:29 | for a repeated id the last category's name wins |
| `FetchOnce.ProbeHealthy` | scripts/fetch_once.py:56-87 | healthy iff HEAD is 200, 206, 301 or 302, or HEAD is 403 and the ranged GET is 200 or 206; any other status or an exception is not |
| `FetchOnce.KeptIndices` | scripts/fetch_once.py:47-54 | the kept positions increase strictly and are exactly the streams with a non-empty url and name that pass the health check |
| `FetchOnce.HealthyAreKeptInOrder` | scripts/fetch_once.py:46-87 | `healthy` is the kept streams' records in input order, so it is a subsequence of the input and no longer than it |
| `FetchOnce.HealthyCategories` | scripts/fetch_once.py:48-51 | each kept record has the stream's url and name and the category `cat_map[str(category_id)]`, or "Other" when that key is absent |
| `FetchOnce.CollectHealthy` | scripts/fetch_once.py:46-87 | the loop appends exactly the specified records |
| `FetchOnce.NormalizeChar` | scripts/fetch_once.py:104 | a key character is never a space, hyphen, period or ASCII capital, and a non-space character stays non-space |
| `FetchOnce.NormalizeChars` | scripts/fetch_once.py:103-104 | the key has the stripped name's length, and each character is that character lowered with space, hyphen and period replaced by `_` |
| `FetchOnce.NormalizeNoSeparators` | scripts/fetch_once.py:103-104 | a key contains no space, hyphen, period or ASCII capital letter |
| `FetchOnce.NormalizeIdempotent` | scripts/fetch_once.py:103-104 | normalising a key again changes nothing |
| `FetchOnce.LoadDb` | scripts/fetch_once.py:93-100 | a missing or unparsable file gives the empty database; a file that cannot be opened stops the script |
| `FetchOnce.Find` | scripts/fetch_once.py:109 | the position found holds the key and no earlier group does; there is none exactly when no group has the key |
| `FetchOnce.AddToDb` | scripts/fetch_once.py:108-113 | one pass (`db[key] = []` for a missing key, then the append when the url is new) is the specified merge step keyed by `normalize(name)` |
| `FetchOnce.Merge` | scripts/fetch_once.py:107-113 | the loop over the healthy items computes the specified merge keyed by `normalize(name)` |
| `FetchOnce.MergeGrows` | scripts/fetch_once.py:107-113 | no key is removed or moved, and every old group's list is a prefix of its new list |
| `FetchOnce.MergeLeavesOthers` | scripts/fetch_once.py:107-113 | a group whose key is no item's key is unchanged |
| `FetchOnce.MergeNewKeys` | scripts/fetch_once.py:108-110 | every group the merge creates is keyed by some item's key |
| `FetchOnce.MergeMakesPresent` | scripts/fetch_once.py:107-113 | afterwards every item's url is in the group of its key, `db[normalize(item["name"])]` in the script |
| `FetchOnce.MergePresentIsNoop` | scripts/fetch_once.py:111-113 | merging items whose urls are all present already changes nothing |
| `FetchOnce.MergeIdempotent` | scripts/fetch_once.py:107-113 | merging the same healthy list a second time changes nothing |
| `FetchOnce.MergeNoDuplicates` | scripts/fetch_once.py:111-113 | if no group held a url twice before, none does after |
| `FetchOnce.MergeUniqueKeys` | scripts/fetch_once.py:109-110 | keys stay unique: a group is created only for a missing key |
| `FetchOnce.Ingest` | scripts/fetch_once.py:46-113 | the script stops exactly when the database file cannot be opened; otherwise the saved database is the loaded one merged with the healthy streams |

## Left out

- HTTP: `requests.head`/`requests.get` in both scripts and the provider API fetch (scripts/fetch_once.py:20-43). Request results are function parameters. The stream and category lists are inputs. Within one tick, every url gets the same answer each time it is asked.
- Redirects (`allow_redirects=True`): the status given is the final one.
- Telegram notifications (`send_telegram`, scripts/guardian_loop.py:12-26). Only the channel figure of the update message is modelled.
- The git commands (scripts/guardian_loop.py:91-102), an external tool.
- The clock: `time.time()`, the 5h50m bound, `time.sleep(10)` and `KeyboardInterrupt`. `Guardian.Run` takes a finite list of ticks instead.
- Environment variables and `exit(1)` (scripts/fetch_once.py:7-13).
- JSON encoding and decoding, and `json.dump` of the result. `Ingest` returns the database that would be saved.
- Write failures of `master.m3u`: every write succeeds.
- Candidate records without "url", "name" or "category": the code raises `KeyError` when the emitted candidate lacks one of them (scripts/guardian_loop.py:63-65), or when the merge reaches a record without a url (scripts/fetch_once.py:112). A url missing from a candidate that is only probed reads as `""` (scripts/guardian_loop.py:60). Only a missing "added_at" is modelled. JSON values of other types are not modelled either.
- Valid JSON of the wrong shape in `data/streams.json` (a list, or an object whose values are not lists of records): `json.load` accepts it, then `db.items()` or `candidates.sort` raises `AttributeError` outside the `try` (scripts/guardian_loop.py:53-57) and the guardian stops; the ingestion script would merge into it as if it were the database (scripts/fetch_once.py:98). `Malformed` stands only for a file on which `json.load` raises.
- `datetime.utcnow().isoformat()` is a function of the stream's position. Time stamps are compared as Python strings.
- Category ids are given already as the strings `str(...)` makes of them, both in the category list and in the streams.
- `lower()` folds only ASCII letters. Full Unicode case mapping is left out.
- GuardianLoop.NewestFirst: modelled as a pure stable sort, not in place. The sorted list belongs to a dict that `build_m3u` discards, so the in-place effect is never observable.
- GuardianLoop.SelectionIsNewestAlive: states that every strictly newer candidate is dead. It does not state the tie order among equal `added_at` values; `NewestFirstIsStable` gives that order.
- Deduplication is per group only. The same url under two names lands in two groups; the model allows it and claims nothing more.

## Findings

| source | as written | input that shows it | evidently intended | confidence | as-written member | corrected member |
|---|---|---|---|---|---|---|
| scripts/guardian_loop.py:99 | the update notification says `len(new_m3u)-1` channels, which counts both lines of every channel | a database with one group of one candidate, on a tick that writes and whose commit branch runs (`git diff --quiet` after `git add` reports a difference, scripts/guardian_loop.py:94-96): the message says "2 channels" | `(len(new_m3u) - 1) // 2`, the number of channel entries | high for the figure, low that the message is ever sent; not executed | `GuardianLoop.ReportedChannelsOneChannel` | `GuardianLoop.ChannelCountCorrect` |
