# KrateAI registry: a verified model

This project models the parts of the KrateAI plugin registry whose correctness depends on
more than one function, or on more than one request at a time, and proves properties of them:

- **Publishing and downloading** (`Publishing`, `PublishSafety`, `Ownership`, `ObjectStoreRace`,
  `Registry`, `BlobStores`, `Keys`). A publish is a sequence of separately atomic steps over a metadata
  store and a blob store. Any number of publishers, downloads and admin date fixes interleave,
  and a publisher may stop between any two steps. The filesystem backend creates a blob with one
  link; the object store looks first and puts later, and that is where the two part.
- **Metadata** (`Metadata`, `FullText`, `MatchQuery`, `Search`, `Sqlite`). What the tables hold is
  read off the list of operations run. The trigger-maintained full-text index is compared with
  scanning the tables, and a search with a plain definition of what it should find.
- **Rate limits and login lockout** (`TokenBucket`, `RedisLimiter`, `SlidingWindow`,
  `MemoryLockout`, `RedisLockout`, `LoginHandlers`, `RedisHandlers`, `CreateToken`). The compact states are
  compared with rules over the full request history; concurrent login handlers are a transition
  system with a bound on guesses.
- **Archives** (`Paths`, `Archive`, `Extractor`, `Pack`, `Install`, `Delivery`). Lexical path cleaning on strings,
  extraction onto a disk of files and directories, packing, and the install command, up to one
  statement from a packed tree on one machine to the same tree on another.
- **The crawler** (`WorkDir`, `Crawler`, `CrawlCache`, `Mirroring`) and **account recovery** (`Recovery`).
- `Wrappers`, `Sums` and `Runs` hold what these share.

What the program gets from outside is a parameter: clock readings, random draws, failures and
lost acknowledgements of calls, the SHA-256 function, the archive and gzip encoding, the FTS5
tokenizer and matcher, the server's lower-casing, semver validity, password checking, and the answers of remote
hosts. Token counts are reals and times whole nanoseconds. Transactions are serial, as SQLite's
single connection makes them. Each source object whose methods update fields is a class here, and
its methods are proved against functions of the old state; the theorems are about those functions.

Where the code and what is written about it differ, the model follows the code:

- The lockout's `prune` does write the pruned list back to the map (internal/auth/lockout.go:87),
  although its comment says otherwise.
- A comment in the object store says the registry's check closes the gap between look and put
  (internal/store/s3blob/s3blob.go:95-102). It does not: `ObjectStoreRace.RaceBreaksChecksum`,
  with the exact conditions in `ObjectStoreRace.OverlapHarmlessIff` and `ObjectStoreRace.SafeForEverIff`.
- A publisher that loses the race for the blob gets a wrapped conflict
  (internal/registry/registry.go:110-113), which the server reports as an internal error; only a
  loser caught by the metadata store, or by the first check, is told the version exists.
- The Redis lockout keeps failures exactly on the cutoff (internal/auth/redislockout.go:50), the
  in-memory one drops them (internal/auth/lockout.go:83).
- "Latest" is the version committed last, not the highest one.
- Search matches words of the indexed columns, not substrings; keywords are matched with LIKE, and
  `%` and `_` in a query act as wildcards there.
- The backfill of the full-text index is noted as done before it is done
  (internal/store/sqlite/sqlite.go:165-179), so a crash in between leaves the index as it was.
- When an archive's files reach the byte limit exactly, any regular file after that is refused, an
  empty one included (internal/pack/pack.go:197-202).
- The crawler splices a manifest's version into the look-up URL as it is (internal/crawler/publish.go:45)
  and takes every status but 200 for "not published" (internal/crawler/publish.go:55), so the look-up
  may answer about another version, or ask for an upload of one that exists.
- A sub-path such as "../repo-0" leads the crawler into another entry's checkout
  (internal/crawler/crawler.go:131-134).
- Timestamps are stored in whole seconds, so a token may expire up to a second early.

`dafny verify dfyconfig.toml` checks the whole project.

## Model

| member | source | states |
|---|---|---|
| TokenBucket.LevelWithinEveryWindow | internal/api/middleware/ratelimit.go:59-65 | the tokens a bucket holds never exceed what any window of past requests leaves: burst plus refill since the window began, less the requests accepted in it |
| TokenBucket.LevelMeetsAWindow | internal/api/middleware/ratelimit.go:59-65 | and some window leaves exactly that many, so the single stored number is the minimum over all windows |
| TokenBucket.TokenOnHandIffAdmissible | internal/api/middleware/ratelimit.go:48-71 | a token is on hand exactly when every window from an earlier request up to now has room for one more request |
| TokenBucket.TakeIsExact | internal/api/middleware/ratelimit.go:59-70 | one request, accepted or refused, keeps the stored pair in step with the full history and answers as the window rule says |
| TokenBucket.ExactExtends | internal/api/middleware/ratelimit.go:48-71 | a history in which every request was answered by the window rule stays one when the next request is answered by it |
| TokenBucket.AnswersDetermined | internal/api/middleware/ratelimit.go:48-71 | two histories answered by the window rule at the same times have the same answers |
| TokenBucket.NoWindowOverspent | internal/api/middleware/ratelimit.go:35-71 | between any two requests of a key at most burst plus refill requests were accepted |
| TokenBucket.Bucket.constructor | internal/api/middleware/ratelimit.go:53-57 | a new key's first request is one the window rule accepts, and the bucket then follows its history |
| TokenBucket.Bucket.Take | internal/api/middleware/ratelimit.go:59-70 | the in-place update of tokens and fill time answers as the window rule over the whole history does |
| TokenBucket.RateLimiter.Allow | internal/api/middleware/ratelimit.go:48-71 | the answer for a key is the window rule over that key's own history; other keys' buckets and histories do not change |
| TokenBucket.AdmissibleInWholes | internal/api/middleware/ratelimit.go:38-71 | the window rule in the numbers a limiter is made with: a request is admitted exactly when no stretch from an earlier one up to it, counting it, holds more than `burst` requests and `burst` more for every `per` of its length |
| TokenBucket.AcceptedInWholes | internal/api/middleware/ratelimit.go:38-71 | over every stretch of a run at most `burst + burst * elapsed / per` requests are accepted |
| TokenBucket.BurstAtOnce | internal/api/middleware/ratelimit.go:38-57 | of the requests a new key makes at one instant exactly the first `burst` are accepted |
| RedisLimiter.ExpiryUnobservableIff | internal/api/middleware/redislimiter.go:24-33 | losing the stored hash changes nothing a call does exactly when the bucket would be full again by then |
| RedisLimiter.RefillsWithinTimeToLive | internal/api/middleware/redislimiter.go:42 | by the time the key may expire the bucket is full again, for every burst and rate |
| RedisLimiter.TimeToLiveInWholes | internal/api/middleware/redislimiter.go:42 | the expiry set is the time `per` the limiter was made with, in whole seconds rounded up, and one second |
| RedisLimiter.EveryAnswerExact | internal/api/middleware/redislimiter.go:18-44 | whatever clocks the callers supply, every answer is that of the window rule over the time the script itself has seen pass, and stays so when the key expires between readings at least its time to live apart |
| RedisLimiter.AgreesWithInMemory | internal/api/middleware/redislimiter.go:18-44 | under one clock that never runs backwards the answers are those of the in-memory limiter, expiry included |
| RedisLimiter.SkewBound | internal/api/middleware/redislimiter.go:32-33 | with arbitrary clocks, a stretch of calls accepts at most burst plus the refill of its forward clock movements |
| RedisLimiter.SkewAndExpiryBound | internal/api/middleware/redislimiter.go:32-42 | with arbitrary clocks and keys that expire by the server's own clock, a stretch of calls accepts at most burst plus the refill of its forward clock movements and of the time that passed on the server |
| RedisLimiter.ElapsedTimeBoundsNothing | internal/api/middleware/redislimiter.go:32-41 | two replicas whose clocks differ by the time to live get any number of requests accepted while no reading leaves that span |
| RedisLimiter.ElapsedTimeBoundsIff | internal/api/middleware/redislimiter.go:32-41 | over a stretch of calls burst plus refill of the time elapsed bounds the acceptances between any two of them, for every policy, exactly when no reading in the stretch runs back, key expiry included |
| RedisLimiter.ForwardElapsedBoundsIff | internal/api/middleware/redislimiter.go:32-41 | when time that ran back counts as none, that bound holds on a live bucket, for every policy, exactly when the readings never move both ways |
| RedisLimiter.LegalForSomeIff | internal/api/middleware/redislimiter.go:42 | some policy lets keys expire as they do in a sequence of calls exactly when every expiry follows at least two seconds without a call |
| RedisLimiter.PrefixesCollideIff | internal/api/middleware/redislimiter.go:78-82 | two limiters can meet in one Redis key exactly when one prefix with its colon begins the other |
| RedisLimiter.KeysShareIff | internal/api/middleware/redislimiter.go:81 | within one prefix two keys share a bucket exactly when they are equal |
| RedisLimiter.RedisLimiter.Allow | internal/api/middleware/redislimiter.go:78-89 | a call that never reaches the server lets the request through and changes nothing, one whose reply is lost lets it through though the bucket moved; otherwise the answer is the window rule's and only this key's hash changes; a key without a hash, or whose hash expired, is a full bucket |
| SlidingWindow.AfterTwice | internal/auth/lockout.go:78-90 | pruning with an earlier cutoff never loses what a later check would count |
| SlidingWindow.VerdictsAgreeIff | internal/auth/lockout.go:78-90 | the strict and the inclusive window give the same verdict except when the failures exactly on the cutoff are the ones that reach the limit |
| SlidingWindow.EveryVerdictAgreesIff | internal/auth/lockout.go:78-90 | they give the same verdict for every limit exactly when no failure lies on the cutoff |
| MemoryLockout.LoginLockout.Prune | internal/auth/lockout.go:78-90 | the loop over the kept list yields exactly the failures of the whole history since the last reset that lie strictly inside the window, and stores them |
| MemoryLockout.LoginLockout.Locked | internal/auth/lockout.go:47-52 | locked exactly when the full history since the last reset has the limit's number of failures inside the window |
| MemoryLockout.LoginLockout.RecordFailure | internal/auth/lockout.go:54-63 | adds one failure to that username's history; the warning is raised by the failure that brings the window to the limit exactly |
| MemoryLockout.LoginLockout.Reset | internal/auth/lockout.go:65-70 | forgets one username's history and keeps all others answerable |
| RedisLockout.SetCountsHistory | internal/auth/redislockout.go:45-60 | the size of the pruned sorted set is the number of recorded failures at or after the cutoff |
| RedisLockout.AgreesWithInMemoryIff | internal/auth/redislockout.go:50-59 | the two lockouts give the same verdict on the same failures exactly when the ones on the cutoff do not decide |
| RedisLockout.AgreesForEveryLimitIff | internal/auth/redislockout.go:50-59 | the two lockouts agree on the same failures for every limit exactly when none of them lies on the cutoff |
| RedisLockout.RedisLockout.Expire | internal/auth/redislockout.go:68-71 | the set's expiry at any moment Redis may choose leaves every later answer as it would have been |
| RedisLockout.RedisLockout.Drop | internal/auth/redislockout.go:50-53 | the first command of a check removes what scores below its cutoff, however late it runs, and no later answer changes by it |
| RedisLockout.RedisLockout.Count | internal/auth/redislockout.go:54-59 | whatever other clients did since the first command, failures enough inside the window always lock |
| RedisLockout.RedisLockout.Locked | internal/auth/redislockout.go:45-60 | a command that fails, or whose reply is lost, means not locked; with nothing in between, the answer is that of the full history |
| RedisLockout.RedisLockout.RecordFailure | internal/auth/redislockout.go:62-74 | a failure whose commands run joins the history of its username, whether or not a reply comes back; one that never arrives changes nothing |
| LoginHandlers.StepStaysBounded | internal/api/users.go:80-93 | no step of any handler breaks the budget that failures so far, failures counted and handlers past the check satisfy together |
| LoginHandlers.GuessBound | internal/api/users.go:80-93 | with at most m handlers at work on a username, any window of time that ends the run and holds c successful logins holds at most c(max+m-2)+max+m-1 recorded failures; that is max+m-1 without a success and max for one handler |
| LoginHandlers.BudgetIsReached | internal/api/users.go:80-93 | for every limit, overlap and number of successful logins some run records exactly that many, so the bound cannot be lowered |
| RedisHandlers.StepCovers | internal/auth/redislockout.go:45-80 | every command of every handler, whatever earlier reading it carries, and an expiry, keeps the set and the failures since the last reset alike through every window to come |
| RedisHandlers.SharedGuessBound | internal/auth/redislockout.go:45-80 | the same bound holds over the shared lockout for the inclusive window, and one more failure for each handler let through in it by a check that could not be made, however the commands of one check and other handlers' commands interleave and however late a reading is sent |
| RedisHandlers.EveryRunIsShared | internal/auth/redislockout.go:45-60 | every run over the in-memory lockout with a window one instant longer is a run over the shared one |
| RedisHandlers.SharedBudgetIsReached | internal/auth/redislockout.go:45-80 | and the bound is reached there for every limit, overlap, number of successful logins and number of checks that could not be made |
| CreateToken.Server.Verify | internal/api/users.go:80-93 | check, verify and record of one handler on its own are steps of the concurrent model, and block exactly when the failures in the window have reached the limit |
| CreateToken.Server.HandleCreateToken | internal/api/users.go:74-113 | each reply has its exact condition: 429 when the failures in the window have reached the limit, 401 for an unknown user or a wrong password, and otherwise a token exactly when one could be drawn whose hash is new; what the lockout is told and what the token table gains are stated for each |
| Metadata.RefusedChangesNothing | internal/store/sqlite/sqlite.go:264-346 | a refused operation leaves every table alone; refusal is exactly a known version for an upload and an unknown one for a date fix |
| Metadata.VersionKnownIff | internal/store/sqlite/sqlite.go:264-328 | a version has a row exactly when some upload of it was run |
| Metadata.RowIsFirstUpload | internal/store/sqlite/sqlite.go:264-346 | whatever was tried later, a version's checksum and manifest are those of its first upload; its date is that of the last date fix, and before any the date the upload gave, or else the clock's, in whole seconds; its counter is the number of downloads counted since |
| Metadata.PluginIffVersion | internal/store/sqlite/sqlite.go:264-328 | a plugin row exists exactly when some version row of it does, and its latest version has a row |
| Metadata.LatestIsLastCommit | internal/store/sqlite/sqlite.go:284-313 | latest version, description and update time are those of the last upload that was committed |
| Metadata.KeywordsAreFirstPublish | internal/store/sqlite/sqlite.go:284-313 | keywords and creation time stay those of the plugin's first upload |
| Metadata.TotalIsCounted | internal/store/sqlite/sqlite.go:348-378 | a plugin's total downloads are the counts run on versions that existed at the time |
| Metadata.ResolveLatestIff | internal/registry/registry.go:174-183 | "latest" and no name at all resolve alike, exactly when the plugin has any version, to a properly named one; any other name resolves exactly when a version of that name was uploaded, to it |
| Metadata.LatestResolves | internal/registry/registry.go:174-183 | "latest" resolves to the version committed last |
| FullText.TriggersKeepAgreement | internal/store/sqlite/sqlite.go:94-110 | every operation keeps the index postings equal to those of the plugins table, the update trigger's removal included |
| FullText.RowPostingsAre | internal/store/sqlite/sqlite.go:94-103 | a plugin is filed under every token of its scope, its name and its description, at its place, once each, and under nothing else |
| FullText.OpenAgreesIff | internal/store/sqlite/sqlite.go:149-179 | after an open has completed, index and table agree exactly when this open rebuilt the index or they agreed before |
| FullText.IndexEqualsScan | internal/store/sqlite/sqlite.go:94-179 | after a first completed open and any operations the index is what scanning the table gives |
| FullText.InterruptedBackfillStays | internal/store/sqlite/sqlite.go:165-179 | an open that stops between noting the backfill and doing it is never made good by a later open |
| FullText.UnrepairedIff | internal/store/sqlite/sqlite.go:94-179 | after such an open of a database from before the index, and any opens and operations since, index and table agree exactly when every plugin it had has published a new version since or has nothing to index |
| MatchQuery.QuotingRoundTrip | internal/store/sqlite/sqlite.go:428-435 | read as FTS5 string literals, with a doubled quote for each quote (section 3.1 of the SQLite FTS5 documentation), the built query is exactly the list of words, whatever characters they hold |
| MatchQuery.WordsOfText | internal/store/sqlite/sqlite.go:428-435 | a text has exactly one list of words: non-empty, free of whitespace, and giving the text back when whitespace is put around them and, at least one character of it, between them |
| MatchQuery.TrimmedText | internal/store/sqlite/sqlite.go:444-445 | a text has exactly one trimmed form: what is left between whitespace at its ends |
| MatchQuery.Fts5MatchQuery | internal/store/sqlite/sqlite.go:428-435 | the loop that quotes word by word builds a query that reads back as literals, which are that list of words of its input |
| MatchQuery.TrimmedHasWords | internal/store/sqlite/sqlite.go:444-462 | a query that is not blank has at least one word, so the index is never asked the empty question |
| MatchQuery.KeywordMatchIsSubstringIff | internal/store/sqlite/sqlite.go:460-469 | keyword matching is substring matching, ASCII letter case aside, for every keyword exactly when the query holds no wildcard |
| MatchQuery.FoldedIff | internal/store/sqlite/sqlite.go:460-469 | two texts are alike to that matching exactly when they differ in the case of ASCII letters only |
| Search.SearchEqualsScan | internal/store/sqlite/sqlite.go:444-518 | a search returns every plugin whose indexed columns match each word of the query, or that has a keyword containing the trimmed query, exactly once, despite the keyword join, and nothing else, most recently updated first; all plugins for a blank query |
| Sqlite.Store.BackfillIndex | internal/store/sqlite/sqlite.go:165-179 | opening leaves index and table in agreement if it was the first open or they agreed |
| Sqlite.Store.UpsertPluginAndVersion | internal/store/sqlite/sqlite.go:264-328 | one transaction: all tables and the index move together, the index stays in agreement, and a failed transaction leaves nothing |
| Sqlite.Store.UpdateVersionPublishedAt | internal/store/sqlite/sqlite.go:330-346 | changes one version's date or reports that there is none, and keeps the store consistent with its log |
| Sqlite.Store.IncrementDownloadCount | internal/store/sqlite/sqlite.go:437-442 | adds one to an existing version's counter and is silent about an unknown one |
| Sqlite.Store.SumDownloads | internal/store/sqlite/sqlite.go:348-378 | the row loop adds up the plugin's versions, each once, whatever the order |
| Sqlite.Store.GetPlugin | internal/store/sqlite/sqlite.go:348-378 | returns the row, keywords and total downloads of a known plugin and nothing for an unknown one |
| Sqlite.Store.Query | internal/store/sqlite/sqlite.go:444-470 | runs the blank query or the one built from quoted words and pattern, and gives the rows in the order specified |
| Sqlite.Store.Search | internal/store/sqlite/sqlite.go:444-518 | the records returned are those of exactly the plugins a plain scan finds, each once, none updated before one that follows it |
| Keys.FilePathInjective | internal/store/fsblob/fsblob.go:28-30 | two admissible versions share a file path, after cleaning, exactly when they are the same version |
| Keys.FilePathIs | internal/store/fsblob/fsblob.go:28-30 | a version's file lies below the root under scope, name and version |
| Keys.ObjectKeyInjective | internal/store/s3blob/s3blob.go:67-69 | and an object key likewise |
| Keys.StagingNeverTarget | internal/store/fsblob/fsblob.go:32-40 | no staging file of any upload has the path of any version's blob |
| BlobStores.FsStore.Put | internal/store/fsblob/fsblob.go:32-69 | creates the version's file with the upload's bytes and returns their hash, or fails leaving every file as it was, by conflict exactly when the version has a blob |
| BlobStores.FsStore.Open | internal/store/fsblob/fsblob.go:71-80 | opens exactly the versions that were stored, with the bytes stored |
| BlobStores.S3Store.Put | internal/store/s3blob/s3blob.go:71-129 | on its own, look and put together create the object or fail; a put that arrives unacknowledged is a failure that leaves the object |
| Publishing.StepSound | internal/registry/registry.go:77-144 | on either backend every step keeps every row backed by a blob, the tables equal to their log, versions properly named, and at most one winner per version |
| PublishSafety.EveryRunSound | internal/registry/registry.go:77-144 | in every run on either backend each row has a blob and no row is called "" or "latest" |
| PublishSafety.StepKeepsRows | internal/store/sqlite/sqlite.go:264-346 | on either backend no step removes a row or changes its checksum or manifest |
| PublishSafety.StepExact | internal/registry/registry.go:103-141 | a step taken while no two publishers of one version stand between look and put keeps every row's checksum equal to its blob's hash, and changes no blob, checksum or manifest already there |
| PublishSafety.StepsExact | internal/registry/registry.go:103-141 | so does every run without such an overlap |
| PublishSafety.FilesystemAllUnraced | internal/store/fsblob/fsblob.go:62-67 | on the filesystem no such overlap can arise, because the link is one step |
| PublishSafety.FilesystemIntact | internal/store/fsblob/fsblob.go:32-69 | on the filesystem, in every run of any publishers, downloads, date fixes and crashes, every row's blob hashes to the row's checksum |
| PublishSafety.PublishedStaysOpenable | internal/api/plugins.go:249-272 | a version once published opens in every continuation with the same bytes and the same checksum |
| PublishSafety.StoredCommits | internal/registry/registry.go:110-137 | a publisher that stored its blob meets no conflict when it commits |
| PublishSafety.OneWinner | internal/registry/registry.go:103-143 | in every run on either backend at most one publisher of a version succeeds, and the row carries its upload's checksum and manifest |
| PublishSafety.OrphanStays | internal/registry/registry.go:103-143 | a blob with no row and no publisher that has stored it or looked before it was there keeps its version unpublished in every continuation |
| PublishSafety.OrphanIff | internal/registry/registry.go:103-143 | in every state, a version whose blob exists without a row can still be published exactly when some publisher has stored it or has looked before it was there; on the filesystem only its creator can |
| PublishSafety.CreatorAloneCanWin | internal/store/fsblob/fsblob.go:62-67 | once a blob exists, a publisher that has neither stored it nor looked before never wins its version, in any continuation on either backend |
| PublishSafety.FixesDate | internal/registry/registry.go:154-162 | in the concurrent model too a date may be fixed to any that is not in the future, and nothing else changes |
| PublishSafety.OpenedExact | internal/api/plugins.go:249-272 | a download that has resolved a version can open it, and gets bytes that hash to the checksum it announces |
| Ownership.OnlyOwnersPublish | internal/registry/registry.go:77-90 | in every run on either backend every row comes from a publisher that is the scope's owner, whose bundle carries the row's name and version, and has that upload's checksum and manifest |
| Ownership.CheckAnswers | internal/registry/registry.go:77-109 | what the first check answers, in full: forbidden for anyone but the scope's owner, invalid for a wrong name, version or date, then a failed look-up, a known version, or going on |
| Ownership.NoFutureDates | internal/registry/registry.go:91-93 | in every run on either backend nobody gets past the first check with a date later than the clock of that check, and every row comes from a publisher that passed it with the date it gave |
| ObjectStoreRace.StepCalm | internal/store/s3blob/s3blob.go:103-126 | a version is calm when its row, its object and the publishers that may still touch either agree in hash as far as they can still meet; every step but a look that finds nothing keeps it calm |
| ObjectStoreRace.StoreAnswers | internal/store/s3blob/s3blob.go:71-126 | the calls of one store made one after the other end in a conflict when the object is there, in a stored object, or in an error, and an object that arrived is there whether or not that was acknowledged |
| ObjectStoreRace.OverlapHarmlessIff | internal/store/s3blob/s3blob.go:103-126 | from every state a run can reach, whatever overlapped before, every continuation in which nobody else looks for the version keeps its row's checksum equal to its object's hash exactly when the version is calm |
| ObjectStoreRace.CalmIsAlike | internal/store/s3blob/s3blob.go:103-126 | where nothing overlapped before, that is exactly when the publishers between look and put bring uploads that hash alike |
| ObjectStoreRace.SafeForEverIff | internal/store/s3blob/s3blob.go:95-126 | from every state a run can reach, every continuation at all keeps that equality exactly when the version is calm and has its object already, or can never be published, or all uploads hash alike |
| ObjectStoreRace.PutOverBreaks | internal/store/s3blob/s3blob.go:120-126 | from any state with two publishers in the gap whose uploads hash differently, put, commit, re-read and put end in the mismatch, the first publisher having been told it published |
| ObjectStoreRace.RaceBreaksChecksum | internal/store/s3blob/s3blob.go:103-126 | from any state in which a version has neither row nor object, two publishers new to it whose uploads hash differently run into that mismatch by an explicit schedule |
| Registry.Registry.Publish | internal/registry/registry.go:77-144 | over the metadata and blob stores, a publish takes exactly steps of the concurrent model; each result has its exact condition on requestor, names, version, date, what is stored already and which calls fail, and blobs, version row and latest version afterwards are stated for each |
| Registry.Registry.AdminSetPublishedAt | internal/registry/registry.go:154-162 | refuses a missing or future date, and otherwise changes nothing but that version's date |
| Registry.Registry.ResolveVersion | internal/registry/registry.go:174-183 | finds what the tables resolve the request to, in two steps of the concurrent model, or says that a read failed that it needed, each exactly when |
| Registry.Registry.HandleDownload | internal/api/plugins.go:249-272 | a file, not found or an internal error, each exactly when; a file has the bytes that hash to the announced checksum, and counts one download of that version if it can |
| Paths.CleanIdempotent | internal/pack/pack.go:230-262 | cleaning a cleaned path changes nothing, and does not change where it leads |
| Paths.SafeJoinInside | internal/pack/pack.go:252-262 | whatever the entry name, a path that is accepted lies at or below the base |
| Paths.SafeJoinIff | internal/pack/pack.go:252-262 | and a name is accepted exactly when it does not begin with a slash and leads from the base to the base or below it; it becomes the place it leads to |
| Paths.ContainedIff | internal/pack/pack.go:252-262 | that holds for every entry name exactly when the base is not a relative path made only of ".." |
| Paths.StripIs | internal/pack/pack.go:226-240 | stripping counts the segments of the cleaned name, and the empty one before a leading slash; it skips a name that has no more, or cleans to nothing |
| Paths.SafeJoinPlain | internal/pack/pack.go:252-262 | plain names are accepted and land where they say |
| Archive.ExtractStaysInside | internal/pack/pack.go:150-224 | for every entry sequence and every outcome, nothing at or outside the base appears, changes or goes away |
| Archive.UnpackAddsAtMostLimit | internal/pack/pack.go:150-224 | for every entry sequence and every outcome, the bytes on disk grow by at most the limit |
| Archive.SucceedsIff | internal/pack/pack.go:150-224 | an archive that would unpack given room unpacks under a limit exactly when the running total never passes it and no regular file starts at or past it, and then to the same disk |
| Extractor.ExtractEnds | internal/pack/pack.go:150-224 | after success every place of the disk holds what the entries, one after the other, make of what it held: the contents of the last file for it, with the permission bits of the first or of the file that was there, a directory where an entry needs one, and otherwise what it held |
| Extractor.SuccessMeans | internal/pack/pack.go:150-224 | success means that every entry stripping keeps has a name that stays inside, is a file or a directory unless others are skipped, and can be read to its end |
| Extractor.FailureMeans | internal/pack/pack.go:150-224 | a failure is that of the first entry refused, for a name, for its kind, for something in the way, for its size or for its data, all before it having been unpacked; what that entry leaves is stated for each: a file that is too big is removed together with what was there, a file that breaks off keeps what came |
| Extractor.OthersSkipped | internal/pack/pack.go:217-221 | with skipping, an archive ends as it would without the entries that are neither file nor directory, provided their names are accepted |
| Extractor.FirstOtherEnds | internal/pack/pack.go:217-221 | without skipping, the first such entry with an accepted name ends it as unsupported |
| Extractor.DamageShows | internal/pack/pack.go:155-169 | an archive that is damaged, or has an entry not fit to be unpacked, never unpacks, whatever the disk held |
| Extractor.Machine.ExtractReader | internal/pack/pack.go:150-224 | the entry loop ends in all these ways, stays inside the base and under the limit |
| Pack.PacksIff | internal/pack/pack.go:24-86 | a tree is packed exactly when it holds only regular files and directories |
| Pack.UnpackAddsLayout | internal/pack/pack.go:24-224 | given room, unpacking a packed directory into an empty one adds exactly its files, directories and contents, asks for exactly its modes, and counts exactly its bytes |
| Pack.LayoutIs | internal/pack/pack.go:24-248 | and that layout has at every path what the packed tree has there: each file with its contents and its permission bits, or 0644 for none, each directory, and nothing else |
| Pack.NameOf | internal/pack/pack.go:226-240 | stripping drops exactly the leading names of an entry, directory or file, and skips an entry with no more names than that |
| Pack.UnwrappedAlike | internal/pack/pack.go:133-136 | unpacking a tree packed below wrapping directories and stripping them ends exactly as unpacking the tree itself, failures included, as the crawler relies on |
| Pack.WrapSkipped | internal/pack/pack.go:226-240 | the entries of the wrapping directories themselves change nothing |
| Pack.Packer.Walk | internal/pack/pack.go:33-72 | the walk writes the entries of the tree in order and fails exactly on something that is neither file nor directory |
| Pack.Packer.Dir | internal/pack/pack.go:24-86 | the checksum returned is that of the archive of the whole tree, and there is none when something in it cannot be packed or the archive cannot be written; a root that is a file or a symbolic link gives an empty archive |
| Install.WipedIsNested | cmd/krate/cmd_fetch.go:95-97 | a removal, complete or stopped by something that cannot be removed, leaves every remaining node in its directories |
| Archive.MkdirAdds | cmd/krate/cmd_fetch.go:98-100 | making the destination adds it and what is missing above it, and nothing else |
| Install.ReplaceGivesTree | cmd/krate/cmd_fetch.go:95-103 | whatever the destination held, replacing it by a packed tree succeeds exactly when the files fit the limit, and then it holds that tree and nothing else |
| Install.SmallFits | internal/pack/pack.go:101-108 | every tree whose files stay under the limit fits |
| Install.DestinationIs | cmd/krate/cmd_fetch.go:84-87 | without a directory of its own a plugin goes to its name below "agent_plugins" |
| Install.DestinationsApart | cmd/krate/cmd_fetch.go:84-87 | plugins of different names never come to lie in one another |
| Install.PackagesApart | cmd/krate/cmd_fetch.go:111 | the lockfile keys of two plugins are equal exactly when scopes and names are |
| Install.Client.Replace | cmd/krate/cmd_fetch.go:95-103 | wipe, make and unpack end as specified for every failure, and change nothing away from the destination but missing directories above it |
| Install.Client.Install | cmd/krate/cmd_fetch.go:29-122 | a failed look-up, a failed download or a checksum mismatch leaves destination and lockfile untouched; the lockfile gains its entry only after a verified, complete unpack |
| Delivery.DownloadsMatch | cmd/krate/cmd_fetch.go:49-82 | while publishing goes on between its requests, an installer that was told a version gets that version's bytes, and they pass the checksum comparison |
| Delivery.PublishThenInstall | cmd/krate/cmd_fetch.go:29-122 | a tree packed and published on one machine, then resolved, downloaded, checked and unpacked on another amid any other activity, ends as exactly that tree at the destination, whenever its files fit the limit |
| Delivery.InstallPublished | cmd/krate/cmd_fetch.go:29-122 | the install command itself, run against the registry while publishing goes on, installs exactly the packed tree and records its version and checksum when nothing fails on the machine |
| Delivery.FoundByName | internal/registry/registry.go:174-183 | every published version is found under its own name |
| Crawler.RepoURLRoundTrip | internal/crawler/github.go:23-44 | a GitHub URL written from owner, name, ref and sub-path reads back as exactly those, less a ".git" ending of the name; without a ref it asks for the default branch |
| Crawler.ReadParts | internal/crawler/github.go:23-44 | a GitHub URL is read exactly when it has an owner and a name, whatever else it has |
| Crawler.KeysCollideIff | internal/crawler/crawler.go:109 | cache keys of two snapshots coincide exactly when owners and name-at-ref strings do; without "@" in names a key is one snapshot |
| Crawler.DownloadedOnce | internal/crawler/crawler.go:109-123 | no key is downloaded twice, nothing is downloaded that no entry asks for, and for every entry that resolves something is |
| Crawler.Crawl | internal/crawler/crawler.go:66-195 | the loop with its table reports, for every entry, on whatever was first downloaded under its key |
| Crawler.ReportMeans | internal/crawler/crawler.go:83-195 | what each result says: the first thing that went wrong, with its message, or the bundle found under the ref the URL names, or else the default branch, with the exact condition of every outcome of mirroring, none of which is asked for without it |
| CrawlCache.PlainNamesTell | internal/crawler/crawler.go:109 | repository names without "@" are enough for keys to tell snapshots apart |
| WorkDir.WhereIsJoin | internal/crawler/crawler.go:131-134 | where an entry's sub-path leads, as a place in the work directory, is what cleaning the joined path gives; it leaves the checkout exactly when the cleaned sub-path starts with ".." |
| WorkDir.SeeAnswers | internal/crawler/crawler.go:131-134 | a place that leads up out of the work directory is beyond it, one that begins with the name of a checkout lies in that checkout, and nothing else is found |
| WorkDir.LoneSeesAlike | internal/crawler/crawler.go:131-134 | a place that lies in no other entry's checkout is seen as it would be were the entry's own checkout the only one |
| CrawlCache.ApartIsSeamless | internal/crawler/crawler.go:83-195 | for all downloads and any validation, every result is that of crawling the entry alone, up to checkout numbers in messages, when no two entries ask for different snapshots under one key and none climbs into another's checkout |
| CrawlCache.CacheUnseenIff | internal/crawler/crawler.go:83-195 | and only then: for all downloads every result is that of crawling the entry alone exactly under those two conditions, provided the places entries climb to can hold a bundle |
| CrawlCache.NeighbourInReach | internal/crawler/crawler.go:131-134 | two entries with plain names, the second with a URL ending in "../repo-0", for which keys tell and yet the second result depends on the first download |
| Mirroring.PublishedHasRow | internal/crawler/crawler.go:150-192 | a version reported published has its row, and its blob, exactly when it is a semantic version, whatever the URL its name was spliced into came to mean |
| Mirroring.PublishedResultHasRow | internal/crawler/crawler.go:66-195 | the same for the results of a whole crawl |
| Mirroring.LatestLooksPublished | internal/crawler/publish.go:44-56 | in every history, once a plugin has any version a look-up of "latest" is answered known and reported as published, though no row of that name can exist |
| Mirroring.CutOffLooksPublished | internal/crawler/publish.go:44-56 | so is, in every history, a look-up of any published version followed by a query or a fragment, which the URL cuts off |
| Mirroring.LookUpsMislead | internal/crawler/publish.go:44-56 | a history in which both happen, for any upload the registry accepts |
| Mirroring.AcceptedOnce | internal/crawler/publish.go:58-102 | over any number of crawls the registry accepts at most one upload of a semantic version, and none of any other |
| Mirroring.RecrawlUploadsNothing | internal/crawler/publish.go:44-56 | once a version has its row, an answered look-up ends as present without an upload exactly when the registry could read its store; otherwise the upload is tried again, and is never accepted |
| Mirroring.UnreadLookUpTriesAgain | internal/crawler/publish.go:44-102 | from every history in which the version has its row, a look-up answered with an error is followed by an upload that ends in a conflict, and the version is reported published |
| Recovery.ResetWorksIff | internal/store/sqlite/sqlite.go:577-614 | a reset token works for a user exactly when it was issued to that user, is not past its expiry, up to the last whole second, and never worked before |
| Recovery.ResetIssueIff | internal/store/sqlite/sqlite.go:566-575 | a reset token is issued to any account that signed up, exactly unless the same token was issued before |
| Recovery.ResetWorksOnce | internal/store/sqlite/sqlite.go:577-614 | no reset token works twice in any run |
| Recovery.CheckWorksIff | internal/store/sqlite/sqlite.go:531-564 | a verification token works exactly when it was issued, is not past its expiry, up to the last whole second, and has not worked since |
| Recovery.CheckIssueIff | internal/store/sqlite/sqlite.go:520-529 | a verification token is issued to any account that signed up, exactly unless the same token is still open |
| Recovery.VerifiedIff | internal/store/sqlite/sqlite.go:531-564 | an address counts as verified exactly when some verification token of that account worked; it never turns back |
| Recovery.OnlySettingChangesPasswords | internal/store/sqlite/sqlite.go:616-619 | no transaction but setting a password changes one, and that only for the account named |
| Recovery.PasswordIsLast | internal/store/sqlite/sqlite.go:616-619 | a password is the one set last, or else the one signed up with |
| Recovery.NoChangeWithoutToken | internal/registry/registry.go:269-275 | however confirmations interleave and stop, password changes never outnumber the reset tokens that worked, and fall short of them exactly by the confirmations that hold a used token or stopped with one |
| Recovery.ConfirmRuns | internal/registry/registry.go:269-275 | a confirmation that is not stopped sets the password asked for, for the owner of a token that works, and changes nothing for one that does not |
| Recovery.AccountStore.ConsumePasswordReset | internal/store/sqlite/sqlite.go:577-614 | marks the token used and returns its owner, or changes nothing |
| Recovery.AccountStore.ConsumeEmailVerification | internal/store/sqlite/sqlite.go:531-564 | removes the token and verifies its owner in one transaction, or changes nothing |
| Recovery.AccountStore.ConfirmPasswordReset | internal/registry/registry.go:269-275 | sets the password of the token's owner and nobody else's, exactly when the token works |

## Left out

- LoginHandlers.GuessBound: the overlap m is a parameter; nothing in the server limits it.
- RedisLockout.RedisLockout.RecordFailure: adding the failure and extending the key's life arrive together or not at all.
- RedisHandlers.SharedGuessBound: a window is measured by the fastest of the replicas' clocks; a wrong password whose record never reaches the server is not among the failures recorded.
- RedisLimiter.EveryAnswerExact: measures the time to live between the callers' readings; under the server's own clock there is the bound of `RedisLimiter.SkewAndExpiryBound`, not an exact answer.
- CreateToken.Server.HandleCreateToken: runs over the in-memory lockout, and one handler at a time; handlers that overlap are `LoginHandlers`.
- Registry.Registry.Publish: runs over the filesystem store and one publish at a time; overlapping publishes and the object store are the transition system in `Publishing`.
- CrawlCache.CacheUnseenIff: a sub-path that climbs past the work directory itself reads what lies there, which is taken to be the same for both crawls.
- Mirroring.PublishedHasRow: what the server makes of a spliced version that is not a plain path segment, by decoding, cleaning or routing, is a parameter.
- FullText.UnrepairedIff: taking out of the index what was never filed is taken to take out nothing, which SQLite does not promise.
- Search.SearchEqualsScan: how text is cut into tokens, which words match and how the server folds letters beyond ASCII are parameters; plugins updated in the same second keep rowid order, which SQL does not promise.
- Recovery.CheckWorksIff: a verification token is deleted when used, so a second issue of the same random token would work again; distinct tokens are not assumed.
- Install.Client.Install: aliases between relative and absolute paths, symbolic links already on disk and directory modes are not modelled, nor is a destination that is the root, the working directory or above it.
- Archive.OpenForWrite: a file's mode is the one asked for; the system takes the process umask from it, so under a umask the modes on disk are narrower.
- Extractor.Machine.ExtractReader: writing fails only as opening, reading or the limit make it fail; a full disk and a failed removal of a refused file are not modelled.
- Pack.UnpackAddsLayout: a file packed with no permission bits is unpacked with mode 0644, as the code does, so its mode is not the original one; modification times are not restored by the code and not modelled.
- TokenBucket.RateLimiter.Allow: float rounding in token counts; burst is at least one and the interval positive.
- Rounding of Redis scores and clock strings to floating point.
- The server's own unpacking and validation of an upload before it is published, JSON Schema, manifests and the semver parser: a publish starts from a bundle name and version already read.
- HTTP routing, status pages, authentication of requests, body size limits, e-mail delivery, templates and logging.
- The Postgres store, which repeats the SQLite transactions on an engine whose isolation is not modelled.
- Database backup, listing of versions and users, and token look-up: single queries with no property beyond their text.
- Parsing of plugin references and of the crawled list, and the text of error messages, including the removal of the work directory's name from them.
