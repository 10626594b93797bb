# Video metrics bot: store, batch import and SQL clean-up in Dafny

The bot answers questions about video engagement metrics. A language model
turns the question into SQL, and the bot runs that SQL against a PostgreSQL
store of videos and their hourly snapshots. A script fills the store from a
JSON export. This project models the deterministic core of the repository
and proves properties of it:

- `models.dfy` (module `Models`): the `videos` and `video_snapshots` tables of
  `bot/database/models.py`. It covers the rows and the defaults an insert
  applies. It covers the constraints the database enforces: primary keys, the
  snapshot-to-video foreign key, and the BIGINT range of the counters. It also
  covers the `cascade="all, delete-orphan"` relationship, and the tables that
  result from inserting a sequence of rows.
- `ingest.dfy` (module `Ingest`): `ingest_data` of `scripts/ingest.py`. The
  tables are recreated. Each JSON video record becomes a `videos` row
  followed by its snapshot rows, all added to one session. The session
  commits after every 50th video and once more at the end. The first absent
  key or unparsable timestamp ends the run.
  - The session is the class `Database`. It holds the committed and pending
    rows.
  - The loop is the method `ImportAll`. Its invariant ties both row lists to
    a specification function, `BuildRows`, of the input records.
  - `IngestData` promises the predicate `Reported`: on success, on a bad
    record and on a refused commit, it says what is committed, what progress
    was printed and how many commits were made.
- `llm_service.dfy` (module `LlmService`): the text clean-up at the end of
  `generate_sql` (`strip`, the three anchored `re.sub` calls, `strip`). It is
  modelled with Python's whitespace set and the exact regular-expression
  semantics, including `$` matching before a final newline. It also models
  the outcome mapping of `execute_sql`.
- `wrappers.dfy` (module `Wrappers`): `Option` and `Result`.

Timestamps are an abstract type. `datetime.fromisoformat` is a partial
function passed in as a parameter (`Ingest.Parser`). The language model's
reply and the database's query result are inputs.

## Model

| member | source | states |
|---|---|---|
| Models.WithDefaults | bot/database/models.py:13-16 | each counter is defaulted on its own: an omitted one is 0, a given one is stored as given |
| Models.NewVideo | bot/database/models.py:9-19 | the key, creator and publication time are copied; the counters are defaulted column by column (given ones kept, omitted ones 0); an omitted `created_at` is the insertion time; `updated_at` may be None |
| Models.NewSnapshot | bot/database/models.py:26-40 | the key, `video_id`, `created_at` and `updated_at` are copied; the four absolute and the four delta counters are each defaulted column by column (given ones kept, omitted ones 0) |
| Models.Valid | bot/database/models.py:9-40 | what the columns make the database enforce: every row under its own primary key, every snapshot's `video_id` a stored video, every counter within BIGINT |
| Models.Consistent | bot/database/models.py:9-37 | the rows the database accepts as its tables: no primary key twice in a table, every snapshot's `video_id` among the videos, every counter within BIGINT |
| Models.Load | bot/database/models.py:9-26 | the tables after inserting rows one by one into empty tables, each row under its primary key |
| Models.SnapshotsOf | bot/database/models.py:21 | a video's `snapshots` collection is exactly the stored snapshots whose `video_id` is its id |
| Models.SnapshotsPartition | bot/database/models.py:21-27 | in a valid store every snapshot names a stored video and lies in the collection of that video and of no other |
| Models.DeleteVideo | bot/database/models.py:21 | deleting a video removes it and exactly the snapshots of its collection, keeps every other row unchanged, and keeps the store valid |
| Models.DeleteVideoLeavesNoOrphans | bot/database/models.py:21 | after the cascade the deleted video has no snapshots left and every other video's collection is unchanged |
| Models.RemoveFromCollection | bot/database/models.py:21 | removing a snapshot from its video's collection deletes that snapshot (delete-orphan); anything not in the collection is left alone |
| Models.LoadKeys | bot/database/models.py:9-26 | inserting rows keys each table by primary key: the keys are exactly the inserted ids and every stored row was inserted |
| Models.LoadConsistent | bot/database/models.py:9-37 | rows with unique keys, satisfied foreign keys and BIGINT counters give a valid store holding every row unchanged under its own id |
| Ingest.Lookup | scripts/ingest.py:58-64 | `d[key]` yields the value when the key is present and raises `KeyError(key)` otherwise |
| Ingest.ParseAt | scripts/ingest.py:60 | a required timestamp fails as a missing key when absent and as a bad timestamp when it does not parse |
| Ingest.OptionalTimestamp | scripts/ingest.py:66 | `updated_at` is None exactly when absent or empty; otherwise it is parsed, and a bad value raises |
| Ingest.BuildVideo | scripts/ingest.py:57-67 | a video record builds exactly when every required key is present, `video_created_at` and `created_at` parse, and `updated_at` is absent, empty or parses; every field is copied, timestamps parsed |
| Ingest.BuildSnapshot | scripts/ingest.py:73-86 | a snapshot record builds exactly when its eleven required keys are present, `created_at` parses, and `updated_at` is absent, empty or parses; `video_id` comes from the snapshot record; deltas are stored as given |
| Ingest.BuildVideoIsInsert | scripts/ingest.py:57-67 | the video the import builds is the row `Video(...)` inserts (bot/database/models.py:9-19) when every counter and `created_at` are given |
| Ingest.BuildSnapshotIsInsert | scripts/ingest.py:73-86 | the snapshot the import builds is the row `VideoSnapshot(...)` inserts (bot/database/models.py:26-40) when every counter and delta is given |
| Ingest.VideoRecords | scripts/ingest.py:49 | `data.get("videos", [])`: the video records, none when the key is absent |
| Ingest.SnapshotRecords | scripts/ingest.py:71 | `vid_data.get('snapshots', [])`: a record's snapshot records, none when the key is absent |
| Ingest.BuildRecord | scripts/ingest.py:57-87 | the rows one video record adds, its video then its snapshots in order, or the first field that raises |
| Ingest.BuildRows | scripts/ingest.py:55-87 | the rows of the first n video records in input order, or the first record that raises, with its index |
| Ingest.Reported | scripts/ingest.py:32-94 | the outcome of a run: on success all rows committed and every commit accepted; on a bad record k the batches before it committed; on a refused commit after m records the rows up to m break a constraint and every earlier commit was accepted; with the progress lines printed in each case |
| Ingest.BatchStart | scripts/ingest.py:53 | the batch of video index i starts at a multiple of 50 no more than 49 videos before i |
| Ingest.ProgressPoints | scripts/ingest.py:89-90 | handling n videos prints n / 50 progress lines |
| Ingest.ProgressPointsAt | scripts/ingest.py:89-90 | the j-th progress line reports (j + 1) * 50 videos |
| Ingest.ProgressPointsExact | scripts/ingest.py:89-91 | a commit follows video index i exactly when i + 1 is a multiple of 50 |
| Ingest.CollectRest | scripts/ingest.py:55-87 | the first record that fails decides the outcome of the whole run; no later record is looked at |
| Ingest.CollectSnapshotsRows | scripts/ingest.py:71-87 | a video's snapshot records give one snapshot row each, in record order |
| Ingest.BuildRecordRows | scripts/ingest.py:55-87 | a video record adds its video row first, then exactly one row per snapshot record, in order (none when `snapshots` is absent) |
| Ingest.CollectInOrder | scripts/ingest.py:55-87 | the rows of the first i + 1 records extend those of the first i by record i's rows and are a prefix of the rows of any longer run |
| Ingest.BuildRowsInOrder | scripts/ingest.py:55-87 | rows are added in input order, each video record's rows as one contiguous block |
| Ingest.RecordCommitted | scripts/ingest.py:52-93 | after a successful run every row of every record is committed |
| Ingest.CollectFrom | scripts/ingest.py:55-87 | every collected row belongs to one of the records processed |
| Ingest.RowsFromRecords | scripts/ingest.py:52-93 | after a successful run nothing but the records' own rows is committed |
| Ingest.StoredVideo | scripts/ingest.py:32-93 | after a successful run the tables hold each record's video, as built from the record, under its id |
| Ingest.StoredSnapshot | scripts/ingest.py:32-93 | after a successful run the tables hold each snapshot of each record, as built from its snapshot record, under its id |
| Ingest.Database.Tables | bot/database/models.py:9-27 | the committed rows, keyed by primary key, form a valid store |
| Ingest.Database.RecreateTables | scripts/ingest.py:32-35 | dropping and creating the tables leaves them empty with nothing pending |
| Ingest.Database.Add | scripts/ingest.py:68 | `session.add` appends the row to the pending rows and changes nothing committed |
| Ingest.Database.Commit | scripts/ingest.py:91 | a commit moves all pending rows into the tables when the result keeps keys unique, foreign keys satisfied and counters in range; otherwise it changes nothing and reports failure; pending is empty after either |
| Ingest.Database.Close | scripts/ingest.py:52-93 | leaving the session block drops what is pending and keeps what is committed |
| Ingest.AddSnapshots | scripts/ingest.py:71-87 | the inner loop adds the rows of the snapshot records in order, or reports the position and field of the first one that fails, leaving the rows of the snapshots before it pending |
| Ingest.AddRecord | scripts/ingest.py:55-87 | one iteration adds exactly the rows `BuildRecord` gives for the record, or reports its failure, committing nothing; a failing video adds nothing, a failing snapshot leaves the video and the snapshots before it pending |
| Ingest.CollectStopsAt | scripts/ingest.py:55-87 | a record that fails after the earlier ones built ends the run with its index and cause |
| Ingest.CollectExtends | scripts/ingest.py:55-87 | a record that builds after the earlier ones did appends its rows after theirs |
| Ingest.ImportVideo | scripts/ingest.py:55-91 | after video i its rows are committed or pending; a commit happens exactly when i + 1 closes a batch of 50, and a refused commit reports i + 1 and leaves nothing pending; a failing record leaves the rows it added before raising pending |
| Ingest.CommitBatch | scripts/ingest.py:89-91 | with video i's rows pending, the session commits exactly when i + 1 closes a batch of 50; an accepted commit makes the rows of the first i + 1 records committed and counts one more accepted batch; a refused one reports i + 1, keeps the committed rows and empties pending |
| Ingest.ImportStep | scripts/ingest.py:52-91 | one pass of the loop keeps the run going (rows of the first i + 1 records committed or pending, one progress line per commit) or stops it, leaving the session with nothing pending: on a bad record inside the open batch, or on the refused commit closing it, after its progress line |
| Ingest.RunningFromEmpty | scripts/ingest.py:52-55 | before the first video nothing is committed, pending or printed |
| Ingest.ImportAll | scripts/ingest.py:53-91 | the loop keeps committed equal to the rows of the first 50 * batches records and pending equal to the rest so far, every commit accepted and one progress line per commit; on a failure only the open batch is lost and the cause is the first bad record or the refused commit |
| Ingest.PendingAfterBatches | scripts/ingest.py:89-93 | rows still pending after the loop belong to records after the last multiple of 50 |
| Ingest.CommitRest | scripts/ingest.py:93 | the final commit takes the rows after the last multiple of 50; a refusal reports the number of records |
| Ingest.ReportSuccess | scripts/ingest.py:89-94 | a run that reaches the end has had every commit accepted and leaves the rows of all records committed |
| Ingest.ReportRecordFault | scripts/ingest.py:55-91 | a failing record k leaves exactly the batches before its own committed, every one of them accepted, with one progress line per finished batch |
| Ingest.RefusedAt | scripts/ingest.py:89-93 | a refused commit after m records closes a batch of 50 or ends the input, and the committed batches are those before video m - 1 |
| Ingest.ReportIntegrityFault | scripts/ingest.py:89-93 | a refused commit after m records leaves the batches before it committed, every one of them accepted |
| Ingest.IngestData | scripts/ingest.py:32-93 | whatever the tables held before, a successful run commits exactly the rows of all records in input order, with n / 50 + 1 commits; a failing record k leaves k / 50 commits and a refused commit after m records leaves (m - 1) / 50; a document without `videos` imports nothing; after success the tables hold every record's video and snapshots as built; the full outcome is `Reported` |
| Ingest.AllStored | scripts/ingest.py:52-93 | after a successful run the tables hold, for every record, its video and each of its snapshots, as built, under their ids |
| Ingest.CollectFaultAt | scripts/ingest.py:55-87 | a failed run names a record before the end that fails on its own |
| Ingest.AcceptedAt | scripts/ingest.py:89-91 | each commit point among the accepted ones holds rows that keep the tables consistent |
| Ingest.RefusedBound | scripts/ingest.py:89-93 | if the commit after m records is refused in one run, every run over the same records stops with a refused commit no later than m |
| Ingest.SameRefusal | scripts/ingest.py:89-93 | two runs refused at the same commit printed and committed the same |
| Ingest.ReportedOutcome | scripts/ingest.py:55-94 | a run without a refused commit reports exactly what building all records gives: success with every row, or the first failing record with the batches before it committed |
| Ingest.ReportedUnique | scripts/ingest.py:32-94 | the report, the progress lines and the committed rows are determined by the records alone, so re-running the import on the same file leaves the same tables |
| LlmService.IsSpace | bot/services/llm_service.py:68-75 | the characters `str.isspace()` accepts, which `strip()` removes and `\s` matches |
| LlmService.TrimStart | bot/services/llm_service.py:71-72 | `lstrip()`: what remains after the whitespace run at the start |
| LlmService.TrimEnd | bot/services/llm_service.py:73 | `rstrip()`: what remains before the whitespace run at the end |
| LlmService.TrimStartMatch | bot/services/llm_service.py:71-72 | `lstrip` removes exactly the longest whitespace prefix: the removed part is all whitespace and the rest starts with a non-space |
| LlmService.TrimEndMatch | bot/services/llm_service.py:73 | `rstrip` removes exactly the longest whitespace suffix: the removed part is all whitespace and the rest ends with a non-space |
| LlmService.LeadingRun | bot/services/llm_service.py:71-72 | the counted leading run is all whitespace |
| LlmService.TrailingRun | bot/services/llm_service.py:73 | the counted trailing run is all whitespace |
| LlmService.Strip | bot/services/llm_service.py:68 | `str.strip()` leaves no whitespace at either end |
| LlmService.DropSqlFence | bot/services/llm_service.py:71 | `re.sub(r'^```sql\s*', '', s)`: the tag at the start with the whitespace after it |
| LlmService.DropFence | bot/services/llm_service.py:72 | `re.sub(r'^```\s*', '', s)`: the fence at the start with the whitespace after it |
| LlmService.DropTrailingFence | bot/services/llm_service.py:73 | `re.sub(r'\s*```$', '', s)`: the fence at the end or before a final newline, with the whitespace before it |
| LlmService.DropSqlFenceMatch | bot/services/llm_service.py:71 | a string opening with "```sql" loses exactly that tag and the longest whitespace run after it; any other string is unchanged |
| LlmService.DropFenceMatch | bot/services/llm_service.py:72 | a string opening with "```" loses exactly that fence and the longest whitespace run after it; any other string is unchanged |
| LlmService.DropTrailingFenceMatch | bot/services/llm_service.py:73 | a closing "```" at the end loses it and the longest whitespace run before it; one just before a final newline loses the same and keeps the newline; any other string is unchanged |
| LlmService.LeadingSpacesOf | bot/services/llm_service.py:71-72 | the whitespace run at the start of w + t, with t starting with a non-space, is exactly w |
| LlmService.TrailingSpacesOf | bot/services/llm_service.py:73 | the whitespace run at the end of t + w, with t ending with a non-space, is exactly w |
| LlmService.TrimStartOf | bot/services/llm_service.py:71-72 | `\s*` after a fence consumes exactly the whitespace in front of the text |
| LlmService.TrimEndOf | bot/services/llm_service.py:73 | `\s*` before the closing fence consumes exactly the whitespace after the text |
| LlmService.StripOf | bot/services/llm_service.py:68 | `strip` of w1 + t + w2, with w1 and w2 whitespace and t trimmed, is t |
| LlmService.StripTrimmed | bot/services/llm_service.py:75 | the final `strip` changes nothing on a trimmed string |
| LlmService.StripSlice | bot/services/llm_service.py:68 | `strip` keeps a contiguous part of its input |
| LlmService.DropSqlFenceSlice | bot/services/llm_service.py:71 | removing "```sql" and the whitespace after it keeps a suffix |
| LlmService.DropFenceSlice | bot/services/llm_service.py:72 | removing "```" and the whitespace after it keeps a suffix |
| LlmService.DropTrailingFenceSlice | bot/services/llm_service.py:73 | on text without trailing whitespace the closing-fence removal keeps a prefix of it, and `$` before a final newline cannot match |
| LlmService.DropSqlFenceKeepsEnd | bot/services/llm_service.py:68-71 | removing the "```sql" opening from text without trailing whitespace leaves none at its end |
| LlmService.DropFenceKeepsEnd | bot/services/llm_service.py:68-72 | removing the "```" opening from text without trailing whitespace leaves none at its end |
| LlmService.FinalNewlineNeverMatches | bot/services/llm_service.py:68-73 | inside the clean-up, `$` can match only at the very end of the text |
| LlmService.CleanSql | bot/services/llm_service.py:68-75 | the cleaned SQL has no leading or trailing whitespace |
| LlmService.CleanSqlIsSlice | bot/services/llm_service.py:68-75 | the cleaned SQL is a contiguous part of the reply: only a prefix and a suffix are removed |
| LlmService.CleanSqlNoFence | bot/services/llm_service.py:68-75 | a reply with no fence at either end once stripped is returned stripped |
| LlmService.NoSqlTag | bot/services/llm_service.py:71 | text followed by whitespace and "```" starts with "sql" only if the text does |
| LlmService.CloseFence | bot/services/llm_service.py:73 | the closing fence and the whitespace before it are removed, leaving the query |
| LlmService.AfterSqlFence | bot/services/llm_service.py:72-75 | after the "```sql" tag, the second and third steps return the query, even for a query of one or two backticks |
| LlmService.SqlFencedBody | bot/services/llm_service.py:71-75 | "```sql" + whitespace + Q + whitespace + "```" cleans to Q |
| LlmService.CleanSqlFencedSql | bot/services/llm_service.py:68-75 | a reply "```sql" + any whitespace + Q + any whitespace + "```", with any whitespace around it, cleans to Q when Q is trimmed and does not start with "```" |
| LlmService.OpensPlainFence | bot/services/llm_service.py:71-72 | an opening "```" not followed by "sql" is left by the first step and removed by the second |
| LlmService.FencedBody | bot/services/llm_service.py:71-75 | "```" + whitespace + Q + whitespace + "```" cleans to Q |
| LlmService.CleanSqlFenced | bot/services/llm_service.py:68-75 | a reply "```" + whitespace + Q + whitespace + "```" (for instance "```\n" + Q + "\n```") cleans to Q when Q is trimmed; the first whitespace may be empty unless Q starts with "sql" |
| LlmService.CleanSqlBlank | bot/services/llm_service.py:68-75 | an empty or whitespace-only reply cleans to "" |
| LlmService.CleanSqlEmptyFence | bot/services/llm_service.py:68-75 | "```", "```sql" and "```sql\n```" clean to "" |
| LlmService.CleanSqlUppercaseTag | bot/services/llm_service.py:71-72 | only the lowercase tag is removed: "```SQL\nSELECT 1\n```" cleans to "SQL\nSELECT 1" |
| LlmService.UnclosedBody | bot/services/llm_service.py:72-75 | "```" + whitespace + Q with no closing fence cleans to Q |
| LlmService.CleanSqlUnclosed | bot/services/llm_service.py:68-75 | a reply cut short after the opening fence cleans to the text after the fence and its whitespace, when that text is trimmed, non-empty and does not end in "```" |
| LlmService.CleanSqlNotIdempotent | bot/services/llm_service.py:68-75 | cleaning is not idempotent: "``` ```x" cleans to "```x", which cleans to "x" |
| LlmService.ScalarOf | bot/services/llm_service.py:81 | the scalar is the first column of the first row, None when there are no rows |
| LlmService.ExecuteSql | bot/services/llm_service.py:79-84 | an exception from `conn.execute` or `scalar()` becomes the reply "Error executing SQL: " + its message and is not raised; otherwise the reply is the scalar |
| LlmService.ErrorMessageRecoverable | bot/services/llm_service.py:83-84 | the exception's message can be read back after the fixed prefix |
| LlmService.ExecuteSqlIgnoresExtra | bot/services/llm_service.py:80-82 | rows after the first and columns after the first do not affect the reply |

## Left out

- The language model call, its client set-up and the system prompt (bot/services/llm_service.py:8-66). The reply is an arbitrary input string. The prompt's rules are requests to the model, not behaviour of the code.
- Running SQL, the async engine, connection scopes and any rollback they do. They are library behaviour; `execute_sql` is modelled from the outcome of `conn.execute` onwards.
- LlmService.ExecuteSql: only exceptions inside the `try` (bot/services/llm_service.py:79-84) become the error reply. Failing to open the connection at line 78, or to close it when the block is left, raises to the caller; there the Telegram handler answers with its generic apology. Those paths are not modelled.
- LlmService.ExecuteSql: the source returns one untagged value on both paths (bot/services/llm_service.py:82, 84), so its caller cannot tell an error reply from a scalar that is itself a string starting with "Error executing SQL: ". The model's `Reply` tags the two paths, and its `Raised <==> Message` clause holds only because of that tag.
- LlmService.ScalarOf: `Result.scalar()` belongs to SQLAlchemy and its code is not part of this model. The first-column, first-row, None-when-empty behaviour is an assumption taken from its documentation. Query results are modelled with at least one column per row.
- Reading `videos.json`, `.env`, `DATABASE_URL`, `sys.exit` and the Windows event-loop policy: configuration and I/O. The tables are dropped before the file is opened, so a missing file leaves the tables empty. The model starts from the parsed document.
- Console output other than the progress numbers: `IngestData` returns the progress numbers instead of printing them.
- `datetime.fromisoformat` is an abstract partial parser (`Ingest.Parser`); ISO 8601 itself is not modelled.
- JSON values of the wrong type (a counter that is a string, a `null` for a required key) are not modelled. A record field is either absent or a value of the expected type. For `updated_at` the only falsy string, "", is treated as absent.
- Ingest.Database.Commit: whether the database accepts a batch is modelled as `Consistent` on all committed and pending rows. That means no duplicate primary key, every snapshot's `video_id` among the videos, and counters within BIGINT. This follows from the unit of work inserting the `videos` table before `video_snapshots` within one flush. Which constraint fails, and the exception's text, are not modelled. Nor are refusals for column type or encoding that the model would accept, such as a text value holding a NUL character.
- The `server_default` of `videos.created_at` is modelled by `NewVideo`, but the import always passes `created_at`, so no import uses it.
- `onupdate=func.now()` for `updated_at` (bot/database/models.py:19, 40): no row is ever updated by the code modelled here.
- Async scheduling and concurrent requests, and everything in `main.py` (Telegram handlers, logging, the global service instance).
- What the code does not do, although one might expect it: it does not validate the generated SQL for safety or shape. It does not compare a snapshot's `video_id` with its enclosing video, and does not check deltas against absolute counts or for non-negativity. It has no upsert, and no skip-and-continue for a bad record: the first bad record ends the run. None of these is modelled as behaviour. A re-run gives the same tables because they are dropped and recreated first, not because of an upsert.
