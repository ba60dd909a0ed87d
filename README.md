# f5diarios-backend — a verified model of the task, project, preset and auth routes

f5diarios-backend is a FastAPI service that keeps consultants' daily work records ("tarefas")
in MongoDB. It also keeps per-client projects whose spent hours come from those tasks, and
user-defined presets for filling in new tasks. A JWT login guards it, and an API key lets a
service client (Copilot / PowerApps) act on the users' behalf.

This project models four route modules in Dafny:

- `routes/tasks.py`: the task routes.
- `routes/projects.py`: the project routes.
- `routes/presets.py`: the preset routes.
- `routes/auth.py`: registration and login.

Module by module:

- **Values, Text, StringOrder, ObjectIds, Sorting.**
  - A MongoDB document is a `map<string, Value>`.
  - The Python string operations the routes use are modelled: `startswith`, `split`, `int()` and zero-padded rendering.
  - `StringOrder` is code-point string order; `ObjectIds` covers `bson.ObjectId` parsing and rendering.
  - `Sorting` is an insertion sort standing for both `list.sort` and MongoDB's `sort`; its stability is proved.
- **Store.** A collection is the class `Collection`.
  - Its fields are a `map` from identifier to document and the natural (insertion) order of the identifiers.
  - Its methods are `insert_one`, `find`, `find(...).sort("data", -1).limit(n)`, `find_one`, `update_one` with `$set`, and `delete_one`.
  - Each method is specified by a function on the collection's value, `Table`.
  - Query filters are equality conditions or a case-insensitive `$regex`. The regular-expression engine is a parameter.
- **Http.** Headers, decoded JWT claims, and the `Bearer` token extraction `split(" ")[1]`.
  - Decoding a token is a parameter (`Decoder`). `None` stands for a `JWTError`.
- **Tasks.** The two token dependencies of the task routes.
  - Task creation by service key or bearer token. Filtered, sorted, limited listing.
  - Update and delete with the owner check.
- **Dates, TaskReport.** The admin-only monthly activity report `/tasks/atividade`.
  - `strptime` for its three formats, with real calendar validation, and `strftime("%Y-%m-%d")`.
  - Skipping undatable tasks, the month filter.
  - Sorting by `(username, data)` under Python's comparison rules.
- **Projects.** `time_to_hours`, `calcular_horas_gastas` with `round(total, 2)`.
  - Project creation with its duplicate check, listing, and hours refresh.
- **Presets.** Creation, listing, deletion and patching of a user's presets.
  - Also the creation route as it is written (see Findings).
- **Auth.** Register and login with bcrypt (hashing and verification are parameters).
  - `create_access_token` as a method on a claim set.
  - A lemma connecting a login token to the three token dependencies above.

Errors are values: each route returns `Result<...>`, where `Err` carries the HTTP status and
`detail` message the route raises. An unhandled Python exception (KeyError, InvalidId, TypeError)
is modelled as `InternalError` (500).

## Model

| member | source | states |
|---|---|---|
| Text.ParseShowInt | routes/projects.py:30 | `int()` reads back every integer that `str()` renders |
| Text.ParseInt | routes/projects.py:30 | `int()` accepts only a sign or digit followed by digits, and gives a negative number only after a `-` |
| Text.SplitTwo | routes/projects.py:30 | `a:b` with no colon in `a` or `b` splits into exactly `[a, b]` |
| Text.JoinSplit | routes/tasks.py:339 | `split(sep)` loses nothing: joining the pieces gives back the string |
| Text.SplitPiecesNoSep | routes/tasks.py:339 | no piece of `split(sep)` holds the separator |
| Text.JoinPrepend | routes/tasks.py:339 | a character put in front of the first piece ends up in front of the joined string |
| Text.PadValue | routes/tasks.py:375 | zero padding in `strftime` does not change the number read back |
| Text.PadWidth | routes/tasks.py:375 | a number of at most `width` digits pads to exactly `width` characters |
| StringOrder.StrLeTotal | routes/tasks.py:380 | Python string comparison orders any two strings |
| StringOrder.StrLeAntisymmetric | routes/tasks.py:380 | strings ordered both ways are equal |
| StringOrder.StrLeTransitive | routes/tasks.py:380 | Python string comparison is transitive |
| ObjectIds.ParseShow | routes/tasks.py:292-295 | `ObjectId(str(oid)) == oid` for every identifier |
| ObjectIds.ParseObjectIdSpec | routes/tasks.py:292-295 | on texts without whitespace, `ObjectId(s)` succeeds exactly on 24 hexadecimal digits (either case), giving their lower-case form |
| Sorting.SortSorted | routes/tasks.py:380 | the sort's output is ordered by any total order it is given |
| Sorting.SortPermutation | routes/tasks.py:380 | the sort's output is a permutation of its input |
| Sorting.SortStable | routes/tasks.py:380 | the sort is stable: the elements of any class the order cannot tell apart keep their input order |
| Sorting.InsertFilter | routes/tasks.py:380 | inserting one element keeps the input order of any class the order cannot tell apart |
| Sorting.SortedAll | routes/tasks.py:234 | under a transitive order, a list sorted pair by adjacent pair is sorted pair by pair |
| Sorting.PermutationNoDups | routes/tasks.py:234 | a permutation of a list without repeats has no repeats |
| Sorting.NoDupsCount | routes/tasks.py:234 | a list without repeats holds every element at most once |
| Sorting.TakeSpec | routes/tasks.py:234 | `limit(n)` keeps the first `min(n, len)` elements |
| Store.FindSpec | routes/tasks.py:351 | `find(f)` yields exactly the stored records matching `f`, each once |
| Store.FindAfterInsert | routes/tasks.py:127 | after `insert_one`, `find(f)` is the old result plus the new record if it matches |
| Store.FindAfterDelete | routes/tasks.py:323 | after `delete_one`, `find(f)` is the old result without the deleted record |
| Store.InsertPreservesValid | routes/tasks.py:127 | inserting under a fresh identifier keeps the map and the natural order in agreement |
| Store.DeletePreservesValid | routes/tasks.py:323 | deleting keeps the map and the natural order in agreement |
| Store.SetFieldsPreservesValid | routes/tasks.py:303 | `$set` keeps the map and the natural order in agreement |
| Store.ValueLeTotal | routes/tasks.py:234 | MongoDB's ordering of `data` values used by `sort("data", -1)` is total |
| Store.ValueLeTransitive | routes/tasks.py:234 | MongoDB's ordering of `data` values is transitive |
| Store.SortFound | routes/tasks.py:234 | `sort("data", -1)` on `find(f)` holds the same records, each once, by non-increasing `data` |
| Store.LimitKeepsTop | routes/tasks.py:234 | `limit(n)` on a sorted cursor keeps the top records: one left out is no greater than one kept |
| Store.FindSortedLimitTop | routes/tasks.py:234 | per stored identifier: a matching record left out by `limit(n)` has `data` no greater than any record returned |
| Store.FindCount | routes/tasks.py:234 | `find(f)` returns as many records as there are stored identifiers matching `f` |
| Store.SelectCount | routes/tasks.py:234 | walking distinct identifiers selects as many records as identifiers match |
| Store.FindSortedLimitSpec | routes/tasks.py:234 | `find(f).sort("data", -1).limit(n)` returns `min(n, #matches)` stored matching records, each once, with `data` non-increasing; when at most `n` match, every match is returned; a matching record left out has `data` no greater than any record returned |
| Store.Collection.constructor | routes/tasks.py:17 | a new collection is empty, and its map and natural order agree (`Consistent`) |
| Store.Collection.InsertOne | routes/tasks.py:127 | `insert_one` adds the document under the fresh identifier at the end of the natural order, and keeps `Consistent` for a document without `_id` |
| Store.Collection.FindAll | routes/projects.py:38-40 | iterating `find(f)` with plain equalities yields the matching records in natural order |
| Store.Collection.FindSorted | routes/tasks.py:234 | the cursor of `find(f).sort("data", -1).limit(n)` |
| Store.Collection.FindOneMatching | routes/auth.py:41 | `find_one(f)` is the first match in natural order, or none |
| Store.Collection.FindOneById | routes/tasks.py:297 | `find_one({"_id": id, ...})` |
| Store.Collection.UpdateOne | routes/tasks.py:303 | `update_one` with `$set` overwrites the given fields of an existing record and changes nothing else; it keeps `Consistent` when `$set` does not name `_id` |
| Store.Collection.DeleteOne | routes/presets.py:71-72 | `delete_one` removes the record if it matches and reports `deleted_count` 1, else 0 with nothing changed; it keeps `Consistent` |
| Http.BearerRoundTrip | routes/tasks.py:27-33 | a `Bearer <token>` header with a space-free token yields that token |
| Http.BearerTokenHasNoSpace | routes/tasks.py:33 | the extracted token never holds a space |
| Http.BearerToken | routes/tasks.py:26-33 | a token exactly for an `Authorization` header starting `Bearer `; it is the text after `Bearer ` up to the next space |
| Tasks.GetCurrentUserFull | routes/tasks.py:21-48 | 401 for a missing header, a bad token or an empty `sub`; succeeds exactly on a decodable token with a truthy `sub`; gives `sub` and `role` (default `"user"`) |
| Tasks.GetCurrentUserAgrees | routes/tasks.py:51-67 | `get_current_user` answers the username of `get_current_user_full`, or the same error |
| Tasks.GetCurrentUser | routes/tasks.py:51-67 | every failure is 401; a success needs a bearer token and is a truthy username |
| Tasks.NoBearerNoDecoding | routes/tasks.py:27-28 | without a bearer header both dependencies answer 401 before any token is decoded |
| Tasks.ResolveChannel | routes/tasks.py:105-154 | a matching `x-api-key` takes precedence; otherwise a decodable token with a truthy `sub`; every failure is 401, and "Token inválido." exactly when decoding fails |
| Tasks.ActingUsernameCases | routes/tasks.py:108-125 | the service client acts as the account's `nome` (or the email) when `x-user-email` names an account, as the email otherwise, and as `"copilot"` without an email |
| Tasks.ActingUsername | routes/tasks.py:111-125 | a username that is not a string can only be the `nome` of a stored account |
| Tasks.TaskCreator | routes/tasks.py:105-154 | create_task finds an owner exactly when key or token authorises, and otherwise fails with 401 |
| Tasks.CreatedTaskResponse | routes/tasks.py:127-132 | the response is the stored task plus its `id`, exactly when its `username` is a string; otherwise 500 |
| Tasks.ServiceKeyTakesPrecedence | routes/tasks.py:105-132 | with the right API key, the bearer header plays no part in who creates the task |
| Tasks.BearerCreatorIsSub | routes/tasks.py:135-154 | without the API key, the creator is the token's `sub`, and creation fails exactly when there is no such `sub` |
| Tasks.InsertTask | routes/tasks.py:127-132 | the stored task is inserted; the response is it with `id`, or 500 when its username is not a string |
| Tasks.CreateTask | routes/tasks.py:84-154 | on an authorised call the body plus the creator's username is inserted under a fresh id; otherwise nothing is stored and the 401 is returned |
| Tasks.Conditions | routes/tasks.py:224-230 | a condition for exactly the supplied parameters: strings as case-insensitive regex, other values as equality |
| Tasks.QueryFilter | routes/tasks.py:224-230 | the filter holds the base scope unchanged plus one condition per supplied schema field |
| Tasks.FilterStep | routes/tasks.py:224-230 | after one more field, the filter is the base scope plus the conditions of one more name |
| Tasks.QueryFilterHolds | routes/tasks.py:224-230 | a record matching the built filter meets the base scope and every supplied schema-field condition |
| Tasks.UsernameIsNoTaskField | routes/tasks.py:246-272 | `username` is not a schema field, so the parameter loop never overwrites a caller's owner condition |
| Tasks.ListingScope | routes/tasks.py:199-283 | the scope of a listing holds no schema field |
| Tasks.ConditionsStep | routes/tasks.py:224-230 | one loop step adds the condition for one more field |
| Tasks.BuildFilter | routes/tasks.py:224-230 | the loop over the parameters builds base scope plus `Conditions` |
| Tasks.Shown | routes/tasks.py:233-237 | every record is shown, one document per record |
| Tasks.ShownStep | routes/tasks.py:234-236 | one more cursor record adds its document, with `id`, at the end |
| Tasks.ShownOrder | routes/tasks.py:234-236 | shown documents keep the cursor's non-increasing `data` order |
| Tasks.ShownMembers | routes/tasks.py:234-236 | each shown document is a stored record matching the filter, with `id` for `_id` |
| Tasks.ShownQueryAll | routes/tasks.py:233-237 | when at most `n` records match, each matching stored record is listed |
| Tasks.ShownQueryTop | routes/tasks.py:233-237 | a matching record not listed has `data` no greater than any listed one |
| Tasks.ShownIncludes | routes/tasks.py:234-236 | each cursor record is shown as its document with `id` |
| Tasks.ShownDistinct | routes/tasks.py:234-236 | records with distinct identifiers are shown with distinct `id`s |
| Tasks.ShownQuerySpec | routes/tasks.py:233-237 | the listing holds `min(n, #matches)` documents with distinct `id`s, `data` non-increasing, no `_id`, each a stored matching record with its `id`; every match is listed when at most `n` match; a match left out has `data` no greater than any listed one |
| Tasks.ListedTasksSpec | routes/tasks.py:172-283 | 401 exactly when neither key nor token authorises; otherwise the stored tasks that meet every supplied filter (and, for a token caller, are owned by that caller), newest `data` first, each listed once: all of them when at most 200 qualify, else 200 whose `data` is no older than any task left out |
| Tasks.ListedDoc | routes/tasks.py:199-278 | a listed document is a stored task matching every supplied filter, owned by the caller when the caller used a token |
| Tasks.ListableMatches | routes/tasks.py:199-278 | the built filter matches a task exactly when it meets every supplied parameter and, for a token caller, belongs to the caller |
| Tasks.ListableTasksMatching | routes/tasks.py:199-278 | the tasks the query matches are exactly the tasks the caller may list |
| Tasks.ListedTasksSound | routes/tasks.py:199-283 | every listed document is a stored task the caller may list, newest `data` first |
| Tasks.ListedTasksComplete | routes/tasks.py:199-283 | `min(200, #listable)` documents with distinct `id`s; every listable task when at most 200; a listable task left out is no newer than any listed |
| Tasks.ListedTasks | routes/tasks.py:172-283 | list_user_tasks fails exactly as the channel check fails; a listing holds at most 200 documents, each with `id` |
| Tasks.ListUserTasks | routes/tasks.py:172-283 | the route's loops compute `ListedTasks` |
| Tasks.TaskAccess | routes/tasks.py:292-301 | malformed id, missing task, foreign task or own task, each stated as an if-and-only-if |
| Tasks.TaskWriteCheckSpec | routes/tasks.py:288-301 | 401 comes first; success means a well-formed id of a stored task whose `username` is the caller |
| Tasks.TaskWriteCheck | routes/tasks.py:288-301 | a failure is 400, 401, 404 or the route's 403; a success names a stored task |
| Tasks.UpdateTask | routes/tasks.py:287-304 | an owner's update overwrites every schema field of the task; every error leaves the store unchanged |
| Tasks.DeleteTask | routes/tasks.py:307-324 | an owner's delete removes exactly that task; every error leaves the store unchanged |
| Dates.DaysInMonth | routes/tasks.py:360-365 | months have 28 to 31 days, following the Gregorian leap-year rule |
| Dates.ParseWith | routes/tasks.py:360-365 | `strptime` with one of the formats yields only real calendar dates |
| Dates.FirstSomeSpec | routes/tasks.py:360-365 | trying alternatives in turn until one succeeds: a result exactly when some alternative succeeds, and then it is the first success |
| Dates.ParseFirstSpec | routes/tasks.py:360-365 | the first format that parses wins; there is no date exactly when none parses |
| Dates.ParseDate | routes/tasks.py:359-365 | a date is found exactly when one of the three formats parses, and it is a real calendar date |
| Dates.Render | routes/tasks.py:375 | `strftime("%Y-%m-%d")` opens with the zero-padded four-digit year and a dash |
| Dates.RenderShape | routes/tasks.py:375 | `strftime("%Y-%m-%d")` is ten characters: padded year, month and day between dashes |
| Dates.RenderSplit | routes/tasks.py:375 | a rendered date splits at its dashes into the padded year, month and day |
| Dates.RenderParts | routes/tasks.py:375 | each padded component is a digit run that reads back the component's value |
| Dates.RenderParse | routes/tasks.py:360-375 | a rendered date parses back to the same date, with the first format |
| Dates.ParseWithShape | routes/tasks.py:360-365 | a parsable text has three pieces and 8 to 10 characters |
| TaskReport.AdminCheck | routes/tasks.py:334-348 | 401 without a bearer token or with an undecodable one; success exactly when the token's `role` (default `"user"`) is `"admin"`, otherwise 403 |
| TaskReport.AdminCheckIgnoresSub | routes/tasks.py:340-348 | an admin token without `sub` passes the report's check, though the other task routes refuse it |
| TaskReport.ExamineSpec | routes/tasks.py:354-378 | a task is kept exactly when its `data` is a string that parses in the chosen month; its row carries the task's fields and the re-rendered date; a truthy non-string `data` fails |
| TaskReport.Examine | routes/tasks.py:355-378 | a kept row's date reads back as a date in the requested month |
| TaskReport.Collect | routes/tasks.py:354-378 | the loop yields at most one row per task, and its only failure is 500 |
| TaskReport.CollectFails | routes/tasks.py:354-378 | the loop fails (500) exactly when some task has a truthy `data` that is not a string (`strptime` raises TypeError, which is not caught); a string that does not parse is skipped |
| TaskReport.CollectSound | routes/tasks.py:354-378 | every collected row comes from a task in the listing |
| TaskReport.CollectComplete | routes/tasks.py:354-378 | every task kept by the month filter has its row collected |
| TaskReport.CollectStep | routes/tasks.py:354-378 | one more task extends the outcome by that task's step: skipped, a row appended, or 500 |
| TaskReport.CollectedAreStored | routes/tasks.py:351-378 | every row of a successful collection comes from a stored task of the requested month |
| TaskReport.StoredAreCollected | routes/tasks.py:351-378 | every stored task of the requested month has its row in a successful collection |
| TaskReport.StoredFailureFails | routes/tasks.py:351-365 | a single stored task with a truthy `data` that is not a string (`strptime` raises TypeError, which is not caught) makes the whole report 500 |
| TaskReport.FoundIsStored | routes/tasks.py:351 | each record of `find({})` is a stored task |
| TaskReport.StoredIsFound | routes/tasks.py:351 | each stored task appears in `find({})` |
| TaskReport.CollectErrSticks | routes/tasks.py:354-378 | once the loop has failed, later tasks do not change the outcome |
| TaskReport.KeyLtAsymmetric | routes/tasks.py:380 | Python's tuple order on `(username, data)` is asymmetric |
| TaskReport.RowLeTotal | routes/tasks.py:380 | the sort's order on rows is total |
| TaskReport.PyTrichotomy | routes/tasks.py:380 | two usernames are equal or one is smaller under Python's comparison, and never two of these at once |
| TaskReport.PyLtTransitive | routes/tasks.py:380 | Python's `<` on usernames is transitive, and equal usernames may replace each other in it |
| TaskReport.KeyLtNegTransitive | routes/tasks.py:380 | the tuple order on `(username, data)` is a strict weak order: if `c` sorts before `a`, every `b` sorts after `c` or before `a` |
| TaskReport.RowLeTransitive | routes/tasks.py:380 | the sort's "may stay before" relation on rows is transitive |
| TaskReport.SameKeyRowLe | routes/tasks.py:380 | rows with the same `(username, data)` key are ordered both ways by the sort key |
| TaskReport.ReportErrors | routes/tasks.py:334-380 | token and role errors come first; a task with a truthy `data` that is not a string (`strptime` raises TypeError, which is not caught) gives 500 |
| TaskReport.ReportOrder | routes/tasks.py:380 | the report is sorted by username and then date, pair by pair and not only between neighbours; the rows sharing a key appear in the order the loop collected them (`list.sort` is stable) |
| TaskReport.ReportContents | routes/tasks.py:351-378 | the report holds exactly the rows of the stored tasks dated in the requested month: each row as many times as stored tasks produce it, one row per such task |
| TaskReport.CollectedCounts | routes/tasks.py:351-378 | a successful loop holds each row as many times as stored tasks produce it, and one row per task of the month |
| TaskReport.CollectCount | routes/tasks.py:354-378 | the loop holds each row as many times as tasks produce it, and as many rows as tasks are kept |
| TaskReport.SelectSteps | routes/tasks.py:351 | counting the tasks of `find({})` by their step is counting the stored identifiers |
| TaskReport.Report | routes/tasks.py:328-381 | a report needs the admin check to pass; its failures are the admin check's or 500 |
| TaskReport.ParseData | routes/tasks.py:359-365 | the format loop with `break` computes `ParseDate` |
| TaskReport.ExamineTask | routes/tasks.py:355-378 | the loop body for one task computes that task's step: skip, keep its row, or fail |
| TaskReport.CollectRows | routes/tasks.py:354-378 | the loop over the stored tasks computes `Collect`, stopping at the first failure |
| TaskReport.GetAtividade | routes/tasks.py:328-381 | the route computes `Report` |
| Projects.ProjectsCaller | routes/projects.py:14-24 | 401 without a bearer token or with an undecodable one; otherwise the token's `sub`, which may be missing |
| Projects.TimeToHoursParts | routes/projects.py:28-33 | `"a:b"` converts to `int(a) + int(b)/60` when both parts are integers, else to 0 |
| Projects.TimeToHours | routes/projects.py:28-33 | a non-string is 0 hours; a non-zero result comes from exactly one colon between two integers `a` and `b`, and is `a + b/60` |
| Projects.TimeToHoursRoundTrip | routes/projects.py:28-33 | `"h:m"` converts to `h + m/60` for every pair of integers |
| Projects.TimeToHoursNeedsOneColon | routes/projects.py:28-33 | a text without a colon converts to 0 |
| Projects.ShowIntHasNoColon | routes/projects.py:30 | a rendered integer holds no colon |
| Projects.TimeToHoursExample | routes/projects.py:28-33 | `"02:30"` is 2.5 hours |
| Projects.QuarterPastOne | routes/projects.py:28-33 | `"01:15"` is 1.25 hours |
| Projects.TwoColonsExample | routes/projects.py:30-33 | `"1:2:3"` splits into three pieces, so unpacking fails and it converts to 0 |
| Projects.HoursSumExample | routes/projects.py:37-43 | `"02:30"` plus `"01:15"` rounds to 3.75 |
| Projects.MalformedTimeExamples | routes/projects.py:32-33 | text without a colon, with two colons or with a non-numeric part converts to 0 |
| Projects.Round2 | routes/projects.py:43 | `round(x, 2)` is a whole number of hundredths within half a hundredth of `x` |
| Projects.Round2Idempotent | routes/projects.py:43 | rounding twice is rounding once |
| Projects.SumHoursAppend | routes/projects.py:39-42 | the running total over two runs of tasks is the sum of their totals |
| Projects.SumHours | routes/projects.py:39-42 | the running total over a single task is that task's billed time |
| Projects.SumHoursSign | routes/projects.py:39-42 | a total of non-negative times is non-negative, and with no billed time at all it is 0 |
| Projects.ProjectHours | routes/projects.py:37-43 | the hours are a whole number of hundredths, and 0 when no stored task has the client and contract |
| Projects.NoTasksNoneFound | routes/projects.py:38 | when no stored task has the client and contract, the hours query finds nothing |
| Projects.SumHoursAfterNewTask | routes/projects.py:37-43 | inserting a task adds its billed hours to its project's sum exactly when it matches the client and contract |
| Projects.HoursFilterMatches | routes/projects.py:38 | the hours query matches exactly the tasks with the given client and contract |
| Projects.CalcularHorasGastas | routes/projects.py:37-43 | the loop computes the rounded billed hours of the matching tasks |
| Projects.KeyFilterMatches | routes/projects.py:50-54 | the duplicate query matches exactly the projects with the same client, contract and description |
| Projects.CreateKeepsUnique | routes/projects.py:49-64 | creation after a failed duplicate check keeps `(cliente, contrato, descricao)` unique |
| Projects.CreateProject | routes/projects.py:47-65 | 401 or 400 with nothing stored, or the body stored with freshly computed `horas_gastas` and returned with `id` |
| Projects.ListProjects | routes/projects.py:70-77 | every stored project, in natural order, with `id` for `_id` |
| Projects.ListedProjectsSpec | routes/projects.py:72-77 | the listing holds every stored project, only stored projects, and no `_id` |
| Projects.RefreshIdempotent | routes/projects.py:81-98 | refreshing hours twice equals refreshing once |
| Projects.RefreshHours | routes/projects.py:87-93 | refreshing changes only the project's `horas_gastas`, to the hours recomputed from its client and contract |
| Projects.CreatedProjectIsFresh | routes/projects.py:59-64 | a just-created project is unchanged by a refresh |
| Projects.UpdateProjectHours | routes/projects.py:81-98 | 401, then 500 for a malformed id, 404 for an unknown id, 500 for a project without client or contract; otherwise only `horas_gastas` changes, to the recomputed value |
| Presets.PresetsCaller | routes/presets.py:18-31 | 401 without a bearer token, with an undecodable token or with no `sub`; otherwise the non-null `sub` |
| Presets.OwnerFilterMatches | routes/presets.py:61 | the owner query matches exactly the presets whose `username` is the caller |
| Presets.PresetsOfSpec | routes/presets.py:59-65 | the listing holds exactly the caller's stored presets, with `id` and no `_id` |
| Presets.PresetsOf | routes/presets.py:59-65 | every listed preset has an `id` and belongs to the caller |
| Presets.FoundAreOwned | routes/presets.py:61 | each record the owner query yields belongs to that owner |
| Presets.OwnedPreset | routes/presets.py:45-46 | the stored preset is the body with `username` set to the caller and every other field kept |
| Presets.CreatedPresetIsListed | routes/presets.py:42-65 | a created preset joins its owner's listing at the end and leaves every other user's listing unchanged |
| Presets.CreatePreset | routes/presets.py:42-54 | the body plus the caller's username is stored and returned with its `id` (the evidently intended behaviour) |
| Presets.JsonableEncoder | routes/presets.py:49 | encoding succeeds exactly when every value is plain JSON, and it keeps keys and values |
| Presets.CreatePresetAsWrittenAlwaysFails | routes/presets.py:47-54 | as written, the response after `insert_one` is always 500 |
| Presets.CreatePresetAsWritten | routes/presets.py:42-54 | as written, an authorised call stores the preset and still answers 500 |
| Presets.GetUserPresets | routes/presets.py:59-65 | the route's loop computes the caller's listing |
| Presets.DeletePreset | routes/presets.py:69-74 | 401, then 500 for a malformed id, 404 unless the caller owns it; on success only that preset is removed |
| Presets.DeleteOnlyOwn | routes/presets.py:71-73 | deletion never touches another user's preset, and a deleted preset disappears from every listing |
| Presets.UpdatePresetStatus | routes/presets.py:78-88 | 401, 500 or 404 as above; an owner's patch overwrites the given fields and returns the updated document |
| Presets.PatchSpec | routes/presets.py:84-85 | `$set` overwrites exactly the patched fields, keeps all others, and keeps the owner unless the patch names it |
| Auth.ClaimSet.constructor | routes/auth.py:26 | a claim set holds the given claims |
| Auth.ClaimSet.CreateAccessToken | routes/auth.py:26-29 | the claims gain `exp` one hour after `now` and are encoded |
| Auth.WithExpiry | routes/auth.py:27-28 | `exp` is added or replaced, and every other claim is kept |
| Auth.LoginClaims | routes/auth.py:48-52 | the login token holds exactly `sub`, `role` (default `"user"`) and `exp` one hour ahead |
| Auth.LoginClaimsAreAccessTokenClaims | routes/auth.py:26-29 | login builds the same claims as `create_access_token` |
| Auth.AccountRole | routes/auth.py:50 | an account's role is its `role` field, `"user"` when it has none |
| Auth.LoginResult | routes/auth.py:39-62 | 400 for an unknown user, a null hash or a wrong password; 500 for a missing or non-string hash or one the verifier cannot read; success exactly when the stored string hash verifies, with the token, username and role |
| Auth.FoundAccountHasUsername | routes/auth.py:41 | the account found for a username holds that username |
| Auth.LoginAnswersUsername | routes/auth.py:56-62 | a successful login answers the requested username |
| Auth.Login | routes/auth.py:39-62 | the route computes `LoginResult` |
| Auth.UsernameFilterMatches | routes/auth.py:33 | the username query matches exactly the accounts with that username |
| Auth.NoAccountNamed | routes/auth.py:33-36 | when `find_one` finds no account, no stored account has that username |
| Auth.Register | routes/auth.py:31-37 | 400 for a taken username with nothing stored; otherwise exactly `{username, password: hash}` is stored |
| Auth.NewAccount | routes/auth.py:35-36 | the stored account holds exactly the username and the hash of the password |
| Auth.RegisterKeepsUnique | routes/auth.py:33-36 | registration keeps usernames unique |
| Auth.RegisterThenLogin | routes/auth.py:31-62 | logging in with the password just registered succeeds with role `"user"` |
| Auth.LoginTokenAuthenticates | routes/auth.py:48-54 | a login token passes all three token dependencies as its user, and the report's admin check exactly for admins |

## Left out

- HTTP transport, FastAPI request parsing and success status codes (201, 204) are not modelled.
  - A route's answer is its returned value or its error.
  - Request-body validation is a precondition on the body's keys (`IsTaskBody`, `IsProjectBody`, `IsPresetBody`).
  - Pydantic coercion of field values is not modelled.
- `response_model` filtering is not modelled, except for the `TaskOut` username check.
  - For example, `list_projects` validation of stored projects is left out.
- JWT signing, verification and expiry checking, bcrypt hashing and verification, and the clock are parameters.
  - Token expiry is therefore part of the decoder.
  - Passwords longer than passlib accepts are not distinguished.
- Regular-expression matching for the `$regex` filters is a parameter. Its semantics are not modelled.
- Store-generated identifiers are parameters, and the models assume they are fresh.
  - The order MongoDB gives records with equal sort keys is taken to be insertion order.
  - Concurrency between requests is not modelled.
- Float arithmetic is modelled on reals, and `round(x, 2)` as rounding half up on reals.
  - Sums of minutes never land on a tie.
- Projects.TimeToHours: `int()` is modelled on plain ASCII literals with an optional sign.
  - Surrounding whitespace, underscores between digits and non-ASCII digits, which Python also accepts, convert to 0 in the model.
- ObjectIds.ParseObjectId: bson's `ObjectId(str)` checks only that the text has 24 characters and then calls `bytes.fromhex`, which skips ASCII whitespace between hex pairs.
  - A 24-character text with such whitespace therefore builds a shorter identifier in the source. The model rejects it.
  - For such a text the model answers 400 in `update_task` and `delete_task`, where the source goes on to the query and answers 404 or 500.
  - In the project and preset routes the model answers 500, where the source answers 404.
- Dates.ParseWith: non-ASCII digits, which `strptime` accepts, are not modelled.
- Dates.Render: glibc's `strftime` does not zero-pad years below 1000. The model renders four digits.
- Presets.PatchSpec: patches with dotted or `$` keys, and nested documents, are not modelled.
  - The model treats an empty patch as a no-op and answers the unchanged preset, as MongoDB 5.0 and later do.
  - Before MongoDB 5.0 an empty `$set` is rejected, so the route answers 500 there instead.
- Debug `print` calls and request logging are not modelled.
- Where the description of the service and the code differ, the model follows the code:
  - `update_task` replaces every schema field with the body's value or its default. It does not merge.
  - Durations may be negative.
  - A user whose `nome` is stored as null creates tasks with username null. The `TaskOut` validation then answers 500 after the insert.
  - `/tasks/atividade` checks only the `role` claim, not `sub`.
- The other route modules are not part of this model: users, clients, contracts, partners, products, activities, agenda and the Microsoft login.

## Findings

| source | as written | input that shows it | evidently intended | confidence | as-written member | corrected member |
|---|---|---|---|---|---|---|
| routes/presets.py:47-54 | `insert_one(data)` adds an `ObjectId` under `_id` to `data`, and `jsonable_encoder(data)` cannot encode it. The resulting ValueError is caught and answered as 500 after the preset was stored | any authorised `POST /presets/` with a valid body | store the preset and answer it with its `id` | high (not executed) | Presets.CreatePresetAsWritten | Presets.CreatePreset |
