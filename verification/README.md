# NextRink core, modelled in Dafny

NextRink is a web application for hockey-league data: teams, their calibers
and levels, players and their statuses, and each team's depth chart (which
player fills which position on which line). This project models the
application's write rules and decision rules over in-memory tables, and
proves what they promise:

- the depth-chart update action, which assigns a player to a slot;
- the depth-chart view, which decides what each displayed slot shows and
  turns a click and a roster choice into an update request;
- the caliber and level registries: unique names, and a delete guarded by
  references;
- the team upsert;
- the player-status update and the status marker;
- the coach's team list;
- the three role gates;
- the home-page redirect;
- the test-data helpers.

Layout:

- `common.dfy` (`Common`) holds what every route shares: optional values,
  submitted forms, string lengths as JavaScript counts them (UTF-16 code
  units), validation issues, ASCII case mapping and the redirect sanitiser.
- `db.dfy` (`Db`) holds the row types and the `Database` class, one field per
  table the actions read or change.
  - A table keyed by primary key is a `map` from id to row.
  - A table the code searches with `findFirst` on a name (positions, depth
    levels, depth-chart entries), or only lists in full (statuses), is a `seq`
    in storage order.
- Each route's action is a module-level method `Action` that takes the
  `db: Database` and changes only that route's own table. Its `ensures` ties the answer and the new table to a pure `Step` (or
  `Planned`/`Decide`) function of the old table. The lemmas state the route's
  promises about that function: which answers occur when, what a success
  writes, and which invariants it keeps.
- An id the database generates on create is a parameter `newId` that names no
  existing row.
- Whether a form was submitted, as opposed to validated while being typed, is
  the boolean `submitted`.
- An empty form field counts as missing, as the form library reads it.

## Model

| member | source | states |
|---|---|---|
| Common.RawField | app/routes/admin+/calibers.tsx:31 | a field read directly is present exactly when it was sent, with the value sent |
| Common.ConformField | app/routes/resources+/depthchart-update.tsx:6-11 | a field handed to a schema is present exactly when it was sent non-empty |
| Common.CharUnits | app/routes/resources+/caliber.tsx:15-17 | a character below U+10000 is one code unit, its own value; a character above is a high surrogate followed by a low surrogate |
| Common.CodeUnits | app/routes/resources+/caliber.tsx:15-17 | a string is one to two code units per character, each below 0x10000, and exactly one per character exactly when no character is above U+FFFF |
| Common.CodeUnitsOfBmp | app/routes/resources+/caliber.tsx:15-17 | a string of characters below U+10000 has its characters' values as its code units, so its JavaScript length is its character count |
| Common.AstralCountsTwice | app/routes/resources+/caliber.tsx:15-17 | a string of characters above U+FFFF has twice as many code units as characters |
| Common.LengthIssues | app/routes/resources+/caliber.tsx:15-17 | a present string raises no issue exactly when its length in UTF-16 code units is within the bounds; every issue it raises is on that field |
| Common.StringFieldIssues | app/routes/teams+/__team-editor.tsx:71-79 | a required length-checked field raises no issue exactly when it is sent non-empty with a UTF-16 length within the bounds |
| Common.ToUpper | app/routes/resources+/caliber.tsx:76 | upper-casing keeps the length and maps each character on its own |
| Common.ToUpperIdempotent | app/routes/resources+/caliber.tsx:76 | upper-casing twice equals upper-casing once |
| Common.SafeRedirect | app/routes/resources+/caliber.tsx:26-27 | the redirect target is always a local path (starts with "/" and not "//"), and it is either "/" or the requested target |
| DepthChartUpdate.ParseForm | app/routes/resources+/depthchart-update.tsx:6-11 | a submission parses exactly when playerId, position, depthLevel and teamId are all sent non-empty, and carries those four values |
| DepthChartUpdate.FirstIdByName | app/routes/resources+/depthchart-update.tsx:33-40 | a name resolves exactly when some row has it, and resolves to the id of the first such row |
| DepthChartUpdate.Planned | app/routes/resources+/depthchart-update.tsx:19-66 | a row is inserted exactly when the form parses, both names exist and the named slot of that team is free; the row carries the form's playerId and teamId and, for the position and the depth level, the id of the first row in storage order that carries the submitted name |
| DepthChartUpdate.Action | app/routes/resources+/depthchart-update.tsx:17-69 | answers 200 and appends the planned row when there is one, otherwise answers 400 and leaves the table unchanged; at most one entry per slot is preserved; the database invariant (one entry per slot, distinct caliber names, distinct level names) is kept |
| DepthChartUpdate.MissingFieldRejected | app/routes/resources+/depthchart-update.tsx:19-21 | a submission missing any of the four fields, or with one empty, inserts nothing |
| DepthChartUpdate.UnknownNameRejected | app/routes/resources+/depthchart-update.tsx:33-48 | an unknown position or depth-level name inserts nothing |
| DepthChartUpdate.InsertKeepsSlotsUnique | app/routes/resources+/depthchart-update.tsx:24-66 | inserting the planned row keeps at most one entry per (team, position, depth level) slot |
| DepthChartUpdate.ResubmitRejected | app/routes/resources+/depthchart-update.tsx:24-52 | after a submission succeeds, the same submission is refused: a filled slot is never overwritten |
| DepthChartUpdate.PlayerIdNotChecked | app/routes/resources+/depthchart-update.tsx:23-66 | two submissions differing only in the player id are accepted or refused alike, so one player may fill several slots |
| DepthChartView.FilterLevel | app/components/depth-chart.tsx:59 | filtering by level keeps only entries of that level |
| DepthChartView.FilterLevelKeepsLevel | app/components/depth-chart.tsx:59 | an entry is in the filtered list exactly when it is in the data with that level, and it occurs there as often as in the data |
| DepthChartView.FilterLevelKeepsOrder | app/components/depth-chart.tsx:59 | filtering a concatenation concatenates the filtered parts, so the entries keep their order |
| DepthChartView.FindSlot | app/components/depth-chart.tsx:59-64 | a slot is empty exactly when no entry matches both level and position, and otherwise shows the player of the first matching entry |
| DepthChartView.FilterThenFind | app/components/depth-chart.tsx:59-118 | filtering by level and then finding by position equals a single find on both conditions |
| DepthChartView.GoalieIgnoresPosition | app/components/depth-chart.tsx:56-57 | the goalie lookup finds a player exactly when some entry has that level, and takes the first entry of the level whatever its position |
| DepthChartView.GoalieButton | app/components/depth-chart.tsx:136-147 | a goalie button is blank exactly when some entry has its level, and otherwise shows its label |
| DepthChartView.Cells | app/components/depth-chart.tsx:150-291 | the chart's cells are exactly the cells of its rows |
| DepthChartView.LineReadsSlots | app/components/depth-chart.tsx:59-118 | every cell of a row has the row's level and shows the first entry of that level at the position it looks up |
| DepthChartView.ChartReadsSlots | app/components/depth-chart.tsx:150-291 | every cell of the whole chart shows the first entry of its level at the position it looks up |
| DepthChartView.FullStrengthRows | app/components/depth-chart.tsx:150-261 | each full-man and power-play level has a forward row and a defence row |
| DepthChartView.PenaltyKillRows | app/components/depth-chart.tsx:262-291 | each penalty-kill level has a penalty-kill forward row and a defence row |
| DepthChartView.RowLevels | app/components/depth-chart.tsx:150-291 | every row's level is full strength or penalty kill, forward rows are full strength only, penalty-kill forward rows are penalty kill only |
| DepthChartView.LineLookups | app/components/depth-chart.tsx:359-427 | forward rows look up LW, C and RW and defence rows LD and RD, each cell showing the position it looks up; a penalty-kill forward row shows PK-1 and PK-2 but looks up LW and C |
| DepthChartView.RowsLookups | app/components/depth-chart.tsx:265-285 | in any well-placed rows every cell looks up a skater position, penalty-kill levels never RW, and only penalty-kill forward cells show a position other than the one they look up |
| DepthChartView.ChartLookups | app/components/depth-chart.tsx:59-118 | the same four facts for the rendered chart |
| DepthChartView.CellOfRow | app/components/depth-chart.tsx:150-291 | a cell of one of the rows is a cell of the chart |
| DepthChartView.FullStrengthCoverage | app/components/depth-chart.tsx:59-106 | rows with a forward and a defence row for each full-strength level show every skater position of every such level |
| DepthChartView.PenaltyKillCoverage | app/components/depth-chart.tsx:108-118 | rows with both penalty-kill rows for each penalty-kill level show LW, C, LD and RD of every such level |
| DepthChartView.ChartCoverage | app/components/depth-chart.tsx:59-118 | fm-1..fm-4 and pp-1..pp-3 show all five skater positions; pk-1 and pk-2 show LW, C, LD and RD |
| DepthChartView.FixedChartReadsWhatItWrites | app/components/depth-chart.tsx:412-427 | in the corrected chart every cell looks up the position it shows and sends |
| DepthChartView.AppendFillsEmptySlot | app/routes/resources+/depthchart-update.tsx:58-66 | appending an entry for an empty slot makes that slot show the entry's player |
| DepthChartView.LineShape | app/components/depth-chart.tsx:359-427 | a row's cells differ between two data sets only in the players they show |
| DepthChartView.FixedCellShowsAssignment | app/components/depth-chart.tsx:412-427 | corrected chart: once the entry that a click on an empty cell asks for is stored, that cell shows the chosen player |
| DepthChartView.PenaltyKillCellMissesItsAssignment | app/components/depth-chart.tsx:412-423 | as written: the PK-1 cell of penalty kill 1 asks for position PK-1 but stays empty after that entry is stored |
| DepthChartView.CharAt0 | app/components/depth-chart.tsx:446 | the initial is the name's first UTF-16 code unit (the character itself below U+10000, a lone high surrogate above), or empty for an empty name |
| DepthChartView.Render | app/components/depth-chart.tsx:443-455 | a cell shows a dialog trigger labelled with its position exactly when no player fills it, and otherwise the player's jersey number, the first code unit of the first name and the last name |
| DepthChartView.SubmitPayload | app/components/depth-chart.tsx:319-325 | the request holds playerId, position, depthLevel and teamId; position and depth level are empty strings when no slot is pending |
| DepthChartView.DepthChartDialog.constructor | app/components/depth-chart.tsx:50-54 | the dialog starts closed with no pending slot |
| DepthChartView.DepthChartDialog.HandleUpdateLine | app/components/depth-chart.tsx:120-123 | opens the dialog and sets the pending slot to the given position and level |
| DepthChartView.DepthChartDialog.Click | app/components/depth-chart.tsx:359-455 | clicking an empty cell opens the dialog with that cell's position and level pending; a filled cell has no trigger and changes nothing |
| DepthChartView.DepthChartDialog.SetDialogOpen | app/components/depth-chart.tsx:126 | the dialog's open-change sets the open flag |
| DepthChartView.DepthChartDialog.ChooseRosterRow | app/components/depth-chart.tsx:317-331 | choosing a roster row closes the dialog, keeps the pending slot and submits the player, the team and the pending slot |
| DepthChartView.PayloadWithoutSlotRejected | app/components/depth-chart.tsx:322-323 | a choice made with no pending slot sends a request that the update action refuses |
| DepthChartView.PayloadWithSlotParses | app/components/depth-chart.tsx:319-325 | a choice made with a pending slot sends a request that the update action reads back as that player, slot and team |
| CaliberResource.CreateIssues | app/routes/resources+/caliber.tsx:15-63 | a create form raises no issue exactly when the name has 1 to 10 UTF-16 code units and its upper-cased form is not stored; a stored upper-cased name raises 'This caliber already exists' on `name` |
| CaliberResource.DeleteIssues | app/routes/resources+/caliber.tsx:19-21 | a delete form raises no issue exactly when the caliber id has 25 to 35 UTF-16 code units |
| CaliberResource.Delete | app/routes/resources+/caliber.tsx:29-47 | a delete succeeds exactly when submitted, valid and the id is stored; it removes that caliber and redirects to the sanitised target; anything else writes nothing |
| CaliberResource.Create | app/routes/resources+/caliber.tsx:48-81 | a create succeeds exactly when submitted with no issue; it stores the upper-cased name under the new id; anything else writes nothing |
| CaliberResource.Step | app/routes/resources+/caliber.tsx:23-87 | only a successful create or delete writes; a create adds exactly one caliber, a delete removes exactly one stored caliber |
| CaliberResource.Action | app/routes/resources+/caliber.tsx:23-87 | the action's answer and new table are those of `Step`; distinct stored names stay distinct; the database invariant (one entry per slot, distinct caliber names, distinct level names) is kept |
| CaliberResource.CreateSucceedsIff | app/routes/resources+/caliber.tsx:48-81 | a create answers 'successful' exactly when submitted with a name of 1 to 10 UTF-16 code units whose upper-cased form is not stored, and stores the upper-cased name |
| CaliberResource.AstralNameTooLong | app/routes/resources+/caliber.tsx:15-17 | six characters above U+FFFF are twelve code units, so the name is refused as too long and nothing is stored |
| CaliberResource.DuplicateCreateRejected | app/routes/resources+/caliber.tsx:50-73 | a create whose upper-cased name is stored answers 400 with the duplicate issue on `name` and writes nothing |
| CaliberResource.CaseVariantRejected | app/routes/resources+/caliber.tsx:50-77 | after a create succeeds, a create whose name differs only in case fails |
| CaliberResource.CreateKeepsNamesDistinct | app/routes/resources+/caliber.tsx:50-77 | a successful create keeps stored caliber names distinct |
| CaliberResource.DeleteKeepsNamesDistinct | app/routes/resources+/caliber.tsx:40-41 | a delete keeps stored caliber names distinct |
| CaliberResource.InsertKeepsNamesUpperCase | app/routes/resources+/caliber.tsx:76-77 | storing an upper-case name keeps all stored names upper case |
| CaliberResource.RemoveKeepsNamesUpperCase | app/routes/resources+/caliber.tsx:41 | removing a caliber keeps all stored names upper case |
| CaliberResource.StepKeepsNamesUpperCase | app/routes/resources+/caliber.tsx:23-87 | the action keeps every stored caliber name upper case |
| CaliberResource.DeleteSucceedsIff | app/routes/resources+/caliber.tsx:19-47 | a delete succeeds exactly when submitted with a stored id of 25 to 35 UTF-16 code units; it removes exactly that caliber and redirects to a local path |
| CaliberResource.DeleteMissingNotFound | app/routes/resources+/caliber.tsx:40-41 | a well-formed delete of an id no caliber has fails in the database and writes nothing |
| CaliberResource.UnsubmittedIsIdle | app/routes/resources+/caliber.tsx:33-69 | an unsubmitted create or delete answers 'idle' and writes nothing |
| CaliberResource.OtherIntentInvalid | app/routes/resources+/caliber.tsx:82-86 | any other intent, or none, is the thrown 400 and writes nothing |
| AdminCalibers.Decide | app/routes/admin+/calibers.tsx:29-56 | the delete is done exactly when the id is sent, stored and no team belongs to it; it then answers an empty error list, and a refusal carries the single explanatory error |
| AdminCalibers.After | app/routes/admin+/calibers.tsx:53 | only a done delete changes the table, removing exactly that caliber |
| AdminCalibers.Action | app/routes/admin+/calibers.tsx:29-56 | the answer and the new table are those of `Decide` and `After`; every team keeps a stored caliber, and names stay distinct; the database invariant (one entry per slot, distinct caliber names, distinct level names) is kept |
| AdminCalibers.ReferencedNotDeleted | app/routes/admin+/calibers.tsx:42-52 | a caliber some team belongs to is not deleted; the answer is the 400 with 'Some teams belong to this caliber; caliber cannot be deleted.' |
| AdminCalibers.MissingCases | app/routes/admin+/calibers.tsx:31-41 | no caliber id is the thrown 400; an id no caliber has is the thrown 404 |
| AdminCalibers.DeleteKeepsTeamsHaveCalibers | app/routes/admin+/calibers.tsx:35-55 | if every team belongs to a stored caliber before the action, it still does after |
| LevelResource.DuplicateMessage | app/routes/resources+/level.tsx:29 | the duplicate message embeds the submitted name |
| LevelResource.Issues | app/routes/resources+/level.tsx:12-35 | a level form raises no issue exactly when the name has 1 to 10 UTF-16 code units and is not stored verbatim; a stored name raises the duplicate issue on `name` |
| LevelResource.Step | app/routes/resources+/level.tsx:16-48 | only a success writes, and it adds exactly one level |
| LevelResource.Action | app/routes/resources+/level.tsx:16-48 | the answer and new table are those of `Step`; distinct level names stay distinct; the database invariant (one entry per slot, distinct caliber names, distinct level names) is kept |
| LevelResource.CreateSucceedsIff | app/routes/resources+/level.tsx:37-47 | a create answers 'success' exactly when submitted with a name of 1 to 10 UTF-16 code units that no level has, and stores the name unchanged |
| LevelResource.DuplicateRejected | app/routes/resources+/level.tsx:20-43 | a name some level has verbatim is refused with the duplicate issue on `name` |
| LevelResource.CaseVariantAccepted | app/routes/resources+/level.tsx:21-46 | names are compared verbatim: after "a" is created, "A" is accepted too |
| LevelResource.CreateKeepsNamesDistinct | app/routes/resources+/level.tsx:20-46 | storing a name no level has keeps level names distinct |
| LevelResource.ResubmitRejected | app/routes/resources+/level.tsx:20-33 | after a create succeeds, the same create fails |
| TeamEditor.Issues | app/routes/teams+/__team-editor.tsx:67-79 | a team form raises no issue exactly when the name has 3 to 20 UTF-16 code units and the five ids exactly 30 each; the optional id never raises one |
| TeamEditor.Parse | app/routes/teams+/__team-editor.tsx:33-41 | a valid form yields the six submitted columns and the id, if one was sent non-empty |
| TeamEditor.UpsertKey | app/routes/teams+/__team-editor.tsx:45 | the key is the submitted id, or '__new_team__' without one |
| TeamEditor.Upsert | app/routes/teams+/__team-editor.tsx:43-62 | a stored key is overwritten with the team; otherwise the team is created under a fresh id |
| TeamEditor.Step | app/routes/teams+/__team-editor.tsx:16-65 | only a save writes, and the saved team's id is the only key that may be new |
| TeamEditor.Action | app/routes/teams+/__team-editor.tsx:16-65 | the answer and new table are those of `Step`; the database invariant (one entry per slot, distinct caliber names, distinct level names) is kept |
| TeamEditor.SavedIff | app/routes/teams+/__team-editor.tsx:17-79 | a team is saved exactly when a user is signed in and a valid form is submitted |
| TeamEditor.CreateWithoutId | app/routes/teams+/__team-editor.tsx:43-53 | without an id, and with no team keyed '__new_team__', one team is added from the six fields |
| TeamEditor.UpdateExisting | app/routes/teams+/__team-editor.tsx:43-61 | with the id of a stored team, that team's columns are overwritten and no other team changes |
| TeamEditor.UnknownIdCreatesFresh | app/routes/teams+/__team-editor.tsx:43-53 | an id no team has is not used: the team is created under a fresh id |
| TeamEditor.UpdateIdempotent | app/routes/teams+/__team-editor.tsx:43-62 | resubmitting an update leaves the table as the first submission left it |
| TeamEditor.CreateTwiceAddsTwo | app/routes/teams+/__team-editor.tsx:43-53 | resubmitting a create without an id adds a second team |
| TeamEditor.AnonymousRedirected | app/routes/teams+/__team-editor.tsx:17 | without a signed-in user nothing is parsed or written |
| PlayerEditor.Issues | app/routes/resources+/player-editor.tsx:6-20 | the form raises no issue exactly when statusId and playerId are both sent non-empty; every issue is a missing field |
| PlayerEditor.Step | app/routes/resources+/player-editor.tsx:11-42 | only a success writes; it keeps the set of players and answers the full status list |
| PlayerEditor.Action | app/routes/resources+/player-editor.tsx:11-42 | the answer and new table are those of `Step`; the database invariant (one entry per slot, distinct caliber names, distinct level names) is kept |
| PlayerEditor.UpdateSucceedsIff | app/routes/resources+/player-editor.tsx:15-39 | an update succeeds exactly when actionId is 'update-status', the form is submitted, both fields are sent and the player exists |
| PlayerEditor.OnlyStatusChanges | app/routes/resources+/player-editor.tsx:30-35 | on success the named player's statusId is the submitted one, its other columns are unchanged, and no other player changes |
| PlayerEditor.OtherActionIgnored | app/routes/resources+/player-editor.tsx:13-42 | any other actionId gets no response and writes nothing |
| PlayerEditor.UpdateIdempotent | app/routes/resources+/player-editor.tsx:30-39 | setting the same status twice leaves what setting it once left |
| Status.MarkerColour | app/routes/resources+/status.tsx:56-63 | emerald exactly for 'Present', red exactly for 'Injured' or 'Suspended', amber exactly for every other name |
| Status.MarkerColourTotal | app/routes/resources+/status.tsx:57-62 | every name gets one of the three colours; the second clause, that the three colour constants differ, only records that the model's constants are distinct |
| Status.LowerCasePresentIsAmber | app/routes/resources+/status.tsx:58 | names are compared exactly: 'present' is amber |
| Status.Items | app/routes/resources+/status.tsx:39 | one item per status in order, labelled with the status name |
| Status.Payload | app/routes/resources+/status.tsx:40-48 | choosing a value posts actionId 'update-status', the value as statusId and the row's playerId |
| Status.ChoosingUpdatesStatus | app/routes/resources+/status.tsx:40-48 | choosing a non-empty status for an existing player sets exactly that player's status and answers the full status list |
| UserTeams.Teams | app/routes/resources+/user.teams.tsx:34-45 | no teams without a coach profile; otherwise coached teams then supported teams, in order and not de-duplicated |
| UserTeams.Label | app/routes/resources+/user.teams.tsx:49 | a label is level name, caliber name and team name joined by single spaces |
| UserTeams.Items | app/routes/resources+/user.teams.tsx:47-50 | one item per team in the same order, with the team's id and label |
| UserTeams.FindId | app/routes/resources+/user.teams.tsx:46 | a find yields the id of the first team its predicate accepts, or nothing when it accepts none |
| UserTeams.Loader | app/routes/resources+/user.teams.tsx:7-52 | a signed-out request is redirected; otherwise the items and the default team are built from the listed teams |
| UserTeams.DefaultIsFirst | app/routes/resources+/user.teams.tsx:46 | the default team is the first listed team's id, and there is none only for an empty list |
| UserTeams.NoProfileNoTeams | app/routes/resources+/user.teams.tsx:34-45 | a user without a coach profile gets no items and no default |
| UserTeams.CoachedFirst | app/routes/resources+/user.teams.tsx:40-50 | with a coach profile, items list coached then supported teams, and the default is the first coached team |
| Permissions.Selected | app/utils/permissions.server.ts:7-15 | a gate returns the user's admin profile, email, id and image |
| Permissions.RequireCoach | app/utils/permissions.server.ts:5-25 | signed-out requests are redirected; the user passes exactly when their coach profile has a role named 'coach'; otherwise 403 with requiredRole 'coach' |
| Permissions.RequirePlayer | app/utils/permissions.server.ts:27-50 | the same gate on the player profile and role 'player' |
| Permissions.RequireAdmin | app/utils/permissions.server.ts:52-72 | the same gate on the admin profile and role 'admin' |
| Permissions.AdminIsNotCoach | app/utils/permissions.server.ts:5-72 | an admin without the coach role is refused by the coach gate and admitted by the admin gate |
| Permissions.RoleOnWrongProfile | app/utils/permissions.server.ts:16 | a user without a coach profile never passes the coach gate |
| Home.Loader | app/routes/index.tsx:6-37 | logout exactly for a signed-in id with no user row; '/admin' exactly for a user with an admin and no coach profile; any other redirect is '/coach/' followed by the coach profile's id |
| Home.CoachFirst | app/routes/index.tsx:34-35 | a user with a coach profile goes to their coach page, admin profile or not |
| Home.EmptyBodyIff | app/routes/index.tsx:13-36 | the empty body is answered exactly to a signed-out visitor or a user with neither a coach nor an admin profile |
| DbUtils.Prefix | tests/db-utils.ts:48 | slicing keeps the first 20 code units, or all of a shorter string |
| DbUtils.LowerUnit | tests/db-utils.ts:49 | lower-casing maps an upper-case ASCII letter to its lower-case letter and leaves every other code unit alone |
| DbUtils.ToLower | tests/db-utils.ts:49 | lower-casing keeps the length and maps each code unit on its own |
| DbUtils.AllowedUnit | tests/db-utils.ts:50 | a code unit matches [a-z0-9_] exactly when it is the ASCII code of one of those characters |
| DbUtils.ReplaceDisallowed | tests/db-utils.ts:50 | each code unit outside [a-z0-9_], surrogates included, becomes '_', the others are kept, length unchanged |
| DbUtils.Username | tests/db-utils.ts:37-50 | the username has the first 20 UTF-16 code units' worth of characters (fewer for a shorter name), all in [a-z0-9_] |
| DbUtils.UsernameChars | tests/db-utils.ts:48-50 | for a name of characters below U+10000, each of the first 20 characters is lower-cased, then kept if in [a-z0-9_] and replaced by '_' otherwise |
| DbUtils.AstralBecomesTwoUnderscores | tests/db-utils.ts:48-50 | a character above U+FFFF becomes two underscores, one per surrogate |
| DbUtils.UsernameIdempotent | tests/db-utils.ts:48-50 | sanitising a sanitised username changes nothing |
| DbUtils.Email | tests/db-utils.ts:51-53 | the email is the username followed by '@example.com' |
| DbUtils.EmailHasOneAt | tests/db-utils.ts:48-53 | a generated email has exactly one '@', right after the username |
| DbUtils.IntInRange | tests/db-utils.ts:10 | a generated integer lies within the requested bounds |
| DbUtils.IntInRangeReachesAll | tests/db-utils.ts:10 | every integer within the bounds is produced by some draw |
| DbUtils.CreatePlayer | tests/db-utils.ts:7-17 | height in 165..210, jersey number in 1..99, weight in 60..130 |
| DbUtils.CreateRecord | tests/db-utils.ts:19-31 | each count within its non-negative range, plus-minus in -70..70 |

## Left out

- Remix, HTTP, sessions and cookies are not modelled.
  - An answer is a datatype value.
  - A thrown response is one more variant of that value.
  - The signed-in user id is an input.
  - `requireUserId` is modelled only as "no user id means a redirect to log in". Its own code, `app/utils/auth.server.ts`, is not part of this model.
- Prisma is replaced by in-memory tables. The Prisma schema is not part of this model, so neither are its foreign-key checks or referential actions:
  - the resource route's caliber delete removes the row whatever teams refer to it;
  - the status update stores any non-empty statusId.
- Ids the database generates are the `newId` parameter.
- The zod and conform machinery is modelled only by its outcome:
  - Each schema is a list of issues.
  - Length issues are issue kinds; their message texts are not modelled.
  - The submission echoed back in each answer is not modelled.
  - The conform intent is the boolean `submitted`.
- Requests are handled one at a time. The check-then-write sequences are not atomic in the application (the depth-chart insert, the caliber and level duplicate checks, the admin caliber delete), so races between requests are not captured.
- The toast title and description of the caliber delete redirect are not modelled; only the redirect target is.
- The depth-chart view takes the entries it shows as input. The dashboard loader that builds them is not part of this model, so the model does not connect the view's entries to the depth-chart table's id-based rows.
- Presentation is left out: tabs, the roster table, animation, class names of cells, and the `UserTeamsSelectBox` component (which renders nothing).
- `DepthChartView.DepthChartDialog.ChooseRosterRow`: returns the request it would submit instead of calling the fetcher.
- Loader plumbing is left out: the timings and console message of the home loader, and the status list fetch of `PlayerStatusSelectBox`.
- `Common.ToUpper`: maps ASCII letters only. JavaScript's `toUpperCase` also maps other letters and can change a string's length (ß becomes SS), so caliber names with non-ASCII letters are not modelled faithfully.
- `DbUtils.Username`: lower-cases ASCII letters only. JavaScript's `toLowerCase` also maps other letters; a few of them become ASCII (the Kelvin sign becomes k) or grow in length (İ), which the model does not capture.
- `DbUtils.LowerUnit`: lowers ASCII letters only. JavaScript's `toLowerCase` also maps other characters, some of them to ASCII: the Kelvin sign U+212A becomes "k", where the model keeps the unit and the replacement then gives "_".
- `DbUtils.ToLower`: keeps the length and maps each code unit on its own, which JavaScript's `toLowerCase` does not always do: "İ" lower-cases to two code units, and a final "Σ" lower-cases according to the letters around it.
- `DbUtils.UsernameChars`: its per-character statement uses the ASCII-only lowering, so for a non-ASCII letter that JavaScript lowers into `[a-z0-9_]` (the Kelvin sign) it states '_' where the program yields "k"; it is exact for names of ASCII characters.
- `Common.SafeRedirect`: the `remix-utils` code is not part of this model, and the application does not pin its version. The model assumes the rule "keep a target that starts with "/" and not with "//", otherwise "/"". Releases that also trim the target and refuse targets starting with "/\" or containing ".." are not modelled; under them some targets the model keeps become "/" (such as "/a/../b"), and some targets the model sends to "/" are kept after trimming (" /teams" becomes "/teams"), so the clause that the result is "/" or the requested target does not hold for them.
- `CaliberResource.CreateIssues`: lists every issue of the submission. The caliber and level routes parse without `acceptMultipleErrors`, so the answer they send keeps only the first message per field; the model does not drop the later ones. The same holds for `LevelResource.Issues`.
- `DepthChartView.CharAt0`: a lone surrogate is not a character in the model, so the initial is a sequence of code units rather than a string.
- The test-data helpers leave out the birth date, the random names and hometowns, the uniqueness enforcer, password hashing (`createPassword`) and the random draws themselves. A draw is a parameter.
- Onboarding, the read-only loaders, seeding and the end-to-end tests are not modelled.

## Findings

| source | as written | input that shows it | evidently intended | confidence | as-written member | corrected member |
|---|---|---|---|---|---|---|
| app/components/depth-chart.tsx:412-427 | the penalty-kill forward cells are given the pk line's LW and C entries (lines 265-270 and 280-285), but a click on them asks for positions 'PK-1' and 'PK-2' | with a position named PK-1 stored, click the empty PK-1 cell of penalty kill 1 and choose a player: the entry stored is (pk-1, PK-1), and the cell still shows the empty trigger because it looks up (pk-1, LW); without such a position (as in the seed data) the update is refused instead | a cell looks up the slot its click fills, so an assignment shows in the cell that made it | not executed | DepthChartView.PenaltyKillCellMissesItsAssignment | DepthChartView.FixedCellShowsAssignment |
