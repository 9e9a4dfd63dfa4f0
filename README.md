# NEST scoring: a Dafny model

NEST runs attack/defence competitions. Each team gets a copy of the same
virtual machines, and a scoring engine probes every team's services in
rounds. The probes cover DNS forward and reverse lookups, SSH logins,
databases whose schema must match a SQL file, and others. Points and up or
down status go into a database. Three readers use that database:

- a Flask dashboard that shows the status matrix, the leaderboard, each
  team's services with their uptime, and announcements;
- a small Go JSON API;
- two React charts.

This project models the decision logic of that core in Dafny and proves
what it promises:

- **Scoring engine** (`scoring/scoring.go`): the engine state machine
  (start, stop, pause, resume); how one round picks the services to score;
  how an ip-schema such as `10.0.T.5` becomes a team's address.
- **DNS checks** (`services/dns.go`): the team number taken from the
  resolver address; the `<t>` template; PTR names (`reverseIP`); the
  trailing-dot rule of `dns.Fqdn`; the line-by-line verdict of the four DNS
  checks.
- **Configuration parsing** (`parser/yamlParsing.go`, and its older copy
  `config/yamlParsing.go`): section checks, team ids, the required official
  VMs, ip-schema validation, and per-VM services, given inline or loaded
  from a services file.
- **SSH user file** (`scoring/ssh.go`): the line filter and the `user:password`
  split.
- **Database schema check** (`scoring/db.go`): the existing schema is
  grouped from `information_schema` rows, and every `CREATE TABLE` column
  must exist in it.
- **JSON API** (`api/handlers.go`): the three handlers, including the
  grouping of score rows into one record per team.
- **Dashboard** (`web/webserver.py`): page routing; the status matrix
  (sorted distinct service columns, team to service to up); the leaderboard
  (points summed per team, highest first); the last ten checks of a service;
  the uptime column; announcements (listing, create, edit, toggle, delete)
  as a class over its table.
- **Charts** (`ScoreGraph.tsx`, `ServiceUptime.tsx`): per-team totals
  sorted in place; the uptime grid and its colour bands.

The modules follow the source files: `Scoring`, `Dns`, `Parser`,
`LegacyConfig`, `IpSchema`, `SshUsers`, `DbSchema`, `Api`, `Users`,
`Dashboard`, `Announcements`, `ScoreGraph` and `ServiceUptime`. A few
shared modules support them:

- `Wrappers`: Option and Result.
- `Text`: Go's `strings.Split`/`Join`/`SplitN`/`Replace`/`TrimSpace`/`Fields`
  and `strconv.Atoi`.
- `Sorting`: a stable descending sort by key.
- `Seqs`: sequence facts.
- `Rows`: scanned query rows, and the two-level grouping that both the
  matrix and the schema check build.
- `Enum`: the configuration records and the dispatch table.
- `TeamHandler`: the front end's team record.

A database query is an input value. It is either an error, or a sequence
of rows in which each row either scanned or failed to scan, plus a flag for
an error that `rows.Err` reports at the end.

Go map iteration order is unspecified. The loops that range over a map
therefore pick their next key with `:|`, and their contracts hold for
every order.

Four behaviours of the code that the model keeps as written:

- `services()` (web/webserver.py:234-237) divides by the total number of
  checks. A service with no checks raises a division by zero, the exception
  ends the loop, and that row and every later row get no uptime.
  `Dashboard.AnnotateUptime` models exactly that.
- The leaderboard query orders by total points only, so the database
  decides the order of teams with equal totals. The model keeps teams with
  equal totals in the order their groups appear, because its sort is
  stable.
- `graphs()` and `services()` catch a failed query, log it and render the
  page with empty data, so a failed query looks like an empty table. That
  exception path is listed under Left out.
- The uptime is not clamped: a service with more successful checks than
  checks would show more than 100%. The uptime lemmas assume
  `successful <= total`.

## Model

| member | source | states |
|---|---|---|
| Scoring.Engine.constructor | scoring/scoring.go:64-65 | a fresh engine is neither enabled nor paused and reports "stopped" |
| Scoring.Engine.State | scoring/scoring.go:310-318 | "paused", "running" and "stopped" each hold exactly in their flag combination, so the three states partition the flags |
| Scoring.Engine.Start | scoring/scoring.go:257-265 | a stopped engine becomes running; an enabled engine keeps both flags |
| Scoring.Engine.Stop | scoring/scoring.go:269-277 | from any state the engine ends up stopped with both flags cleared |
| Scoring.Engine.Pause | scoring/scoring.go:281-292 | only a running engine pauses; any other state is left exactly as it was |
| Scoring.Engine.Resume | scoring/scoring.go:296-307 | only a paused engine resumes to running; any other state is left exactly as it was |
| Scoring.ConstructIPAddress | scoring/scoring.go:240-251 | fails exactly when the schema does not have four dot-separated parts; a schema without a team letter comes back unchanged |
| Scoring.SubstitutesTheLetter | scoring/scoring.go:247-248 | a schema with one team letter (t or T) gets the team id in decimal in its place and is otherwise unchanged |
| Scoring.AddressOfParts | scoring/scoring.go:242-250 | for four parts where the third or the fourth may be the letter, the address is the parts with that letter replaced by the team id |
| Scoring.ValidSchemaAddress | scoring/scoring.go:240-251 | every schema that validateIPSchema accepts builds an address, and that address is the schema with its T octet replaced by the team id |
| Scoring.FullServiceName | scoring/scoring.go:121 | the full name is the VM name, an underscore, then the service name, with the underscore right after the VM name |
| Scoring.ServiceNameOf | scoring/scoring.go:185-190 | the split fails exactly when the name has no underscore; otherwise the name is some underscore-free VM name joined to the result |
| Scoring.NameRoundTrip | scoring/scoring.go:185-190 | splitting a name built from an underscore-free VM name gives back the service name |
| Scoring.RoundErrorSticks | scoring/scoring.go:163-168 | once a team's services cannot be read, the round ends there: later teams change nothing |
| Scoring.RoundOf | scoring/scoring.go:154-213 | a round without error had every team's services; a round with error names a team whose services could not be read |
| Scoring.Score | scoring/scoring.go:154-213 | without the team list the round fails with no targets; otherwise the round is RoundOf the teams, so a service is scored only if one of the lemmas below lets it through |
| Scoring.ScoreTeam | scoring/scoring.go:171-209 | the services loop, with its continue branches, yields exactly TeamTargets of the team |
| Scoring.TargetOf | scoring/scoring.go:171-195 | a service is scored exactly when it is enabled, its VM is configured, its name has an underscore and the part after it is a service of that VM; the target carries the team, the service, that VM and that service's config |
| Scoring.TeamTargets | scoring/scoring.go:171-195 | a team yields at most one target per service, each for that team and an enabled service |
| Scoring.TeamTargetsSound | scoring/scoring.go:171-195 | every scored target is an enabled service of the team; its VM is in the configuration, its name splits to a service of that VM, and it carries that VM's config |
| Scoring.TeamTargetsComplete | scoring/scoring.go:171-195 | every service that passes all the skip rules is scored |
| Scoring.SelectService | scoring/scoring.go:217-231 | succeeds exactly when the schema has four parts and the service is in the dispatch table, and then yields the constructed address |
| Dns.SplitHostPortSound | services/dns.go:20-28 | what the port strip accepts is a host and a colon-free port, joined by a colon, the host bracketed or not |
| Dns.PlainHostPort | services/dns.go:20-28 | host:port with a plain host splits back into that host and port |
| Dns.BracketedHostPort | services/dns.go:20-28 | [host]:port splits back into that host and port |
| Dns.HostOf | services/dns.go:20-28 | a resolver address without a colon is its own host; otherwise the host is the whole address (a malformed host:port) or the host part of `host:port` or `[host]:port` with a plain port |
| Dns.TeamNumberFromAddress | services/dns.go:18-44 | succeeds exactly when the host has four dot-separated parts and the mode is external or internal; yields the fourth part for external and the third for internal |
| Dns.TeamOfResolver | services/dns.go:18-44 | for a dotted resolver address, with or without a port, external mode yields the fourth octet and internal mode the third |
| Dns.ReplaceTeamToken | services/dns.go:47-49 | replaces each `<t>`, leftmost first; NoTokenUnchanged, ReplaceAfterPrefix, NoTokenRemains and FillTemplate state its properties |
| Dns.NoTokenUnchanged | services/dns.go:47-49 | a name without `<t>` is left unchanged |
| Dns.ReplaceAfterPrefix | services/dns.go:47-49 | the first `<t>` after a token-free prefix becomes the team, and replacing goes on after it |
| Dns.NoTokenRemains | services/dns.go:47-49 | for a non-empty team without `<`, `t` or `>`, no `<t>` is left afterwards |
| Dns.FillTemplate | services/dns.go:47-49 | a template made of token-free pieces joined by `<t>` becomes the same pieces joined by the team |
| Dns.ReverseIP | services/dns.go:53-60 | fails exactly when the address does not have four dot-separated parts |
| Dns.ReverseLabels | services/dns.go:53-60 | the PTR labels are the four octets in reverse, then in-addr, arpa and the empty root label |
| Dns.ReverseIsJoin | services/dns.go:53-60 | the PTR name is those labels joined by dots |
| Dns.ReverseRoundTrip | services/dns.go:53-60 | reading the octets back from a PTR name gives back the original address |
| Dns.Fqdn | services/dns.go:190-198 | the result always ends in a dot; a name already fully qualified is unchanged, any other gets one dot appended |
| Dns.FqdnIdempotent | services/dns.go:190-198 | qualifying a name twice is the same as once, and the result counts as fully qualified |
| Dns.ForwardCheck | services/dns.go:123-139 | a forward line passes exactly when the lookup answers and the expected address is among the answers |
| Dns.ReverseCheck | services/dns.go:178-201 | a reverse line passes exactly when the lookup answers and the qualified expected name is among the answers |
| Dns.FieldsResult | services/dns.go:113-139 | a line with enough fields passes exactly when its query, filled in for the team, is answered as expected |
| Dns.LineResult | services/dns.go:107-121 | a line passes exactly when it is blank, or has at least four fields and is answered |
| Dns.FirstErrorNone | services/dns.go:106-140 | the line loop finds no error exactly when every line passes |
| Dns.DnsUpIff | services/dns.go:94-146 | a DNS check is up exactly when the resolver address is well formed, the query file opens and reads cleanly, and every line passes; up means the service's award and no error, down means zero points and an error |
| Dns.Contains | services/dns.go:130-136 | the found loop reports true exactly when the expected value is among the answers |
| Dns.CheckLine | services/dns.go:107-140 | one pass of the line loop yields LineResult of that line |
| Dns.QueryFields | services/dns.go:113-139 | the query step for a line with enough fields yields FieldsResult |
| Dns.QueryForward | services/dns.go:123-139 | the forward query yields ForwardCheck |
| Dns.QueryReverse | services/dns.go:178-201 | the reverse query yields ReverseCheck |
| Dns.ScoreDns | services/dns.go:94-146 | points, up and error are DnsOutcome, with the meaning DnsUpIff gives it |
| IpSchema.ValidateIPSchema | parser/yamlParsing.go:160-186 | the two octet loops and the T count report the first failing octet; the schemas that pass build addresses (Scoring.ValidSchemaAddress) |
| IpSchema.SchemaCheck | parser/yamlParsing.go:160-186 | a schema passes exactly when it has four octets, the first two numbers, the last two numbers or T, and not both T; a wrong count is reported exactly for a count other than four, and a bad octet is reported with its position and text |
| Parser.Absent | parser/yamlParsing.go:60-68 | the names reported missing are exactly the required names the official section lacks |
| Parser.AbsentAppend | parser/yamlParsing.go:60-68 | the missing names of a concatenation are those of each part in order, so the report keeps the order of the required list |
| Parser.MissingInOrder | parser/yamlParsing.go:60-68 | the missing names are router, scorer and dns, each exactly when the official section lacks it, in that order |
| Parser.Quoted | parser/yamlParsing.go:70-73 | each name is wrapped in single quotes, in order |
| Parser.SectionError | parser/yamlParsing.go:33-75 | no error exactly when every section is present, every team id is positive, there is at least one VM and router, scorer and dns are all official; otherwise the first failing check in source order names the error: missing VM section, missing official section, missing teams, a non-positive team id, no VMs, fewer than three official VMs, then the missing required names |
| Parser.ServicesRejectedIff | parser/yamlParsing.go:125-153 | a services map is refused exactly when there is an error to report: no services, or some service unknown or without a port |
| Parser.ValidateServices | parser/yamlParsing.go:125-153 | accepts exactly the non-empty maps whose services are all known and have a port; a refusal names one bad service |
| Parser.LoadServicesFromConfig | parser/yamlParsing.go:109-122 | an unreadable file is an error naming it; otherwise the file's services are returned exactly when they validate |
| Parser.VmRejectedIff | parser/yamlParsing.go:78-101 | a VM is refused exactly when it has an error to report |
| Parser.CheckTeamIds | parser/yamlParsing.go:44-48 | accepts exactly when every team id is positive |
| Parser.MissingOfficialMessage | parser/yamlParsing.go:60-75 | no message when nothing is missing, otherwise the message listing the missing names quoted |
| Parser.QuoteAll | parser/yamlParsing.go:70-73 | the quoting loop yields Quoted |
| Parser.CheckSections | parser/yamlParsing.go:33-75 | the section checks yield SectionError |
| Parser.CheckVm | parser/yamlParsing.go:78-101 | accepts exactly the VMs with a valid schema and acceptable services, inline or from their file, and yields the VM with its loaded services |
| Parser.OverlayDone | parser/yamlParsing.go:94-95 | writing back every loaded VM gives the loaded VM section |
| Parser.CheckVms | parser/yamlParsing.go:78-102 | accepts exactly when every VM is acceptable and then yields the loaded section; a refusal is the error of some VM |
| Parser.ParseYAML | parser/yamlParsing.go:20-105 | a section error is returned as is; otherwise the parse succeeds exactly when every VM is acceptable, with the VM section replaced by the loaded one |
| Parser.AcceptedVmsAreScorable | parser/yamlParsing.go:78-101 | after a successful parse every VM has a valid ip-schema and a non-empty map of known services with ports |
| Parser.ZeroAwardSurvives | parser/yamlParsing.go:141-144 | as written, a service with award 0 still has award 0 after the parse |
| Parser.DefaultAwards | parser/yamlParsing.go:141-144 | the intended default: the same services, award 0 becomes 1, other services unchanged |
| Parser.LoadedWithDefaults | parser/yamlParsing.go:141-144 | the intended parse result: the same VMs, with no zero award anywhere |
| Parser.DefaultsKeepAccepted | parser/yamlParsing.go:141-144 | the corrected result keeps every accepted VM scorable and changes only the zero awards |
| LegacyConfig.SectionError | config/yamlParsing.go:66-76 | passes exactly when the VM and team sections are present and there is at least one VM; the missing section is named in order |
| LegacyConfig.ServicesRejectedIff | config/yamlParsing.go:126-142 | a services map is refused exactly when there is an error to report |
| LegacyConfig.ValidateServices | config/yamlParsing.go:126-142 | accepts exactly the acceptable maps; a refusal names one bad service |
| LegacyConfig.LoadServicesFromConfig | config/yamlParsing.go:110-123 | an unreadable file is an error naming it; otherwise the file's services are returned exactly when they validate |
| LegacyConfig.CheckVm | config/yamlParsing.go:79-102 | accepts exactly the acceptable VMs and yields the VM with its loaded services |
| LegacyConfig.Parse | config/yamlParsing.go:53-106 | a section error is returned as is; otherwise the parse succeeds exactly when every VM is acceptable, with each VM written back loaded |
| SshUsers.Trimmed | scoring/ssh.go:22-29 | the kept lines are trimmed, non-blank and no more than the input lines |
| SshUsers.TrimmedAppend | scoring/ssh.go:22-29 | filtering a concatenation filters each part and keeps the parts in order |
| SshUsers.TrimmedMembers | scoring/ssh.go:22-29 | a string is kept exactly when it is non-empty and some input line trims to it |
| SshUsers.ValidLines | scoring/ssh.go:22-29 | the scanning loop yields the trimmed non-blank lines of the file |
| SshUsers.ParseUserLine | scoring/ssh.go:41-46 | fails exactly when the line has no colon; otherwise the user has no colon and user, colon, password is the line |
| SshUsers.UserLineRoundTrip | scoring/ssh.go:41-46 | a colon-free user and any password come back from their user:password line |
| SshUsers.ChooseUser | scoring/ssh.go:16-49 | the chosen credentials are UserOf the file and the random index: an unreadable file, a file with no valid lines and a chosen line without a colon are the three errors |
| SshUsers.ChosenUserFromFile | scoring/ssh.go:37-46 | the chosen user has no colon, and user:password is one of the file's kept lines |
| SshUsers.OneCandidate | scoring/ssh.go:22-29 | a single line without surrounding space is the file's only candidate |
| SshUsers.SingleUserFile | scoring/ssh.go:16-49 | a file holding one user:password line yields exactly that user and password |
| DbSchema.ExistingSchema | scoring/db.go:130-161 | a schema is returned exactly when the query ran, every row scanned and iteration ended cleanly; otherwise the query, scan or iteration error, checked in that order |
| DbSchema.ExistingSchemaContents | scoring/db.go:143-154 | a table is in the schema exactly when some row names it, and a column exactly when some row names both |
| DbSchema.ExistingSchemaLastType | scoring/db.go:150-153 | a column's type is the one of the last row naming its table and column |
| DbSchema.GetExistingSchema | scoring/db.go:130-161 | the query loop yields ExistingSchema |
| DbSchema.FirstMissingColumn | scoring/db.go:110-116 | nothing is missing exactly when every column exists; a reported column does not exist and every column declared before it does |
| DbSchema.StatementPassesIff | scoring/db.go:100-123 | a statement passes exactly when it is not a CREATE TABLE, or its table exists with every column |
| DbSchema.FirstFailureIsFirst | scoring/db.go:100-124 | a reported failure is the failure of some statement |
| DbSchema.NoFailureIffSatisfied | scoring/db.go:100-126 | verification finds no failure exactly when every statement is satisfied |
| DbSchema.CheckColumns | scoring/db.go:110-116 | the column loop yields FirstMissingColumn |
| DbSchema.DBverify | scoring/db.go:78-127 | the error is Verdict of the statements and the schema query, and the database is valid exactly when there is no error |
| Api.CollectRows | api/handlers.go:24-31 | succeeds exactly when no row fails to scan, and then yields every row in order |
| Api.TeamsResponse | api/handlers.go:13-35 | ListTeams fails with 500 exactly when the query or a scan fails |
| Api.ListTeams | api/handlers.go:13-35 | the handler yields TeamsResponse of the query |
| Api.TeamsOnePerRow | api/handlers.go:22-34 | a clean query gives JSON: null for no rows, otherwise one team per row in row order |
| Api.TeamScoreResponse | api/handlers.go:105-149 | an error is 400 for an empty team id and 500 otherwise |
| Api.ListTeamScore | api/handlers.go:105-149 | the handler yields TeamScoreResponse |
| Api.TeamScoreOnePerRow | api/handlers.go:107-148 | 400 exactly for an empty team id; JSON exactly when the query, every scan and the iteration succeed; the body is null exactly when there are no rows, and otherwise holds one entry per row in row order |
| Api.TeamMapOf | api/handlers.go:60-85 | every team is keyed by its own id and every row's team is present |
| Api.TeamMapIsGrouping | api/handlers.go:60-85 | the team map has the same keys as the nesting of team, service and score, and each entry's service scores are that nesting's inner map |
| Api.TeamScoresFromRows | api/handlers.go:63-85 | a team is in the map exactly when some row names it, and a service of a team exactly when some row names both |
| Api.LastScoreWins | api/handlers.go:84 | a service's score is the one from the last row naming that team and service |
| Api.NameFromFirstRow | api/handlers.go:76-82 | a team's name is the one from its first row |
| Api.BuildTeamMap | api/handlers.go:60-85 | the row loop builds TeamMapOf the rows |
| Api.TeamSlice | api/handlers.go:93-96 | the slice lists every team of the map exactly once, each under its own id |
| Api.ListAllTeamScores | api/handlers.go:39-101 | 500 exactly when the query, a scan or the iteration fails; otherwise one record per team of the grouped rows, each exactly once |
| Users.Privilege | web/webserver.py:35-48 | the privilege is "admin" exactly for administrators |
| Dashboard.RenderPage | web/webserver.py:140-150 | only the four allowed pages render, each with its own template ("" gives the dashboard); any other page is a 404 |
| Dashboard.DistinctSortedCorrect | web/webserver.py:166-167 | the service columns are strictly ascending and hold exactly the names that occur |
| Dashboard.AscendingUnique | web/webserver.py:166-167 | two strictly ascending lists with the same names are equal, so the column list is determined |
| Dashboard.ServiceColumns | web/webserver.py:166-167 | the sorted distinct service names; ServiceColumnsCorrect states its properties |
| Dashboard.ServiceColumnsCorrect | web/webserver.py:166-167 | the columns are strictly ascending and are exactly the service names; any other ascending list of those names equals them |
| Dashboard.StatusMatrix | web/webserver.py:179-186 | the matrix loop builds the nesting of team, service and is_up |
| Rows.NestOuterKeys | web/webserver.py:184-185 | a team has a matrix row exactly when some query row names it |
| Rows.NestInnerKeys | web/webserver.py:184-186 | a cell exists exactly when some row names that team and service |
| Rows.NestLastWins | web/webserver.py:186 | a cell holds the value of the last row for that team and service |
| Dashboard.JoinedNames | web/webserver.py:189 | a team appears in the join exactly when one of its team services joins its team row |
| Dashboard.GroupNamesMembers | web/webserver.py:189 | the GROUP BY keys are exactly the names in the join, each once |
| Dashboard.StandingsShape | web/webserver.py:189 | each group's total is the sum of its points, and no team appears twice |
| Dashboard.LeaderboardNames | web/webserver.py:189 | a team is listed exactly when one of its team services joins its team row |
| Dashboard.Leaderboard | web/webserver.py:189-190 | the per-team sums sorted highest first; LeaderboardCorrect states its properties |
| Dashboard.LeaderboardCorrect | web/webserver.py:189-190 | the leaderboard is sorted by total, highest first; each total is the sum of that team's points; no team appears twice; a team is listed exactly when it has a joined team service |
| Dashboard.ChecksOf | web/webserver.py:219-222 | every kept check is the team service's and comes from the table, and every check of the team service is kept |
| Dashboard.ChecksOfExact | web/webserver.py:219-222 | each check of the team service occurs in the result exactly as often as in the table, so none is lost |
| Dashboard.LastChecks | web/webserver.py:219-225 | the newest ten checks of the service; LastChecksAreMostRecent and LastChecksBelong state its properties |
| Dashboard.LastChecksAreMostRecent | web/webserver.py:219-225 | the window holds min(10, n) checks of the service, newest first; with the omitted checks it makes up all of them, and no omitted check is newer than a kept one |
| Dashboard.LastChecksBelong | web/webserver.py:219-222 | every check in the window belongs to that team service and to the history |
| Dashboard.UptimePercent | web/webserver.py:235 | the uptime with Python's truncating int(); UptimeIsFloorPercent states its value |
| Dashboard.UptimeIsFloorPercent | web/webserver.py:235 | for 0 <= successful <= total, the uptime is floor(100 * successful / total) and lies between 0 and 100 |
| Dashboard.FirstZeroTotal | web/webserver.py:234-237 | the loop's stopping point is the first row with no checks, or the end |
| Dashboard.AnnotateUptime | web/webserver.py:234-237 | the array afterwards holds Annotated of its old contents: rows before the first zero total get their uptime, the rest stay as they were |
| Dashboard.ServicesPage | web/webserver.py:205-242 | the page shows ServicesView for the viewer |
| Dashboard.ServicesView | web/webserver.py:213-235 | the rows services() renders; ServicesViewMeaning states them |
| Dashboard.ServicesViewMeaning | web/webserver.py:213-235 | an administrator sees no rows; a team sees its own joined rows with the uptime annotation |
| Dashboard.QueryRowsHaveNoUptime | web/webserver.py:217-231 | rows straight from the query carry no uptime yet |
| Announcements.VisibleMembers | web/webserver.py:282-287 | the visible filter keeps exactly the visible announcements |
| Announcements.ListingOf | web/webserver.py:275-288 | the listing query's result; ListingCorrect states its properties |
| Announcements.ListingCorrect | web/webserver.py:275-288 | the listing is newest first; an administrator sees a permutation of every announcement, anyone else a permutation of exactly the visible ones |
| Announcements.ToggleTwice | web/webserver.py:346-349 | toggling the same announcement twice restores the table |
| Announcements.ToggleFlipsOnlyTarget | web/webserver.py:346-349 | a toggle flips visibility exactly on rows with that id and changes nothing else |
| Announcements.Edited | web/webserver.py:322-326 | an edit keeps the number of announcements |
| Announcements.EditChangesOnlyTarget | web/webserver.py:322-326 | an edit sets title and content exactly on rows with that id and changes nothing else |
| Announcements.DeleteRemoves | web/webserver.py:367 | delete keeps exactly the rows with another id and keeps ids distinct |
| Announcements.Board.constructor | web/webserver.py:261-267 | an empty table whose ids start at 1 |
| Announcements.Board.Request | web/webserver.py:245-297 | an administrator's POST with both fields appends one announcement with the next id and redirects with the "Announcement created successfully!" flash; an administrator's POST missing a field shows a missing-fields message; the table is otherwise unchanged and the page shows the viewer's listing |
| Announcements.Board.Edit | web/webserver.py:311-334 | 403 for non-administrators; an administrator with both fields edits that announcement; otherwise nothing changes |
| Announcements.Board.Toggle | web/webserver.py:337-355 | 403 for non-administrators, otherwise the table is Toggled |
| Announcements.Board.Delete | web/webserver.py:358-373 | 403 for non-administrators, otherwise the announcement is deleted |
| ScoreGraph.TotalPointsAppend | ScoringEngine/web/front-end/src/Graphs/ScoreGraph.tsx:22-24 | the total over two runs of services is the sum of their totals |
| ScoreGraph.TotalPointsBounds | ScoringEngine/web/front-end/src/Graphs/ScoreGraph.tsx:22-24 | with non-negative points the total is non-negative and at least each service's points |
| ScoreGraph.FormatTeams | ScoringEngine/web/front-end/src/Graphs/ScoreGraph.tsx:20-31 | one bar per team, in team order, labelled with its name, valued at its total, coloured with its colour or the default |
| Sorting.SortDescCorrect | ScoringEngine/web/front-end/src/Graphs/ScoreGraph.tsx:35 | the sort is a permutation sorted highest first, and stable: the bars of each value keep their order |
| ScoreGraph.ChartOf | ScoringEngine/web/front-end/src/Graphs/ScoreGraph.tsx:33-38 | the formatted bars sorted highest first; ChartIsLeaderboard and ChartBarsComeFromTeams state its properties |
| ScoreGraph.ChartIsLeaderboard | ScoringEngine/web/front-end/src/Graphs/ScoreGraph.tsx:33-38 | the chart is the formatted bars sorted highest first, a permutation of them, with equal totals in team order |
| ScoreGraph.ChartBarsComeFromTeams | ScoringEngine/web/front-end/src/Graphs/ScoreGraph.tsx:20-36 | every bar is labelled with the name of one of the teams |
| ScoreGraph.ShiftSmaller | ScoringEngine/web/front-end/src/Graphs/ScoreGraph.tsx:35 | the shift moves up one place exactly the prefix entries smaller than the new bar and returns the gap it leaves |
| ScoreGraph.InsertInPlace | ScoringEngine/web/front-end/src/Graphs/ScoreGraph.tsx:35 | one insertion step leaves the prefix as the stable insertion of the next bar and leaves the rest alone |
| ScoreGraph.SortBarsInPlace | ScoringEngine/web/front-end/src/Graphs/ScoreGraph.tsx:34-36 | the array afterwards holds the stable descending sort of its old contents |
| ScoreGraph.ScoreChart.constructor | ScoringEngine/web/front-end/src/Graphs/ScoreGraph.tsx:12-14 | the chart starts empty |
| ScoreGraph.ScoreChart.OnTeamData | ScoringEngine/web/front-end/src/Graphs/ScoreGraph.tsx:16-39 | an empty team list leaves the chart as it was; otherwise the chart becomes the sorted bars of the teams |
| ServiceUptime.GetUptime | ScoringEngine/web/front-end/src/Graphs/ServiceUptime.tsx:6-8 | with positive checks the uptime is 100 * successful / total rounded half up; with zero checks it is NaN for 0/0 and infinite otherwise |
| ServiceUptime.UptimeRange | ScoringEngine/web/front-end/src/Graphs/ServiceUptime.tsx:6-8 | the uptime lies in 0..100, is 0 with no successes and 100 when every check succeeded |
| ServiceUptime.BandOf | ScoringEngine/web/front-end/src/Graphs/ServiceUptime.tsx:11-16 | dark red up to 20, red 21-50, orange 51-74, green from 75, each band exactly |
| ServiceUptime.BoxColor | ScoringEngine/web/front-end/src/Graphs/ServiceUptime.tsx:11-16 | NaN and +Infinity fail every comparison and come out green; -Infinity is dark red |
| ServiceUptime.BandMonotone | ScoringEngine/web/front-end/src/Graphs/ServiceUptime.tsx:11-16 | a higher uptime never gets a redder colour |
| ServiceUptime.Columns | ScoringEngine/web/front-end/src/Graphs/ServiceUptime.tsx:23 | no columns without teams, otherwise the first team's service keys in order |
| ServiceUptime.CellOf | ScoringEngine/web/front-end/src/Graphs/ServiceUptime.tsx:87-90 | one grid cell; MissingServiceIsDarkRed and UncheckedServiceIsGreen state its values |
| ServiceUptime.MissingServiceIsDarkRed | ScoringEngine/web/front-end/src/Graphs/ServiceUptime.tsx:87-90 | a service the team lacks shows 0 in dark red |
| ServiceUptime.UncheckedServiceIsGreen | ScoringEngine/web/front-end/src/Graphs/ServiceUptime.tsx:87-90 | a service with no checks shows NaN in green |
| ServiceUptime.Grid | ScoringEngine/web/front-end/src/Graphs/ServiceUptime.tsx:69-90 | one row per team with its name and one cell per column, in column order |
| ServiceUptime.HeaderLabel | ScoringEngine/web/front-end/src/Graphs/ServiceUptime.tsx:64 | there is no label exactly when the key has no underscore |
| ServiceUptime.HeaderOfFullName | ScoringEngine/web/front-end/src/Graphs/ServiceUptime.tsx:64 | the header of a box_service key is the service part in upper case |

## Left out

- SSHConnect and ScoreSSH (scoring/ssh.go:53-96) open network sessions; only the credential choice is modelled.
- queryDNS (services/dns.go:63-89) sends packets; each resolver answer is an input function `Resolver`.
- The DB ping and connection (scoring/db.go:45-75) and ScoreDB (scoring/db.go:164-170) talk to a server. ParseSQLFile (scoring/db.go:17-43) is a SQL parser, so the parsed statements are an input.
- Reading and YAML-decoding files is left out. A configuration is a decoded record, and a services file is an entry in a map from path to decoded services; a missing entry stands for a file that cannot be read or decoded.
- bufio.Scanner's 64 KiB token limit is not modelled; a line of any length is accepted.
- The random index in ChooseRandomUser is a parameter.
- Go map iteration order is left free: contracts hold for every order, and the order an actual run would use is not modelled.
- SQL result order for equal keys, and string collation, are left free. Names are compared by code point.
- The insert defaults of the announcements table are parameters of the model: visibility, `created_at` (the `now` argument) and the serial id (`nextId`).
- Flask sessions, `login`, `load_user`, `logout`, `index` and `admin_landing` are framework plumbing around Users.Privilege; they are not modelled.
- The wall-clock `last_updated` stamp of graphs() is not modelled.
- The DB writes of Initalize and addServicesToTeam (scoring/scoring.go:83-151) are not modelled. Only the full service name they store is (Scoring.FullServiceName).
- UpdateServiceScore and the scoring functions behind ScoringDispatch are calls into code not part of this model; Scoring.Score yields the targets it would score.
- The engine's console messages, ScoringIteration, RefreshTime and the timed loop that runs rounds are not modelled; the engine is a single-threaded class over its two flags.
- The exception path of graphs() and the other handlers (log, then render empty data) is not modelled beyond the zero-total division in services().
- Dashboard.UptimeIsFloorPercent: Python computes `int(s / t * 100)` in floating point, which can come out one lower than the exact floor the model states for a few quotients.
- ServiceUptime.GetUptime: computed on exact integers; JavaScript's floating-point division and Math.round can differ from the exact rounding near a half.
- ServiceUptime.HeaderOfFullName: upper-casing is modelled for ASCII letters only.
- Announcements.Board.Edit: the request body is taken to be JSON with a title and a content. `request.get_json()` on another body ends the request with an error status before "Success" (web/webserver.py:317-319), which the model does not capture.
- Dashboard.ServicesView: the team-services query has no ORDER BY (web/webserver.py:217-229), so the database decides the row order; the model fixes it as team services in table order, each with its services in table order. That order decides which rows get an uptime before the first service with no checks.
- Parser.ParseYAML: a services file is looked up by the VM's `config` value itself; the code joins it under the configs folder first (parser/yamlParsing.go:90) and names that joined path in its error (parser/yamlParsing.go:112). The folder and the path in the message are not modelled.
- The front-end charts read a team's Services as records with points and check counts, while ListAllTeamScores sends plain integers. Each side is modelled with its own declared shape, and the mismatch is not.

## Findings

| source | as written | input that shows it | evidently intended | confidence | as-written member | corrected member |
|---|---|---|---|---|---|---|
| parser/yamlParsing.go:141-144 | the default award of 1 is written to `svc`, the loop's copy of the map value, so the services map keeps award 0 | a VM whose inline service has `award: 0` (or no award) | a service with no award is stored with award 1 | high; not executed | Parser.ZeroAwardSurvives | Parser.LoadedWithDefaults |
