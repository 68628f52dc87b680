# Voice-time tracker, modelled in Dafny

A Discord bot (`index.js`) that records when each member joins a voice
channel and adds the whole seconds to a per-member total in the SQLite table
`voice_time` when they leave. The table is cleared every Sunday at midnight,
and `!voicetime` answers with the total of every member the directory still
resolves, highest first, shown as seconds, minutes, hours and days. When the
table cannot be read or is empty, it answers with a fixed message instead.

This project models that logic as a pure state machine over two maps:

- `sessions`: member to join instant in milliseconds (`userJoinTimes`).
- `totals`: member to `total_seconds` (the `voice_time` table).

Files and modules:

- `wrappers.dfy` (`Wrappers`): `Option` and `Result`.
- `floor.dfy` (`Floor`): floor division, and the fact that flooring twice is flooring once by the product.
- `decimal.dfy` (`Decimal`): the text JavaScript gives a whole number in a template literal, with its parser and a round-trip proof.
- `time_format.dfy` (`TimeFormat`): `formatTime`.
- `tracker.dfy` (`Tracker`): the state, the `voiceStateUpdate` handler as `Step`, and the weekly clear as `Reset`.
- `tracker_properties.dfy` (`TrackerProperties`): lemmas over runs of updates. They cover accumulation over visits, independence of members, no double counting and idempotent reset.
- `report.dfy` (`Report`): the ordered query as a method, the report builder and the reply text.
- `bot.dfy` (`Bot`): routes voice updates, cron ticks and chat messages to the above.

The outside world becomes inputs:

- `Date.now()` is the `now` field of an update.
- How the store calls behave is the `store` field of an update, the `deleted` flag of a reset and the `queryFails` flag of a message.
- `client.users.fetch` is a function `UserId -> Option<string>`.
- The reply is returned as a value instead of being sent.

Behaviour of the code that the model keeps, where a reader might expect otherwise:

- Durations are not clamped at zero. A clock that goes backwards gives a negative duration, and totals can fall.
- The leave handler continues only if the stored join instant is truthy. A join recorded at instant 0 therefore counts as no join, and its session is not removed.
- The session is removed before the store is read. A failed read therefore loses that session's time.
- A move between channels neither ends nor restarts a session.
- A report whose rows all fail the lookup is the header alone, not the no-data message.
- The query orders rows by descending total only. The order among equal totals is left open; a stable order is not promised.

## Model

| member | source | states |
|---|---|---|
| Tracker.Classify | index.js:42-48 | an update is a join exactly when it has no old channel and has a new one. It is a leave exactly when it has an old channel and no new one |
| Tracker.Duration | index.js:52 | the duration is the floor of the elapsed milliseconds over 1000. It is non-negative whenever the clock did not go back |
| Tracker.Step | index.js:36-67 | a join sets the member's session to `now` and leaves totals alone. A move, or an update with neither channel, changes nothing. A leave without a truthy join time changes nothing. A leave with one always ends the session; with a working store it raises the total by the floored elapsed seconds, and otherwise totals stay as they were. No other member's session or row changes |
| Tracker.Reset | index.js:28-33 | a successful clear empties the table; a failed one leaves it. Sessions are never touched |
| TrackerProperties.Accumulation | index.js:42-63 | a run of non-overlapping join/leave pairs of one member, each pair in any channels, leaves no open session for them. It raises their total by the sum of each visit's floored seconds and leaves every other member unchanged |
| TrackerProperties.AccumulationFromNoRow | index.js:58-62 | starting from no row, the member's total after the visits is exactly the sum of the visits' floored seconds |
| TrackerProperties.AccumulationFromInitial | index.js:18-63 | from the start, with no session and an empty table, one member's visits leave no session and a table holding only that member's row, equal to the sum of the visits' floored seconds |
| TrackerProperties.StepIsolated | index.js:39-63 | an update leaves another member's session and row as they were |
| TrackerProperties.StepLocal | index.js:39-63 | what an update does to its own member depends only on that member's session and row |
| TrackerProperties.MembersIndependent | index.js:36-67 | interleaving other members' updates changes nothing about a member compared with running only that member's updates |
| TrackerProperties.RunSkipsOther | index.js:42-48 | updates that are neither a join nor a leave, such as moves between channels and mute or deafen toggles, never change the state, so a run equals the run of its joins and leaves |
| TrackerProperties.InterleavedAccumulation | index.js:36-67 | a member's total grows by the sum of their visits whatever other members do in between, and however often the member moves or toggles mute during a visit |
| TrackerProperties.RepeatedLeaveIgnored | index.js:49-53 | after a leave has closed a session, a further leave for that member changes nothing, so time is never counted twice |
| TrackerProperties.ResetIdempotent | index.js:29 | clearing after a successful clear changes nothing |
| Floor.NestedFloorDiv | index.js:97-99 | flooring by b and then by c equals flooring once by b times c |
| TimeFormat.FormatTime | index.js:96-99 | minutes, hours and days are the floors of the total by 60, 3600 and 86400. Each is an independent floor, not a remainder |
| TimeFormat.TimeText | index.js:100 | the text starts with the total's digits, the unit `s` and the separator |
| TimeFormat.Example3725 | index.js:96-101 | 3725 seconds gives 62 minutes, 1 hour, 0 days and the text of `3725s`, `62m`, `1h` and `0d` joined by the separator |
| Decimal.IntTextRoundTrip | index.js:100 | the text of a whole number is an optional minus sign and digits, and it reads back as the number |
| Decimal.IntTextInjective | index.js:100 | different numbers give different text |
| Report.Insert | index.js:71 | placing a row keeps the rows sorted by descending total. The result is a permutation of the old rows plus that row |
| Report.InsertDistinct | index.js:71 | inserting a member not yet listed keeps each member listed once and adds that member |
| Report.SelectByTotalDesc | index.js:71 | the ordered query lists every row of the table exactly once, with its total, in non-increasing order of total |
| Report.ResolveLines | index.js:80-89 | every line comes from a row and carries the username the lookup gave and that row's formatted total. The members with a line are exactly the listed members whose lookup succeeds |
| Report.ResolveLinesOrdered | index.js:71-89 | rows in non-increasing total give lines in non-increasing total |
| Report.ResolveLinesDistinct | index.js:80-89 | a member listed once gets at most one line |
| Report.BuildReport | index.js:71-91 | the reply is the error exactly when the query failed. It is the no-data message exactly when the query returned no row. Otherwise it is the ranking of the resolved lines |
| Report.ResolvedMembersOfTable | index.js:80-89 | for a listing of a table, the members with a line are the table's members whose lookup succeeds |
| Report.LinesShowStoredTotals | index.js:83-84 | every line shows its member's stored total |
| Report.ReportOfTable | index.js:71-91 | the report over a table is the no-data message exactly when the table is empty. Otherwise it is a ranking with one line per resolvable member, each showing the stored total, by non-increasing total, no member twice |
| Report.ReportAfterReset | index.js:71-77 | after a successful clear the query returns no row and the report is the no-data message |
| Report.Render | index.js:72-91 | a failed query sends exactly the error text and an empty table exactly the no-data text. A ranking starts with the header and is the header alone when no line resolved, so it never equals either fixed message |
| Bot.Handle | index.js:36-94 | a voice update is one `Step` and a cron tick is one `Reset`, neither with a reply. A message never changes the state and is answered exactly when its text is `!voicetime`. The answer is the error text when the query fails and the no-data text exactly when the table is empty; otherwise it is the rendered report of some ordered listing of the table |

## Left out

- Discord client setup, intents, login, the `ready` event and `message.channel.send` (index.js:1-15, 20-21, 103): the platform is the source of events and the sink of replies.
- `CREATE TABLE` (index.js:22-25): the table is a map that always exists.
- SQLite callbacks and asynchronous interleaving (index.js:55-63, 71): each leave is one atomic step. The code assumes only that one member's updates never overlap, and it takes no lock. The model assumes more: that no weekly clear and no report query runs between a leave's read (index.js:55) and its upsert (index.js:60). A clear landing there is undone for that member, because the upsert writes last week's total plus the visit back into the emptied table. The model cannot show this; `Reset`, `ResetIdempotent` and `ReportAfterReset` hold only for atomic leaves.
- Tracker.Step: the upsert at index.js:60-63 is assumed to succeed. It is issued without a callback, so a failed upsert makes the SQLite library raise an error event that nothing handles, and the process ends, losing every open session. The model does not represent the process ending.
- Cron scheduling (index.js:28): `Reset` is an operation that is invoked.
- The log line at index.js:37 reads `newState.member.user.username`. Without a member it would throw before any change; the model assumes the platform always supplies one.
- `console.log` and `console.error` output (index.js:21, 30-31, 37, 40, 43, 54, 59, 64, 73).
- JavaScript numbers are doubles. Durations, totals and the division at index.js:52 are exact for magnitudes below 2^53 milliseconds; beyond that the model's integers differ.
- Decimal.IntTextRoundTrip: models the plain digit form only. Numbers of 10^21 or more, which JavaScript prints in exponent form, are not covered.
- Channel ids are `Option<string>`. An empty-string channel id, which JavaScript would read as absent, is not produced by the platform and is not modelled.
- TimeFormat.TimeText: its contract states only the leading seconds field. The full text is pinned down for the worked example by `TimeFormat.Example3725`.
- Report.Render: its contract states the fixed messages and the header. The text of each line (`**name**: time`) is given by `LineText` without a separate contract.
- The order of rows with equal totals (index.js:71): SQL `ORDER BY ... DESC` does not fix it, so only sortedness and being a permutation of the table are stated.
- The per-row `await` of `client.users.fetch` (index.js:82): lookups are a pure function, and a failed lookup is `None`.
