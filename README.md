# VcObserver presence accounting, modelled in Dafny

This project models the accounting core of the VcObserver Discord bot
(`src/vc_observer.py`). The bot records how long members spend in voice
channels. Its parts are:

- the live-session tracker `_connected_members` (member id -> channel id
  and start time);
- the startup scan, which starts a session for every non-bot member that is
  already in a voice channel;
- the transition handler `on_voice_state_update`: join, leave and move;
- the JSON duration store (member id string -> channel id string ->
  seconds) with its read-modify-write update;
- the two reports: one member's stats, and the guild leaderboard;
- the duration formatter `_format_time`.

Files:

- `wrappers.dfy`: `Option` and `Result`.
- `decimal.dfy`: `str()` of an integer, and reading the digits back.
- `duration_store.dfy`: the store as `map<string, map<string, real>>`, the
  file state (`Disk`: present or not, and whether its text decodes), and the
  class `JsonFile` with `Read` and `Update`.
- `presence.dfy`: sessions, the startup scan, the transition state machine,
  and the class `VcObserver`, whose methods update `connected` and the file
  in place.
- `reporting.dfy`: channel filtering, the stable descending sort, the
  per-member summary, `_top_vc_with_total` and the leaderboard.
- `time_format.dfy`: `_format_time` and a reader for its output.

Discord is replaced by plain values:

- the guild cache is a `map<nat, Guild>`;
- a voice-state update is a `VoiceEvent` carrying the guild, the member, its
  bot flag and the channels before and after;
- a channel resolves when its id string is in the set `live`;
- the clock is a parameter `now`, in microseconds.

Three points where the code's behaviour is easy to misread:

- `_top_vc_with_total`'s docstring (line 317) says it returns None on empty
  input, but the code raises (lines 322-324). The model returns `Err`.
- `_format_time(120.6)` gives "2m 1s", because `round(120.6)` is 121.
- A disconnect credits the elapsed time to the channel named in the event
  (`vc.id`, line 142), not to the channel stored in `_connected_members`.

## Model

| member | source | states |
|---|---|---|
| `Decimal.IntToString` | src/vc_observer.py:260-264 | `str()` of the hour, minute and second counts; on the non-negative counts the formatter passes it is `NatToString`, which `ParseNatToString` reads back |
| `Decimal.NatToString` | src/vc_observer.py:111-112 | `str()` of a snowflake is a non-empty run of digits with no leading zero |
| `Decimal.ParseNatToString` | src/vc_observer.py:111-112 | reading the rendered digits back gives the number |
| `Decimal.NatToStringInjective` | src/vc_observer.py:111-112 | distinct member or channel ids never share a store key |
| `DurationStore.Get` | src/vc_observer.py:116 | the `.get(vc_id_str, 0.0)` read: the stored seconds, or 0.0 for a missing member or channel; `AfterUpdate` and `UpdateIsolated` are stated with it |
| `DurationStore.Added` | src/vc_observer.py:114-116 | a missing member row is created first; a missing channel counts as 0.0; the one key gains `delta`; every other key is unchanged |
| `DurationStore.AddedMonotone` | src/vc_observer.py:116 | adding a non-negative delta keeps all durations non-negative and lowers no value |
| `DurationStore.Loaded` | src/vc_observer.py:82-98 | a missing file and undecodable text both read as `{}`; otherwise the decoded data is returned |
| `DurationStore.AfterRead` | src/vc_observer.py:82-83 | after a read the file exists; a missing file now holds `{}`; an existing file is left as it is; the data read is unchanged |
| `DurationStore.AfterUpdate` | src/vc_observer.py:108-121 | after an update, reading the store gives the old value plus delta at (str(member), str(channel)), and the old value everywhere else |
| `DurationStore.UpdateIsolated` | src/vc_observer.py:109-121 | an update for one (member, channel) pair leaves every other pair of ids as it was |
| `DurationStore.UpdateOverUndecodable` | src/vc_observer.py:91-96 | an update over undecodable text writes a store that holds only the new duration |
| `DurationStore.JsonFile.Read` | src/vc_observer.py:79-98 | returns the loaded data, and creates a missing file as `{}` |
| `DurationStore.JsonFile.Update` | src/vc_observer.py:100-121 | the file afterwards is `AfterUpdate` of the file before |
| `Presence.Lower` | src/vc_observer.py:31 | `str.lower()` on the suffix, ASCII letters only; `LowerProperties` states what it guarantees and `JsonSuffixExactly` what the file-name check then accepts |
| `Presence.LowerProperties` | src/vc_observer.py:31 | the lowered text holds no upper-case letter, every other character is kept, and lowering twice changes nothing |
| `Presence.Suffix` | src/vc_observer.py:31 | `Path.suffix`: the name from its last `.` on; empty when there is no dot or that dot is the first or the last character; `JsonSuffixExactly` states which names it accepts |
| `Presence.HasJsonSuffix` | src/vc_observer.py:31 | the constructor's test, the lower-cased suffix equals `.json`; `JsonSuffixExactly` gives its exact meaning |
| `Presence.JsonSuffixExactly` | src/vc_observer.py:31-32 | a file name is accepted exactly when it has at least one character before a final `.json`, in any letter case |
| `Presence.LastIndexOf` | src/vc_observer.py:31 | the index of the last occurrence of the character, or -1 (the `rfind` behind `suffix`) |
| `Presence.Elapsed` | src/vc_observer.py:141 | the time between two readings of a clock that does not go back is non-negative |
| `Presence.NonBots` | src/vc_observer.py:68-70 | the (member, channel) pairs of one channel's members, bots skipped, in member order; `NonBotsExactly` states its contents |
| `Presence.ChannelSightings` | src/vc_observer.py:67-70 | the pairs of every voice channel of a guild, channel after channel; `ChannelSightingsExactly` states its contents |
| `Presence.GuildSightings` | src/vc_observer.py:60-70 | the pairs of every monitored guild found in the cache, a missing guild skipped; `GuildSightingsExactly` states its contents |
| `Presence.Seed` | src/vc_observer.py:74-77 | writes a session at `now` for each pair in turn, a later pair overwriting an earlier one; `SeedAppend` and `SeedExactly` state its effect |
| `Presence.NonBotsExactly` | src/vc_observer.py:68-70 | the pairs from one channel are exactly its non-bot members |
| `Presence.ChannelSightingsExactly` | src/vc_observer.py:67-70 | the pairs from a guild's channels are exactly the non-bot members of those channels |
| `Presence.GuildSightingsExactly` | src/vc_observer.py:60-70 | the scanned pairs are exactly the non-bot members in voice channels of monitored guilds found in the cache |
| `Presence.SeedAppend` | src/vc_observer.py:60-77 | seeding from two lists of pairs equals seeding from the first, then from the second |
| `Presence.SeedExactly` | src/vc_observer.py:74-77 | a sighted member ends tracked at `now`, in a channel it was sighted in; any other member keeps its entry |
| `Presence.ScanTracksPresentMembers` | src/vc_observer.py:60-77 | after the scan, a member is tracked at `now` in a channel it is in exactly when it is a non-bot in a voice channel of a cached monitored guild; every other member is unchanged |
| `Presence.Disconnect` | src/vc_observer.py:132-144 | `_handle_disconnected`: an untracked member changes nothing; a tracked one is removed and its elapsed time is added under the given channel; `DispatchLeave` states its effect |
| `Presence.Dispatch` | src/vc_observer.py:389-422 | `on_voice_state_update` on values: ignore, join, leave or move, a move reading the clock once to close and once more to reopen; `DispatchIgnores`, `DispatchJoin`, `DispatchLeave`, `DispatchMove` and `DispatchKeepsConsistent` state each case |
| `Presence.DispatchIgnores` | src/vc_observer.py:392-406 | events from other guilds, from bots, or with no channel change leave the tracker and the file unchanged |
| `Presence.DispatchJoin` | src/vc_observer.py:419-422 | a join starts a session in the new channel at `now`; the file is untouched |
| `Presence.DispatchLeave` | src/vc_observer.py:414-417 | a leave removes the member from the tracker. If the member was tracked, the time since its start is added under the event's channel. If it was not tracked, nothing changes |
| `Presence.DispatchMove` | src/vc_observer.py:408-412 | a move accounts the old channel like a leave at the first clock reading; the member then has exactly one session, in the new channel, from the second reading; other members are unchanged |
| `Presence.DispatchKeepsConsistent` | src/vc_observer.py:136-144 | with a clock that does not go back (also between a move's two readings), no transition records a negative duration and no session starts in the future |
| `Presence.JoinMoveLeaveTrace` | src/vc_observer.py:408-422 | join, move and leave leave the tracker as it started; the file receives the two closed sessions, one after the other, the second timed from the move's second clock reading |
| `Presence.TwoUpdates` | src/vc_observer.py:114-116 | two updates for one member in two different channels: each channel gains its own delta, and no other key changes |
| `Presence.JoinMoveLeave` | src/vc_observer.py:408-422 | join A at t0; move to B, closing at t1 and reopening at t1'; leave at t2. (P, A) gains t1 - t0 and (P, B) gains t2 - t1', which fall short of t2 - t0 by exactly t1' - t1, the time between the move's two clock readings. No other key changes, and the tracker ends as it started |
| `Presence.VcObserver.constructor` | src/vc_observer.py:31-47 | monitors the given guilds, or every bot guild when none is given; then runs the startup scan from an empty tracker |
| `Presence.VcObserver.Create` | src/vc_observer.py:31-32 | returns no observer (the ValueError) exactly when `HasJsonSuffix` fails, that is, per `JsonSuffixExactly`, when the name has no character before a final `.json` in any letter case: `.json` is refused, `A.JSON` accepted |
| `Presence.VcObserver.InitScan` | src/vc_observer.py:53-77 | the tracker afterwards is the old one seeded with every scanned pair at `now`; the file is not touched |
| `Presence.VcObserver.HandleConnected` | src/vc_observer.py:123-130 | the member is tracked in the channel from `now`, replacing any previous entry |
| `Presence.VcObserver.HandleDisconnected` | src/vc_observer.py:132-144 | the tracker and file afterwards are `Disconnect` of the old ones |
| `Presence.VcObserver.OnVoiceStateUpdate` | src/vc_observer.py:389-422 | the tracker and file afterwards are `Dispatch` of the old ones, with the disconnect's and the connect's own clock readings |
| `Presence.VcObserver.GetMemberStats` | src/vc_observer.py:176-206 | the result holds exactly the stored (channel, seconds) pairs of the member whose channel still resolves; a missing file is created |
| `Reporting.Resolved` | src/vc_observer.py:200-204 | keeps exactly the entries whose channel resolves, and no more entries than it was given |
| `Reporting.ResolvedAppend` | src/vc_observer.py:200-204 | the entries kept from `a + b` are those kept from `a` followed by those kept from `b` |
| `Reporting.ResolvedOne` | src/vc_observer.py:200-204 | one entry is kept exactly when its channel resolves; with `ResolvedAppend`, the result keeps the input order |
| `Reporting.Sum` | src/vc_observer.py:288 | `sum(stats.values())`, also used at lines 326 and 352-356; `SumAppend`, `SumNonNegative` and `EntryAtMostSum` state its properties |
| `Reporting.ResolvedOfRow` | src/vc_observer.py:196-204 | read against the stored dict, the resolved stats are the resolvable channels with their recorded seconds |
| `Reporting.Percent` | src/vc_observer.py:297 | the share is 0 for a zero total; otherwise share × total = 100 × part; it lies in [0, 100] when 0 ≤ part ≤ total |
| `Reporting.PercentsAddUp` | src/vc_observer.py:287-297 | over all channels, the percentages of a non-zero total add up to 100 |
| `Reporting.EntryAtMostSum` | src/vc_observer.py:288 | with non-negative durations no channel exceeds the total |
| `Reporting.Insert` | src/vc_observer.py:285 | inserting into a descending list gives a descending permutation that includes the new element |
| `Reporting.SortDesc` | src/vc_observer.py:285 | the sort is a permutation of its input, in non-increasing order of the key |
| `Reporting.InsertTied` | src/vc_observer.py:285 | the inserted element goes ahead of the elements with an equal key |
| `Reporting.SortStable` | src/vc_observer.py:285 | entries with equal keys keep their input order (Python's sort is stable, also with `reverse=True`) |
| `Reporting.Truncated` | src/vc_observer.py:285 | `[:25]` keeps a prefix of at most 25 elements |
| `Reporting.MemberSummaryOf` | src/vc_observer.py:278-297 | no stats gives the "no activity" embed; otherwise the total is the sum over ALL channels, and there are min(25, n) rows |
| `Reporting.RowsOf` | src/vc_observer.py:295-297 | the rows built from the shown channels; `MemberSummaryRows` states what they are: row i is the i-th channel of the stable descending sort at its percent of the total |
| `Reporting.MemberSummaryRows` | src/vc_observer.py:285-297 | row i is the i-th channel of the stable descending sort, at its percent of the total; rows are in descending order; no hidden channel beats a shown one |
| `Reporting.MemberRowsFromStats` | src/vc_observer.py:295-297 | every shown row is one of the member's channels; with non-negative durations every percentage is in [0, 100] |
| `Reporting.MemberSummaryExample` | src/vc_observer.py:285-297 | {A: 30, B: 70} gives total 100, with B first at 70% and A at 30% |
| `Reporting.WithStats` | src/vc_observer.py:239-241 | keeps exactly the members with non-empty stats |
| `Reporting.WithStatsAppend` | src/vc_observer.py:239-241 | the members kept from `a + b` are those kept from `a` followed by those kept from `b` |
| `Reporting.WithStatsOne` | src/vc_observer.py:239-241 | one member is kept exactly when its stats are non-empty; with `WithStatsAppend`, the result keeps the input order |
| `Reporting.WithStatsKeepsTotal` | src/vc_observer.py:239-241 | dropping the members without stats leaves the global total unchanged |
| `Reporting.GlobalTotalIsSumOfTotals` | src/vc_observer.py:352-356 | the flat sum over every time of every member equals the sum of the members' totals |
| `Reporting.MaxIndex` | src/vc_observer.py:328 | the index of a largest time, and the first one, as `max` picks it |
| `Reporting.TopWithTotal` | src/vc_observer.py:322-329 | empty stats give an error. Otherwise the result is the member's total and the first channel whose time is at least every other |
| `Reporting.TopAtMostTotal` | src/vc_observer.py:326-328 | with non-negative durations the top channel's time is at most the total |
| `Reporting.LeaderRows` | src/vc_observer.py:364-370 | a row per shown member, skipping one with empty stats; `LeaderRowsMatch` states its contents |
| `Reporting.LeaderRowsMatch` | src/vc_observer.py:364-370 | one row per shown member, with its total, its percent of the global total and a top channel |
| `Reporting.Shown` | src/vc_observer.py:349 | every shown member is one of the guild's members with stats |
| `Reporting.LeaderboardOf` | src/vc_observer.py:349-370 | `_build_embed_leaderboard` on values: the global total and the rows; `LeaderboardTotal`, `LeaderboardRows` and `LeaderboardKeepsTop` state its properties |
| `Reporting.LeaderboardTotal` | src/vc_observer.py:352-356 | the global total sums every member's stats, not only those of the shown members |
| `Reporting.LeaderboardRows` | src/vc_observer.py:349-370 | at most 25 rows, one per shown member, in descending order of total, each with its percent and top channel |
| `Reporting.LeaderboardKeepsTop` | src/vc_observer.py:349 | no hidden member with stats has more time than a shown one |
| `Reporting.LeaderboardExample` | src/vc_observer.py:349-370 | totals 100 and 300 give a global total of 400, with the 300 member first at 75% |
| `TimeFormat.FormatTime` | src/vc_observer.py:254-266 | `_format_time`: round, split into parts, join with spaces; `FormatTimeNonEmpty`, `FormatTimeReadsBack` and `FormatTimeExamples` state its properties |
| `TimeFormat.TimeParts` | src/vc_observer.py:255-264 | the `parts` list: hours, minutes and seconds, zero parts dropped except a lone "0s"; `PartsOfRendered` states its contents |
| `TimeFormat.Join` | src/vc_observer.py:266 | `" ".join(parts)`; `ReadJoin` reads its output back as the parts |
| `TimeFormat.RoundHalfEven` | src/vc_observer.py:254 | the result is within 1/2 of the input, and even on an exact half |
| `TimeFormat.DigitRun` | src/vc_observer.py:258-266 | the length of the leading run of digits |
| `TimeFormat.ReadJoin` | src/vc_observer.py:258-266 | the space-joined `<amount><unit>` parts read back as the same parts |
| `TimeFormat.Divided` | src/vc_observer.py:255-256 | the two `divmod` steps give minutes and seconds below 60 that, with the hours, add back up to the input |
| `TimeFormat.PartsOfValue` | src/vc_observer.py:255-264 | the kept parts add up to the number of seconds |
| `TimeFormat.PartsOfCanonical` | src/vc_observer.py:255-264 | the divmod parts are canonical (see below) and add up to the number of seconds |
| `TimeFormat.PartsOfRendered` | src/vc_observer.py:255-264 | the formatter's strings are exactly those parts, rendered |
| `TimeFormat.FormatTimeReadsBack` | src/vc_observer.py:246-266 | for a non-negative rounded duration, the output reads back as a canonical decomposition of the rounded seconds. Canonical: hours, minutes, seconds in that order, minutes and seconds below 60, no zero part, except the lone "0s" |
| `TimeFormat.FormatTimeNonEmpty` | src/vc_observer.py:258-266 | for every input, negative ones included, the output is not empty: the seconds part is kept when nothing else is |
| `TimeFormat.ReadLast` | src/vc_observer.py:258-266 | one rendered `<amount><unit>` part on its own reads back as that part |
| `TimeFormat.ReadThen` | src/vc_observer.py:258-266 | a rendered part, then a space, then text that reads back, reads back as that part followed by the rest |
| `TimeFormat.FormatTimeExamples` | src/vc_observer.py:249-252 | 0.5 gives "0s", 120.2345 gives "2m", 3661.0 gives "1h 1m 1s" |

## Left out

- Discord: the bot client, guild and channel lookups, member objects,
  embeds, slash-command registration and `send_message`. These are library
  calls. The guild cache is a map. Channel resolution is the set `live`.
  The gathered member stats are a plain sequence.
- `vc_leaderboard_command`, which picks the member summary when a member is
  named and the leaderboard otherwise. It is routing only.
- `_get_members_stats`'s guild lookup, which raises when the guild is not
  found: that is a Discord lookup.
- The `asyncio.gather` fan-out. Stats are gathered one member after another,
  in member order.
- JSON text, `json.load`, `json.dump` and file I/O. The file is its decoded
  content, or `None` when the text does not decode. Valid JSON of another
  shape (a list, say) is not modelled; `_update_file` would raise on it.
- An exception raised by `_update_file` (an I/O error, say) would leave the
  member tracked. The model assumes writes succeed.
- Channel keys that `int()` cannot read, and two spellings of one id such as
  "012" and "12". The model assumes keys are as the store writes them.
- `datetime.now`. The clock is a parameter, in integer microseconds: `now`
  for each handler, and for a move a second reading `reconnect` for the
  connect that follows the disconnect. The startup scan stamps every member
  with one time, where the source reads the clock once per member.
- `Presence.VcObserver.GetMemberStats`, `Reporting.Resolved`,
  `Reporting.TopWithTotal`: the order of a member's channels in the stored
  dict is an input (`items`); any enumeration of the stored row is allowed.
  The store is a `map`, so the insertion order that `_update_file` gives a
  newly credited channel, and that `json.dump` and `json.load` keep, is not
  tracked. That order decides which of two tied channels the stable sort
  lists first and which one `max` picks.
- Floating point: durations, sums and percentages are `real`.
  `round` is modelled exactly on that real value. The `%.1f` rendering of
  percentages is not modelled.
- `str.lower()` is modelled on ASCII letters. No non-ASCII character
  lowers to one of ".json", so the file-name check is unaffected.
- `PurePath.suffix` is modelled on the final name component. Splitting a
  path into components is not modelled.
- `TimeFormat.FormatTimeReadsBack`: the read-back is proved only for
  durations that round to zero or more seconds. The formatter itself is
  defined for negative input too (it gives, for example, "-1h 59m 59s");
  that its output is never empty holds for every input (`FormatTimeNonEmpty`).
- `_is_in_vc`: nothing in the core calls it.
- Logging, embed colours, titles, thumbnails and images.
- `src/app.py`: start-up wiring only, with no accounting logic.
