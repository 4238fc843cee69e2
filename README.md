# thalassa_discord, modelled in Dafny

thalassa_discord is a Discord bot written in Go. This project models its core: the command parser and permission resolution, the per-guild music queue, the music commands, and the guild setup that runs when the bot joins a guild. It also covers the custom commands, the help listing and the small random commands, the playlist reader, and the HTTP/websocket API that exposes the queue.

The database tables are held in memory. `SongStore.Store` holds the song rows keyed by id, the song_request rows in insertion order, and the next id. The SQL queries the source runs are functions over these values.

A guild's queue is `Scheduler.ServerInstance`, a class whose methods are the commands that change it. Its drain loop plays the guild's unplayed requests in (requested_at, id) order.

Things the bot cannot see in advance are inputs to the model:
- what happens while a track streams (skips, enqueues, shutdown), given as a `seq<Action>`;
- the voice connection state;
- the clock;
- whether each database call fails;
- the random draws;
- the row order the database picks for a column the caller names.

The older playback path of `pkg/discord/commands.go` still ships. It is modelled beside the current one (`LegacyMusic.LegacyInstance`), with the differences stated as lemmas.

Modules, by source file:
- `Commands`: `pkg/discord/parsers.go` parsing and mentions, and the command table of `pkg/discord/commands.go`.
- `Permissions`: `getUserPermissions` in `pkg/discord/parsers.go`.
- `SongStore`: the tables and their queries. `NowPlaying`: the announcement embed of `pkg/discord/common.go`.
- `Scheduler`: `pkg/discord/common.go`, `pkg/commands/music/skip.go` and `play.go`. `LegacyMusic`: the older loop.
- `QueueViews`: `next.go` and `count.go`. `SongLeft`: `songleft.go`.
- `CustomCommands`: `pkg/discord/custom_commands.go` and `pkg/commands/moderation/custom_command.go`.
- `HelpListing`: `pkg/commands/general/general.go`. `Playlist`: `pkg/music/music.go`.
- `Api`: `pkg/api/service.go` and `api.go`. `GuildSetup`: `pkg/discord/handler_functions.go`.
- `Registry`: `pkg/discord/modifiers.go`.
- `Text`, `Sorting`, `Chat` and `Wrappers` are shared helpers for strings, sorting, messages and options.

## Model

| member | source | states |
|---|---|---|
| Registry.ShardRegistry.Add | pkg/discord/modifiers.go:3-7 | the guild's entry becomes the given instance; every other entry is as before |
| Registry.ShardRegistry.Get | pkg/discord/modifiers.go:9-13 | returns the stored instance for the guild, and nothing exactly when none is stored |
| Registry.ShardRegistry.Remove | pkg/discord/modifiers.go:15-19 | only the guild's entry is removed |
| Registry.Lookup | pkg/discord/modifiers.go:9-13 | Some holds exactly when the key is present, and then it carries the stored value |
| Registry.AddThenGet | pkg/discord/modifiers.go:3-13 | reading a guild just added gives back the added instance |
| Registry.AddOverwrites | pkg/discord/modifiers.go:3-7 | a second add for the same guild replaces the first |
| Registry.AddKeepsOthers | pkg/discord/modifiers.go:3-13 | adding one guild does not change what another guild reads |
| Registry.RemoveOnlyThatKey | pkg/discord/modifiers.go:9-19 | after a remove the guild reads as absent; other guilds read as before |
| Registry.AddThenRemove | pkg/discord/modifiers.go:3-19 | adding a new guild and then removing it restores the registry |
| Commands.ParseCommand | pkg/discord/parsers.go:11-27 | a command is found exactly when the first character, as a string, equals the prefix; the name and the arguments contain no space; no command gives empty results |
| Commands.ParseRoundTrip | pkg/discord/parsers.go:17-23 | a line built from a prefix, a lower-case name and space-free arguments parses back to that name and those arguments |
| Commands.ParseKeepsArguments | pkg/discord/parsers.go:18-22 | the first token and the arguments joined with spaces give back the message; the lower-cased first token is the lower-cased prefix followed by the name |
| Commands.LastClose | pkg/discord/parsers.go:30-31 | finds the last ">" the greedy `.+` can reach from an opening, with no line break in between |
| Commands.FindMatch | pkg/discord/parsers.go:30-31 | finds the leftmost "<@" that has a closing; no earlier opening has one |
| Commands.UserIdFromMention | pkg/discord/parsers.go:29-39 | succeeds exactly when the text has a match of `<@(.+)>`; the id is the leftmost-longest capture with every "!" removed; on failure the id is "" |
| Commands.WholeMatch | pkg/discord/parsers.go:30-35 | a text that opens at its start and closes at its end is captured whole |
| Commands.MentionRoundTrip | pkg/discord/parsers.go:29-39 | both "<@id>" and "<@!id>" give back the id |
| Commands.CommandTable.Register | pkg/discord/commands.go:131-135 | the entry under the lower-cased name becomes the command; nothing else changes |
| Commands.LegacyDispatch | pkg/discord/commands.go:144-161 | a command runs exactly when the message parses and its name is registered; it runs with the parsed arguments |
| Commands.RegisteredCommandAnswers | pkg/discord/commands.go:131-161 | a registered command answers to its name typed in any letter case |
| Commands.RegisterKeepsOthers | pkg/discord/commands.go:131-135 | registering one command leaves every other name's entry as it was |
| Permissions.FirstFlag | pkg/discord/parsers.go:111-134 | the switch's case for a role is a flag the role has, and there is none only when the role has no flag |
| Permissions.AllGranted | pkg/discord/parsers.go:75-91 | an administrator's record has every flag and role id "User" |
| Permissions.NoneGranted | pkg/discord/parsers.go:93-106 | the merge starts from a record with no flag and role id "User" |
| Permissions.GrantHas | pkg/discord/parsers.go:112-133 | each case sets exactly its own flag |
| Permissions.AdminScanMeaning | pkg/discord/parsers.go:55-73 | the scan says yes exactly when some role is known, all before it are known, and it is an administrator role or the author owns the guild |
| Permissions.OwnerWithoutRolesIsNotAdministrator | pkg/discord/parsers.go:56-73 | ownership is checked only inside the loop, so an owner without roles is not an administrator |
| Permissions.OwnerWithKnownRoleIsAdministrator | pkg/discord/parsers.go:56-73 | an owner whose first role is known is an administrator |
| Permissions.UnknownRoleHidesLaterAdministrator | pkg/discord/parsers.go:57-61 | an unknown role ends the scan, so a later administrator role is never reached |
| Permissions.MergeMeaning | pkg/discord/parsers.go:108-138 | a merged flag is set exactly when one of the member's configured roles has it as its first flag |
| Permissions.MergeNeverRevokes | pkg/discord/parsers.go:108-138 | adding roles never takes a flag away |
| Permissions.OnlyTheFirstFlagIsGranted | pkg/discord/parsers.go:111-135 | a role configured with several flags grants only the first of them |
| Permissions.GetUserPermissions | pkg/discord/parsers.go:41-140 | an unknown member gives an error; otherwise the record is all flags if the administrator scan says yes, else the merge of the member's roles |
| Permissions.IsAdministrator | pkg/discord/parsers.go:55-73 | the loop's answer equals the scan's specification |
| Permissions.ApplyRole | pkg/discord/parsers.go:111-134 | the role's first flag is granted; a role with no flag changes nothing |
| SongStore.InterfaceToNullString | pkg/utils/utils.go:7-13 | a string stays; any other JSON value becomes null |
| SongStore.NextUnplayed | pkg/discord/common.go:34-46 | nothing exactly when the guild has no unplayed row; otherwise an unplayed row of the guild that is first by (requested_at, id) |
| SongStore.NextUnplayedIsTheMinimum | pkg/discord/common.go:34-46 | with unique ids, any unplayed row that is first by the key is the one returned |
| SongStore.Unplayed | pkg/discord/common.go:37-38 | holds exactly the table's unplayed rows of the guild |
| SongStore.UnplayedAppend | pkg/commands/music/play.go:93-101 | an inserted row joins the queue exactly when it is an unplayed row of the guild |
| SongStore.NextFromQueue | pkg/discord/common.go:34-46 | the next-song query sees only the guild's queue: asked of the queue alone it gives the same answer |
| SongStore.UnplayedMark | pkg/discord/common.go:206-207 | marking an id played takes exactly the rows with that id out of the queue, and keeps the rest in order |
| SongStore.UnplayedAgree | pkg/discord/common.go:36-37 | two tables that agree on every row either of them queues have the same queue |
| SongStore.CountUnplayed | pkg/commands/music/count.go:14-17 | the size of the guild's queue; it has no contract of its own, and CountUnplayedZero and EvolvesCount state what it means |
| SongStore.CountUnplayedZero | pkg/commands/music/count.go:14-17 | the count is zero exactly when the next-song query finds nothing |
| SongStore.MarkPlayedById | pkg/commands/music/skip.go:29 | rows with the id become played; nothing else changes |
| SongStore.UpdateRow | pkg/discord/common.go:201-212 | the row with the record's id becomes the record; other rows are kept |
| SongStore.BulkMarkPlayed | pkg/commands/music/skip.go:61-62 | exactly the unplayed rows of the guild other than the excluded id become played |
| SongStore.BulkMarkPlayedIdempotent | pkg/commands/music/skip.go:61-62 | running the bulk update twice is the same as once |
| SongStore.BulkMarkPlayedLeavesOnlyExcluded | pkg/commands/music/skip.go:61-62 | afterwards the guild's only unplayed row, if any, is the excluded one |
| SongStore.DeleteSkippable | pkg/discord/commands.go:196-230 | the older skip-all deletes exactly the guild's other unplayed rows and keeps the rest in order |
| SongStore.StoreValidRewrite | pkg/discord/common.go:201-212 | rewriting rows in place keeps the ids unique and every song row present |
| SongStore.UpsertSongValid | pkg/commands/music/play.go:73-81 | a song upsert keeps the tables valid |
| SongStore.InsertRequestValid | pkg/commands/music/play.go:93-101 | inserting a request with the next id, for a song that exists, keeps the tables valid |
| SongStore.EvolvesCount | pkg/discord/common.go:56-77 | as the table evolves, the queue grows by at most the rows appended |
| SongStore.EvolvesCountStrict | pkg/discord/common.go:56-77 | if a queued row has become played, the queue shrinks by one more |
| SongStore.NextAfterPlayed | pkg/discord/common.go:56-77 | once the head has been played, the new head comes strictly after it |
| SongStore.DrainStep | pkg/discord/common.go:56-77 | marking the head played removes exactly it from the queue |
| SongStore.DrainOrder | pkg/discord/common.go:56-77 | the order the loop plays the queue in when nothing else writes: the query's row, then the order of the table with that row played; it has no contract of its own, and DrainOrderIsFifo states what it is |
| SongStore.DrainOrderIsFifo | pkg/discord/common.go:34-77 | the drain order holds exactly the queued requests, strictly increasing by (requested_at, id); LoopNextSongs plays in this order |
| SongStore.DrainOrderFromQueue | pkg/discord/common.go:56-77 | tables with the same queue drain in the same order |
| SongStore.DrainOrderAfterPlay | pkg/discord/common.go:201-212 | writing the head back as played leaves the rest of the drain order: the head, then what the new table drains |
| SongStore.LegacyNext | pkg/discord/commands.go:427-432 | the older query also returns an unplayed row of the guild with the earliest time, but does not break ties |
| SongStore.LegacyNextAgrees | pkg/discord/commands.go:427-432 | when no two queued times are equal, both queries pick the same request |
| SongStore.LegacyNextFromQueue | pkg/discord/commands.go:427-432 | the older query also sees only the guild's queue |
| SongStore.LegacyDrainOrder | pkg/discord/commands.go:421-520 | the order the older loop plays the queue in when nothing else writes; it has no contract of its own, and LegacyDrainOrderAgrees and LegacyMusic.LegacyInstance.HandleSong state what it is |
| SongStore.LegacyDrainOrderFromQueue | pkg/discord/commands.go:421-520 | tables with the same queue drain alike under the older loop too |
| SongStore.LegacyDrainOrderAfterPlay | pkg/discord/commands.go:508-509 | writing the older query's row back as played leaves the rest of the older drain order |
| SongStore.MarkPlayedKeepsDistinct | pkg/discord/commands.go:508-509 | marking a row played keeps the queued times pairwise distinct |
| SongStore.LegacyDrainOrderAgrees | pkg/discord/commands.go:421-520 | when no two queued times are equal, the older loop plays the queue in the same order as the current one |
| SongStore.LegacyNextDiffersOnTies | pkg/discord/commands.go:427-432 | for two requests at the same time, the current loop plays the lower id first and the older one can play the other |
| SongStore.PeekQueue | pkg/commands/music/next.go:12-18 | the first ten of the queue by time; it has no contract of its own, and PeekQueueProperties states what it returns |
| SongStore.PeekQueueProperties | pkg/commands/music/next.go:12-18 | the peek returns min(10, n) queued requests in time order; none it leaves out came earlier |
| SongStore.ByTime | pkg/commands/music/next.go:12-18 | a permutation of the guild's queue, in ascending request time |
| NowPlaying.NowPlayingEmbed | pkg/discord/common.go:114-152 | the first field links the song; the last names the requester; the image is the thumbnail |
| NowPlaying.NowPlayingOptionalFields | pkg/discord/common.go:118-149 | an Artist field appears exactly when the artist is set; a Duration field appears exactly when the duration is set, and then it holds the duration text |
| NowPlaying.DetailField | pkg/discord/common.go:119-127 | an optional detail gives at most one field, under its name, present exactly when the detail is set |
| NowPlaying.DurationText | pkg/discord/common.go:128-148 | minutes and seconds with Go's truncating operators, each with its unit word; it has no contract of its own, and DurationRoundTrip, SecondsOnlyText, MinutesOnlyText and MixedText state its shape |
| NowPlaying.DurationRoundTrip | pkg/discord/common.go:128-150 | parsing the duration text of a non-negative duration gives back the duration |
| NowPlaying.SecondsOnlyText | pkg/discord/common.go:128-148 | under a minute, only the seconds and their unit word |
| NowPlaying.MinutesOnlyText | pkg/discord/common.go:128-145 | whole minutes: only the minutes and their unit word |
| NowPlaying.MixedText | pkg/discord/common.go:128-143 | minutes and seconds both positive: the minutes, a comma, then the seconds |
| NowPlaying.DurationTextZero | pkg/discord/common.go:131-134 | 0 seconds takes the singular: "0 second" |
| Scheduler.ServerInstance.constructor | pkg/discord/handler_functions.go:245-255 | a new instance has nothing playing, duration 0, no current request and fresh skip-all tokens |
| Scheduler.InitialMusicValid | pkg/discord/handler_functions.go:245-255 | the initial music state satisfies the state invariant |
| Scheduler.SkipPlanAsWritten | pkg/commands/music/skip.go:13-28 | skipSong as written: the nil dereference when no request or song was ever current, then the SongPlaying check; it has no contract of its own, and SkipOnFreshInstance and SkipPlanAgreesAfterFirstSong state how it compares |
| Scheduler.SkipPlanFor | pkg/commands/music/skip.go:13-28 | corrected skip: it reports nothing playing exactly when no song plays; otherwise it skips the current request and song |
| Scheduler.SkipPlanAgreesAfterFirstSong | pkg/commands/music/skip.go:14-28 | once a request has been played, the code as written and the corrected one agree |
| Scheduler.SkipOnFreshInstance | pkg/commands/music/skip.go:17-18 | on a fresh instance, skip as written dereferences nil; the corrected one reports that nothing plays |
| Scheduler.SkipAllExclusionAsWritten | pkg/commands/music/skip.go:54-62 | skipAllSongs as written: the nil dereference when no request was ever current, else the current id; it has no contract of its own, and SkipAllOnFreshInstance and SkipAllExclusionAgreesAfterFirstSong state how it compares |
| Scheduler.SkipAllExclusion | pkg/commands/music/skip.go:54-62 | corrected skip-all: it excludes a request exactly when one is current, and then the current one, played or not |
| Scheduler.SkipAllExclusionAgreesAfterFirstSong | pkg/commands/music/skip.go:54-62 | once a request has been current, the corrected exclusion is the one the source builds; they differ only on a fresh instance |
| Scheduler.SkipAllOnFreshInstance | pkg/commands/music/skip.go:54 | on a fresh instance, skip-all as written dereferences nil; the corrected one excludes nothing |
| Scheduler.SkipAllLeavesOnlyCurrent | pkg/commands/music/skip.go:61-62 | after the corrected bulk update, a queued request of the guild is left only when one is current, and then it is that one |
| Scheduler.SongFromInfo | pkg/commands/music/play.go:60-72 | the upserted song carries the resolved id, title and duration and the requested URL, and is not a stream; its artist is set iff the JSON value was a string |
| Scheduler.NewRequest | pkg/commands/music/play.go:82-92 | the inserted request is unplayed, has no played time, and carries the requester, the message's guild and the clock; GuildNameAtTime receives the guild id |
| Scheduler.EnqueueStore | pkg/commands/music/play.go:49-108 | the tables after handleSongInfo: the song upserted, then the request inserted, each unless its write fails; it has no contract of its own, and EnqueueStoreValid and EnqueueStoreEffect state what it does |
| Scheduler.EnqueueStoreValid | pkg/commands/music/play.go:49-108 | an enqueue keeps the tables valid, only appends, touches no played_at, and adds at most one row |
| Scheduler.EnqueueStoreEffect | pkg/commands/music/play.go:49-108 | a failed resolve or upsert writes nothing; a failed insert writes only the song; otherwise exactly one unplayed request is added to the message's guild, and a song requested again keeps one song row |
| Scheduler.PlayEffects | pkg/commands/music/play.go:18-47 | the command message is deleted first and one reply follows |
| Scheduler.ServerInstance.SkipSong | pkg/commands/music/skip.go:13-45 | with nothing playing, only the error is sent; otherwise the current request is marked played (unless the update fails), the skip is announced and the track is cancelled; the track state otherwise stays the same |
| Scheduler.ServerInstance.SkipAllSongs | pkg/commands/music/skip.go:47-86 | the old skip-all token is cancelled and a fresh one installed; a failed bulk update only sends its error; otherwise every queued row of the guild but the current request, when one has been current, is marked played, the count is reported, the song is skipped and SkippedAll is published |
| Scheduler.ServerInstance.MarkAllPlayed | pkg/commands/music/skip.go:61-80 | the guild's queued rows other than the current request, when one has been current, become played with played_at untouched, and the number of rows updated is reported |
| Scheduler.ServerInstance.HandleSongInfo | pkg/commands/music/play.go:49-108 | the tables become the enqueue's result and the reply is the enqueue's message; the music state is unchanged |
| Scheduler.ServerInstance.PlaySong | pkg/commands/music/play.go:18-47 | with no arguments, only a prompt; otherwise the first argument is enqueued, and the drain starts exactly when no song is playing |
| Scheduler.ServerInstance.Apply | pkg/discord/common.go:187 | one command that runs while a track streams keeps the invariant and the track; it cancels the track iff it is a skip, ends the server iff it is a shutdown, only extends the trace and adds at most one row |
| Scheduler.ServerInstance.Stream | pkg/discord/common.go:187-199 | the actions during a stream keep the invariant and the track; the track is cancelled iff some action cancels it; the server is done iff some action shuts it down |
| Scheduler.ServerInstance.PlayTrack | pkg/discord/common.go:163-199 | SongPlaying is published first and the end event last; the end event is Skipped when the track was cancelled or the server shut down, Finished otherwise; the music state records the request, the start time and the duration; with nothing happening during the stream, the tables stay and the trace gains exactly the two events |
| Scheduler.ServerInstance.MarkRequestPlayed | pkg/discord/common.go:201-212 | the streamed request's row and the in-memory current request become the played record |
| Scheduler.ServerInstance.HandleSongRequest | pkg/discord/common.go:113-218 | the announcement comes first. Without a ready voice connection nothing else changes and the error is returned. Otherwise the track plays; unless the server is shutting down, the request is marked played in memory, and in its row unless the update fails. With nothing happening during the stream, the row becomes the played record and the trace gains exactly the notice and the two events |
| Scheduler.ServerInstance.PlayRequest | pkg/discord/common.go:163-212 | SongPlaying first and the end event last; afterwards nothing plays, the start time, duration and cancellation are recorded; unless the server shut down, the request is played in memory, and in its row unless the update fails, which is returned as the error |
| Scheduler.ServerInstance.PlayNext | pkg/discord/common.go:56-77 | a failed query or an empty queue changes nothing; otherwise the request announced, and then published as playing, is the query's head; a played pass shrinks the queue by one net of the enqueues made meanwhile; a calm pass moves the head from the drain order to the announced requests |
| Scheduler.ServerInstance.LoopNextSongs | pkg/discord/common.go:56-77 | the loop terminates and always returns nil; it stops on shutdown, on a failed query, on an empty queue or on a failed request; when every pass is calm, it empties the queue and announces exactly the drain order of the starting table |
| Scheduler.ServerInstance.DrainSongRequestTriggers | pkg/discord/common.go:79-91 | every pending signal is taken off the channel and nothing else changes |
| Scheduler.ServerInstance.OnTrigger | pkg/discord/common.go:105-108 | one trigger and everything pending with it cause exactly one drain pass; when it is calm, it announces exactly the drain order and leaves the queue empty |
| Scheduler.ServerInstance.OnWake | pkg/discord/common.go:100-109 | a wake runs at most one pass, and only a tick or a signal runs one; a calm pass empties the queue and announces exactly the drain order |
| Scheduler.ServerInstance.HandleSongQueue | pkg/discord/common.go:93-111 | the queue handler returns nil and runs at most one pass per wake; after shutdown it changes nothing; when every pass is calm, the requests announced are the drain order of the starting table, and all of it once a pass has run |
| LegacyMusic.LegacyInstance.SkipSong | pkg/discord/commands.go:171-194 | the older skip marks CurrentSongRequestID played and cancels the track whether or not a song plays |
| LegacyMusic.LegacyInstance.SkipAllSongs | pkg/discord/commands.go:196-230 | the older skip-all deletes the guild's other waiting rows, reports how many, then skips; no event is published |
| LegacyMusic.LegacyInstance.DeleteWaiting | pkg/discord/commands.go:196-230 | after the delete, no row is left that the delete would select |
| LegacyMusic.LegacyInstance.PlayEnqueue | pkg/discord/commands.go:318-408 | same as the current enqueue, except that GuildNameAtTime receives the guild's name |
| LegacyMusic.LegacyInstance.Apply | pkg/discord/commands.go:507 | one command that runs while a legacy track streams keeps the invariant; it cancels the track iff it cancels, ends the server iff it is a shutdown, and adds at most one waiting row; the track state stays |
| LegacyMusic.LegacyInstance.Stream | pkg/discord/commands.go:507 | the track is cancelled iff some action cancels it; the waiting requests grow by at most the number of enqueues |
| LegacyMusic.LegacyInstance.PlayTrack | pkg/discord/commands.go:492-513 | the request is written back as played whatever ended the track, shutdown included |
| LegacyMusic.LegacyInstance.StartTrack | pkg/discord/commands.go:493-506 | the request id, song name, start time and duration are recorded and the request is the one streaming; the tables and the trace stay as they were |
| LegacyMusic.LegacyInstance.WriteBack | pkg/discord/commands.go:508-513 | the row with the record's id becomes the record, so it leaves the queue; the waiting rows do not grow |
| LegacyMusic.LegacyInstance.PlayOne | pkg/discord/commands.go:427-518 | a failed query or no rows changes nothing; the request announced is the older query's row, before the voice check; a missing or unready connection ends the loop; a calm pass moves that row from the older drain order to the announced requests |
| LegacyMusic.LegacyInstance.HandleSong | pkg/discord/commands.go:410-521 | the loop terminates with SongPlaying cleared; no rows means nothing left to play by the older query; when every pass is calm, it ends on no rows having announced exactly the older drain order of the starting table |
| LegacyMusic.LegacyInstance.PlaySong | pkg/discord/commands.go:318-347 | with no arguments only the prompt is sent; otherwise handleSong runs when nothing was playing, and SongPlaying is clear afterwards; when every pass is calm, the requests announced are the older drain order of the tables after the enqueue |
| LegacyMusic.DeleteAndMarkLeaveSameQueue | pkg/discord/commands.go:196-230 | the older delete and the current bulk update leave the same queue behind |
| LegacyMusic.TrackAccounting | pkg/discord/commands.go:492-513 | one pass of the older loop shrinks the queue by one net of the enqueues |
| QueueViews.EntryName | pkg/commands/music/next.go:38 | the name of entry i reads back as i + 1 followed by "." |
| QueueViews.NextEmbed | pkg/commands/music/next.go:27-42 | title "Songs on the deck.", the description for the page size, and one link field per request, in order |
| QueueViews.Next | pkg/commands/music/next.go:11-44 | a failed query gives the error embed; otherwise the embed of the guild's next ten requests |
| QueueViews.EntryFields | pkg/commands/music/next.go:36-42 | one field per request of the page, in order; field i is request i's numbered link |
| QueueViews.NextDescriptionDetermines | pkg/commands/music/next.go:29-35 | different page sizes give different descriptions |
| QueueViews.NextEmbedShowsTheQueue | pkg/commands/music/next.go:11-44 | at most ten fields; field i is numbered i + 1 and links the i-th waiting request by time; no request left off the page came earlier |
| QueueViews.SongCountReply | pkg/commands/music/count.go:13-30 | a failed query gives the error embed; otherwise one field whose value reads back as the number of the guild's unplayed requests |
| QueueViews.SongCountZeroIffQueueEmpty | pkg/commands/music/count.go:14-28 | the reported number is zero exactly when the drain loop would find nothing |
| SongLeft.SongLeftText | pkg/commands/music/songleft.go:11-49 | the fixed sentence when nothing plays, else the word series of the components and " left in the current song."; it has no contract of its own, and NothingPlayingReply, WordsAddUp and OverrunListsNothing state what it says |
| SongLeft.Words | pkg/commands/music/songleft.go:30-42 | lists one word per positive component, at most three |
| SongLeft.ComponentsRecompose | pkg/commands/music/songleft.go:26-28 | for time still to go, hours, minutes and seconds decompose it in mixed radix |
| SongLeft.OverrunListsNothing | pkg/commands/music/songleft.go:22-44 | a song past its estimated end lists no component |
| SongLeft.NothingPlayingReply | pkg/commands/music/songleft.go:15-21 | with nothing playing, the reply is the fixed sentence whatever the clock says |
| SongLeft.WordsAddUp | pkg/commands/music/songleft.go:22-42 | the listed components add back up to the time left |
| CustomCommands.CustomReply | pkg/discord/custom_commands.go:11-34 | there is a reply exactly when the name is a custom command, and it has no "\n" escape left |
| CustomCommands.CustomReplyReplaces | pkg/discord/custom_commands.go:17-26 | the reply is the escape replacement of the arguments and the stored text joined |
| CustomCommands.CustomReplyText | pkg/discord/custom_commands.go:17-26 | without arguments, the reply is the stored text; with arguments, they come first, joined by spaces, then a space and the stored text |
| CustomCommands.ReplaceEscapesAroundSpace | pkg/discord/custom_commands.go:23-26 | the replacement acts on each side of a space separately |
| CustomCommands.CapitalisedNameUnreachable | pkg/discord/custom_commands.go:13-15 | a custom command stored with a capital letter never matches a parsed name |
| CustomCommands.UpsertCommand | pkg/commands/moderation/custom_command.go:24-35 | the guild and name key holds the new message; every other row stays |
| CustomCommands.RecreateOverwrites | pkg/commands/moderation/custom_command.go:24-35 | creating the same command twice keeps the first creator and creation time, and the second message |
| CustomCommands.GuildCustomCommands.constructor | pkg/discord/handler_functions.go:175-183 | the instance holds the guild, the table and the map given; it starts valid when the map agrees with the guild's rows, as GuildSetup.LoadedCommandsAgree shows of the loaded map |
| CustomCommands.GuildCustomCommands.Create | pkg/commands/moderation/custom_command.go:19-56 | fewer than two arguments gives the usage error; a failed upsert gives the database error and keeps the map; otherwise both the row and the map hold the joined message; the map keeps agreeing with the table |
| CustomCommands.GuildCustomCommands.Delete | pkg/commands/moderation/custom_command.go:58-94 | no argument gives the usage error; then, in order: the lookup error, the missing command, the delete error; only a successful delete removes the row and the map entry |
| CustomCommands.CreatedCommandAnswers | pkg/commands/moderation/custom_command.go:43-45 | a created command answers at once, with its message |
| CustomCommands.DeletedCommandSilent | pkg/commands/moderation/custom_command.go:82-84 | a deleted command no longer answers |
| HelpListing.SortedCommands | pkg/commands/general/general.go:20-27 | the listing is a permutation of the commands, sorted by name |
| HelpListing.ChunkSpecProperties | pkg/commands/general/general.go:29-39 | the chunks concatenate to the list; there are (n + 24) / 25 of them; all but the last hold 25; the last holds 1 to 25 |
| HelpListing.Chunk | pkg/commands/general/general.go:29-39 | the loop's chunks are those of the specification |
| HelpListing.HelpValue | pkg/commands/general/general.go:48-56 | a help text over 250 characters is cut to its first 247 plus "...", exactly 250; an empty text becomes "No help text provided."; any other is kept |
| HelpListing.ChunkEmbed | pkg/commands/general/general.go:41-68 | each embed is titled "Commands" with one field per command of its chunk, in order |
| HelpListing.ListCommands | pkg/commands/general/general.go:18-73 | embed i is the embed of chunk i of the sorted commands; the input stands for the table's commands in the map's iteration order |
| HelpListing.TableNamesDetermine | pkg/discord/commands.go:131-135 | commands gathered from a table keyed by lower-cased name never share a name unless they are the same command |
| HelpListing.SortedByNameUnique | pkg/commands/general/general.go:25-27 | two name-sorted lists of the same commands with unique names are the same list |
| HelpListing.ListingIgnoresOrder | pkg/commands/general/general.go:20-27 | the sorted listing does not depend on the order in which the range over the Commands map gathers them |
| HelpListing.ListingShowsEveryCommand | pkg/commands/general/general.go:18-73 | there are (n + 24) / 25 embeds, the full ones hold 25 fields, and all the fields together are the sorted commands, once each, in order |
| HelpListing.EightBallReply | pkg/commands/general/general.go:96-112 | the reply is the mention, one of the twenty answers and a period |
| HelpListing.FlipCoinReply | pkg/commands/general/general.go:114-126 | the reply names Tails for draw 0 and Heads for draw 1 |
| HelpListing.DiceTotal | pkg/commands/general/general.go:128-136 | the total is between 2 and 12 |
| HelpListing.DiceReply | pkg/commands/general/general.go:128-136 | the mention, then the total drawn and "out of 12"; it has no contract of its own, and DiceTotal and DiceTotalsCovered state the total |
| HelpListing.DiceTotalsCovered | pkg/commands/general/general.go:130 | every total from 2 to 12 comes from exactly one draw, so all totals are equally likely |
| Playlist.Rewrite | pkg/music/music.go:371-376 | only a "url" entry from Youtube gets the "https://youtu.be/" prefix; everything else is kept |
| Playlist.Entries | pkg/music/music.go:365-377 | at most one entry per line |
| Playlist.GetPlaylistInfo | pkg/music/music.go:355-383 | a failed command passes its error on; otherwise the entries of the output's lines |
| Playlist.EntriesAppend | pkg/music/music.go:365-377 | the entries of joined line lists are the entries of each list, in order |
| Playlist.EntriesMembership | pkg/music/music.go:365-377 | an entry appears exactly when some non-empty line decodes to it before the rewrite |
| Playlist.EmptyLinesSkipped | pkg/music/music.go:366-368 | a trailing empty line adds nothing |
| Playlist.CleanupLogsError | pkg/music/music.go:247-258 | the cleanup logs exactly when the context was live at the check and the wait failed |
| Playlist.CancelDuringWaitIsLogged | pkg/music/music.go:247-258 | a cancel that lands during the wait is still logged as an error |
| Api.NullString | pkg/api/api.go:51-57 | a set string is kept; a null one becomes "" |
| Api.Uint32 | pkg/api/api.go:55 | the value is below 2^32, is congruent to the input modulo 2^32, and equals the input when the input fits |
| Api.Int32 | pkg/api/service.go:67-70 | the value is in the int32 range, is congruent to the input modulo 2^32, and equals the input when it fits |
| Api.RequestToProto | pkg/api/api.go:33-44 | songRequestModelToProto: the columns copied, a null played time as the zero time; it has no contract of its own, and RequestProtoRoundTrip states what it keeps |
| Api.SongToProto | pkg/api/api.go:46-60 | songModelToProto: null optional columns as "", the duration cut to 32 bits; it has no contract of its own, and SongProtoRoundTrip and NullAndEmptyCollide state what it keeps and loses |
| Api.RequestProtoRoundTrip | pkg/api/api.go:33-44 | the wire request gives back the row; a null played time becomes the zero timestamp |
| Api.SongProtoRoundTrip | pkg/api/api.go:46-60 | a song with no empty text column and a duration that fits gives back the row |
| Api.NullAndEmptyCollide | pkg/api/api.go:51 | a null artist and an empty one look the same on the wire |
| Api.Limit | pkg/api/service.go:19-22 | a limit from 1 to 250 is kept; any other becomes 25 |
| Api.Offset | pkg/api/service.go:33-36 | a positive offset is kept; any other becomes 0 |
| Api.OrderClauses | pkg/api/service.go:24-31 | two clauses: the named column with its direction, or requested_at ascending, then id ascending |
| Api.DefaultOrder | pkg/api/service.go:24-50 | the default order is a permutation of the guild's unplayed rows, sorted by (requested_at, id) |
| Api.Page | pkg/api/service.go:38-50 | LIMIT/OFFSET: at most limit rows, the ones starting at the offset, in order |
| Api.Listing | pkg/api/service.go:51-56 | one wire request per row, in order, each carrying its song |
| Api.GetSongRequests | pkg/api/service.go:18-73 | either query failing gives Internal; otherwise the page of the ordered unplayed rows and the count truncated to int32 |
| Api.BuildListing | pkg/api/service.go:51-56 | the loop builds the listing |
| Api.PageHasSongs | pkg/api/service.go:38-56 | every listed row is an unplayed row of the guild whose song exists |
| Api.DefaultOrderHead | pkg/api/service.go:24-50 | the default order is empty exactly when the drain finds nothing; otherwise it starts with the request the drain plays next |
| Api.DefaultPageLeadsWithNext | pkg/api/service.go:18-56 | the first default page leads with the request the drain plays next |
| Api.GetCurrentSongPlaying | pkg/api/service.go:75-95 | NotFound exactly when the guild is unknown or nothing plays; otherwise the current request and song |
| Api.StreamRegistry.Open | pkg/api/service.go:101-122 | the stream is registered exactly when the guild already has streams or is known; otherwise nothing changes |
| Api.StreamRegistry.Close | pkg/api/service.go:130-133 | only the stream's id is removed; the guild's map of streams stays |
| Api.StreamRegistry.Subscribe | pkg/api/service.go:97-134 | NotFound exactly when the guild has no stream map and is unknown; otherwise the stream's id is registered and then removed |
| Api.WsCheck | pkg/api/api.go:87-102 | a bad request exactly when the path does not split into four parts; accepted only for a known guild named by the third part |
| Api.BroadcastPathPassesCheck | pkg/api/api.go:78-102 | a session the broadcast reaches has a path the websocket check accepts when its guild is known |
| Api.BroadcastsDisjoint | pkg/api/api.go:78-80 | a session receives the events of one guild only |
| GuildSetup.LoadOrCreate | pkg/discord/handler_functions.go:72-119 | a found row is used; otherwise the defaults are inserted, and an insert error is returned |
| GuildSetup.LookupErrorCreatesDefault | pkg/discord/handler_functions.go:72-119 | a lookup error is treated like no rows: the defaults are created |
| GuildSetup.EveryoneDefaults | pkg/discord/handler_functions.go:137-151 | @everyone may play songs and playlists, post links, roll dice, flip coins, post random images and use custom commands; it may not skip, mute, manage custom commands or ignore the throttle |
| GuildSetup.EveryoneRow | pkg/discord/handler_functions.go:121-159 | a row is created exactly when the guild has an @everyone role and no row exists yet, and it holds the defaults |
| GuildSetup.LastWinsMeaning | pkg/discord/handler_functions.go:175-209 | a key is in the map exactly when some row has it, and then it holds the last such row's value |
| GuildSetup.CustomCommandsMap | pkg/discord/handler_functions.go:175-183 | the loop builds the map of the last message per command name |
| GuildSetup.RolePermissionsMap | pkg/discord/handler_functions.go:185-209 | the loop builds the map of the last row per role id |
| GuildSetup.LoadedCommandsAgree | pkg/discord/handler_functions.go:175-183 | the loaded map agrees with the guild's rows of the table |
| GuildSetup.SortedPermissions | pkg/discord/handler_functions.go:211-222 | the permissions are a permutation, sorted by friendly name |
| GuildSetup.PermissionAnswers | pkg/discord/handler_functions.go:211-222 | the loop builds the answer for each permission name |
| GuildSetup.AnswersCoverEveryPermission | pkg/discord/handler_functions.go:211-222 | every permission has an answer, and it is unanswered |
| GuildSetup.CreateGuildInstance | pkg/discord/handler_functions.go:161-272 | the instance holds the configuration, its features, the maps of loaded rows (empty on a load error), an idle music state, and the role-permission dialogue |
| GuildSetup.NewInstanceIsIdle | pkg/discord/handler_functions.go:245-255 | a new instance has nothing playing, no current request and a live skip-all token |
| GuildSetup.StartsMusic | pkg/discord/handler_functions.go:52-70 | playback starts exactly when music is enabled, the join succeeds and nothing plays |
| GuildSetup.MuteCheckAsWritten | pkg/discord/handler_functions.go:20-50 | as written: the member is muted whenever a record exists, also after an expired record was deleted |
| GuildSetup.ExpiredMuteReapplied | pkg/discord/handler_functions.go:34-47 | an expired record is deleted and the member is muted again |
| GuildSetup.MuteCheck | pkg/discord/handler_functions.go:20-50 | the corrected check: an expired record is deleted and the member not muted; it has no contract of its own, and MuteCheckMeaning states what it does |
| GuildSetup.MuteCheckMeaning | pkg/discord/handler_functions.go:20-50 | corrected: mute exactly when the feature is on and an unexpired record exists; delete exactly when the record expired; it agrees with the code as written for unexpired records |
| Text.Split | pkg/discord/parsers.go:18 | at least one part, none containing the separator |
| Text.JoinSplit | pkg/discord/parsers.go:18 | joining the parts with the separator gives the text back |
| Text.SplitJoin | pkg/discord/parsers.go:18 | splitting parts that hold no separator, once joined, gives them back |
| Text.Lower | pkg/discord/parsers.go:20 | same length; ASCII letters lower-cased, every other character kept |
| Text.LowerIdempotent | pkg/discord/parsers.go:20 | lower-casing twice is the same as once |
| Text.ReplaceEscapesRemovesAll | pkg/discord/custom_commands.go:23-26 | no "\n" escape is left |
| Text.ReplaceEscapesNoop | pkg/discord/custom_commands.go:23-26 | a text without escapes is unchanged |
| Text.RemoveChar | pkg/discord/parsers.go:32-34 | the character no longer occurs, every other character is kept as often as before, and a text without it is unchanged |
| Text.RemoveCharAppend | pkg/discord/parsers.go:32-34 | removal of two joined texts is the removal of each, joined, so the kept characters stay in order |
| Text.DecimalRoundTrip | pkg/commands/music/count.go:27 | the decimal text of a number reads back as that number |
| Text.GoDiv | pkg/discord/common.go:129 | truncating quotient: for a >= 0 the largest multiple of b not above a, for a < 0 the smallest multiple not below it |
| Text.GoMod | pkg/commands/music/songleft.go:27-28 | truncating remainder: a = q*b + r, with r strictly between -b and b and never of the opposite sign to a |
| Sorting.SortBy | pkg/commands/general/general.go:25-27 | a sorted permutation of the input |

## Left out

- Streaming audio (`StreamSong`, ffmpeg, voice connections) and `GetSongInfo` are left out. Its process output is an input: `Enqueue.info` and the playlist output.
- Concurrency and locks are left out: mutexes and goroutines are not modelled. What happens while a track streams is a sequence of actions run one after another. The trigger channel is a counter. Each command is one atomic step.
- SQL is not executed. Each query is a function over the in-memory tables. For a column the API caller names, the database's row order is an input. Column defaults under `boil.Infer` are left out.
- Time is whole seconds, and `time.Now` is a parameter. The go-humanize `Plural` and `WordSeries` are written out for the cases the code uses.
- Logging, message sending failures and Discord API errors are left out. Sent messages are kept as a trace of effects. A reply is recorded by what it says (`Scheduler.Reply`), and `Scheduler.ReplyMessage` gives the embed or text the source builds for it.
- Scheduler.ServerInstance.SkipAllSongs: a failed bulk update is modelled as ending the command after its error message. The code goes on to call `RowsAffected` on a nil result, which panics.
- LegacyMusic.LegacyInstance.SkipAllSongs: the same nil result after a failed delete ends the command after its error message, not in a panic.
- Commands.ParseCommand: requires a prefix other than a single space. With that prefix, `commandName[1:]` of an empty first token panics.
- Api.GetSongRequests: requires every request's song row to exist (`StoreValid`), so the nil `R.Song` dereference of a request without a song is not modelled. The order for a named column is taken to be some order of the guild's unplayed rows. The column name is passed to SQL unchecked, and an invalid name is not modelled.
- Scheduler.ServerInstance.LoopNextSongs: states the play order only for calm passes, where no query or update fails, the voice is ready and nothing happens while the track streams. For other passes it states the stop reasons and the queue bounds, not which requests end up announced. Beyond the given steps, each pass is uneventful; this is an artefact of the model.
- Scheduler.ServerInstance.HandleSongQueue: states the play order only when every pass the wakes start is calm; otherwise only the pass bound and the shutdown case.
- LegacyMusic.LegacyInstance.HandleSong: states the play order only for calm passes; otherwise termination and the exit reasons. Among requests tied on requested_at, the database's pick is taken to be table order.
- LegacyMusic.LegacyInstance.PlaySong: states the play order only for calm passes; otherwise the no-argument case and that SongPlaying is clear afterwards.
- Text.Lower: folds only the ASCII letters A to Z, where `strings.ToLower` folds every Unicode upper-case letter. The prefix test compares the first character with the prefix, where the source converts the first byte to the rune of that value and compares its UTF-8 text with the prefix, then drops one byte from the name; the two agree when the message starts with an ASCII character.
- SongStore.PeekQueue: among requests tied on requested_at, the database's order is taken to be table order. `next.go` orders by requested_at alone, so the database decides both the order of tied requests and which of them make the ten-row page.
- QueueViews.Next: shows the page of SongStore.PeekQueue, so it takes tied requests in table order too.
- LegacyMusic.LegacyInstance.SkipSong: a fresh legacy instance holds CurrentSongRequestID 0, and the tables allow a request with id 0, so the model's first skip can mark such a row played. The database's serial ids start at 1, where `WHERE id = 0` touches nothing; the tables do not carry that lower bound.
- HelpListing.EightBallReply: states that the reply is one of the twenty answers, not which one the draw selects. The first answer's apostrophe is one character here, not the three bytes of its UTF-8 encoding.
- HelpListing.HelpValue: counts characters, where the source's `len` and `[:247]` count bytes of the UTF-8 encoding.
- Random draws (`rand.Intn`) are parameters with the source's range as the precondition.
- Playlist.GetPlaylistInfo: the JSON decoding of one line is a parameter (`decode`).
- GuildSetup.SortedPermissions: the source sorts the shared `AllPermissions` slice in place, because it aliases it. The model sorts a copy. The order `AllPermissions` and the friendly names come from are not in this model's sources, so the list is a parameter.
- `ServerInstance.HandleSong`, the sender of the drain trigger, is not part of this model. `PlaySong` returns whether it would be called.
- The remaining command handlers (lookup, random images, jokes, moderation, mute, playlist command) are left out.

## Findings

| source | as written | input that shows it | evidently intended | confidence | as-written member | corrected member |
|---|---|---|---|---|---|---|
| pkg/commands/music/skip.go:17-18 | skipSong reads `MusicData.CurrentSongRequest.ID` and `CurrentSong.SongName` before it checks `SongPlaying`, and both pointers are nil until a first song has played; `skipAllSongs` reads `CurrentSongRequest.ID` the same way (line 54) | `skip` or `skipall` on a guild where no song has played since the bot started | report "No song is currently playing." for skip, and exclude nothing in skip-all | high; not executed | Scheduler.SkipPlanAsWritten, Scheduler.SkipOnFreshInstance, Scheduler.SkipAllExclusionAsWritten, Scheduler.SkipAllOnFreshInstance | Scheduler.SkipPlanFor, Scheduler.SkipAllExclusion, Scheduler.SkipAllLeavesOnlyCurrent |
| pkg/discord/handler_functions.go:34-47 | after an expired mute record is deleted, the code falls through and mutes the rejoining member again | a member whose record has ExpiresAt before now rejoins with the mute feature on | delete the expired record and do not mute | medium; not executed; `mute.go` stores no expiry today, so the path is latent | GuildSetup.MuteCheckAsWritten, GuildSetup.ExpiredMuteReapplied | GuildSetup.MuteCheck, GuildSetup.MuteCheckMeaning |

Other behaviour the lemmas record, which is not claimed as a defect:
- Custom command names are stored as typed but looked up lower-cased, so a name with a capital letter never answers (`CustomCommands.CapitalisedNameUnreachable`).
- `handleSongInfo` stores the guild id in GuildNameAtTime.
- A guild's stream map is never removed, so the guild check is skipped for later subscribers.
- The handler cleanup checks the context only before `Wait`.
- `rolldice` draws its total uniformly from 2 to 12 (`HelpListing.DiceTotalsCovered`), unlike the sum of two dice.
