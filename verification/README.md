# OmniStats: a verified model

OmniStats follows Rocket League matches through the game's Stats API: it decides which
match is live, counts every match once, measures play, stores the results and keeps its
settings and secrets. This project models the parts of it that must not go wrong quietly
and proves what they keep.

Each part is specified by functions on values; where the program updates objects in
place or loops, a class or method has the same fields, branches and loops and is proved
to compute the function. The theorems are about the functions, over whole runs where the
program is driven by events. What a function answers is also said without it: field by
field in terms of the state and the event, by its own recursion over the events, or at
the places a standard gives (`ReducerResults`, `ReducerReadings`, `TrackerHistory`,
`TrackerKickoffs`, `TrackerLooks`, `ZipFields`, `IniLines`, `IniPlaces`, `NoteContents`).

| part | files |
|---|---|
| match lifecycle | `Playlists`, `ReducerSpec`, `ReducerSafety`, `ReducerRuns`, `ReducerResults`, `ReducerReadings`, `ReducerScenes`, `ReducerParked`, `ReducerBlocked` |
| session ledger, the reducer as a class | `SessionTypes`, `ReducerLedger`, `Reducer` |
| match analytics tracker | `TrackerSpec`, `TrackerTime`, `TrackerHistory`, `TrackerKickoffs`, `TrackerContacts`, `TrackerCars`, `TrackerLooks`, `TrackerSpeeds`, `Tracker` |
| scoreline | `Scoreline` |
| ZIP archives | `ZipFormat`, `ZipProofs`, `ZipFields`, `ZipWriter` |
| database job queue, reader pool | `JobQueue`, `ReaderPool` |
| Stats API configuration | `IniText`, `StatsApiIni`, `IniProofs`, `IniLines`, `IniPlaces`, `IniTwice`, `StatsApiRepair`, `RepairTwice` |
| notes, tags, UTF-8 | `Utf8`, `PlayerNotes`, `NoteContents` |
| match card URLs | `MatchCardUrl` |
| version order | `Version` |
| secrets | `SecretStore` |
| shared by several parts | `Common` |

Conventions. Seconds and speeds are reals. Clocks, outcomes of system calls (zlib, data
protection, opening a connection, `std::stof`) and what the roster merge and the identity
detection find in an update are inputs; the laws assumed of them are named predicates
(`ZipFormat.Inverts`, `Secrets.Honest`, `IniProofs.ReadsThirty`). Wrap-around and casts of
fixed-width integers are written out where values can reach them (ZIP fields, the base64
accumulator, the INI port); counters that only grow are unbounded. Threads are modelled as
any interleaving of the steps taken under the mutex.

What the proofs brought to light:

- A GUID can be parked and terminal at once, because MatchCreated reopens a GUID without
  asking about either. A MatchDestroyed brings it about exactly when it parks a match
  whose GUID is terminal, or saves or voids one whose GUID is parked; no other event does
  (`StepKeepsApart`, `DisjointIff`). In the second case a parked result is lost: it is
  never saved, and its confirmation does nothing (`ParkedMatchIsLost`).
- While a GUID is parked and live at once, a MatchEnded that names it saves its result for
  the parked match and leaves the live one open under a terminal GUID (`EndOfReopened`,
  `EndIsMisdirected`).
- A saved match enters no totals exactly when its session is over and the recap is not of
  that session: either the session left no recap, having no results, or a later recap
  has replaced it (`SavedIsCountedIff`, `NoRecapLosesTheTotals`,
  `ReplacedRecapLosesTheTotals`).
- A ZIP of 65536 entries or more reads back without an error and without the entries its
  16-bit count drops (`RoundTripIffCountFits`, `TooManyFilesReadAsNone`).
- A coalesced database request is covered by work that had already begun exactly when the
  running job is of its key (`CoveredIsServedLaterIff`, `CoveredByRunning`).
- A match that ends level by forfeit can still show a late match-winning goal
  (`KeptGoalCanBeEqualised`).
- Clearing a secret has no effect exactly while a load has found a ciphertext that did not
  open, or is to be encrypted again, and no call since has given the field a new value
  (`ClearingTakesEffect`, `ClearingCanFail`).
- Repairing a configuration file twice changes its bytes again exactly when a line keeps a
  carriage return before a plain newline or at the end of the text (`RepairTwiceIff`,
  `RepairTwiceCanDiffer`).

## Model

| member | source | states |
|---|---|---|
| Playlists.PlaylistTable | src/core/game/PlaylistMetadata.cpp:11-96 | in every row of the table the class decides the rest: a playlist has a void reason exactly when it is of the class that is not recorded, a mode that allows an early exit exactly when it is ranked, the casual mode exactly when it is casual, and its mode as MMR key exactly unless it is not recorded or external; -1 has no row |
| Playlists.PlaylistClasses | src/core/game/PlaylistMetadata.cpp:11-96 | which ids are casual, ranked, tournament, not recorded and external, by ranges; no other id is known; standard and Heatseeker are the ranked modes with two playlists |
| ReducerSafety.TrackedModeIsRecordable | src/core/reducer/TelemetryReducerDetail.cpp:37-53 | a mode that allows an early exit rules out every context for which the other validator voids a match |
| ReducerSafety.ValidatorsAgree | src/core/reducer/TelemetryReducerMatchValidation.cpp:89-231 | the two separately written validators agree: a live match may exit early if and only if its capture is persisted for either winner and the extra demands of an early exit hold |
| ReducerSafety.ValidExitIsParkable | src/core/reducer/TelemetryReducerMatchValidation.cpp:165-231 | a match that may exit early would be persisted whoever won, with the local result equal to "the winner is my team" |
| ReducerSafety.StepIsSafe | src/core/reducer/TelemetryReducerFinalize.cpp:118-237 | every event keeps the safety invariant: saved matches are terminal and pairwise different, parked ones are persistable, carry their own GUID and are not saved under their generation |
| ReducerRuns.SavedAtMostOnce | src/core/reducer/TelemetryReducerFinalize.cpp:118-237 | over every run no GUID and no match lifecycle is saved twice, and every saved GUID is terminal |
| ReducerRuns.TerminalIsForever | src/core/reducer/TelemetryReducerFinalize.cpp:118-165 | a GUID recorded terminal, saved or voided, stays so and no later event saves it |
| ReducerRuns.ConfirmationSaves | src/core/reducer/TelemetryReducerFinalize.cpp:491-519 | in every reachable state a parked, non-terminal match is saved by the tracker confirmation, as it was frozen and with the confirmed result; a terminal one changes nothing |
| ReducerRuns.LateEndSaves | src/core/reducer/TelemetryReducerFinalize.cpp:239-300 | in every reachable state a late MatchEnded for a parked match takes it off the parked ones and, unless it is terminal, saves it with that winner; it is never voided |
| ReducerRuns.ResolvingLeavesLiveAlone | src/core/reducer/TelemetryReducerFinalize.cpp:118-237 | resolving a match of another lifecycle leaves the live match as it is, but for the reset of its timing |
| ReducerRuns.ParkedIsFrozen | src/core/reducer/TelemetryReducerFinalize.cpp:302-440 | no event but its own resolution alters a parked capture |
| ReducerRuns.WhatResolveDestroyedParks | src/core/reducer/TelemetryReducerFinalize.cpp:336-440 | a destroyed match is parked if and only if no winner is known, it may exit early, the player did not forfeit and the tracker can be asked; parking saves nothing and never replaces a parked match |
| ReducerRuns.OnlyTheLiveMatchIsParked | src/core/reducer/TelemetryReducerFinalize.cpp:302-440 | a newly parked match is the live one, under its own GUID and generation, and persistable whoever won |
| ReducerParked.TerminalGuidCanBeParkedAgain | src/core/reducer/TelemetryReducer.cpp:163-198 | a reachable state has a saved GUID parked once more: MatchCreated reopens a terminal GUID; confirming it does nothing |
| ReducerParked.ParkedMatchIsLost | src/core/reducer/TelemetryReducerFinalize.cpp:347-353 | a reachable state, with nothing saved so far, has a parked match whose GUID became terminal when the lifecycle that reopened it was left before its round; its confirmation does nothing |
| ReducerParked.StepKeepsApart | src/core/reducer/TelemetryReducerFinalize.cpp:302-440 | an event leaves a GUID both parked and terminal if and only if it is a MatchDestroyed that decides about that GUID and parks it while it is terminal, or does not park it while it is parked |
| ReducerParked.DisjointIff | src/core/reducer/TelemetryReducerFinalize.cpp:302-440 | parked and terminal GUIDs are disjoint in every state of a run if and only if no MatchDestroyed of the run collides like that |
| ReducerParked.ParkedIsSavedKeptOrLost | src/core/reducer/TelemetryReducerFinalize.cpp:239-519 | in every reachable state each event saves a parked, non-terminal match, or keeps it as it was frozen; it becomes terminal unsaved if and only if the live match of its GUID is destroyed and not parked |
| ReducerParked.TerminalIsNeverSaved | src/core/reducer/TelemetryReducerFinalize.cpp:118-132 | whatever follows a state in which a GUID is terminal, the saves so far stay, and none that is added is of that GUID |
| ReducerParked.EndOfReopened | src/core/reducer/TelemetryReducerFinalize.cpp:239-300 | in every reachable state a MatchEnded with a winner that names the match in play ends it if and only if the GUID is neither parked nor terminal; while it is parked the result is saved for the earlier match parked under it, and the match in play stays open under a terminal GUID |
| ReducerParked.EndIsMisdirected | src/core/reducer/TelemetryReducerFinalize.cpp:239-261 | a reachable state in which that happens: the result of a reopened match is saved for the one parked before |
| ReducerBlocked.StepKeepsProtected | src/core/reducer/TelemetryReducer.cpp:100-109 | no event but a MatchCreated with a GUID saves, voids, parks or names a lifecycle that is blocked, nameless and open |
| ReducerBlocked.ReconnectProtects | src/core/reducer/TelemetryReducer.cpp:100-109 | a reconnect in any reachable state with an open match without a GUID in play: over every continuation, until a MatchCreated names it, that match is not saved, parked or voided |
| ReducerRuns.StartedMatchIsNotReplaced | src/core/reducer/TelemetryReducerUpdateState.cpp:109-300 | a running match in a known, recorded playlist keeps its lifecycle, GUID and playlist through any number of state updates |
| GamemodeLaws.ArenaMeans | src/core/game/GamemodeUtils.cpp:8-51 | which words in the letters and digits of an arena name say hoops, dropshot or snow day, in that order; any other name says nothing |
| GamemodeLaws.KeyIsPerCharacter | src/core/game/GamemodeUtils.cpp:8-17 | letters are compared in lower case, with digits, and everything else in the name is dropped |
| GamemodeLaws.CountFillsTeams | src/core/game/GamemodeUtils.cpp:19-25 | a mode is inferred from one to six players, and is the one whose two teams they fill, or nearly |
| GamemodeLaws.TeamSizes | src/core/reducer/TelemetryReducerMatchValidation.cpp:14-20 | the team size of every mode, and which modes are tracked |
| Playlists.PlaylistModes | src/core/game/PlaylistMetadata.cpp:11-96 | which playlists are of each mode that has playlists of its own |
| Playlists.PlaylistReasons | src/core/game/PlaylistMetadata.cpp:11-96 | which playlist has each reason for not being recorded |
| ReducerReadings.ModeMeans | src/core/reducer/TelemetryReducerDetail.cpp:37-53 | the mode of a match is that of its playlist; without one, what was told, the arena, the category and the number of players decide, in this order |
| ReducerResults.ForfeitMeans | src/network/telemetry/TelemetryEvents.cpp:231-245 | the local player gave up exactly if an event says so, names its team as giving up, or, naming none, the other team as the winner of a forfeit |
| ReducerResults.ClassifyMeans | src/core/reducer/TelemetryReducerMatchValidation.cpp:89-163 | a match is persisted exactly if a team won, its player was active on a team in a started round, no replay ran, the context is recorded and the lobby was once full; it is won exactly if the winner is the local team |
| ReducerResults.VoidReasons | src/core/reducer/TelemetryReducerMatchValidation.cpp:89-163 | which of several objections is the reason shown |
| ReducerResults.RefreshMeans | src/core/reducer/TelemetryReducerDetail.cpp:70-80 | when the tracker can be asked about a match, and that the query names its player, GUID, playlist and result |
| ReducerResults.EndedResult | src/core/reducer/TelemetryReducerFinalize.cpp:239-300 | in every state a MatchEnded that decides about the match in play saves it if and only if a team won and nothing speaks against, for that winner, as our win exactly if it is the live team, with its GUID, lifecycle, session, playlist, players and statistics, the score the event tells or else the live one, team by team, and the overtime so far; what is shown and asked of the tracker follows |
| ReducerResults.EndIgnored | src/core/reducer/TelemetryReducerFinalize.cpp:239-280 | one that decides about no match changes nothing |
| ReducerResults.DestroyedWithWinner | src/core/reducer/TelemetryReducerFinalize.cpp:336-346 | in every state a MatchDestroyed with a winner that decides about the match in play, unless its GUID is terminal, saves it if and only if nothing speaks against, for that winner, as our win exactly if it is the live team; each saved field is that of the live match or of the event; else it is shown void, and why |
| ReducerResults.DestroyedByForfeit | src/core/reducer/TelemetryReducerFinalize.cpp:347-360 | without a winner, after the local player gave a countable match up, it is saved as the win of the other team |
| ReducerResults.DestroyedIsParked | src/core/reducer/TelemetryReducerFinalize.cpp:361-424 | without a winner and without a forfeit, a countable match of a player the tracker knows is parked: as it was frozen, the query about its player, GUID and mode, shown meanwhile as void, pending, and provisionally as won exactly if the local team leads and its player is still there |
| ReducerResults.DestroyedWithoutIdentity | src/core/reducer/TelemetryReducerFinalize.cpp:361-367 | of a player the tracker does not know it is void for that reason |
| ReducerResults.DestroyedIsVoid | src/core/reducer/TelemetryReducerFinalize.cpp:347-353 | a match whose early exit does not count is void: terminal, nothing saved, parked or asked, shown with the score told and the first reason that holds |
| ReducerResults.DestroyedOtherwise | src/core/reducer/TelemetryReducerFinalize.cpp:302-335 | one that does not decide about an open match changes nothing; a match that is over is only left |
| ReducerReadings.CreatedResult | src/core/reducer/TelemetryReducer.cpp:146-265 | a MatchCreated begins a match exactly if none is played, or it names another one or follows an unrecorded one; nothing is left of the earlier match but the arena name and the local identity; otherwise it only names a nameless one |
| ReducerReadings.ArenaResult | src/core/reducer/TelemetryReducerUpdateState.cpp:141-227 | what a new arena does to a match under way, to one that has not started, and to none, field by field |
| ReducerReadings.PlaylistResult | src/core/reducer/TelemetryReducerUpdateState.cpp:229-290 | a started match in a recorded playlist keeps it; leaving an unrecorded one begins a match of the same GUID in the new playlist; else it is taken over |
| ReducerReadings.SignalsResult | src/core/reducer/TelemetryReducerUpdateState.cpp:76-107 | which contexts exclude an early exit, and why; a playlist overrules what was told before |
| ReducerReadings.LocalResult | src/core/reducer/TelemetryReducerUpdateState.cpp:500-624 | where the local player is seen: on a team it counts as active, watching changes neither identity nor team |
| ReducerReadings.LobbyResult | src/core/reducer/TelemetryReducerUpdateState.cpp:302-320 | only without a playlist is the lobby watched: its sizes only grow, and it was full once both teams had the size of the mode |
| ReducerReadings.ReplayReadings | src/core/reducer/TelemetryReducerUpdateState.cpp:292-300 | of a replay only score, context and forfeits are read |
| ReducerReadings.PlayReadings | src/core/reducer/TelemetryReducerUpdateState.cpp:292-624 | of play also the spectator flag, the local player, the lobby, the rosters and, for a known local player, the statistics |
| ReducerReadings.UpdateOpensMatch | src/core/reducer/TelemetryReducerUpdateState.cpp:109-624 | an update that meets a new arena while no match is played opens one in the playlist, with the score and the players it tells |
| ReducerReadings.ClearedResult | src/core/state/MatchState.cpp:102-142 | a cleared match leaves its lifecycle number, the reconnect mark, the result shown and all records |
| ReducerReadings.DisconnectResult | src/core/reducer/TelemetryReducer.cpp:100-109 | a disconnect marks an open match in play and changes nothing else |
| ReducerReadings.OtherEventsResult | src/core/reducer/TelemetryReducer.cpp:135-145 | what the remaining events set, and nothing else |
| ReducerLedger.BookCounts | src/core/reducer/TelemetryReducerFinalize.cpp:43-116 | adding up any matches: wins and losses are the won and lost ones, each of the fifteen counters is the sum, each of the six peaks the maximum and each fastest goal the least positive time, participations never exceed team goals |
| ReducerLedger.BookCountsModes | src/core/reducer/TelemetryReducerFinalize.cpp:43-116 | each mode counts exactly the wins and losses of its matches, and its total is their sum |
| ReducerLedger.ModesPartition | src/core/reducer/TelemetryReducerFinalize.cpp:43-116 | the mode totals add up to the matches that count for a mode, and only tracked modes have an entry |
| ReducerLedger.RunIsBooked | src/core/reducer/TelemetryReducerFinalize.cpp:172-201 | over every run the session book and the recap book are the books of the matches saved for their generations |
| ReducerLedger.SessionIsExact | src/core/reducer/TelemetryReducerFinalize.cpp:172-201 | in every reachable state the session totals are those of exactly the saved matches captured in the current generation, the session lasts from the earliest to the latest known end of one of them, and its GUIDs are distinct and terminal |
| ReducerLedger.ModesAreExact | src/core/reducer/TelemetryReducerFinalize.cpp:172-201 | the same for every mode, whose total is wins plus losses |
| ReducerLedger.RecapIsExact | src/core/state/MatchState.cpp:55-100 | the recap is of an earlier session and counts every match of it saved so far, however late |
| ReducerLedger.SavedIsCountedIff | src/core/reducer/TelemetryReducerFinalize.cpp:172-201 | in every reachable state a match that is saved changes no totals if and only if the session it was captured in is over and the recap is of another one, or there is none; only a match that was parked can meet that |
| ReducerLedger.NewSessionUncountsIff | src/core/state/MatchState.cpp:55-100 | closing a session takes a parked match out of reach of every total if and only if the match is of an earlier session and this one had results, or of this session and it had none, or it was out of reach already |
| ReducerLedger.NoRecapLosesTheTotals | src/core/state/MatchState.cpp:56-56 | a reachable state without a recap in which a confirmation saves a match into no totals: its session was closed without results |
| ReducerLedger.ReplacedRecapLosesTheTotals | src/core/state/MatchState.cpp:73-73 | a reachable state with a recap in which a confirmation saves a match into no totals: a later recap replaced that of its session |
| ReducerReadings.NewSessionResult | src/core/state/MatchState.cpp:55-100 | a new session starts from zero in the next generation; one with results becomes the recap of its totals, GUIDs and player, and no recap is replaced otherwise |
| ReducerReadings.WithGuidsMeans | src/core/state/MatchState.cpp:58-70 | the GUIDs of a recap are those of its session, then the missing ones of the history, each once |
| ReducerReadings.LateMatchNamesRecap | src/core/reducer/TelemetryReducerFinalize.cpp:186-201 | a recap without an account takes that of the first late match saved into it |
| ReducerResults.TeamGoalsMeans | src/core/reducer/TelemetryReducerFinalize.cpp:82-95 | the goals of the local team are its own side of the score, and when that is not positive also those its players have, summed over any list of the roster |
| ReducerResults.TeamPlayMeans | src/core/reducer/TelemetryReducerFinalize.cpp:82-103 | no team play in a duel; else these goals count if positive, and own goals and assists as far as they reach |
| ReducerResults.CountsForModeMeans | src/core/reducer/TelemetryReducerFinalize.cpp:105-116 | a match counts for its mode exactly if the mode is tracked and the match is neither casual nor told to be unrecorded |
| Reducer.RosterGoalsAnyKey | src/core/reducer/TelemetryReducerFinalize.cpp:82-116 | the roster goals of a team do not depend on the order the map is walked in |
| Reducer.AddMatchToTotals | src/core/reducer/TelemetryReducerFinalize.cpp:43-116 | the in-place additions, maxima and minima compute the book with one more match |
| Reducer.MatchState.FinalizeCaptured | src/core/reducer/TelemetryReducerFinalize.cpp:118-237 | the handler computes the specified new state and effects: one decision, at most one save, totals for the current generation, the recap or neither |
| Reducer.MatchState.FinalizeMatch | src/core/reducer/TelemetryReducerFinalize.cpp:444-456 | the live match is captured and finalized unless it or its GUID is terminal |
| Reducer.MatchState.HandleMatchEnded | src/core/reducer/TelemetryReducerFinalize.cpp:239-300 | the handler in place computes the function of `ReducerResults.EndedResult` and `ReducerRuns.LateEndSaves` |
| Reducer.MatchState.HandleMatchDestroyed | src/core/reducer/TelemetryReducerFinalize.cpp:302-440 | the handler in place computes the function of the `ReducerResults.Destroyed...` lemmas, which say for whom a match is saved and when it is voided or parked |
| Reducer.MatchState.ConfirmPendingDestroyed | src/core/reducer/TelemetryReducerFinalize.cpp:491-519 | a confirmation finalizes the parked match it names |
| Reducer.MatchState.MarkVoid | src/core/reducer/TelemetryReducerFinalize.cpp:27-41 | a void match is terminal and finalized and shows why |
| Reducer.MatchState.CaptureMatch | src/core/reducer/TelemetryReducerMatchValidation.cpp:26-87 | the frozen copy of the live match |
| Reducer.MatchState.HandleMatchCreated | src/core/reducer/TelemetryReducer.cpp:146-265 | a new lifecycle, a late GUID, or nothing |
| Reducer.MatchState.HandleArena | src/core/reducer/TelemetryReducerUpdateState.cpp:141-227 | a new arena restarts the match, renames it or opens a new lifecycle |
| Reducer.MatchState.HandlePlaylist | src/core/reducer/TelemetryReducerUpdateState.cpp:229-290 | a new playlist is refused while latched, opens a new lifecycle or is taken over |
| Reducer.MatchState.HandleUpdateState | src/core/reducer/TelemetryReducerUpdateState.cpp:109-624 | the parts of a state update that touch the lifecycle, in their order |
| Reducer.MatchState.StartNewSession | src/core/state/MatchState.cpp:55-100 | a recap of a session with results, zeroed totals and the next generation |
| Reducer.MatchState.OnTelemetryDisconnected | src/core/reducer/TelemetryReducer.cpp:100-109 | a reconnect marks the open match in play; what that protects is `ReducerBlocked.ReconnectProtects` |
| Reducer.MatchState.Reduce | src/core/reducer/TelemetryReducer.cpp:135-265 | the dispatch computes the step function the theorems are about |
| TrackerTime.RunKeepsTime | src/core/game/MatchAnalyticsTracker.cpp:65-114 | over every run with a non-decreasing clock the window, possession and pause invariants hold |
| TrackerTime.PlayAndPausesFit | src/core/game/MatchAnalyticsTracker.cpp:350-363 | play plus paused seconds never exceed the time since the first event, for every interleaving; possession of both teams fits into play |
| TrackerTime.TimelineAccountsForPossession | src/core/game/MatchAnalyticsTracker.cpp:371-377 | the snapshot timeline adds up to possession exactly; full windows are 15 to under 15.5 play seconds long and the open one is shorter than 15 |
| TrackerContacts.ChainsExist | src/core/game/MatchAnalyticsTracker.cpp:216-221 | the frames of a player can be cut into contacts exactly at the gaps over 0.03 s |
| TrackerContacts.ChainsAreUnique | src/core/game/MatchAnalyticsTracker.cpp:216-221 | in one way only |
| TrackerContacts.ContactsAreChains | src/core/game/MatchAnalyticsTracker.cpp:208-234 | for every run, player and such cut: hits counts the contacts, the speed sum adds their fastest frames, hard hits are those whose fastest frame is at least 100, and the top speed is that of the fastest frame |
| TrackerContacts.FirstTouchesAreKickoffs | src/core/game/MatchAnalyticsTracker.cpp:186-254 | a player never has more first touches than kickoffs were recorded |
| TrackerContacts.StepExtendsKickoffs | src/core/game/MatchAnalyticsTracker.cpp:186-254 | kickoffs are only appended; in the latest one a first touch or a goal, once written, stays |
| TrackerCars.CarSecondsAddUp | src/core/game/MatchAnalyticsTracker.cpp:116-173 | in every state, for every car: ground, air and wall, the four boost bands, and the three speed bands of a snapshot each add up to the sampled seconds; empty and full boost fit into the outer bands |
| TrackerCars.BandsPartition | src/core/game/MatchAnalyticsTracker.cpp:397-409 | the three speed bands of any samples add up to their seconds, in either unit |
| TrackerCars.CarTimeFitsPlayTime | src/core/game/MatchAnalyticsTracker.cpp:87-133 | when no update samples a car twice, no car is watched longer than was played; players an update skips may be listed any number of times |
| TrackerCars.BoostBalances | src/core/game/MatchAnalyticsTracker.cpp:154-172 | every change of a known boost amount is counted as collected or as used, to the unit; a respawn grant is neither, and is taken once |
| TrackerCars.BoostIsConserved | src/core/game/MatchAnalyticsTracker.cpp:154-172 | over every run: between one countdown or respawn of a car and the next, its boost is what it was first, plus what it collected, minus what it used |
| Tracker.MatchAnalyticsTracker.OnUpdateState | src/core/game/MatchAnalyticsTracker.cpp:87-174 | the update in place computes the specified clock, kickoffs and cars |
| Tracker.MatchAnalyticsTracker.AddPlayTime | src/core/game/MatchAnalyticsTracker.cpp:65-85 | the additions in place compute the clock of `TrackerHistory.ClockIsHistory` and `TimelineIsHistory`; a due kickoff is settled |
| Tracker.MatchAnalyticsTracker.TimeCar | src/core/game/MatchAnalyticsTracker.cpp:132-147 | seconds by surface, powerslide and boosting |
| Tracker.MatchAnalyticsTracker.BandCar | src/core/game/MatchAnalyticsTracker.cpp:153-153 | seconds by boost band |
| Tracker.MatchAnalyticsTracker.BoostCar | src/core/game/MatchAnalyticsTracker.cpp:154-172 | the branches in place compute the function of `TrackerCars.BoostIsConserved` |
| Tracker.MatchAnalyticsTracker.OnBallHit | src/core/game/MatchAnalyticsTracker.cpp:200-254 | every hitter touches once per reported frame; the first touch goes to the kickoff |
| Tracker.MatchAnalyticsTracker.OnRoundStarted | src/core/game/MatchAnalyticsTracker.cpp:186-198 | a round restarts the sampling and appends a kickoff |
| Tracker.MatchAnalyticsTracker.OnCountdownBegin | src/core/game/MatchAnalyticsTracker.cpp:176-184 | a countdown stops the round and forgets the boost state of every car |
| Tracker.MatchAnalyticsTracker.OnGoalScored | src/core/game/MatchAnalyticsTracker.cpp:276-319 | a goal stops the round and is credited to a kickoff within 10 s of play |
| Tracker.MatchAnalyticsTracker.Handle | src/core/game/MatchAnalyticsTracker.cpp:87-369 | each event computes the step function the theorems are about |
| Tracker.SnapshotSpeeds | src/core/game/MatchAnalyticsTracker.cpp:387-410 | the two passes of a snapshot compute distance, maximum and the three speed bands without changing the samples |
| TrackerHistory.ClockIsHistory | src/core/game/MatchAnalyticsTracker.cpp:65-114 | over every run play is the sum of the seconds counted, the possession of each team the sum of those in which it was the last to have the ball, the pauses are as many and as long as the events say, and a round is on exactly if they say so; all by recursion over the events |
| TrackerHistory.TimelineIsHistory | src/core/game/MatchAnalyticsTracker.cpp:70-79 | each window of the timeline, and the one being filled, holds for each team the counted seconds of its stretch of play in which that team was the last to have the ball |
| TrackerHistory.AddedWindow | src/core/game/MatchAnalyticsTracker.cpp:70-79 | seconds go to the side of the team that has the ball; the window closes when 15 seconds are reached |
| TrackerHistory.SnapshotIsHistory | src/core/game/MatchAnalyticsTracker.cpp:371-377 | a snapshot shows the closed windows, and the open one if a team had the ball in it |
| TrackerKickoffs.KickoffsAreHistory | src/core/game/MatchAnalyticsTracker.cpp:186-319 | over every run there is a kickoff for each round that started, with the first hitter whose contact was new, the team that had the ball when three seconds had been played, and the team that scored within ten; each player has as many first touches as the events say |
| TrackerLooks.CarIsHistory | src/core/game/MatchAnalyticsTracker.cpp:116-184 | over every run each counter of a car is the sum or number of the looks at it that it counts: surfaces, powerslides and their beginnings, boosting, amounts and bands, demolished time, boost collected and used, and pads, reported or else told by gains over and up to 12 |
| TrackerSpeeds.SpeedsMean | src/core/game/MatchAnalyticsTracker.cpp:387-410 | distance, top speed and the seconds of each speed band of any samples, with the limits 1400 and 2200 units or 50.4 and 79.2 km/h, in units exactly if a sample is above 150 |
| Scoreline.AnalyzeScoreline | src/core/game/MatchAnalytics.cpp:448-481 | the largest lead and deficit are the exact extremes over the score after every goal; comeback, blown lead, overtime, late winner and the counters mean what they say |
| Scoreline.DecisiveHolds | src/core/game/MatchAnalytics.cpp:465-465 | the goal kept as decisive exists and its team is never level or behind after it if and only if the goals end with that team ahead |
| Scoreline.KeptGoalCanBeEqualised | src/core/game/MatchAnalytics.cpp:475-475 | goals that end level still flag an equalised goal as a late winner |
| Scoreline.DecisiveIsUnique | src/core/game/MatchAnalytics.cpp:465-465 | at most one goal is the decisive one |
| Scoreline.StoryDecisive | src/core/game/MatchStory.cpp:91-99 | the story picks the same goal |
| Scoreline.ScoreCounts | src/core/game/MatchAnalytics.cpp:452-462 | the score of a team is the number of its goals; its last-minute goals are those in regulation with at most 60 seconds on the clock |
| ZipProofs.ArchiveReadsBack | src/utils/ZipWriter.cpp:108-285 | reading what Finalize wrote succeeds and gives back names, sizes, checksums and contents in order, for as many entries as the 16-bit count says |
| ZipProofs.RoundTripIffCountFits | src/utils/ZipWriter.cpp:154-155 | within the name, content and offset limits all files come back if and only if there are fewer than 65536 |
| ZipProofs.TooManyFilesReadAsNone | src/utils/ZipWriter.cpp:154-155 | 65536 empty files fit every other limit, and their archive reads back as no files, without an error |
| ZipProofs.OffsetsPoint | src/utils/ZipWriter.cpp:112-112 | every recorded offset points at its own local header |
| ZipFormat.FindEnd | src/utils/ZipWriter.cpp:200-211 | the end record found is the last signature in the window, and none is missed |
| ZipWriter.ZipWriter.AddFile | src/utils/ZipWriter.cpp:61-106 | an entry is appended unless deflate fails |
| ZipWriter.ZipWriter.Finalize | src/utils/ZipWriter.cpp:108-161 | the bytes are the archive whose fields `ZipFields.HeadersTell` gives, and each entry keeps the offset of its local header |
| ZipWriter.ReadZipEntries | src/utils/ZipWriter.cpp:196-285 | the moving cursor computes the specified reader, its failures and its unchecked wrap included |
| ZipFields.HeadersTell | src/utils/ZipWriter.cpp:111-151 | for every list of entries within the 32-bit limit: at the place the sizes of the records before it give, each local header holds signature, version 20, flags 0x0800, method, time, date, checksum, sizes, name length and no extra field, then name and content; each directory record the same behind two versions, with no comment, disk or attributes, and the offset of the local header |
| ZipFields.EndTellsDirectory | src/utils/ZipWriter.cpp:152-159 | the file ends in the end record: count, size and place of the directory, and no comment |
| ZipFields.CastsWrap | src/utils/ZipWriter.cpp:124-158 | a length or offset too large for its field is written modulo its size |
| ZipFields.EntryTells | src/utils/ZipWriter.cpp:61-106 | the entry of a file has its name, time, date, size and checksum, stored if it is empty and else deflated |
| ZipFields.EntryIsReadAsTold | src/utils/ZipWriter.cpp:217-282 | for any bytes an entry is read exactly as the fields at the cursor and behind the header it points at tell it, with the checksum told |
| ZipFields.ReadIsTold | src/utils/ZipWriter.cpp:196-285 | any bytes are read as these entries if and only if the last signature among the last 65557 bytes is an end record whose directory ends in the bytes, and they are the records from the place it tells on, as many as it says, one behind another |
| ZipFields.NoEndNoRead | src/utils/ZipWriter.cpp:196-211 | without a signature among the last 65557 bytes nothing is read |
| JobQueues.StepIsGood | src/database/DatabaseManager.cpp:28-58 | every request and worker step keeps the queue invariant |
| JobQueues.QueueIsFair | src/database/DatabaseManager.cpp:149-189 | over every interleaving: each class runs in acceptance order, no non-critical job starts while a critical one waits, at most 101 non-critical jobs wait, a critical job is refused if and only if the queue was stopped |
| JobQueues.CoveredIffUnfinished | src/database/DatabaseManager.cpp:157-162 | a keyed request is answered without a job if and only if a job of its key is queued or running |
| JobQueues.CoveredByRunning | src/database/DatabaseManager.cpp:53-56 | it happens: with one request taken up and nothing queued, a second request of its key is covered |
| JobQueues.CoveredIsServedLaterIff | src/database/DatabaseManager.cpp:157-162 | in every reachable state a covered request is followed by a job of its key that begins later if and only if the running job is not of its key |
| JobQueues.ExitMeansDrained | src/database/DatabaseManager.cpp:37-39 | the worker exits only when every accepted job has run |
| JobQueues.StoppedQueueDrains | src/database/DatabaseManager.cpp:61-70 | once stopped, whatever else happens, the worker exits after exactly the steps its queue asks for, and until then one of them is always enabled |
| JobWorker.DbJobQueue.EnqueueDbJob | src/database/DatabaseManager.cpp:149-189 | the request in place computes the queue and the answer of `JobQueues.AcceptedIff`, and is the step `Request` of the protocol |
| JobWorker.DbJobQueue.DrainAfterStop | src/database/DatabaseManager.cpp:29-57 | the worker loop after stop runs what is queued, in order, and ends; as protocol steps it takes and finishes each job in turn |
| JobWorker.DbJobQueue.TakeJob | src/database/DatabaseManager.cpp:27-43 | taking the first job is the step `Take` of the protocol |
| JobWorker.DbJobQueue.FinishJob | src/database/DatabaseManager.cpp:53-56 | releasing the key after a job is the step `Finish` of the protocol |
| JobQueues.AcceptedIff | src/database/DatabaseManager.cpp:149-189 | in every reachable state that is not stopped: a request is covered exactly if an unfinished job has its key, and otherwise queued exactly if it is critical or at most 100 jobs wait; one that is not queued changes nothing |
| JobQueues.StoppedRefuses | src/database/DatabaseManager.cpp:151-153 | after stop every request is refused |
| JobQueues.QueueFills | src/database/DatabaseManager.cpp:164-175 | a run in which the 101st waiting job is accepted and the next one is refused, unless it is critical |
| ReaderPools.ConnectionsAreConserved | src/database/ReaderPool.cpp:42-106 | over every interleaving, moves and assignments included: available and leased connections are disjoint, duplicate-free and together all connections; each one taken came back exactly once unless still out |
| ReaderPools.ShutdownWaitsForLeases | src/database/ReaderPool.cpp:26-35 | a shutdown in progress can clear the pool if and only if no lease holds a connection; all that were handed out are then back |
| ReaderPools.StepIsGood | src/database/ReaderPool.cpp:6-106 | every step keeps that partition |
| ReaderLeases.PoolState.Fill | src/database/ReaderPool.cpp:8-23 | every connection that opens is available; it is the step `Fill` of the protocol |
| ReaderLeases.PoolState.Acquire | src/database/ReaderPool.cpp:42-67 | the last available connection, or an empty lease; a failed BEGIN puts it back; it is the steps `Acquire` and `Begin` of the protocol |
| ReaderLeases.Lease.Assign | src/database/ReaderPool.cpp:90-106 | what was held goes back to its own pool first; assigning a lease to itself changes nothing; it is the step `MoveAssign` |
| ReaderLeases.Lease.Destroy | src/database/ReaderPool.cpp:72-83 | what was held goes back once; it is the step `Destroy` |
| ReaderLeases.PoolState.FinishShutdown | src/database/ReaderPool.cpp:26-35 | clearing the pool when all are back is the step `FinishShutdown` |
| ReaderPools.AcquireMeans | src/database/ReaderPool.cpp:42-67 | the connection that came back last is leased; none once the pool stops |
| ReaderPools.BeginMeans | src/database/ReaderPool.cpp:54-66 | a lease is usable once its transaction began; else its connection goes back |
| ReaderPools.MovesMean | src/database/ReaderPool.cpp:72-106 | a move hands the connection over, and what an overwritten or destroyed lease held goes back to the end of the pool |
| ReaderPools.ShutdownHandsOutNothing | src/database/ReaderPool.cpp:26-48 | from the request to shut down until the pool is filled again no connection is handed out, whatever else happens |
| IniProofs.RewriteReads | src/core/config/StatsApiIni.hpp:59-148 | for any lines the reader finds rate 30 and the requested port in the rewritten ones |
| IniTwice.RewriteTwice | src/core/config/StatsApiIni.hpp:87-148 | rewriting for one port and then another is rewriting for the other, so a second rewrite changes nothing |
| IniProofs.RewriteKeepsOthers | src/core/config/StatsApiIni.hpp:105-146 | every line that is not an exporter rate or port line survives in order; without an exporter section only the blank lines at the end go, all of them, and the section is appended |
| IniFile.RepairIsValid | src/updater/StatsApiRepair.cpp:41-64 | whatever a file contains, the check of its repair is Valid |
| RepairTwice.RepairTwiceIff | src/updater/StatsApiRepair.cpp:41-64 | repairing a file for one port and then for another gives the bytes of repairing it for the other if and only if the first repair leaves no carriage return at the end of a line where a plain newline follows or the text ends |
| RepairTwice.CleanRepairTwice | src/updater/StatsApiRepair.cpp:41-64 | so it does for every file of which no line ends in a carriage return that is not part of its ending |
| RepairTwice.RepairTwiceCanDiffer | src/updater/StatsApiRepair.cpp:41-64 | the line a followed by two carriage returns is repaired to other bytes the second time |
| IniText.NumberReadsBack | src/core/config/StatsApiIni.hpp:78-88 | every 32-bit port written as text is read back |
| StatsApiRepair.RewriteExporterSection | src/core/config/StatsApiIni.hpp:87-148 | the pass with flags and a moving insertion point computes the specified text |
| StatsApiRepair.ReadExporterValues | src/core/config/StatsApiIni.hpp:59-83 | the reading loop computes the specified values |
| StatsApiRepair.RepairContent | src/updater/StatsApiRepair.cpp:41-64 | splitting, rewriting and joining in loops compute the specified content |
| IniLines.OwnLinesAre | src/core/config/StatsApiIni.hpp:15-19 | the header and the two settings that are written |
| IniLines.HeaderMeans | src/core/config/StatsApiIni.hpp:50-57 | a bracketed name, in any letter case and with any spaces around it, opens the exporter section exactly if it is that name |
| IniLines.CommentMeans | src/core/config/StatsApiIni.hpp:64-64 | blank lines and lines that begin with a semicolon or a hash sign are comments |
| IniLines.SettingMeans | src/core/config/StatsApiIni.hpp:70-78 | a setting is split at its first equals sign; in any letter case its key says what it sets, and its value is what stands between the spaces |
| IniLines.ReaderKnows | src/core/config/StatsApiIni.hpp:59-83 | for any lines the rate and the port read are those of the last line of an exporter section that sets them to a number |
| IniLines.StoIMeans | src/core/config/StatsApiIni.hpp:76-81 | spaces, a sign, digits and anything: the number the digits spell if it fits 32 bits, else none |
| IniPlaces.RewritePlaces | src/core/config/StatsApiIni.hpp:87-148 | what stands before the first exporter section stays; in the section the first line of each setting is replaced in its place, further ones go, and what is missing stands before the comments and blank lines at its end; further exporter sections only lose their settings |
| IniPlaces.RepairMeans | src/updater/StatsApiRepair.cpp:41-64 | the repaired file is the rewritten lines, with CRLF if it had one anywhere and else LF, the last line ended exactly if it was |
| IniPlaces.StatusMeans | src/core/config/StatsApiConfig.cpp:421-442 | what each answer of the check says of rate and port |
| Utf8.DecodeOfEncode | src/core/accounts/PlayerNotes.cpp:11-65 | decoding undoes encoding on every sequence of scalar values |
| Utf8.ReencodesIffWellFormed | src/core/accounts/PlayerNotes.cpp:11-65 | encoding undoes decoding if and only if the bytes are UTF-8 by the grammar of section 4 of RFC 3629 |
| Utf8.DecodeText | src/core/accounts/PlayerNotes.cpp:11-47 | the index loop ends on any bytes and emits scalar values only |
| PlayerNotes.NoteIsNormal | src/core/accounts/PlayerNotes.cpp:114-141 | normalising any bytes gives UTF-8 of at most 2000 code points without control characters or outer whitespace; once more changes nothing |
| PlayerNotes.NoteIsFixedIff | src/core/accounts/PlayerNotes.cpp:114-141 | the texts left alone are exactly those |
| PlayerNotes.TagIsNormal | src/core/accounts/PlayerNotes.cpp:143-162 | the same for tags, of at most 32 code points and single spaces |
| PlayerNotes.PreviewIsShort | src/core/accounts/PlayerNotes.cpp:164-182 | a preview is one line of at most the requested code points before the ellipsis |
| PlayerNotes.NormalizeNoteText | src/core/accounts/PlayerNotes.cpp:114-141 | the passes in place compute the specified note |
| PlayerNotes.NormalizeTagText | src/core/accounts/PlayerNotes.cpp:143-162 | the pass with its early exit computes the specified tag |
| PlayerNotes.PreviewText | src/core/accounts/PlayerNotes.cpp:164-182 | the pass computes the specified preview |
| Utf8.EncodingMeans | src/core/accounts/PlayerNotes.cpp:49-65 | the bytes of a scalar value hold its bits at the weights of section 3 of RFC 3629, in one to four bytes by its size |
| Utf8.DecodeMeans | src/core/accounts/PlayerNotes.cpp:11-47 | any text, character by character: one of the grammar becomes the scalar that encodes to it, any other byte U+FFFD |
| NoteContents.NoteKeepsText | src/core/accounts/PlayerNotes.cpp:114-141 | a note is the text with its line ends unified and other control characters dropped, without the blanks around it, up to 2000 code points from its first |
| NoteContents.TagKeepsWords | src/core/accounts/PlayerNotes.cpp:143-162 | a tag is the words of the note with one space between them, up to 32 code points, without a space at the end |
| NoteContents.PreviewKeepsWords | src/core/accounts/PlayerNotes.cpp:164-182 | a preview is the words of the text with one space between them; what is longer than asked is cut behind a word or in it and ends in an ellipsis |
| MatchCardUrl.DecodeOfEncode | src/core/state/MatchCardUrl.cpp:17-76 | decoding undoes encoding on every byte string although the accumulator wraps |
| MatchCardUrl.EncodesLetters | src/core/state/MatchCardUrl.cpp:17-47 | only characters of the table are written, and how many |
| MatchCardUrl.DecodeSkipsJunk | src/core/state/MatchCardUrl.cpp:62-75 | other characters are skipped, padding ends the text, and every full byte of the rest comes out |
| MatchCardUrl.UrlStripsBack | src/core/state/MatchCardUrl.cpp:177-204 | a card URL, and its fragment alone, strip back to the payload; an empty payload is no card |
| MatchCardUrl.EncodeText | src/core/state/MatchCardUrl.cpp:17-47 | the loop over groups of three computes the specified text |
| MatchCardUrl.DecodeText | src/core/state/MatchCardUrl.cpp:49-76 | the loop with accumulator and bit count computes the specified bytes |
| MatchCardUrl.TableIsStandard | src/core/state/MatchCardUrl.cpp:13-13 | the 64 characters of section 5 of RFC 4648 in their order |
| MatchCardUrl.TableIsReadBack | src/core/state/MatchCardUrl.cpp:50-57 | each is read back as its value, and so are the two characters of section 4 that differ; no other character is |
| MatchCardUrl.EncodesBits | src/core/state/MatchCardUrl.cpp:23-44 | each four letters spell the 24 bits of their three bytes, and a rest of two or one its bits followed by zeros |
| MatchCardUrl.DecodeKeepsBits | src/core/state/MatchCardUrl.cpp:49-76 | what is decoded from any text are the bits its letters spell, without the last few that fill no byte, although the accumulator wraps |
| MatchCardUrl.UrlMeans | src/core/state/MatchCardUrl.cpp:177-204 | what the URL of a card looks like, and that any URL carries what stands behind its first hash sign and the version mark |
| Version.IsNewerVersion | src/updater/UpdaterCommon.cpp:51-75 | the comparison of characters decides the strict lexicographic order of the zero-padded numbers, of any size |
| Version.BelowIsTransitive | src/updater/UpdaterCommon.cpp:51-75 | that order is transitive |
| Version.Trichotomy | src/updater/UpdaterCommon.cpp:51-75 | its ties are exactly equal vectors, and it is asymmetric |
| Version.ComponentsCompare | src/updater/UpdaterCommon.cpp:54-73 | stripped components compare as text the way their numbers do; a component that is not a number is 0 |
| Version.AcceptsVersion | src/updater/ReleaseManifest.cpp:153-155 | an accepted manifest is the installed version or numerically above it |
| Version.DottedReadsBack | src/updater/UpdaterCommon.cpp:51-75 | numbers written in decimal with dots between them are read as those numbers |
| Secrets.RememberedOpens | src/core/config/SecretStore.cpp:118-200 | over every sequence of calls, with encryption and decryption failing at will and either of them the system's or one handed to the store, each remembered plaintext is what its saved ciphertext opens to |
| Secrets.DiskIsOnRecord | src/core/config/SecretStore.cpp:151-182 | a saved disk value is empty, a ciphertext of the field that was loaded, or an encryption output |
| Secrets.UnopenedIsWrittenBack | src/core/config/SecretStore.cpp:137-180 | a ciphertext that did not open, or is to be encrypted again, is written back byte for byte until the field gets a new value |
| Secrets.ClearingTakesEffect | src/core/config/SecretStore.cpp:153-163 | over every run: saving nothing clears the field on disk if and only if no call loaded it with a ciphertext that did not open or is to be encrypted again and every call since then spared the field |
| Secrets.ApplyKeepsIff | src/core/config/SecretStore.cpp:118-200 | a call leaves a field with a ciphertext of unknown plaintext if and only if it loads one like that, or gives the field no new value and there was one before |
| Secrets.ClearingCanFail | src/core/config/SecretStore.cpp:153-163 | a token that the system does not open, and one that any user of the machine can open, are both still on disk after they were cleared |
| Secrets.HexRoundTrip | src/core/config/SecretStore.cpp:12-45 | decoding hex text undoes encoding |
| Secrets.HexOfUnhex | src/core/config/SecretStore.cpp:12-45 | the other way round digits come back in lower case |
| SecretStore.SecretStore.LoadSecretField | src/core/config/SecretStore.cpp:118-149 | loading in place computes the specified store; its results are those of `Secrets.HandsOver`, and with honest protection a value that is neither refused nor to be encrypted again is what the ciphertext opens to |
| SecretStore.SecretStore.SaveSecretField | src/core/config/SecretStore.cpp:151-182 | saving in place computes the specified store and disk value |
| SecretStore.SecretStore.MigrateLegacySecrets | src/core/config/SecretStore.cpp:184-200 | the loop computes the store and says whether an encryption failed; each item has its own answer from protection |
| Secrets.HexText | src/core/config/SecretStore.cpp:12-19 | each byte is written as the digit of its upper half, then that of its lower half |
| Secrets.TargetIsHandedOver | src/core/config/SecretStore.cpp:80-149 | a load is refused exactly if a signed blob does not open, or a given function does not open the text; a plaintext of an older version is handed over as it is and is to be encrypted, like what any user of the machine can open; everything else is handed over as it opens |
| Secrets.HandedOverOpens | src/core/config/SecretStore.cpp:118-149 | with honest protection, what is handed over of a ciphertext is what it opens to |
| Secrets.LoadResult | src/core/config/SecretStore.cpp:118-149 | a load records the ciphertext and the value handed over, the ciphertext alone if it did not open or is to be encrypted again, or nothing, and leaves other fields alone |
| Secrets.SavedLoadsBack | src/core/config/SecretStore.cpp:118-182 | over every sequence of calls with honest protection: what a save writes for a plaintext that protection takes is handed over as that plaintext by every later load of it that opens |
| Secrets.SaveTwice | src/core/config/SecretStore.cpp:164-168 | a plaintext saved again writes the same bytes |
| Secrets.SaveFails | src/core/config/SecretStore.cpp:169-180 | when protection fails nothing is recorded and what was on the disk stays |
| Secrets.MigratedMeans | src/core/config/SecretStore.cpp:184-200 | a migration that succeeds leaves the last plaintext of each field on record; one that fails met a protection that failed |

## Left out

- Interface timestamps, toasts, Discord presence, encounter records and the event journal of the reducer (`AcceptsUiMatchEvent`, `TargetsCurrentActiveMatchUi`, `PublishUiTimestamps`): display state that decides nothing about matches.
- Roster merge, pruning and identity detection inside a state update: what they find is an input (`Observed`), so they may find anything.
- The MMR change of a session: it is not written where matches are added up.
- MMR values before a match and their transfer between GUIDs, and how the tracker is queried: only whether a query can be built is modelled.
- Integer overflow of counters and float rounding: counters are unbounded, seconds and speeds real.
- Tracker.MatchAnalyticsTracker.OnBallHit: hit locations, aerial and per-third counts and the list of hits are not modelled; they count contacts the same way as `hits`.
- Tracker.MatchAnalyticsTracker.OnGoalScored: the goal records are not modelled beyond the kickoff they settle; `Scoreline` takes the goals as given.
- Resolving a player reference by name or shortcut, statfeed counts, departures, ball speed samples and stolen pads of the tracker: the resolved player and team are inputs.
- Text and story lines built from the analytics, except which goal is the decisive one.
- ZIP: writing the archive to a file and the clock behind its timestamps; what a read outside the archive does after a wrapped sum is one outcome, `Undefined`.
- The SQL behind jobs and connections, exceptions inside a job (caught, so a job that throws counts as finished) and the order in which waiting threads wake up.
- StatsApiRepair.RepairContent: backups, elevation, file access and the temporary failure codes of the repair are not modelled.
- IniFile.RepairIsValid: the check reads the repaired bytes as they are; the translation a Windows text stream makes, in which a Ctrl-Z byte ends the text, is not modelled.
- JSON parsing and building around match cards: the payload is a byte string.
- Manifest signatures and the rest of the updater.
- The identifiers of players in notes, the note and tag repositories.
- Work queues, log rotation, seasons, rank progress and insights: relatives of what is here that would only add easier members.
