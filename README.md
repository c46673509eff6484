# StatPuller match-session model

A Dafny model of the match bookkeeping in the `StatPullerPlugin` BakkesMod
plugin for Rocket League. The plugin watches every online match and records
only ranked 1v1 (playlist 10). During a match it keeps a per-player stat cache
so that an opponent who leaves early is not lost. When a ranked 1v1 match ends
it writes one JSON record with the start/end timestamps, the players'
counters and the local player's rating before and after.

The model has three parts:

- `MatchData` (`match_data.dfy`) holds the values the plugin handles:
  - `PlayerStats`, the counters read from a player's replication info;
  - `Pri`, one roster slot and whether it is the local player;
  - `Roster`, a sequence of optional slots, where a null handle is `None`;
  - `StatCache`, the name-keyed cache;
  - `PlayerEntry` and `MatchRecord`, what is written out.

  It also holds the functions that say what a refresh does to the cache
  (`UpsertAll`) and which players a record lists (`LivePlayers`, `Missing`,
  `IsMergedPlayers`), and the lemmas about them.
- `Plugin` (`plugin.dfy`) holds the class `StatPullerPlugin`. Its fields are
  the member state declared in the header: the two latches, the rating
  sentinels, the timestamps, the playlist tag and the cache. It has one method
  per hook: `OnMatchStarted`, `OnMatchEnded`, `OnGoalScored` (run on every
  ball explosion), `OnReplayStart` and `OnReplayEnd`. The callback that
  `OnMatchEnded` hands to the host's `SetTimeout` is the separate method
  `FinalizeDeferred`, which the environment calls later. The players array of
  the record is built by `BuildPlayers` with the same two loops as the source.
  The cache is walked in no fixed order, as a hash map is.
- `Scenarios` (`scenarios.dfy`) holds clients that drive the hooks in
  sequence. They show four things. An opponent who leaves keeps their cached
  snapshot in the record. A ball explosion during a replay is ignored. Two
  match-ended events give two records. Players cached during a match in
  another playlist are listed in the next ranked record.

Whatever the plugin would ask the host for is a parameter of the method that
asks for it. That covers whether an online game exists, its playlist id and
roster, the wall-clock time and the local player's rating in playlist 10.

The plugin does not have:

- a goal timeline or a countdown clock;
- a settling check or a playlist check at match start, so the cache fills
  during any online match;
- an early-exit trigger or a one-shot finalize latch;
- a cache clear at match start: the cache is cleared only on the successful
  finalize path.

Two consequences follow:

- A finalize skipped because the playlist is not 10 keeps the cache. The
  players of that match then appear as departed players in the next ranked
  record (`Scenarios.OtherPlaylistCarriedIntoNextRecord`).
- Every match-ended event schedules its own finalize. Each finalize that
  passes its three guards writes a record, so one match can give two records
  (`Scenarios.RepeatedEndRecordsTwice`).

## Model

| member | source | states |
|---|---|---|
| `Plugin.StatPullerPlugin.constructor` | StatPullerPlugin/StatPullerPlugin.h:27-39 | A new plugin is idle: both latches false, `mmrBefore` and `mmrAfter` at the sentinel -1, both timestamps 0, an empty playlist tag and an empty cache. The class invariant `Valid` holds: every cache entry sits under its own name and `mmrAfter` is -1. |
| `Plugin.StatPullerPlugin.OnMatchStarted` | StatPullerPlugin/StatPullerPlugin.cpp:61-74 | When a match is already in progress, nothing changes. Otherwise the in-progress latch is set, the given time becomes `matchStartUnix` and the given rating becomes `mmrBefore`. The cache, the replay latch and every other field keep their values. |
| `Plugin.StatPullerPlugin.OnMatchEnded` | StatPullerPlugin/StatPullerPlugin.cpp:76-82 | Both latches are cleared at once, before any deferred work runs. Every call returns a request to run the finalize step after 0.2 seconds. The cache, ratings, timestamps and playlist tag are unchanged. |
| `Plugin.StatPullerPlugin.FinalizeDeferred` | StatPullerPlugin/StatPullerPlugin.cpp:82-200 | It returns no record exactly when there is no online game, or the playlist is not 10, or the roster has no slots. With no game or another playlist, nothing changes. With an empty roster, only the playlist tag becomes "1s"; the cache stays. Otherwise the record has version "1.0", the start time, the given end time, playlist "1s", and players merged from the roster and the old cache (`IsMergedPlayers`). `matchEndUnix` becomes the end time and the cache is emptied. The latches, `mmrBefore`, `matchStartUnix` and `mmrAfter` (still -1) are unchanged. |
| `Plugin.StatPullerPlugin.OnGoalScored` | StatPullerPlugin/StatPullerPlugin.cpp:235-267 | When no match is in progress, a replay is running or there is no online game, nothing changes. Otherwise the cache becomes `UpsertAll(old cache, roster)`: each non-null slot, in order, overwrites the entry under its name. No other field changes, and entries stay keyed by name. |
| `Plugin.StatPullerPlugin.OnReplayStart` | StatPullerPlugin/StatPullerPlugin.cpp:209-211 | The replay latch is set whatever the other state is. Nothing else changes. |
| `Plugin.StatPullerPlugin.OnReplayEnd` | StatPullerPlugin/StatPullerPlugin.cpp:204-207 | The replay latch is cleared whatever the other state is. Nothing else changes. |
| `Plugin.BuildPlayers` | StatPullerPlugin/StatPullerPlugin.cpp:125-167 | The players array is first the live entries, in roster order and with the rating pair only on the local player. After them come the cached entries whose names are not live, each exactly once, in any order. |
| `MatchData.LiveNamesSpec` | StatPullerPlugin/StatPullerPlugin.cpp:125-131 | A name is in the set of present players exactly when some non-null roster slot carries it. |
| `MatchData.LivePlayersAppend` | StatPullerPlugin/StatPullerPlugin.cpp:126-158 | The live entries of two rosters joined together are the live entries of the first followed by those of the second. So the live part keeps roster order. |
| `MatchData.LivePlayersSpec` | StatPullerPlugin/StatPullerPlugin.cpp:126-158 | There is one live entry per non-null slot. Each entry has a slot's stats and has the rating pair exactly when that slot is the local player. The entries' names are exactly the live names. |
| `MatchData.LivePlayersDistinct` | StatPullerPlugin/StatPullerPlugin.cpp:126-158 | When the roster's non-null slots have distinct names, so do the live entries. |
| `MatchData.UpsertAllKeys` | StatPullerPlugin/StatPullerPlugin.cpp:249-266 | After a refresh, the cache's names are its old names plus the live names. |
| `MatchData.UpsertAllKeepsAbsent` | StatPullerPlugin/StatPullerPlugin.cpp:249-266 | A cached name that is not in the roster keeps its old snapshot. |
| `MatchData.UpsertAllLatest` | StatPullerPlugin/StatPullerPlugin.cpp:249-266 | A slot's name maps to that slot's current stats when no later slot has the same name. With duplicate names, the last slot wins. |
| `MatchData.UpsertAllKeyedByName` | StatPullerPlugin/StatPullerPlugin.cpp:253-265 | After a refresh, every entry is still stored under the name it carries. This keeps the class invariant. |
| `MatchData.MergedCoversEveryone` | StatPullerPlugin/StatPullerPlugin.cpp:125-167 | Every live player and every cached player appears in the record. A player who left early is still listed. |
| `MatchData.MergedCachedEntries` | StatPullerPlugin/StatPullerPlugin.cpp:160-167 | An entry after the live part is a cached player who is not live, with that player's cached snapshot unchanged and no rating pair. So a player who is both cached and live is never added from the cache, and the live values win. |
| `MatchData.MergedRatingOnlyLocal` | StatPullerPlugin/StatPullerPlugin.cpp:150-154 | An entry that has a rating pair has the pair given to the record, and it comes from a local-player slot of the roster. |
| `MatchData.MergedNamesDistinct` | StatPullerPlugin/StatPullerPlugin.cpp:125-167 | When the live names are distinct, no name appears twice in the record. |
| `MatchData.MergedCount` | StatPullerPlugin/StatPullerPlugin.cpp:125-167 | The record has one entry per non-null slot plus one per cached name that is not live. |
| `MatchData.EnumeratesCacheCount` | StatPullerPlugin/StatPullerPlugin.cpp:160-166 | A list that names each cached player once has as many entries as the cache has names. |

## Left out

- Hook registration (`LoadHooks`), `onLoad` and `onUnload` are not modelled: they only pass the host's event names to the handlers.
- `Log` and the console output are not modelled: they are diagnostics only.
- The host queries (`GetOnlineGame`, `GetPRIs`, `GetMMRWrapper`, `GetUniqueID`, `IsLocalPlayerPRI`) are method parameters: they are foreign calls.
- The wall clock (`std::chrono`) is not read: timestamps come in as integers. The 64-bit `long long` width is not modelled, because Unix seconds stay far inside it.
- `GetPlayerMMR` returns a float. The plugin truncates it toward zero when it assigns it to an `int` (StatPullerPlugin/StatPullerPlugin.cpp:73 and :116). The model's `localMmr` parameters stand for the truncated value, and that truncation is not modelled.
- Writing the record is not modelled. That covers the JSON serialisation, the outer object keyed by the decimal start time, the fixed output path and the detached thread that launches the upload script. They are I/O and concurrency, so only the record itself is modelled.
- `SetTimeout` scheduling is not modelled as timing. `OnMatchEnded` returns the request and the environment calls `FinalizeDeferred`. How pending callbacks interleave with other hooks is up to the caller of the model.
- `OnReplayStart` also looks up the replay's scorer. Only the flag is modelled, because that lookup only logs.
