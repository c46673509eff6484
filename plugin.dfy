/** The StatPullerPlugin object: its member state, the host hooks that update
    it, and the deferred step that turns the live roster and the stat cache
    into one match record. Every value the host would be queried for (the
    online game, its playlist and roster, the clock, the local rating) is a
    parameter of the hook that reads it. */
module Plugin {
  import opened Wrappers
  import opened MatchData

  /** A callback the plugin asks the host to run later: here always the
      finalize step, after the given delay in seconds. */
  datatype Timeout = FinalizeAfter(delaySeconds: real)

  const FinalizeDelay: real := 0.2

  /** Builds the record's players: every non-null slot in roster order (the
      local player's with the rating pair), then every cached player whose
      name is not live. The cache is walked in no particular order, as a hash
      map is. */
  method BuildPlayers(roster: Roster, cache: StatCache, mmrBefore: int, mmrAfter: int)
    returns (players: seq<PlayerEntry>)
    requires KeyedByName(cache)
    ensures IsMergedPlayers(players, roster, cache, mmrBefore, mmrAfter)
  {
    var presentPlayers: set<string> := {};
    players := [];
    var i := 0;
    while i < |roster|
      invariant 0 <= i <= |roster|
      invariant players == LivePlayers(roster[..i], mmrBefore, mmrAfter)
      invariant presentPlayers == LiveNames(roster[..i])
    {
      assert roster[..i + 1][..i] == roster[..i];
      var slot := roster[i];
      if slot.Some? {
        var pri := slot.value;
        presentPlayers := presentPlayers + {pri.stats.name};
        var entry := PlayerEntry(pri.stats, None);
        if pri.isLocal {
          entry := entry.(mmr := Some(MmrPair(mmrBefore, mmrAfter)));
        }
        players := players + [entry];
      }
      i := i + 1;
    }
    assert roster[..i] == roster;

    ghost var live := players;
    ghost var cached: seq<PlayerEntry> := [];
    ghost var m := Missing(cache, presentPlayers);
    var unvisited := cache.Keys;
    while unvisited != {}
      invariant unvisited <= cache.Keys
      invariant players == live + cached
      invariant forall j :: 0 <= j < |cached| ==>
        cached[j].stats.name in m && cached[j].stats.name !in unvisited &&
        cached[j] == CachedEntry(m[cached[j].stats.name])
      invariant forall j, k :: 0 <= j < k < |cached| ==> cached[j].stats.name != cached[k].stats.name
      invariant forall n :: n in m && n !in unvisited ==>
        exists j :: 0 <= j < |cached| && cached[j].stats.name == n
      decreases unvisited
    {
      ghost var before := cached;
      var cachedName :| cachedName in unvisited;
      unvisited := unvisited - {cachedName};
      if cachedName !in presentPlayers {
        var entry := CachedEntry(cache[cachedName]);
        players := players + [entry];
        cached := cached + [entry];
        assert cached[|cached| - 1].stats.name == cachedName;
      }
      forall n | n in m && n !in unvisited && n != cachedName
        ensures exists j :: 0 <= j < |cached| && cached[j].stats.name == n
      {
        var j :| 0 <= j < |before| && before[j].stats.name == n;
        assert cached[j] == before[j];
      }
    }
    assert players[..|live|] == live && players[|live|..] == cached;
  }

  class StatPullerPlugin {
    /** Never assigned: the finalize step reads the rating into a local of the same name. */
    var mmrAfter: int
    var mmrBefore: int
    var playlistType: string
    var matchStartUnix: int
    var matchEndUnix: int
    /** Latches that keep repeated hook calls from acting twice. */
    var isMatchInProgress: bool
    var isInReplay: bool
    var cachedPlayerStats: StatCache

    ghost predicate Valid()
      reads this
    {
      KeyedByName(cachedPlayerStats) && mmrAfter == -1
    }

    /** A fresh plugin is idle: no match, no replay, rating sentinels -1,
        timestamps 0, empty playlist tag and empty cache. */
    constructor ()
      ensures Valid()
      ensures !isMatchInProgress && !isInReplay
      ensures mmrBefore == -1 && mmrAfter == -1
      ensures matchStartUnix == 0 && matchEndUnix == 0
      ensures playlistType == "" && cachedPlayerStats == map[]
    {
      mmrAfter := -1;
      mmrBefore := -1;
      playlistType := "";
      matchStartUnix := 0;
      matchEndUnix := 0;
      isMatchInProgress := false;
      isInReplay := false;
      cachedPlayerStats := map[];
    }

    /** Hook for a team's PostBeginPlay. `nowUnix` is the wall clock and
        `localMmr` the local player's rating in playlist 10 at this moment. */
    method OnMatchStarted(nowUnix: int, localMmr: int)
      requires Valid()
      modifies this
      ensures Valid()
      ensures old(isMatchInProgress) ==> unchanged(this)
      ensures !old(isMatchInProgress) ==>
        && isMatchInProgress
        && matchStartUnix == nowUnix && mmrBefore == localMmr
        && isInReplay == old(isInReplay) && cachedPlayerStats == old(cachedPlayerStats)
        && matchEndUnix == old(matchEndUnix) && playlistType == old(playlistType)
        && mmrAfter == old(mmrAfter)
    {
      if isMatchInProgress {
        return;
      }
      isMatchInProgress := true;
      matchStartUnix := nowUnix;
      mmrBefore := localMmr;
    }

    /** Hook for the match-ended event: clears both latches at once and asks
        the host to run FinalizeDeferred after 0.2 seconds; every call does so. */
    method OnMatchEnded() returns (scheduled: Timeout)
      requires Valid()
      modifies this
      ensures Valid()
      ensures !isMatchInProgress && !isInReplay
      ensures scheduled == FinalizeAfter(FinalizeDelay)
      ensures cachedPlayerStats == old(cachedPlayerStats)
      ensures mmrBefore == old(mmrBefore) && mmrAfter == old(mmrAfter)
      ensures matchStartUnix == old(matchStartUnix) && matchEndUnix == old(matchEndUnix)
      ensures playlistType == old(playlistType)
    {
      isMatchInProgress := false;
      isInReplay := false;
      scheduled := FinalizeAfter(FinalizeDelay);
    }

    /** The callback scheduled by OnMatchEnded. `onlineGame` says whether the
        host has an online game, `playlistId` and `roster` are that game's,
        `nowUnix` is the wall clock and `localMmr` the local player's rating
        in playlist 10 now. */
    method FinalizeDeferred(onlineGame: bool, playlistId: int, roster: Roster,
                            nowUnix: int, localMmr: int)
      returns (record: Option<MatchRecord>)
      requires Valid()
      modifies this
      ensures Valid()
      ensures isMatchInProgress == old(isMatchInProgress) && isInReplay == old(isInReplay)
      ensures mmrBefore == old(mmrBefore) && mmrAfter == old(mmrAfter)
      ensures matchStartUnix == old(matchStartUnix)
      ensures record.None? <==> !onlineGame || playlistId != RankedDuelPlaylist || |roster| == 0
      ensures !onlineGame || playlistId != RankedDuelPlaylist ==> unchanged(this)
      ensures onlineGame && playlistId == RankedDuelPlaylist && |roster| == 0 ==>
        && playlistType == RankedDuelTag
        && matchEndUnix == old(matchEndUnix)
        && cachedPlayerStats == old(cachedPlayerStats)
      ensures record.Some? ==>
        && record.value.version == RecordVersion
        && record.value.matchStart == old(matchStartUnix)
        && record.value.matchEnd == nowUnix
        && record.value.playlist == RankedDuelTag
        && IsMergedPlayers(record.value.players, roster, old(cachedPlayerStats), old(mmrBefore), localMmr)
        && playlistType == RankedDuelTag
        && matchEndUnix == nowUnix
        && cachedPlayerStats == map[]
    {
      if !onlineGame {
        return None;
      }
      if playlistId != RankedDuelPlaylist {
        return None;
      }
      playlistType := RankedDuelTag;
      if |roster| == 0 {
        return None;
      }
      matchEndUnix := nowUnix;
      var mmrAfter := localMmr;
      var players := BuildPlayers(roster, cachedPlayerStats, mmrBefore, mmrAfter);
      record := Some(MatchRecord(RecordVersion, matchStartUnix, matchEndUnix, players, playlistType));
      cachedPlayerStats := map[];
    }

    /** Hook for the start of a replay (goal replays and highlights). */
    method OnReplayStart()
      requires Valid()
      modifies this
      ensures Valid()
      ensures isInReplay
      ensures isMatchInProgress == old(isMatchInProgress) && cachedPlayerStats == old(cachedPlayerStats)
      ensures mmrBefore == old(mmrBefore) && mmrAfter == old(mmrAfter)
      ensures matchStartUnix == old(matchStartUnix) && matchEndUnix == old(matchEndUnix)
      ensures playlistType == old(playlistType)
    {
      isInReplay := true;
    }

    /** Hook for the end of a replay. */
    method OnReplayEnd()
      requires Valid()
      modifies this
      ensures Valid()
      ensures !isInReplay
      ensures isMatchInProgress == old(isMatchInProgress) && cachedPlayerStats == old(cachedPlayerStats)
      ensures mmrBefore == old(mmrBefore) && mmrAfter == old(mmrAfter)
      ensures matchStartUnix == old(matchStartUnix) && matchEndUnix == old(matchEndUnix)
      ensures playlistType == old(playlistType)
    {
      isInReplay := false;
    }

    /** Hook for every ball explosion. During a live, non-replay match with an
        online game it refreshes the cache from the roster, so that a player
        who leaves early keeps their last snapshot. */
    method OnGoalScored(onlineGame: bool, roster: Roster)
      requires Valid()
      modifies this
      ensures Valid()
      ensures !old(isMatchInProgress) || old(isInReplay) || !onlineGame ==> unchanged(this)
      ensures old(isMatchInProgress) && !old(isInReplay) && onlineGame ==>
        cachedPlayerStats == UpsertAll(old(cachedPlayerStats), roster)
      ensures isMatchInProgress == old(isMatchInProgress) && isInReplay == old(isInReplay)
      ensures mmrBefore == old(mmrBefore) && mmrAfter == old(mmrAfter)
      ensures matchStartUnix == old(matchStartUnix) && matchEndUnix == old(matchEndUnix)
      ensures playlistType == old(playlistType)
    {
      if !isMatchInProgress {
        return;
      }
      if isInReplay {
        return;
      }
      if !onlineGame {
        return;
      }
      var i := 0;
      while i < |roster|
        invariant 0 <= i <= |roster|
        invariant cachedPlayerStats == UpsertAll(old(cachedPlayerStats), roster[..i])
        modifies this`cachedPlayerStats
      {
        assert roster[..i + 1][..i] == roster[..i];
        var slot := roster[i];
        if slot.Some? {
          var playerName := slot.value.stats.name;
          cachedPlayerStats := cachedPlayerStats[playerName := slot.value.stats];
        }
        i := i + 1;
      }
      assert roster[..i] == roster;
      UpsertAllKeyedByName(old(cachedPlayerStats), roster);
    }
  }
}
