/** Clients of the plugin that show, from the contracts alone, what a sequence
    of host events produces. */
module Scenarios {
  import opened Wrappers
  import opened MatchData
  import opened Plugin

  /** A repeated start is absorbed, and a ball explosion during a replay
      leaves the cache as it was. */
  method ReplayExplosionIgnored(a: PlayerStats, aReplay: PlayerStats)
  {
    var plugin := new StatPullerPlugin();
    plugin.OnMatchStarted(1000, 1500);
    plugin.OnMatchStarted(1005, 1499);
    assert plugin.matchStartUnix == 1000 && plugin.mmrBefore == 1500;

    var live: Roster := [Some(Pri(a, false))];
    plugin.OnGoalScored(true, live);
    UpsertAllLatest(map[], live, 0);
    assert plugin.cachedPlayerStats[a.name] == a;

    plugin.OnReplayStart();
    plugin.OnGoalScored(true, [Some(Pri(aReplay, false))]);
    plugin.OnReplayEnd();
    assert plugin.cachedPlayerStats[a.name] == a;
  }

  /** Opponent "A" is cached and leaves before the end; the record lists the
      local player's live entry and then "A" with the cached snapshot. */
  method DepartedPlayerKept()
  {
    var plugin := new StatPullerPlugin();
    plugin.OnMatchStarted(1000, 1500);

    var a := PlayerStats("A", 0, 1, 0, 0, 2, 150);
    var me := PlayerStats("Me", 1, 0, 0, 1, 1, 80);
    var meLast := PlayerStats("Me", 1, 0, 0, 2, 3, 190);

    var during: Roster := [Some(Pri(a, false)), Some(Pri(me, true))];
    plugin.OnGoalScored(true, during);
    UpsertAllLatest(map[], during, 0);
    assert plugin.cachedPlayerStats["A"] == a;

    var scheduled := plugin.OnMatchEnded();
    assert scheduled == FinalizeAfter(0.2) && !plugin.isMatchInProgress;

    var atEnd: Roster := [Some(Pri(meLast, true))];
    ghost var cacheAtEnd := plugin.cachedPlayerStats;
    var record := plugin.FinalizeDeferred(true, 10, atEnd, 1400, 1510);
    assert record.Some? && record.value.playlist == "1s" && record.value.matchStart == 1000;
    ghost var players := record.value.players;
    assert LivePlayers(atEnd, 1500, 1510) == [PlayerEntry(meLast, Some(MmrPair(1500, 1510)))] by {
      assert atEnd[..0] == [];
    }
    assert players[0] == PlayerEntry(meLast, Some(MmrPair(1500, 1510)));
    MergedCoversEveryone(players, atEnd, cacheAtEnd, 1500, 1510, "A");
    ghost var i :| 0 <= i < |players| && players[i].stats.name == "A";
    assert i >= 1;
    MergedCachedEntries(players, atEnd, cacheAtEnd, 1500, 1510, i);
    assert players[i] == CachedEntry(a);
    assert plugin.cachedPlayerStats == map[];
  }

  /** Two match-ended events schedule two finalize steps, and both write a
      record: nothing latches the output to once per match. */
  method RepeatedEndRecordsTwice(me: PlayerStats)
  {
    var plugin := new StatPullerPlugin();
    plugin.OnMatchStarted(1000, 1500);
    var t1 := plugin.OnMatchEnded();
    var t2 := plugin.OnMatchEnded();
    assert t1 == t2 == FinalizeAfter(0.2);

    var atEnd: Roster := [Some(Pri(me, true))];
    var first := plugin.FinalizeDeferred(true, 10, atEnd, 1400, 1510);
    var second := plugin.FinalizeDeferred(true, 10, atEnd, 1401, 1510);
    assert first.Some? && second.Some?;
    assert second.value.matchStart == first.value.matchStart == 1000;
  }

  /** A casual match (playlist 13) fills the cache, since neither the start
      hook nor the refresh checks the playlist. Its finalize returns before the
      cache is cleared, so the stranger from that match is listed as a departed
      player in the next ranked record. */
  method OtherPlaylistCarriedIntoNextRecord()
  {
    var stranger := PlayerStats("Stranger", 0, 2, 0, 1, 3, 300);
    var me := PlayerStats("Me", 1, 1, 1, 0, 2, 210);
    var plugin := new StatPullerPlugin();

    plugin.OnMatchStarted(1000, 1500);
    var casual: Roster := [Some(Pri(stranger, false))];
    plugin.OnGoalScored(true, casual);
    UpsertAllLatest(map[], casual, 0);
    var t1 := plugin.OnMatchEnded();
    var skipped := plugin.FinalizeDeferred(true, 13, casual, 1300, 1500);
    assert skipped.None? && plugin.cachedPlayerStats["Stranger"] == stranger;

    plugin.OnMatchStarted(2000, 1500);
    var t2 := plugin.OnMatchEnded();
    var ranked: Roster := [Some(Pri(me, true))];
    ghost var cacheAtEnd := plugin.cachedPlayerStats;
    var record := plugin.FinalizeDeferred(true, 10, ranked, 2400, 1510);
    assert record.Some? && record.value.matchStart == 2000;
    ghost var players := record.value.players;
    MergedCoversEveryone(players, ranked, cacheAtEnd, 1500, 1510, "Stranger");
    ghost var i :| 0 <= i < |players| && players[i].stats.name == "Stranger";
    assert LivePlayers(ranked, 1500, 1510) == [PlayerEntry(me, Some(MmrPair(1500, 1510)))] by {
      assert ranked[..0] == [];
    }
    assert i >= 1;
    MergedCachedEntries(players, ranked, cacheAtEnd, 1500, 1510, i);
    assert players[i] == CachedEntry(stranger);
  }
}
