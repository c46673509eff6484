/** The values the plugin reads from the host and writes out: player
    snapshots, roster slots, the per-player stat cache and the match record,
    together with the functions that say what a stat refresh does to the cache
    and which players a finished record lists. */
module MatchData {
  import opened Wrappers

  /** The counters read from one player's replication info: the JSON object
      {player, team, goals, assists, saves, shots, score}. */
  datatype PlayerStats = PlayerStats(
    name: string,
    team: int,
    goals: int,
    assists: int,
    saves: int,
    shots: int,
    score: int)

  /** One live player as the host reports it, and whether it is the local player. */
  datatype Pri = Pri(stats: PlayerStats, isLocal: bool)

  /** The live roster in host order; a slot whose handle is null is None. */
  type Roster = seq<Option<Pri>>

  /** The rating sample attached to the local player's entry. */
  datatype MmrPair = MmrPair(before: int, after: int)

  /** One element of the record's "players" array; only the local player's
      live entry carries mmr_before / mmr_after. */
  datatype PlayerEntry = PlayerEntry(stats: PlayerStats, mmr: Option<MmrPair>)

  /** The record written once a match has been finalized. */
  datatype MatchRecord = MatchRecord(
    version: string,
    matchStart: int,
    matchEnd: int,
    players: seq<PlayerEntry>,
    playlist: string)

  const RecordVersion: string := "1.0"
  /** Playlist id of ranked 1v1, the only playlist that is recorded. */
  const RankedDuelPlaylist: int := 10
  const RankedDuelTag: string := "1s"

  /** Last known snapshot per player name. */
  type StatCache = map<string, PlayerStats>

  /** Every cache entry is stored under the name it carries. */
  predicate KeyedByName(cache: StatCache) {
    forall k :: k in cache ==> cache[k].name == k
  }

  /** No two non-null roster slots carry the same player name. */
  predicate DistinctLiveNames(roster: Roster) {
    forall i, j :: 0 <= i < j < |roster| && roster[i].Some? && roster[j].Some? ==>
      roster[i].value.stats.name != roster[j].value.stats.name
  }

  function LiveEntry(p: Pri, mmrBefore: int, mmrAfter: int): PlayerEntry {
    PlayerEntry(p.stats, if p.isLocal then Some(MmrPair(mmrBefore, mmrAfter)) else None)
  }

  function CachedEntry(s: PlayerStats): PlayerEntry {
    PlayerEntry(s, None)
  }

  /** Names of the non-null roster slots. */
  function LiveNames(roster: Roster): set<string> {
    if roster == [] then {}
    else
      var last := roster[|roster| - 1];
      LiveNames(roster[..|roster| - 1]) + (if last.Some? then {last.value.stats.name} else {})
  }

  /** Number of non-null roster slots. */
  function NonNullCount(roster: Roster): nat {
    if roster == [] then 0
    else NonNullCount(roster[..|roster| - 1]) + (if roster[|roster| - 1].Some? then 1 else 0)
  }

  /** The live part of the record: one entry per non-null slot, in roster order. */
  function LivePlayers(roster: Roster, mmrBefore: int, mmrAfter: int): seq<PlayerEntry> {
    if roster == [] then []
    else
      var last := roster[|roster| - 1];
      LivePlayers(roster[..|roster| - 1], mmrBefore, mmrAfter)
        + (if last.Some? then [LiveEntry(last.value, mmrBefore, mmrAfter)] else [])
  }

  /** The cache after a stat refresh: each non-null slot, in roster order,
      overwrites the entry under its name. */
  function UpsertAll(cache: StatCache, roster: Roster): StatCache {
    if roster == [] then cache
    else
      var last := roster[|roster| - 1];
      var c := UpsertAll(cache, roster[..|roster| - 1]);
      if last.Some? then c[last.value.stats.name := last.value.stats] else c
  }

  /** The cached players that the record must add: those absent from `present`. */
  function Missing(cache: StatCache, present: set<string>): (m: StatCache)
    ensures m.Keys == cache.Keys - present
  {
    map k | k in cache && k !in present :: cache[k]
  }

  /** `rest` lists every entry of `m` exactly once, in some order, as cached
      entries (no rating fields). */
  predicate EnumeratesCache(rest: seq<PlayerEntry>, m: StatCache) {
    && (forall i :: 0 <= i < |rest| ==>
          rest[i].stats.name in m && rest[i] == CachedEntry(m[rest[i].stats.name]))
    && (forall i, j :: 0 <= i < j < |rest| ==> rest[i].stats.name != rest[j].stats.name)
    && (forall k :: k in m ==> exists i :: 0 <= i < |rest| && rest[i].stats.name == k)
  }

  /** The record's players: the live entries in roster order, followed by the
      cached entries whose names are not live, each once. */
  predicate IsMergedPlayers(players: seq<PlayerEntry>, roster: Roster, cache: StatCache,
                            mmrBefore: int, mmrAfter: int)
  {
    var live := LivePlayers(roster, mmrBefore, mmrAfter);
    && |live| <= |players|
    && players[..|live|] == live
    && EnumeratesCache(players[|live|..], Missing(cache, LiveNames(roster)))
  }

  // ---------------------------------------------------------------------
  // The live roster

  /** A name is live exactly when some non-null slot carries it. */
  lemma {:induction false} LiveNamesSpec(roster: Roster, n: string)
    ensures n in LiveNames(roster) <==>
      exists i :: 0 <= i < |roster| && roster[i].Some? && roster[i].value.stats.name == n
  {
    if roster != [] {
      var init := roster[..|roster| - 1];
      LiveNamesSpec(init, n);
      if n in LiveNames(init) {
        var i :| 0 <= i < |init| && init[i].Some? && init[i].value.stats.name == n;
        assert roster[i] == init[i];
      }
      if exists i :: 0 <= i < |roster| && roster[i].Some? && roster[i].value.stats.name == n {
        var i :| 0 <= i < |roster| && roster[i].Some? && roster[i].value.stats.name == n;
        if i < |init| {
          assert init[i] == roster[i];
        }
      }
    }
  }

  /** Building the live part slot by slot: the live part of a concatenation
      is the concatenation of the live parts, so roster order is kept. */
  lemma {:induction false} LivePlayersAppend(r1: Roster, r2: Roster, mmrBefore: int, mmrAfter: int)
    ensures LivePlayers(r1 + r2, mmrBefore, mmrAfter)
         == LivePlayers(r1, mmrBefore, mmrAfter) + LivePlayers(r2, mmrBefore, mmrAfter)
  {
    if r2 == [] {
      assert r1 + r2 == r1;
    } else {
      var init2 := r2[..|r2| - 1];
      assert (r1 + r2)[..|r1 + r2| - 1] == r1 + init2;
      LivePlayersAppend(r1, init2, mmrBefore, mmrAfter);
    }
  }

  /** Each live entry comes from a non-null slot: it carries that slot's stats,
      and it carries the rating pair exactly when the slot is the local player.
      The live part has one entry per non-null slot, and its names are the live names. */
  lemma {:induction false} LivePlayersSpec(roster: Roster, mmrBefore: int, mmrAfter: int)
    ensures |LivePlayers(roster, mmrBefore, mmrAfter)| == NonNullCount(roster)
    ensures forall e :: e in LivePlayers(roster, mmrBefore, mmrAfter) ==>
      Some(Pri(e.stats, e.mmr.Some?)) in roster &&
      e == LiveEntry(Pri(e.stats, e.mmr.Some?), mmrBefore, mmrAfter)
    ensures forall e :: e in LivePlayers(roster, mmrBefore, mmrAfter) ==>
      e.stats.name in LiveNames(roster)
    ensures forall n :: n in LiveNames(roster) ==>
      exists e :: e in LivePlayers(roster, mmrBefore, mmrAfter) && e.stats.name == n
  {
    if roster != [] {
      var init := roster[..|roster| - 1];
      var last := roster[|roster| - 1];
      LivePlayersSpec(init, mmrBefore, mmrAfter);
      assert roster == init + [last];
      var lp := LivePlayers(roster, mmrBefore, mmrAfter);
      assert lp == LivePlayers(init, mmrBefore, mmrAfter)
        + (if last.Some? then [LiveEntry(last.value, mmrBefore, mmrAfter)] else []);
      forall e | e in lp
        ensures Some(Pri(e.stats, e.mmr.Some?)) in roster
      {
        if e !in LivePlayers(init, mmrBefore, mmrAfter) {
          assert Pri(e.stats, e.mmr.Some?) == last.value;
        }
      }
    }
  }

  /** With distinct live names, the live part has distinct names too. */
  lemma {:induction false} LivePlayersDistinct(roster: Roster, mmrBefore: int, mmrAfter: int)
    requires DistinctLiveNames(roster)
    ensures var lp := LivePlayers(roster, mmrBefore, mmrAfter);
      forall i, j :: 0 <= i < j < |lp| ==> lp[i].stats.name != lp[j].stats.name
  {
    if roster != [] {
      var init := roster[..|roster| - 1];
      var last := roster[|roster| - 1];
      assert DistinctLiveNames(init) by {
        forall i, j | 0 <= i < j < |init| && init[i].Some? && init[j].Some?
          ensures init[i].value.stats.name != init[j].value.stats.name
        {
          assert init[i] == roster[i] && init[j] == roster[j];
        }
      }
      LivePlayersDistinct(init, mmrBefore, mmrAfter);
      if last.Some? {
        var n := last.value.stats.name;
        LiveNamesSpec(init, n);
        assert n !in LiveNames(init) by {
          forall i | 0 <= i < |init| && init[i].Some?
            ensures init[i].value.stats.name != n
          {
            assert init[i] == roster[i];
          }
        }
        LivePlayersSpec(init, mmrBefore, mmrAfter);
      }
    }
  }

  // ---------------------------------------------------------------------
  // The stat refresh on a ball explosion

  /** After a refresh the cache holds exactly the old names and the live names. */
  lemma {:induction false} UpsertAllKeys(cache: StatCache, roster: Roster)
    ensures UpsertAll(cache, roster).Keys == cache.Keys + LiveNames(roster)
  {
    if roster != [] {
      UpsertAllKeys(cache, roster[..|roster| - 1]);
    }
  }

  /** Entries under names that are not live keep their old snapshot. */
  lemma {:induction false} UpsertAllKeepsAbsent(cache: StatCache, roster: Roster, n: string)
    requires n in cache && n !in LiveNames(roster)
    ensures n in UpsertAll(cache, roster) && UpsertAll(cache, roster)[n] == cache[n]
  {
    if roster != [] {
      UpsertAllKeepsAbsent(cache, roster[..|roster| - 1], n);
    }
  }

  /** The entry under a live name is that slot's current stats when no later
      slot carries the same name (with duplicate names, the last slot wins). */
  lemma {:induction false} UpsertAllLatest(cache: StatCache, roster: Roster, i: nat)
    requires i < |roster| && roster[i].Some?
    requires forall j :: i < j < |roster| && roster[j].Some? ==>
      roster[j].value.stats.name != roster[i].value.stats.name
    ensures roster[i].value.stats.name in UpsertAll(cache, roster)
    ensures UpsertAll(cache, roster)[roster[i].value.stats.name] == roster[i].value.stats
  {
    if i < |roster| - 1 {
      var init := roster[..|roster| - 1];
      assert init[i] == roster[i];
      forall j | i < j < |init| && init[j].Some?
        ensures init[j].value.stats.name != init[i].value.stats.name
      {
        assert init[j] == roster[j];
      }
      UpsertAllLatest(cache, init, i);
    }
  }

  /** A refresh keeps every entry stored under its own name. */
  lemma {:induction false} UpsertAllKeyedByName(cache: StatCache, roster: Roster)
    requires KeyedByName(cache)
    ensures KeyedByName(UpsertAll(cache, roster))
  {
    if roster != [] {
      UpsertAllKeyedByName(cache, roster[..|roster| - 1]);
    }
  }

  // ---------------------------------------------------------------------
  // The merged players list of a record

  /** Every live player and every cached player appears in the record: a
      player who left before the end keeps the last snapshot taken of them. */
  lemma MergedCoversEveryone(players: seq<PlayerEntry>, roster: Roster, cache: StatCache,
                             mmrBefore: int, mmrAfter: int, n: string)
    requires IsMergedPlayers(players, roster, cache, mmrBefore, mmrAfter)
    requires n in LiveNames(roster) || n in cache
    ensures exists i :: 0 <= i < |players| && players[i].stats.name == n
  {
    var live := LivePlayers(roster, mmrBefore, mmrAfter);
    var rest := players[|live|..];
    assert players == live + rest by {
      assert players == players[..|live|] + players[|live|..];
    }
    if n in LiveNames(roster) {
      LivePlayersSpec(roster, mmrBefore, mmrAfter);
      var e :| e in live && e.stats.name == n;
      var i :| 0 <= i < |live| && live[i] == e;
      assert players[i] == e;
    } else {
      var m := Missing(cache, LiveNames(roster));
      assert n in m;
      var j :| 0 <= j < |rest| && rest[j].stats.name == n;
      assert players[|live| + j] == rest[j];
    }
  }

  /** A cached player who left appears with exactly the cached snapshot, and
      a player who is also live is never taken from the cache: the live
      values win. */
  lemma MergedCachedEntries(players: seq<PlayerEntry>, roster: Roster, cache: StatCache,
                            mmrBefore: int, mmrAfter: int, i: nat)
    requires IsMergedPlayers(players, roster, cache, mmrBefore, mmrAfter)
    requires NonNullCount(roster) <= i < |players|
    ensures players[i].stats.name in cache && players[i].stats.name !in LiveNames(roster)
    ensures players[i] == CachedEntry(cache[players[i].stats.name])
  {
    LivePlayersSpec(roster, mmrBefore, mmrAfter);
    var live := LivePlayers(roster, mmrBefore, mmrAfter);
    var rest := players[|live|..];
    assert players[i] == rest[i - |live|];
  }

  /** Only the local player's live entry carries the rating pair, and it is
      the pair given to the record. */
  lemma MergedRatingOnlyLocal(players: seq<PlayerEntry>, roster: Roster, cache: StatCache,
                              mmrBefore: int, mmrAfter: int, i: nat)
    requires IsMergedPlayers(players, roster, cache, mmrBefore, mmrAfter)
    requires i < |players| && players[i].mmr.Some?
    ensures players[i].mmr == Some(MmrPair(mmrBefore, mmrAfter))
    ensures Some(Pri(players[i].stats, true)) in roster
  {
    LivePlayersSpec(roster, mmrBefore, mmrAfter);
    var live := LivePlayers(roster, mmrBefore, mmrAfter);
    assert players[i] == live[i];
    assert live[i] in live;
  }

  /** When the live names are distinct, no name appears twice in the record. */
  lemma MergedNamesDistinct(players: seq<PlayerEntry>, roster: Roster, cache: StatCache,
                            mmrBefore: int, mmrAfter: int)
    requires IsMergedPlayers(players, roster, cache, mmrBefore, mmrAfter)
    requires DistinctLiveNames(roster)
    ensures forall i, j :: 0 <= i < j < |players| ==> players[i].stats.name != players[j].stats.name
  {
    var live := LivePlayers(roster, mmrBefore, mmrAfter);
    var rest := players[|live|..];
    LivePlayersSpec(roster, mmrBefore, mmrAfter);
    LivePlayersDistinct(roster, mmrBefore, mmrAfter);
    forall i, j | 0 <= i < j < |players|
      ensures players[i].stats.name != players[j].stats.name
    {
      if j < |live| {
        assert players[i] == live[i] && players[j] == live[j];
      } else if i < |live| {
        assert players[i] == live[i] && live[i] in live;
        assert players[j] == rest[j - |live|];
      } else {
        assert players[i] == rest[i - |live|] && players[j] == rest[j - |live|];
      }
    }
  }

  /** Distinct names taken from a sequence number as many as its elements. */
  lemma {:induction false} DistinctNamesCount(rest: seq<PlayerEntry>)
    requires forall i, j :: 0 <= i < j < |rest| ==> rest[i].stats.name != rest[j].stats.name
    ensures |set e | e in rest :: e.stats.name| == |rest|
  {
    if rest != [] {
      var init := rest[..|rest| - 1];
      var last := rest[|rest| - 1];
      DistinctNamesCount(init);
      var s := set e | e in init :: e.stats.name;
      assert (set e | e in rest :: e.stats.name) == s + {last.stats.name} by {
        assert rest == init + [last];
      }
    }
  }

  /** An enumeration of a cache lists as many entries as the cache has names. */
  lemma EnumeratesCacheCount(rest: seq<PlayerEntry>, m: StatCache)
    requires EnumeratesCache(rest, m)
    ensures |rest| == |m.Keys|
  {
    DistinctNamesCount(rest);
    var names := set e | e in rest :: e.stats.name;
    forall k | k in m ensures k in names {
      var j :| 0 <= j < |rest| && rest[j].stats.name == k;
      assert rest[j] in rest;
    }
    assert names == m.Keys;
  }

  /** The record lists one entry per non-null slot plus one per cached
      player who is not live. */
  lemma MergedCount(players: seq<PlayerEntry>, roster: Roster, cache: StatCache,
                    mmrBefore: int, mmrAfter: int)
    requires IsMergedPlayers(players, roster, cache, mmrBefore, mmrAfter)
    ensures |players| == NonNullCount(roster) + |cache.Keys - LiveNames(roster)|
  {
    LivePlayersSpec(roster, mmrBefore, mmrAfter);
    var live := LivePlayers(roster, mmrBefore, mmrAfter);
    EnumeratesCacheCount(players[|live|..], Missing(cache, LiveNames(roster)));
  }
}
