/** The observer itself: the live-session tracker, the startup scan, the
    voice-state transition handler and the read of one member's stats.

    Discord is abstracted away: the guild cache is a map from guild id to
    its voice channels and their members, a voice-state update is a
    `VoiceEvent`, and the clock is a parameter `now` in microseconds. */
module Presence {
  import opened Wrappers
  import Decimal
  import opened DurationStore
  import Reporting

  // ---------------------------------------------------------------------
  // The storage file name (the check at the top of `__init__`)
  // ---------------------------------------------------------------------

  /** `s.rfind(c)`: the last index holding `c`, or -1. */
  function LastIndexOf(s: string, c: char): (i: int)
    ensures -1 <= i < |s|
    ensures i >= 0 ==> s[i] == c
    ensures forall j :: i < j < |s| ==> s[j] != c
  {
    if s == [] then -1
    else if s[|s| - 1] == c then |s| - 1
    else LastIndexOf(s[..|s| - 1], c)
  }

  /** `PurePath(name).suffix`: from the last dot on, unless that dot is the
      first or the last character of the name. */
  function Suffix(name: string): string {
    var i := LastIndexOf(name, '.');
    if 0 < i < |name| - 1 then name[i..] else ""
  }

  function LowerChar(c: char): char {
    if 'A' <= c <= 'Z' then (c as int + 32) as char else c
  }

  /** `str.lower()` on ASCII letters. */
  function Lower(s: string): (r: string)
    ensures |r| == |s|
    ensures forall i :: 0 <= i < |s| ==> r[i] == LowerChar(s[i])
  {
    seq(|s|, i requires 0 <= i < |s| => LowerChar(s[i]))
  }

  /** Lower-casing leaves no upper-case letter, keeps every other
      character, and changes nothing when applied a second time. */
  lemma {:induction false} LowerProperties(s: string)
    ensures forall i :: 0 <= i < |s| ==> !('A' <= Lower(s)[i] <= 'Z')
    ensures forall i :: 0 <= i < |s| && !('A' <= s[i] <= 'Z') ==> Lower(s)[i] == s[i]
    ensures Lower(Lower(s)) == Lower(s)
  {
  }

  /** The observer accepts only a file name whose suffix is `.json` in any
      case. */
  predicate HasJsonSuffix(name: string) {
    Lower(Suffix(name)) == ".json"
  }

  /** The accepted names are exactly those with at least one character
      before a final `.json`, in any letter case. */
  lemma JsonSuffixExactly(name: string)
    ensures HasJsonSuffix(name) <==>
            |name| >= 6 && name[|name| - 5] == '.' && Lower(name[|name| - 4..]) == "json"
  {
    var n := |name|;
    if |name| >= 6 && name[n - 5] == '.' && Lower(name[n - 4..]) == "json" {
      forall j | n - 5 < j < n ensures name[j] != '.' {
        assert Lower(name[n - 4..])[j - (n - 4)] == LowerChar(name[j]);
      }
      var i := LastIndexOf(name, '.');
      assert i == n - 5;
      assert Lower(name[i..]) == ".json";
    }
    if HasJsonSuffix(name) {
      var i := LastIndexOf(name, '.');
      assert 0 < i < n - 1;
      assert |name[i..]| == 5;
      assert Lower(name[n - 4..]) == Lower(name[i..])[1..];
    }
  }

  // ---------------------------------------------------------------------
  // Live sessions and the startup scan (_init_scan)
  // ---------------------------------------------------------------------

  const MicrosPerSecond: int := 1000000

  /** A live session: the channel and the start time, in microseconds. */
  datatype Session = Session(channel: nat, start: int)

  /** `_connected_members`: member id -> live session. */
  type Sessions = map<nat, Session>

  /** The seconds between two clock readings, with microsecond precision. */
  function Elapsed(start: int, now: int): (secs: real)
    ensures start <= now ==> secs >= 0.0
  {
    (now - start) as real / MicrosPerSecond as real
  }

  datatype Member = Member(id: nat, bot: bool)
  datatype VoiceChannel = VoiceChannel(id: nat, members: seq<Member>)
  datatype Guild = Guild(id: nat, voiceChannels: seq<VoiceChannel>)

  /** The (member, channel) pairs of the non-bot members of one channel, in
      order. */
  function NonBots(members: seq<Member>, channel: nat): seq<(nat, nat)> {
    if members == [] then []
    else
      var last := members[|members| - 1];
      NonBots(members[..|members| - 1], channel) + if last.bot then [] else [(last.id, channel)]
  }

  /** The same pairs over a list of voice channels. */
  function ChannelSightings(channels: seq<VoiceChannel>): seq<(nat, nat)> {
    if channels == [] then []
    else
      var last := channels[|channels| - 1];
      ChannelSightings(channels[..|channels| - 1]) + NonBots(last.members, last.id)
  }

  /** The same pairs over the monitored guilds found in the cache; guilds
      missing from the cache contribute nothing. */
  function GuildSightings(guildIds: seq<nat>, cache: map<nat, Guild>): seq<(nat, nat)> {
    if guildIds == [] then []
    else
      var last := guildIds[|guildIds| - 1];
      GuildSightings(guildIds[..|guildIds| - 1], cache) +
        if last in cache then ChannelSightings(cache[last].voiceChannels) else []
  }

  /** Opening a session at `now` for each pair in turn (later pairs win). */
  function Seed(sessions: Sessions, sightings: seq<(nat, nat)>, now: int): Sessions {
    if sightings == [] then sessions
    else
      var last := sightings[|sightings| - 1];
      Seed(sessions, sightings[..|sightings| - 1], now)[last.0 := Session(last.1, now)]
  }

  lemma {:induction false} SeedAppend(sessions: Sessions, a: seq<(nat, nat)>, b: seq<(nat, nat)>, now: int)
    ensures Seed(sessions, a + b, now) == Seed(Seed(sessions, a, now), b, now)
  {
    if b == [] {
      assert a + b == a;
    } else {
      assert (a + b)[..|a + b| - 1] == a + b[..|b| - 1];
      SeedAppend(sessions, a, b[..|b| - 1], now);
    }
  }

  // Extending a prefix by one element, as the scan's loops do.

  lemma NonBotsStep(members: seq<Member>, k: nat, channel: nat)
    requires k < |members|
    ensures NonBots(members[..k + 1], channel) ==
            NonBots(members[..k], channel) + if members[k].bot then [] else [(members[k].id, channel)]
  {
    assert members[..k + 1][..k] == members[..k];
  }

  lemma ChannelSightingsStep(channels: seq<VoiceChannel>, j: nat)
    requires j < |channels|
    ensures ChannelSightings(channels[..j + 1]) ==
            ChannelSightings(channels[..j]) + NonBots(channels[j].members, channels[j].id)
  {
    assert channels[..j + 1][..j] == channels[..j];
  }

  lemma GuildSightingsStep(guildIds: seq<nat>, i: nat, cache: map<nat, Guild>)
    requires i < |guildIds|
    ensures GuildSightings(guildIds[..i + 1], cache) ==
            GuildSightings(guildIds[..i], cache) +
              if guildIds[i] in cache then ChannelSightings(cache[guildIds[i]].voiceChannels) else []
  {
    assert guildIds[..i + 1][..i] == guildIds[..i];
  }

  lemma SeedOne(sessions: Sessions, a: seq<(nat, nat)>, p: (nat, nat), now: int)
    ensures Seed(sessions, a + [p], now) == Seed(sessions, a, now)[p.0 := Session(p.1, now)]
  {
    assert (a + [p])[..|a|] == a;
  }

  /** The member sits, as a non-bot, in that voice channel of a monitored
      guild that the cache holds. */
  ghost predicate InVoice(guildIds: seq<nat>, cache: map<nat, Guild>, member: nat, channel: nat) {
    exists g, vc, m :: g in guildIds && g in cache && vc in cache[g].voiceChannels &&
                       m in vc.members && vc.id == channel && m.id == member && !m.bot
  }

  lemma {:induction false} NonBotsExactly(members: seq<Member>, channel: nat, p: (nat, nat))
    ensures p in NonBots(members, channel) <==>
            p.1 == channel && exists m :: m in members && m.id == p.0 && !m.bot
  {
    if members != [] {
      var init := members[..|members| - 1];
      NonBotsExactly(init, channel, p);
      assert members == init + [members[|members| - 1]];
    }
  }

  lemma {:induction false} ChannelSightingsExactly(channels: seq<VoiceChannel>, p: (nat, nat))
    ensures p in ChannelSightings(channels) <==>
            exists vc, m :: vc in channels && m in vc.members && vc.id == p.1 && m.id == p.0 && !m.bot
  {
    if channels != [] {
      var init := channels[..|channels| - 1];
      var last := channels[|channels| - 1];
      ChannelSightingsExactly(init, p);
      NonBotsExactly(last.members, last.id, p);
      assert channels == init + [last];
    }
  }

  /** The scan's pairs are exactly the non-bot members present in a voice
      channel of a cached monitored guild. */
  lemma {:induction false} GuildSightingsExactly(guildIds: seq<nat>, cache: map<nat, Guild>, member: nat, channel: nat)
    ensures (member, channel) in GuildSightings(guildIds, cache) <==> InVoice(guildIds, cache, member, channel)
  {
    if guildIds != [] {
      var init := guildIds[..|guildIds| - 1];
      var last := guildIds[|guildIds| - 1];
      GuildSightingsExactly(init, cache, member, channel);
      if last in cache {
        ChannelSightingsExactly(cache[last].voiceChannels, (member, channel));
      }
      assert guildIds == init + [last];
    }
  }

  /** Seeding tracks every sighted member, at `now`, in a channel it was
      sighted in, and leaves every other member as it was. */
  lemma {:induction false} SeedExactly(sessions: Sessions, sightings: seq<(nat, nat)>, now: int, member: nat)
    ensures (exists c :: (member, c) in sightings) ==>
            && member in Seed(sessions, sightings, now)
            && Seed(sessions, sightings, now)[member].start == now
            && (member, Seed(sessions, sightings, now)[member].channel) in sightings
    ensures (forall c :: (member, c) !in sightings) ==>
            && (member in Seed(sessions, sightings, now) <==> member in sessions)
            && (member in sessions ==> Seed(sessions, sightings, now)[member] == sessions[member])
  {
    if sightings != [] {
      var init := sightings[..|sightings| - 1];
      var last := sightings[|sightings| - 1];
      assert sightings == init + [last];
      SeedExactly(sessions, init, now, member);
      if last.0 != member {
        forall c ensures (member, c) in sightings <==> (member, c) in init {
        }
      }
    }
  }

  /** The startup scan, stated on the guild cache: afterwards a member is
      tracked, since `now`, in a channel it sits in exactly when it sits
      in some voice channel of a cached monitored guild as a non-bot;
      every other member keeps its old entry. */
  lemma ScanTracksPresentMembers(sessions: Sessions, guildIds: seq<nat>, cache: map<nat, Guild>, now: int, member: nat)
    ensures var r := Seed(sessions, GuildSightings(guildIds, cache), now);
            && ((exists c: nat :: InVoice(guildIds, cache, member, c)) ==>
                  member in r && r[member].start == now && InVoice(guildIds, cache, member, r[member].channel))
            && ((forall c: nat :: !InVoice(guildIds, cache, member, c)) ==>
                  (member in r <==> member in sessions) && (member in sessions ==> r[member] == sessions[member]))
  {
    var s := GuildSightings(guildIds, cache);
    SeedExactly(sessions, s, now, member);
    forall c: nat ensures (member, c) in s <==> InVoice(guildIds, cache, member, c) {
      GuildSightingsExactly(guildIds, cache, member, c);
    }
  }

  // ---------------------------------------------------------------------
  // Voice-state transitions (on_voice_state_update)
  // ---------------------------------------------------------------------

  /** A voice-state update: the member's guild, the member, and the voice
      channel before and after (`None`: not connected). */
  datatype VoiceEvent = VoiceEvent(guild: nat, member: Member, before: Option<nat>, after: Option<nat>)

  /** `_handle_disconnected`: an untracked member changes nothing; a tracked
      one has the time since its start added under the EVENT's channel and
      is then forgotten. */
  function Disconnect(sessions: Sessions, disk: Disk, member: nat, channel: nat, now: int): (Sessions, Disk) {
    if member !in sessions then (sessions, disk)
    else (sessions - {member}, AfterUpdate(disk, member, channel, Elapsed(sessions[member].start, now)))
  }

  /** The state machine of `on_voice_state_update`. `now` is the clock
      reading of the handler that runs first; a move reads the clock a
      second time, `reconnect`, when it opens the new session after the
      file has been rewritten. */
  function Dispatch(sessions: Sessions, disk: Disk, monitored: seq<nat>, ev: VoiceEvent, now: int, reconnect: int): (Sessions, Disk) {
    var id := ev.member.id;
    if ev.guild !in monitored || ev.member.bot || ev.before == ev.after then (sessions, disk)
    else if ev.before.Some? && ev.after.Some? then
      var left := Disconnect(sessions, disk, id, ev.before.value, now);
      (left.0[id := Session(ev.after.value, reconnect)], left.1)
    else if ev.before.Some? then Disconnect(sessions, disk, id, ev.before.value, now)
    else if ev.after.Some? then (sessions[id := Session(ev.after.value, now)], disk)
    else (sessions, disk)
  }

  /** Events from other guilds, from bots, or without a channel change
      leave the tracker and the file as they are. */
  lemma DispatchIgnores(sessions: Sessions, disk: Disk, monitored: seq<nat>, ev: VoiceEvent, now: int, reconnect: int)
    requires ev.guild !in monitored || ev.member.bot || ev.before == ev.after
    ensures Dispatch(sessions, disk, monitored, ev, now, reconnect) == (sessions, disk)
  {
  }

  /** A join opens a session at `now` and does not touch the file. */
  lemma DispatchJoin(sessions: Sessions, disk: Disk, monitored: seq<nat>, ev: VoiceEvent, now: int, reconnect: int)
    requires ev.guild in monitored && !ev.member.bot && ev.before.None? && ev.after.Some?
    ensures Dispatch(sessions, disk, monitored, ev, now, reconnect) ==
            (sessions[ev.member.id := Session(ev.after.value, now)], disk)
  {
  }

  /** A leave of a tracked member closes its session and adds the elapsed
      time at (member, channel left); of an untracked member, changes
      nothing. */
  lemma DispatchLeave(sessions: Sessions, disk: Disk, monitored: seq<nat>, ev: VoiceEvent, now: int, reconnect: int)
    requires ev.guild in monitored && !ev.member.bot && ev.before.Some? && ev.after.None?
    ensures var r := Dispatch(sessions, disk, monitored, ev, now, reconnect);
            && ev.member.id !in r.0
            && (ev.member.id !in sessions ==> r == (sessions, disk))
            && (ev.member.id in sessions ==>
                  r.0 == sessions - {ev.member.id} &&
                  r.1 == AfterUpdate(disk, ev.member.id, ev.before.value,
                                     Elapsed(sessions[ev.member.id].start, now)))
  {
  }

  /** A move closes the old session like a leave, at `now`, then leaves
      the member with exactly one session: in the new channel, since the
      second reading `reconnect`. Other members are untouched. */
  lemma DispatchMove(sessions: Sessions, disk: Disk, monitored: seq<nat>, ev: VoiceEvent, now: int, reconnect: int)
    requires ev.guild in monitored && !ev.member.bot && ev.before.Some? && ev.after.Some?
    requires ev.before != ev.after
    ensures var r := Dispatch(sessions, disk, monitored, ev, now, reconnect);
            && r.0 == sessions[ev.member.id := Session(ev.after.value, reconnect)]
            && r.1 == Disconnect(sessions, disk, ev.member.id, ev.before.value, now).1
  {
    var id := ev.member.id;
    var left := Disconnect(sessions, disk, id, ev.before.value, now);
    assert left.0[id := Session(ev.after.value, reconnect)] == sessions[id := Session(ev.after.value, reconnect)];
  }

  /** Every session started no later than `now`, and every recorded
      duration is non-negative. */
  ghost predicate Consistent(sessions: Sessions, disk: Disk, now: int) {
    && (forall m :: m in sessions ==> sessions[m].start <= now)
    && NonNegative(Loaded(disk))
  }

  /** No negative duration is ever recorded: with a clock that does not go
      back, each transition keeps the state consistent. */
  lemma DispatchKeepsConsistent(sessions: Sessions, disk: Disk, monitored: seq<nat>, ev: VoiceEvent,
                                earlier: int, now: int, reconnect: int)
    requires earlier <= now <= reconnect && Consistent(sessions, disk, earlier)
    ensures var r := Dispatch(sessions, disk, monitored, ev, now, reconnect); Consistent(r.0, r.1, reconnect)
  {
    var id := ev.member.id;
    if ev.before.Some? && id in sessions {
      var b := ev.before.value;
      var delta := Elapsed(sessions[id].start, now);
      AddedMonotone(Loaded(disk), Decimal.NatToString(id), Decimal.NatToString(b), delta);
    }
  }

  /** The states a join, a move and a leave go through: the tracker ends as
      it started and the file has received the two closed sessions. The
      move closes the first at `t1` and opens the second at `t1'`. */
  lemma JoinMoveLeaveTrace(sessions: Sessions, disk: Disk, monitored: seq<nat>, guild: nat, member: Member,
                           a: nat, b: nat, t0: int, t1: int, t1': int, t2: int)
    requires guild in monitored && !member.bot && a != b
    requires member.id !in sessions
    ensures var s1 := Dispatch(sessions, disk, monitored, VoiceEvent(guild, member, None, Some(a)), t0, t0);
            var s2 := Dispatch(s1.0, s1.1, monitored, VoiceEvent(guild, member, Some(a), Some(b)), t1, t1');
            Dispatch(s2.0, s2.1, monitored, VoiceEvent(guild, member, Some(b), None), t2, t2)
              == (sessions, AfterUpdate(AfterUpdate(disk, member.id, a, Elapsed(t0, t1)), member.id, b, Elapsed(t1', t2)))
  {
    var id := member.id;
    var join := VoiceEvent(guild, member, None, Some(a));
    var move := VoiceEvent(guild, member, Some(a), Some(b));
    var leave := VoiceEvent(guild, member, Some(b), None);
    DispatchJoin(sessions, disk, monitored, join, t0, t0);
    var s1 := sessions[id := Session(a, t0)];
    DispatchMove(s1, disk, monitored, move, t1, t1');
    var d2 := AfterUpdate(disk, id, a, Elapsed(t0, t1));
    var s2 := s1[id := Session(b, t1')];
    DispatchLeave(s2, d2, monitored, leave, t2, t2);
    assert s2 - {id} == sessions;
  }

  /** Two updates for one member in two different channels: each channel
      gains its own delta and no other key changes. */
  lemma TwoUpdates(disk: Disk, id: nat, a: nat, b: nat, da: real, db: real)
    requires a != b
    ensures var d := AfterUpdate(AfterUpdate(disk, id, a, da), id, b, db);
            var key := Decimal.NatToString(id);
            && Get(Loaded(d), key, Decimal.NatToString(a)) == Get(Loaded(disk), key, Decimal.NatToString(a)) + da
            && Get(Loaded(d), key, Decimal.NatToString(b)) == Get(Loaded(disk), key, Decimal.NatToString(b)) + db
            && forall m, c :: (m, c) != (key, Decimal.NatToString(a)) && (m, c) != (key, Decimal.NatToString(b)) ==>
                 Get(Loaded(d), m, c) == Get(Loaded(disk), m, c)
  {
    var key, ka, kb := Decimal.NatToString(id), Decimal.NatToString(a), Decimal.NatToString(b);
    Decimal.NatToStringInjective(a, b);
    var d1 := AfterUpdate(disk, id, a, da);
    var d := AfterUpdate(d1, id, b, db);
    assert Get(Loaded(d1), key, kb) == Get(Loaded(disk), key, kb);
    assert Get(Loaded(d), key, ka) == Get(Loaded(d1), key, ka);
    forall m, c | (m, c) != (key, ka) && (m, c) != (key, kb)
      ensures Get(Loaded(d), m, c) == Get(Loaded(disk), m, c)
    {
      assert Get(Loaded(d), m, c) == Get(Loaded(d1), m, c);
    }
  }

  /** A join at `t0` into `a`, a move to `b` that closes the old session
      at `t1` and opens the new one at `t1'`, a leave at `t2`: the file
      gains `t1 - t0` at (member, a) and `t2 - t1'` at (member, b), and
      nothing else. Together they fall short of the whole time connected
      by exactly the time between the move's two clock readings. The member
      ends untracked and the other sessions are as before. */
  lemma JoinMoveLeave(sessions: Sessions, disk: Disk, monitored: seq<nat>, guild: nat, member: Member,
                      a: nat, b: nat, t0: int, t1: int, t1': int, t2: int)
    requires guild in monitored && !member.bot && a != b
    requires member.id !in sessions
    ensures var s1 := Dispatch(sessions, disk, monitored, VoiceEvent(guild, member, None, Some(a)), t0, t0);
            var s2 := Dispatch(s1.0, s1.1, monitored, VoiceEvent(guild, member, Some(a), Some(b)), t1, t1');
            var s3 := Dispatch(s2.0, s2.1, monitored, VoiceEvent(guild, member, Some(b), None), t2, t2);
            var key := Decimal.NatToString(member.id);
            && s3.0 == sessions
            && Get(Loaded(s3.1), key, Decimal.NatToString(a)) == Get(Loaded(disk), key, Decimal.NatToString(a)) + Elapsed(t0, t1)
            && Get(Loaded(s3.1), key, Decimal.NatToString(b)) == Get(Loaded(disk), key, Decimal.NatToString(b)) + Elapsed(t1', t2)
            && Elapsed(t0, t1) + Elapsed(t1', t2) == Elapsed(t0, t2) - Elapsed(t1, t1')
            && forall m, c :: (m, c) != (key, Decimal.NatToString(a)) && (m, c) != (key, Decimal.NatToString(b)) ==>
                 Get(Loaded(s3.1), m, c) == Get(Loaded(disk), m, c)
  {
    JoinMoveLeaveTrace(sessions, disk, monitored, guild, member, a, b, t0, t1, t1', t2);
    TwoUpdates(disk, member.id, a, b, Elapsed(t0, t1), Elapsed(t1', t2));
  }

  // ---------------------------------------------------------------------
  // The observer object
  // ---------------------------------------------------------------------

  class VcObserver {
    /** The monitored guilds. */
    const guildIds: seq<nat>
    /** The storage file. */
    const store: JsonFile
    /** `_connected_members`. */
    var connected: Sessions

    /** `__init__` for an accepted file name: monitor the given guilds, or
        every guild of the bot when none is given, then run the startup
        scan at time `now`. */
    constructor (fileName: string, guildIds: seq<nat>, botGuilds: seq<nat>, cache: map<nat, Guild>,
                 store: JsonFile, now: int)
      requires HasJsonSuffix(fileName)
      ensures this.guildIds == if guildIds != [] then guildIds else botGuilds
      ensures this.store == store
      ensures connected == Seed(map[], GuildSightings(this.guildIds, cache), now)
    {
      this.guildIds := if guildIds != [] then guildIds else botGuilds;
      this.store := store;
      connected := map[];
      new;
      InitScan(cache, now);
    }

    /** `VcObserver(...)`: raises (here: `null`) when the file name does not
        end in `.json`. */
    static method Create(fileName: string, guildIds: seq<nat>, botGuilds: seq<nat>, cache: map<nat, Guild>,
                         store: JsonFile, now: int) returns (o: VcObserver?)
      ensures o == null <==> !HasJsonSuffix(fileName)
      ensures o != null ==> fresh(o) && o.store == store &&
                            o.guildIds == (if guildIds != [] then guildIds else botGuilds) &&
                            o.connected == Seed(map[], GuildSightings(o.guildIds, cache), now)
    {
      if !HasJsonSuffix(fileName) {
        return null;
      }
      o := new VcObserver(fileName, guildIds, botGuilds, cache, store, now);
    }

    /** `_init_scan`: track, since `now`, every non-bot member of every
        voice channel of every monitored guild found in the cache. The
        file is not touched. */
    method InitScan(cache: map<nat, Guild>, now: int)
      modifies this`connected
      ensures connected == Seed(old(connected), GuildSightings(guildIds, cache), now)
    {
      var i := 0;
      while i < |guildIds|
        invariant 0 <= i <= |guildIds|
        invariant connected == Seed(old(connected), GuildSightings(guildIds[..i], cache), now)
      {
        ghost var atGuild := connected;
        var id := guildIds[i];
        if id in cache {
          var channels := cache[id].voiceChannels;
          var j := 0;
          while j < |channels|
            invariant 0 <= j <= |channels|
            invariant connected == Seed(atGuild, ChannelSightings(channels[..j]), now)
          {
            ghost var atChannel := connected;
            var vc := channels[j];
            var k := 0;
            while k < |vc.members|
              invariant 0 <= k <= |vc.members|
              invariant connected == Seed(atChannel, NonBots(vc.members[..k], vc.id), now)
            {
              var member := vc.members[k];
              NonBotsStep(vc.members, k, vc.id);
              if !member.bot {
                SeedOne(atChannel, NonBots(vc.members[..k], vc.id), (member.id, vc.id), now);
                connected := connected[member.id := Session(vc.id, now)];
              } else {
                assert NonBots(vc.members[..k], vc.id) + [] == NonBots(vc.members[..k], vc.id);
              }
              k := k + 1;
            }
            assert vc.members[..k] == vc.members;
            ChannelSightingsStep(channels, j);
            SeedAppend(atGuild, ChannelSightings(channels[..j]), NonBots(vc.members, vc.id), now);
            j := j + 1;
          }
          assert channels[..j] == channels;
        }
        GuildSightingsStep(guildIds, i, cache);
        SeedAppend(old(connected), GuildSightings(guildIds[..i], cache),
                   if id in cache then ChannelSightings(cache[id].voiceChannels) else [], now);
        i := i + 1;
      }
      assert guildIds[..i] == guildIds;
    }

    /** `_handle_connected`. */
    method HandleConnected(member: nat, channel: nat, now: int)
      modifies this`connected
      ensures connected == old(connected)[member := Session(channel, now)]
    {
      connected := connected[member := Session(channel, now)];
    }

    /** `_handle_disconnected`. */
    method HandleDisconnected(member: nat, channel: nat, now: int)
      modifies this`connected, store
      ensures (connected, store.State()) == Disconnect(old(connected), old(store.State()), member, channel, now)
    {
      if member !in connected {
        return;
      }
      var elapsed := Elapsed(connected[member].start, now);
      store.Update(member, channel, elapsed);
      connected := connected - {member};
    }

    /** `on_voice_state_update`. A move reads the clock twice: `now` in
        `_handle_disconnected`, `reconnect` in `_handle_connected`. */
    method OnVoiceStateUpdate(ev: VoiceEvent, now: int, reconnect: int)
      modifies this`connected, store
      ensures (connected, store.State()) == Dispatch(old(connected), old(store.State()), guildIds, ev, now, reconnect)
    {
      if ev.guild !in guildIds {
        return;
      }
      if ev.member.bot {
        return;
      }
      if ev.before == ev.after {
        return;
      }
      if ev.before.Some? && ev.after.Some? {
        HandleDisconnected(ev.member.id, ev.before.value, now);
        HandleConnected(ev.member.id, ev.after.value, reconnect);
      } else if ev.before.Some? {
        HandleDisconnected(ev.member.id, ev.before.value, now);
      } else if ev.after.Some? {
        HandleConnected(ev.member.id, ev.after.value, now);
      }
    }

    /** `_get_member_stats`: read the file and keep, in the stored order,
        the member's channels that still resolve. `items` is the order in
        which the member's stored dict lists its channels. */
    method GetMemberStats(member: nat, items: seq<Reporting.Entry>, live: set<string>)
      returns (res: seq<Reporting.Entry>)
      requires Decimal.NatToString(member) in Loaded(store.State()) ==>
               Reporting.ItemsOf(items, Loaded(store.State())[Decimal.NatToString(member)])
      modifies store
      ensures store.State() == AfterRead(old(store.State()))
      ensures var data := Loaded(old(store.State()));
              var key := Decimal.NatToString(member);
              && (key in data ==> res == Reporting.Resolved(items, live))
              && forall c, t :: Reporting.Entry(c, t) in res <==>
                                  key in data && c in live && c in data[key] && data[key][c] == t
    {
      var key := Decimal.NatToString(member);
      res := [];
      var data := store.Read();
      if key !in data {
        return;
      }
      Reporting.ResolvedOfRow(items, data[key], live);
      var i := 0;
      while i < |items|
        invariant 0 <= i <= |items|
        invariant res == Reporting.Resolved(items[..i], live)
      {
        assert items[..i + 1][..i] == items[..i];
        if items[i].channel in live {
          res := res + [items[i]];
        }
        i := i + 1;
      }
      assert items[..i] == items;
    }
  }
}
