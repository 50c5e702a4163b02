/** The durable accumulator: a JSON file holding
    member-id string -> channel-id string -> cumulative seconds.

    The file is modelled by its state (`Disk`): whether it exists, and what
    decoding its text yields (`None` when the text does not decode). */
module DurationStore {
  import opened Wrappers
  import Decimal

  /** The decoded file: `{ "<member id>": { "<channel id>": seconds } }`. */
  type Store = map<string, map<string, real>>

  /** The recorded seconds at one key, 0.0 where nothing is recorded. */
  function Get(s: Store, memberKey: string, channelKey: string): real {
    if memberKey in s && channelKey in s[memberKey] then s[memberKey][channelKey] else 0.0
  }

  /** Every recorded duration is non-negative. */
  predicate NonNegative(s: Store) {
    forall m, c :: m in s && c in s[m] ==> s[m][c] >= 0.0
  }

  /** The read-modify-write of `_update_file` on the decoded data: a missing
      member row becomes `{}` first, a missing channel counts as 0.0, and
      `delta` is added to that one key. */
  function Added(s: Store, memberKey: string, channelKey: string, delta: real): (r: Store)
    ensures r.Keys == s.Keys + {memberKey}
    ensures memberKey !in s ==> r[memberKey] == map[channelKey := delta]
    ensures memberKey in s ==> r[memberKey].Keys == s[memberKey].Keys + {channelKey}
    ensures r[memberKey][channelKey] == Get(s, memberKey, channelKey) + delta
    ensures forall c :: c in r[memberKey] && c != channelKey ==> r[memberKey][c] == s[memberKey][c]
    ensures forall m :: m in s && m != memberKey ==> r[m] == s[m]
    ensures forall m, c ::
              Get(r, m, c) ==
              (if m == memberKey && c == channelKey then Get(s, m, c) + delta else Get(s, m, c))
  {
    var row := if memberKey in s then s[memberKey] else map[];
    var previous := if channelKey in row then row[channelKey] else 0.0;
    s[memberKey := row[channelKey := previous + delta]]
  }

  /** Adding a non-negative duration keeps every duration non-negative, and
      never lowers any recorded value. */
  lemma AddedMonotone(s: Store, memberKey: string, channelKey: string, delta: real)
    requires delta >= 0.0
    ensures NonNegative(s) ==> NonNegative(Added(s, memberKey, channelKey, delta))
    ensures forall m, c :: Get(s, m, c) <= Get(Added(s, memberKey, channelKey, delta), m, c)
  {
    var r := Added(s, memberKey, channelKey, delta);
    if NonNegative(s) {
      forall m, c | m in r && c in r[m] ensures r[m][c] >= 0.0 {
        assert Get(r, m, c) == r[m][c];
      }
    }
  }

  /** The state of the backing file. */
  datatype Disk = Disk(present: bool, content: Option<Store>)

  /** What `_read_file` returns: `{}` for a missing file and for text that
      does not decode, the decoded data otherwise. */
  function Loaded(d: Disk): (s: Store)
    ensures !d.present || d.content.None? ==> s == map[]
    ensures d.present && d.content.Some? ==> s == d.content.value
  {
    if d.present then d.content.GetOr(map[]) else map[]
  }

  /** The file after `_read_file`: a missing file is created holding `{}`;
      an existing file, readable or not, is left as it is. */
  function AfterRead(d: Disk): (r: Disk)
    ensures r.present
    ensures Loaded(r) == Loaded(d)
    ensures d.present ==> r == d
  {
    if d.present then d else Disk(true, Some(map[]))
  }

  /** The file after `_update_file(member, channel, delta)`: the data read
      back, with `delta` added at the one key, is written in full. */
  function AfterUpdate(d: Disk, memberId: nat, channelId: nat, delta: real): (r: Disk)
    ensures r.present && r.content.Some?
    ensures forall m, c ::
              Get(Loaded(r), m, c) ==
              (if m == Decimal.NatToString(memberId) && c == Decimal.NatToString(channelId)
               then Get(Loaded(d), m, c) + delta else Get(Loaded(d), m, c))
  {
    Disk(true, Some(Added(Loaded(d), Decimal.NatToString(memberId), Decimal.NatToString(channelId), delta)))
  }

  /** An update touches one key: every other (member, channel) pair, under
      any other member id or channel id, reads as before. */
  lemma UpdateIsolated(d: Disk, memberId: nat, channelId: nat, delta: real, otherMember: nat, otherChannel: nat)
    requires otherMember != memberId || otherChannel != channelId
    ensures Get(Loaded(AfterUpdate(d, memberId, channelId, delta)),
                Decimal.NatToString(otherMember), Decimal.NatToString(otherChannel))
         == Get(Loaded(d), Decimal.NatToString(otherMember), Decimal.NatToString(otherChannel))
  {
    Decimal.NatToStringInjective(otherMember, memberId);
    Decimal.NatToStringInjective(otherChannel, channelId);
  }

  /** A file whose text does not decode reads as empty, so the first update
      replaces it by a store holding only the new duration. */
  lemma UpdateOverUndecodable(memberId: nat, channelId: nat, delta: real)
    ensures Loaded(AfterUpdate(Disk(true, None), memberId, channelId, delta))
         == map[Decimal.NatToString(memberId) := map[Decimal.NatToString(channelId) := delta]]
  {
  }

  /** The backing JSON file, updated in place by the observer. */
  class JsonFile {
    var present: bool
    var content: Option<Store>

    function State(): Disk
      reads this
    {
      Disk(present, content)
    }

    constructor (present: bool, content: Option<Store>)
      ensures State() == Disk(present, content)
    {
      this.present := present;
      this.content := content;
    }

    /** `_read_file`: create the file as `{}` when it is missing, then decode
        it, falling back to `{}` when the text does not decode. */
    method Read() returns (data: Store)
      modifies this
      ensures data == Loaded(old(State()))
      ensures State() == AfterRead(old(State()))
    {
      if !present {
        present, content := true, Some(map[]);
      }
      data := match content
        case Some(s) => s
        case None => map[];
    }

    /** `_update_file`: read, add `elapsed` at (str(member), str(channel)),
        write the whole data back. */
    method Update(memberId: nat, channelId: nat, elapsed: real)
      modifies this
      ensures State() == AfterUpdate(old(State()), memberId, channelId, elapsed)
    {
      var data := Read();
      ghost var read := data;
      var memberKey := Decimal.NatToString(memberId);
      var channelKey := Decimal.NatToString(channelId);
      if memberKey !in data {
        data := data[memberKey := map[]];
      }
      var previous := if channelKey in data[memberKey] then data[memberKey][channelKey] else 0.0;
      data := data[memberKey := data[memberKey][channelKey := previous + elapsed]];
      assert data == Added(read, memberKey, channelKey, elapsed);
      present, content := true, Some(data);
    }
  }
}
