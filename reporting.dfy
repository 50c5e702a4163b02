/** The report builders: the per-member summary and the guild leaderboard.

    Everything here is a pure function of the stats read from the store.
    Channel resolution (`get_channel`/`fetch_channel`) is abstracted as the
    set `live` of channel-id strings that currently resolve to a voice
    channel. A member's stats keep the iteration order of the stored dict,
    which is what decides the order of ties after the stable sort. */
module Reporting {
  import opened Wrappers

  /** The embed field limit: both reports show at most this many rows. */
  const MaxFields: nat := 25

  /** One channel of a member's stats: channel-id string and seconds. */
  datatype Entry = Entry(channel: string, seconds: real)

  function Seconds(e: Entry): real {
    e.seconds
  }

  // ---------------------------------------------------------------------
  // Reading one member's stats (_get_member_stats)
  // ---------------------------------------------------------------------

  /** `items` lists the pairs of the dict `row` in some iteration order,
      each key exactly once. */
  ghost predicate ItemsOf(items: seq<Entry>, row: map<string, real>) {
    && (forall i :: 0 <= i < |items| ==> items[i].channel in row && row[items[i].channel] == items[i].seconds)
    && (forall c :: c in row ==> exists i :: 0 <= i < |items| && items[i].channel == c)
    && (forall i, j :: 0 <= i < j < |items| ==> items[i].channel != items[j].channel)
  }

  /** The channels of `items` that still resolve, in their original order;
      deleted channels are dropped silently. */
  function Resolved(items: seq<Entry>, live: set<string>): (r: seq<Entry>)
    ensures |r| <= |items|
    ensures forall e :: e in r <==> e in items && e.channel in live
  {
    if items == [] then []
    else
      var kept := Resolved(items[..|items| - 1], live);
      var last := items[|items| - 1];
      assert items == items[..|items| - 1] + [last];
      if last.channel in live then kept + [last] else kept
  }

  /** Filtering works piece by piece: the entries kept from `a + b` are
      those kept from `a`, followed by those kept from `b`. With
      `ResolvedOne` this fixes the order of the result: the input's. */
  lemma ResolvedAppend(a: seq<Entry>, b: seq<Entry>, live: set<string>)
    ensures Resolved(a + b, live) == Resolved(a, live) + Resolved(b, live)
  {
    forall s, e | true
      ensures Resolved(s + [e], live) == Resolved(s, live) + if e.channel in live then [e] else []
    {
      ResolvedSnoc(s, e, live);
    }
    AppendBySnoc((s: seq<Entry>) => Resolved(s, live), (e: Entry) => if e.channel in live then [e] else [], a, b);
  }

  /** A function on sequences that works element by element, appending
      `piece(x)` for each `x` in turn, works piece by piece: its result on
      `a + b` is its result on `a` followed by its result on `b`. */
  lemma {:induction false} AppendBySnoc<T, U>(f: seq<T> -> seq<U>, piece: T -> seq<U>, a: seq<T>, b: seq<T>)
    requires f([]) == []
    requires forall s, x :: f(s + [x]) == f(s) + piece(x)
    ensures f(a + b) == f(a) + f(b)
  {
    if b == [] {
      assert a + b == a;
    } else {
      var front, x := b[..|b| - 1], b[|b| - 1];
      assert b == front + [x];
      assert a + b == (a + front) + [x];
      AppendBySnoc(f, piece, a, front);
    }
  }

  lemma ResolvedSnoc(front: seq<Entry>, e: Entry, live: set<string>)
    ensures Resolved(front + [e], live) == Resolved(front, live) + if e.channel in live then [e] else []
  {
    var s := front + [e];
    assert s[..|s| - 1] == front && s[|s| - 1] == e;
  }

  /** A single entry is kept exactly when its channel resolves. */
  lemma ResolvedOne(e: Entry, live: set<string>)
    ensures Resolved([e], live) == if e.channel in live then [e] else []
  {
    assert [e][..0] == [];
  }

  /** Read against the stored dict, the resolved stats hold exactly the
      resolvable channels of the member's row with their recorded seconds. */
  lemma ResolvedOfRow(items: seq<Entry>, row: map<string, real>, live: set<string>)
    requires ItemsOf(items, row)
    ensures forall c, t :: Entry(c, t) in Resolved(items, live) <==> c in live && c in row && row[c] == t
  {
    forall c, t ensures Entry(c, t) in Resolved(items, live) <==> c in live && c in row && row[c] == t {
      if c in live && c in row && row[c] == t {
        var i :| 0 <= i < |items| && items[i].channel == c;
        assert items[i] == Entry(c, t);
      }
    }
  }

  // ---------------------------------------------------------------------
  // Sums and percentages
  // ---------------------------------------------------------------------

  /** Python's `sum` over the seconds, left to right. */
  function Sum(s: seq<Entry>): real {
    if s == [] then 0.0 else Sum(s[..|s| - 1]) + s[|s| - 1].seconds
  }

  predicate AllNonNegative(s: seq<Entry>) {
    forall i :: 0 <= i < |s| ==> s[i].seconds >= 0.0
  }

  lemma {:induction false} SumAppend(a: seq<Entry>, b: seq<Entry>)
    ensures Sum(a + b) == Sum(a) + Sum(b)
  {
    if b == [] {
      assert a + b == a;
    } else {
      var ab := a + b;
      assert ab[..|ab| - 1] == a + b[..|b| - 1];
      assert ab[|ab| - 1] == b[|b| - 1];
      SumAppend(a, b[..|b| - 1]);
    }
  }

  /** With non-negative durations, no single channel exceeds the total. */
  lemma {:induction false} EntryAtMostSum(s: seq<Entry>, i: nat)
    requires AllNonNegative(s) && i < |s|
    ensures 0.0 <= s[i].seconds <= Sum(s)
  {
    var p := s[..|s| - 1];
    if i < |s| - 1 {
      EntryAtMostSum(p, i);
    } else {
      SumNonNegative(p);
    }
  }

  lemma {:induction false} SumNonNegative(s: seq<Entry>)
    requires AllNonNegative(s)
    ensures Sum(s) >= 0.0
  {
    if s != [] {
      SumNonNegative(s[..|s| - 1]);
    }
  }

  /** `seconds / total * 100`, or 0 when the total is zero. */
  function Percent(part: real, total: real): (p: real)
    ensures total == 0.0 ==> p == 0.0
    ensures total != 0.0 ==> p * total == part * 100.0
    ensures 0.0 <= part <= total ==> 0.0 <= p <= 100.0
  {
    if total != 0.0 then part / total * 100.0 else 0.0
  }

  /** The percentages of every entry against a total, added up. */
  function SumPercents(s: seq<Entry>, total: real): real {
    if s == [] then 0.0 else SumPercents(s[..|s| - 1], total) + Percent(s[|s| - 1].seconds, total)
  }

  /** Over all entries (not only the displayed ones) the percentages of a
      non-zero total add up to 100. */
  lemma {:induction false} PercentsAddUp(s: seq<Entry>)
    requires Sum(s) != 0.0
    ensures SumPercents(s, Sum(s)) == 100.0
  {
    var t := Sum(s);
    SumPercentsScaled(s, t);
    CancelFactor(SumPercents(s, t), t, Sum(s));
  }

  /** `a * t == c * 100` with `c == t != 0` leaves `a == 100`. */
  lemma CancelFactor(a: real, t: real, c: real)
    requires t != 0.0 && c == t && a * t == c * 100.0
    ensures a == 100.0
  {
    assert (a - 100.0) * t == 0.0;
  }

  lemma {:induction false} SumPercentsScaled(s: seq<Entry>, total: real)
    requires total != 0.0
    ensures SumPercents(s, total) * total == Sum(s) * 100.0
  {
    if s != [] {
      SumPercentsScaled(s[..|s| - 1], total);
      var p := Percent(s[|s| - 1].seconds, total);
      calc {
        SumPercents(s, total) * total;
        SumPercents(s[..|s| - 1], total) * total + p * total;
        Sum(s[..|s| - 1]) * 100.0 + s[|s| - 1].seconds * 100.0;
      }
    }
  }

  // ---------------------------------------------------------------------
  // Stable descending sort (`sorted(..., key=..., reverse=True)`)
  // ---------------------------------------------------------------------

  predicate Descending<T>(s: seq<T>, key: T -> real) {
    forall i, j :: 0 <= i < j < |s| ==> key(s[i]) >= key(s[j])
  }

  /** The elements whose key is `v`, in order. */
  function Tied<T>(s: seq<T>, key: T -> real, v: real): seq<T> {
    if s == [] then [] else (if key(s[0]) == v then [s[0]] else []) + Tied(s[1..], key, v)
  }

  /** Putting an element at least as large as every other in front keeps a
      list descending. */
  lemma ConsDescending<T>(h: T, t: seq<T>, key: T -> real)
    requires Descending(t, key)
    requires forall j :: 0 <= j < |t| ==> key(t[j]) <= key(h)
    ensures Descending([h] + t, key)
  {
    forall i, j | 0 <= i < j < |[h] + t| ensures key(([h] + t)[i]) >= key(([h] + t)[j]) {
      if i > 0 {
        assert ([h] + t)[i] == t[i - 1];
      }
      assert ([h] + t)[j] == t[j - 1];
    }
  }

  /** Everything in a permutation of `s[1..]` plus `x` is at most the head
      of `s`, when `x` is. */
  lemma BelowHead<T>(x: T, s: seq<T>, rest: seq<T>, key: T -> real)
    requires s != [] && Descending(s, key) && key(x) < key(s[0])
    requires multiset(rest) == multiset(s[1..]) + multiset{x}
    ensures forall j :: 0 <= j < |rest| ==> key(rest[j]) <= key(s[0])
  {
    forall j | 0 <= j < |rest| ensures key(rest[j]) <= key(s[0]) {
      assert rest[j] in multiset(rest);
      if rest[j] != x {
        assert rest[j] in multiset(s[1..]);
        var k :| 0 <= k < |s[1..]| && s[1..][k] == rest[j];
        assert s[k + 1] == rest[j];
      }
    }
  }

  /** Inserts `x`, which came before every element of `s` in the input,
      ahead of the elements whose key does not exceed its own. */
  function Insert<T>(x: T, s: seq<T>, key: T -> real): (r: seq<T>)
    requires Descending(s, key)
    ensures |r| == |s| + 1
    ensures multiset(r) == multiset(s) + multiset{x}
    ensures Descending(r, key)
  {
    if s == [] || key(x) >= key(s[0]) then
      assert forall j :: 0 <= j < |s| ==> key(s[j]) <= key(s[0]);
      ConsDescending(x, s, key);
      [x] + s
    else
      var rest := Insert(x, s[1..], key);
      BelowHead(x, s, rest, key);
      ConsDescending(s[0], rest, key);
      assert s == [s[0]] + s[1..];
      [s[0]] + rest
  }

  /** The stable descending sort of the reports: a permutation of the input,
      in non-increasing order of `key`. */
  function SortDesc<T>(s: seq<T>, key: T -> real): (r: seq<T>)
    ensures |r| == |s|
    ensures multiset(r) == multiset(s)
    ensures Descending(r, key)
  {
    if s == [] then []
    else
      assert s == [s[0]] + s[1..];
      Insert(s[0], SortDesc(s[1..], key), key)
  }

  lemma TiedCons<T>(y: T, t: seq<T>, key: T -> real, v: real)
    ensures Tied([y] + t, key, v) == (if key(y) == v then [y] else []) + Tied(t, key, v)
  {
    var r := [y] + t;
    assert r[0] == y && r[1..] == t;
  }

  lemma {:induction false} InsertTied<T>(x: T, s: seq<T>, key: T -> real, v: real)
    requires Descending(s, key)
    ensures Tied(Insert(x, s, key), key, v) == (if key(x) == v then [x] else []) + Tied(s, key, v)
  {
    if s == [] || key(x) >= key(s[0]) {
      TiedCons(x, s, key, v);
    } else {
      var rest := Insert(x, s[1..], key);
      assert Insert(x, s, key) == [s[0]] + rest;
      TiedCons(s[0], rest, key, v);
      TiedCons(s[0], s[1..], key, v);
      assert s == [s[0]] + s[1..];
      assert Descending(s[1..], key);
      InsertTied(x, s[1..], key, v);
    }
  }

  /** Stability: entries with equal keys keep their input order. */
  lemma {:induction false} SortStable<T>(s: seq<T>, key: T -> real, v: real)
    ensures Tied(SortDesc(s, key), key, v) == Tied(s, key, v)
  {
    if s != [] {
      SortStable(s[1..], key, v);
      InsertTied(s[0], SortDesc(s[1..], key), key, v);
    }
  }

  /** The slice `[:25]`. */
  function Truncated<T>(s: seq<T>): (r: seq<T>)
    ensures |r| <= MaxFields
    ensures |r| == if |s| < MaxFields then |s| else MaxFields
    ensures r == s[..|r|]
  {
    if |s| <= MaxFields then s else s[..MaxFields]
  }

  // ---------------------------------------------------------------------
  // Per-member summary (_build_embed_member)
  // ---------------------------------------------------------------------

  datatype MemberRow = MemberRow(channel: string, seconds: real, percent: real)

  /** `NoActivity` is the "no voice activity recorded" embed. */
  datatype MemberSummary = NoActivity | Summary(total: real, rows: seq<MemberRow>)

  /** The summary of one member's resolved stats: the top 25 channels by
      seconds, each with its share of the total over ALL channels. */
  function MemberSummaryOf(stats: seq<Entry>): (r: MemberSummary)
    ensures r.NoActivity? <==> stats == []
    ensures r.Summary? ==> r.total == Sum(stats)
    ensures r.Summary? ==> |r.rows| == if |stats| < MaxFields then |stats| else MaxFields
  {
    if stats == [] then NoActivity
    else
      var sorted := SortDesc(stats, Seconds);
      var top := Truncated(sorted);
      var total := Sum(stats);
      Summary(total, RowsOf(top, total))
  }

  /** One embed field per displayed channel, with its share of `total`. */
  function RowsOf(top: seq<Entry>, total: real): (rows: seq<MemberRow>)
    ensures |rows| == |top|
    ensures forall i :: 0 <= i < |top| ==>
      rows[i] == MemberRow(top[i].channel, top[i].seconds, Percent(top[i].seconds, total))
  {
    seq(|top|, i requires 0 <= i < |top| => MemberRow(top[i].channel, top[i].seconds, Percent(top[i].seconds, total)))
  }

  /** The rows of a member's summary: the i-th is the i-th channel of the
      stable descending sort, at its share of the total; they are in
      descending order; and no channel left out has more seconds than one
      shown. */
  lemma MemberSummaryRows(stats: seq<Entry>)
    requires stats != []
    ensures var r := MemberSummaryOf(stats); var sorted := SortDesc(stats, Seconds);
            && (forall i :: 0 <= i < |r.rows| ==>
                  && Entry(r.rows[i].channel, r.rows[i].seconds) == sorted[i]
                  && r.rows[i].percent == Percent(r.rows[i].seconds, r.total))
            && (forall i, j :: 0 <= i < j < |r.rows| ==> r.rows[i].seconds >= r.rows[j].seconds)
            && (forall i, j :: 0 <= i < |r.rows| <= j < |stats| ==> sorted[j].seconds <= r.rows[i].seconds)
  {
    var r := MemberSummaryOf(stats);
    var sorted := SortDesc(stats, Seconds);
    var top := Truncated(sorted);
    assert r.rows == RowsOf(top, Sum(stats));
    forall i | 0 <= i < |r.rows| ensures Entry(r.rows[i].channel, r.rows[i].seconds) == sorted[i] {
      assert top[i] == sorted[i];
    }
    forall i, j | 0 <= i < j < |stats| ensures sorted[i].seconds >= sorted[j].seconds {
      assert Seconds(sorted[i]) >= Seconds(sorted[j]);
    }
  }

  lemma ExampleSorted(stats: seq<Entry>)
    requires stats == [Entry("A", 30.0), Entry("B", 70.0)]
    ensures SortDesc(stats, Seconds) == [Entry("B", 70.0), Entry("A", 30.0)]
    ensures Sum(stats) == 100.0
  {
    assert stats[1..] == [Entry("B", 70.0)];
    assert SortDesc(stats[1..], Seconds) == [Entry("B", 70.0)];
    assert stats[..1] == [Entry("A", 30.0)];
    assert Sum(stats[..1]) == 30.0 by {
      assert stats[..1][..0] == [];
    }
  }

  /** Two channels of 30 and 70 seconds: total 100, the 70-second channel
      first at 70%, the other at 30%. */
  lemma MemberSummaryExample()
    ensures MemberSummaryOf([Entry("A", 30.0), Entry("B", 70.0)]) ==
            Summary(100.0, [MemberRow("B", 70.0, 70.0), MemberRow("A", 30.0, 30.0)])
  {
    var stats := [Entry("A", 30.0), Entry("B", 70.0)];
    ExampleSorted(stats);
    MemberSummaryRows(stats);
    var r := MemberSummaryOf(stats);
    assert |r.rows| == 2;
    assert Percent(70.0, 100.0) == 70.0 && Percent(30.0, 100.0) == 30.0;
    assert r.rows[0] == MemberRow("B", 70.0, 70.0);
    assert r.rows[1] == MemberRow("A", 30.0, 30.0);
  }

  /** Every displayed row is one of the member's channels, and with
      non-negative durations every percentage lies in [0, 100]. */
  lemma MemberRowsFromStats(stats: seq<Entry>)
    requires stats != []
    ensures forall i :: 0 <= i < |MemberSummaryOf(stats).rows| ==>
      Entry(MemberSummaryOf(stats).rows[i].channel, MemberSummaryOf(stats).rows[i].seconds) in stats
    ensures AllNonNegative(stats) ==> forall i :: 0 <= i < |MemberSummaryOf(stats).rows| ==>
      0.0 <= MemberSummaryOf(stats).rows[i].percent <= 100.0
  {
    var r := MemberSummaryOf(stats);
    var sorted := SortDesc(stats, Seconds);
    MemberSummaryRows(stats);
    forall i | 0 <= i < |r.rows|
      ensures Entry(r.rows[i].channel, r.rows[i].seconds) in stats
      ensures AllNonNegative(stats) ==> 0.0 <= r.rows[i].percent <= 100.0
    {
      assert sorted[i] in multiset(sorted);
      var k :| 0 <= k < |stats| && stats[k] == sorted[i];
      if AllNonNegative(stats) {
        EntryAtMostSum(stats, k);
      }
    }
  }

  // ---------------------------------------------------------------------
  // Leaderboard (_get_members_stats, _top_vc_with_total,
  // _build_embed_leaderboard)
  // ---------------------------------------------------------------------

  /** A guild member with its resolved stats. */
  datatype MemberStats = MemberStats(member: nat, stats: seq<Entry>)

  function MemberTotal(m: MemberStats): real {
    Sum(m.stats)
  }

  /** The dict comprehension of `_get_members_stats`: members whose
      resolved stats are empty are dropped, the others keep their order. */
  function WithStats(all: seq<MemberStats>): (r: seq<MemberStats>)
    ensures |r| <= |all|
    ensures forall m :: m in r <==> m in all && m.stats != []
  {
    if all == [] then []
    else
      var kept := WithStats(all[..|all| - 1]);
      var last := all[|all| - 1];
      assert all == all[..|all| - 1] + [last];
      if last.stats != [] then kept + [last] else kept
  }

  /** The members kept from `a + b` are those kept from `a`, followed by
      those kept from `b`; with `WithStatsOne` this fixes the order of the
      result: the input's. */
  lemma WithStatsAppend(a: seq<MemberStats>, b: seq<MemberStats>)
    ensures WithStats(a + b) == WithStats(a) + WithStats(b)
  {
    forall s, m | true
      ensures WithStats(s + [m]) == WithStats(s) + if m.stats != [] then [m] else []
    {
      WithStatsSnoc(s, m);
    }
    AppendBySnoc(WithStats, (m: MemberStats) => if m.stats != [] then [m] else [], a, b);
  }


  lemma WithStatsSnoc(front: seq<MemberStats>, m: MemberStats)
    ensures WithStats(front + [m]) == WithStats(front) + if m.stats != [] then [m] else []
  {
    var s := front + [m];
    assert s[..|s| - 1] == front && s[|s| - 1] == m;
  }

  /** A single member is kept exactly when it has stats. */
  lemma WithStatsOne(m: MemberStats)
    ensures WithStats([m]) == if m.stats != [] then [m] else []
  {
    assert [m][..0] == [];
  }

  /** All the seconds of all the members, in order. */
  function AllEntries(ms: seq<MemberStats>): seq<Entry> {
    if ms == [] then [] else ms[0].stats + AllEntries(ms[1..])
  }

  /** The global total: every time of every member, summed in order. */
  function GlobalTotal(ms: seq<MemberStats>): real {
    Sum(AllEntries(ms))
  }

  /** The members' own totals, added up. */
  function SumOfTotals(ms: seq<MemberStats>): real {
    if ms == [] then 0.0 else MemberTotal(ms[0]) + SumOfTotals(ms[1..])
  }

  lemma {:induction false} GlobalTotalIsSumOfTotals(ms: seq<MemberStats>)
    ensures GlobalTotal(ms) == SumOfTotals(ms)
  {
    if ms != [] {
      GlobalTotalIsSumOfTotals(ms[1..]);
      SumAppend(ms[0].stats, AllEntries(ms[1..]));
    }
  }

  /** Dropping the members without stats does not change the global total. */
  lemma {:induction false} WithStatsKeepsTotal(all: seq<MemberStats>)
    ensures GlobalTotal(WithStats(all)) == GlobalTotal(all)
  {
    GlobalTotalIsSumOfTotals(all);
    GlobalTotalIsSumOfTotals(WithStats(all));
    WithStatsSumOfTotals(all);
  }

  lemma {:induction false} SumOfTotalsAppend(a: seq<MemberStats>, b: seq<MemberStats>)
    ensures SumOfTotals(a + b) == SumOfTotals(a) + SumOfTotals(b)
  {
    if a == [] {
      assert a + b == b;
    } else {
      assert (a + b)[0] == a[0] && (a + b)[1..] == a[1..] + b;
      SumOfTotalsAppend(a[1..], b);
    }
  }

  lemma {:induction false} WithStatsSumOfTotals(all: seq<MemberStats>)
    ensures SumOfTotals(WithStats(all)) == SumOfTotals(all)
  {
    if all != [] {
      var front, m := all[..|all| - 1], all[|all| - 1];
      assert all == front + [m];
      WithStatsSumOfTotals(front);
      WithStatsSnoc(front, m);
      SumOfTotalsAppend(front, [m]);
      assert SumOfTotals([m]) == MemberTotal(m) by {
        assert [m][1..] == [];
      }
      if m.stats != [] {
        SumOfTotalsAppend(WithStats(front), [m]);
      } else {
        assert MemberTotal(m) == 0.0;
        assert WithStats(front) + [] == WithStats(front);
      }
    }
  }


  /** The first index holding the most seconds, as Python's `max` picks it. */
  function MaxIndex(s: seq<Entry>): (k: nat)
    requires s != []
    ensures k < |s|
    ensures forall i :: 0 <= i < |s| ==> s[i].seconds <= s[k].seconds
    ensures forall i :: 0 <= i < k ==> s[i].seconds < s[k].seconds
  {
    if |s| == 1 then 0
    else
      var k := MaxIndex(s[..|s| - 1]);
      if s[|s| - 1].seconds > s[k].seconds then |s| - 1 else k
  }

  /** `_top_vc_with_total`: the member's total and its top channel; an
      error on empty stats. */
  function TopWithTotal(stats: seq<Entry>): (r: Result<(real, Entry), string>)
    ensures r.Err? <==> stats == []
    ensures r.Ok? ==> r.value.0 == Sum(stats)
    ensures r.Ok? ==> r.value.1 in stats
    ensures r.Ok? ==> forall e :: e in stats ==> e.seconds <= r.value.1.seconds
    ensures r.Ok? ==> exists k :: 0 <= k < |stats| && stats[k] == r.value.1 &&
                        forall i :: 0 <= i < k ==> stats[i].seconds < stats[k].seconds
  {
    if stats == [] then Err("Cannot parse empty 'stats'!")
    else
      var k := MaxIndex(stats);
      Ok((Sum(stats), stats[k]))
  }

  /** With non-negative durations the top channel's time is at most the
      member's total. */
  lemma TopAtMostTotal(stats: seq<Entry>)
    requires stats != [] && AllNonNegative(stats)
    ensures TopWithTotal(stats).value.1.seconds <= TopWithTotal(stats).value.0
  {
    EntryAtMostSum(stats, MaxIndex(stats));
  }

  datatype LeaderRow = LeaderRow(member: nat, total: real, percent: real, topChannel: string, topTime: real)

  datatype Leaderboard = Leaderboard(globalTotal: real, rows: seq<LeaderRow>)

  /** The fields of the leaderboard for the displayed members, in order; a
      member with empty stats is skipped (it cannot occur after
      `WithStats`). */
  function LeaderRows(shown: seq<MemberStats>, globalTotal: real): seq<LeaderRow> {
    if shown == [] then []
    else
      var rest := LeaderRows(shown[1..], globalTotal);
      if shown[0].stats == [] then rest
      else
        var summary := TopWithTotal(shown[0].stats).value;
        [LeaderRow(shown[0].member, summary.0, Percent(summary.0, globalTotal),
                   summary.1.channel, summary.1.seconds)] + rest
  }

  /** The row shown for one member: its total, its share of the global
      total, and a channel where it spent the most time. */
  ghost predicate RowFor(row: LeaderRow, m: MemberStats, globalTotal: real) {
    && row.member == m.member
    && row.total == Sum(m.stats)
    && row.percent == Percent(row.total, globalTotal)
    && Entry(row.topChannel, row.topTime) in m.stats
    && forall e :: e in m.stats ==> e.seconds <= row.topTime
  }

  lemma {:induction false} LeaderRowsMatch(shown: seq<MemberStats>, globalTotal: real)
    requires forall m :: m in shown ==> m.stats != []
    ensures |LeaderRows(shown, globalTotal)| == |shown|
    ensures forall i :: 0 <= i < |shown| ==> RowFor(LeaderRows(shown, globalTotal)[i], shown[i], globalTotal)
  {
    if shown != [] {
      LeaderRowsMatch(shown[1..], globalTotal);
    }
  }

  /** The members shown on the leaderboard, best first. */
  function Shown(all: seq<MemberStats>): (r: seq<MemberStats>)
    ensures forall m :: m in r ==> m in all && m.stats != []
  {
    var sorted := SortDesc(WithStats(all), MemberTotal);
    var r := Truncated(sorted);
    assert forall m :: m in r ==> m in multiset(sorted);
    r
  }

  /** `_build_embed_leaderboard` on the members of a guild with their
      resolved stats. */
  function LeaderboardOf(all: seq<MemberStats>): Leaderboard {
    var total := GlobalTotal(WithStats(all));
    Leaderboard(total, LeaderRows(Shown(all), total))
  }

  /** The global total sums every member's stats, members without stats
      included (they add nothing). */
  lemma LeaderboardTotal(all: seq<MemberStats>)
    ensures LeaderboardOf(all).globalTotal == SumOfTotals(all)
  {
    WithStatsKeepsTotal(all);
    GlobalTotalIsSumOfTotals(all);
  }

  /** The leaderboard shows at most 25 members, one row per shown member in
      descending order of total, each at its share of the global total
      with a top channel that holds its largest time. */
  lemma LeaderboardRows(all: seq<MemberStats>)
    ensures var b := LeaderboardOf(all);
      && |b.rows| == (if |WithStats(all)| < MaxFields then |WithStats(all)| else MaxFields)
      && |b.rows| == |Shown(all)|
      && (forall i :: 0 <= i < |b.rows| ==> RowFor(b.rows[i], Shown(all)[i], SumOfTotals(all)))
      && (forall i, j :: 0 <= i < j < |b.rows| ==> b.rows[i].total >= b.rows[j].total)
  {
    var shown := Shown(all);
    var sorted := SortDesc(WithStats(all), MemberTotal);
    var b := LeaderboardOf(all);
    LeaderboardTotal(all);
    LeaderRowsMatch(shown, b.globalTotal);
    assert shown == sorted[..|shown|];
    forall i, j | 0 <= i < j < |b.rows| ensures b.rows[i].total >= b.rows[j].total {
      assert RowFor(b.rows[i], shown[i], b.globalTotal) && RowFor(b.rows[j], shown[j], b.globalTotal);
      assert MemberTotal(sorted[i]) >= MemberTotal(sorted[j]);
    }
  }

  /** In a descending list, an element outside a prefix has a key no
      larger than any element of the prefix. */
  lemma OutsidePrefix<T>(sorted: seq<T>, n: nat, key: T -> real, x: T, i: nat)
    requires Descending(sorted, key) && n <= |sorted| && i < n
    requires x in sorted && x !in sorted[..n]
    ensures key(x) <= key(sorted[i])
  {
    forall k | 0 <= k < n ensures sorted[k] != x {
      assert sorted[k] == sorted[..n][k];
    }
    var j :| 0 <= j < |sorted| && sorted[j] == x;
    assert j >= n;
  }

  /** Every member with stats that is not shown has no more time than any
      member that is. */
  lemma LeaderboardKeepsTop(all: seq<MemberStats>, m: MemberStats, i: nat)
    requires m in WithStats(all) && m !in Shown(all) && i < |Shown(all)|
    ensures MemberTotal(m) <= MemberTotal(Shown(all)[i])
  {
    var sorted := SortDesc(WithStats(all), MemberTotal);
    var shown := Shown(all);
    assert shown == sorted[..|shown|];
    assert m in multiset(sorted);
    OutsidePrefix(sorted, |shown|, MemberTotal, m, i);
  }

  /** A member with a single channel: that channel is its top one, and its
      time is the member's total. */
  lemma TopOfOne(e: Entry)
    ensures TopWithTotal([e]) == Ok((e.seconds, e))
  {
    assert [e][..0] == [];
    assert Sum([e]) == e.seconds;
    assert MaxIndex([e]) == 0;
  }

  /** Two members that both have stats are both kept, in their order. */
  lemma KeptTwo(m1: MemberStats, m2: MemberStats)
    requires m1.stats != [] && m2.stats != []
    ensures WithStats([m1, m2]) == [m1, m2]
  {
    WithStatsOne(m1);
    WithStatsOne(m2);
    WithStatsAppend([m1], [m2]);
    assert [m1] + [m2] == [m1, m2];
  }

  /** Sorting two members puts the one with more time first. */
  lemma SortedTwo(m1: MemberStats, m2: MemberStats)
    requires MemberTotal(m1) < MemberTotal(m2)
    ensures SortDesc([m1, m2], MemberTotal) == [m2, m1]
  {
    assert [m1, m2][1..] == [m2];
    assert [m2][1..] == [];
    assert SortDesc([m2], MemberTotal) == [m2];
    assert Insert(m1, [], MemberTotal) == [m1];
    assert Insert(m1, [m2], MemberTotal) == [m2] + [m1];
  }

  lemma SumOfTotalsTwo(m1: MemberStats, m2: MemberStats)
    ensures SumOfTotals([m1, m2]) == MemberTotal(m1) + MemberTotal(m2)
  {
    assert [m1, m2][1..] == [m2];
    assert [m2][1..] == [];
    assert SumOfTotals([m2]) == MemberTotal(m2);
  }

  lemma ExampleShown(m1: MemberStats, m2: MemberStats)
    requires m1 == MemberStats(1, [Entry("A", 100.0)]) && m2 == MemberStats(2, [Entry("B", 300.0)])
    ensures Shown([m1, m2]) == [m2, m1]
    ensures SumOfTotals([m1, m2]) == 400.0
  {
    TopOfOne(m1.stats[0]);
    TopOfOne(m2.stats[0]);
    KeptTwo(m1, m2);
    SortedTwo(m1, m2);
    SumOfTotalsTwo(m1, m2);
    assert Truncated([m2, m1]) == [m2, m1];
  }



  /** Two members with 100 and 300 seconds: global total 400, the
      300-second member first at 75%. */
  lemma LeaderboardExample()
    ensures var b := LeaderboardOf([MemberStats(1, [Entry("A", 100.0)]), MemberStats(2, [Entry("B", 300.0)])]);
            && b.globalTotal == 400.0
            && |b.rows| == 2
            && b.rows[0] == LeaderRow(2, 300.0, 75.0, "B", 300.0)
            && b.rows[1] == LeaderRow(1, 100.0, 25.0, "A", 100.0)
  {
    var m1 := MemberStats(1, [Entry("A", 100.0)]);
    var m2 := MemberStats(2, [Entry("B", 300.0)]);
    var all := [m1, m2];
    ExampleShown(m1, m2);
    LeaderboardTotal(all);
    TopOfOne(m1.stats[0]);
    TopOfOne(m2.stats[0]);
    assert Percent(300.0, 400.0) == 75.0 && Percent(100.0, 400.0) == 25.0;
    assert [m2, m1][1..] == [m1];
    assert [m1][1..] == [];
    assert LeaderRows([m1], 400.0) == [LeaderRow(1, 100.0, 25.0, "A", 100.0)];
  }
}
