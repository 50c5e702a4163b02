/** `_format_time`: a duration in seconds as a compact string such as
    "1h 2m 3s".

    The partner of the formatter is a reader (`ReadParts`) for strings of
    that shape; the main lemma says the formatter's output reads back as a
    canonical hours/minutes/seconds decomposition of the rounded input. */
module TimeFormat {
  import opened Wrappers
  import Decimal

  /** Python's `round` on a number: to the nearest integer, halves to the
      even neighbour. */
  function RoundHalfEven(x: real): (n: int)
    ensures -0.5 <= x - n as real <= 0.5
    ensures (x - n as real == 0.5 || x - n as real == -0.5) ==> n % 2 == 0
  {
    var f := x.Floor;
    var frac := x - f as real;
    if frac < 0.5 then f
    else if frac > 0.5 then f + 1
    else if f % 2 == 0 then f
    else f + 1
  }

  /** `" ".join(parts)`. */
  function Join(parts: seq<string>): string {
    if |parts| == 0 then ""
    else if |parts| == 1 then parts[0]
    else parts[0] + " " + Join(parts[1..])
  }

  /** The formatter as written: round, then join the parts. */
  function FormatTime(t: real): string {
    Join(TimeParts(RoundHalfEven(t)))
  }

  /** The parts list of the formatter: split into hours, minutes and
      seconds with `divmod`, keep the non-zero ones, and keep the seconds
      when nothing else was kept. */
  function TimeParts(seconds: int): seq<string> {
    var hours, remainder := seconds / 3600, seconds % 3600;
    var minutes, secs := remainder / 60, remainder % 60;
    var withHours := if hours != 0 then [Decimal.IntToString(hours) + "h"] else [];
    var withMinutes := withHours + if minutes != 0 then [Decimal.IntToString(minutes) + "m"] else [];
    withMinutes + if secs != 0 || withMinutes == [] then [Decimal.IntToString(secs) + "s"] else []
  }

  // ---------------------------------------------------------------------
  // Reading a formatted duration back
  // ---------------------------------------------------------------------

  /** One part of a formatted duration: an amount and its unit letter. */
  datatype Part = Part(amount: nat, unit: char)

  predicate IsUnit(c: char) {
    c == 'h' || c == 'm' || c == 's'
  }

  function UnitRank(c: char): nat {
    if c == 'h' then 0 else if c == 'm' then 1 else 2
  }

  function UnitSeconds(c: char): nat {
    if c == 'h' then 3600 else if c == 'm' then 60 else 1
  }

  /** The number of seconds a list of parts stands for. */
  function Value(ps: seq<Part>): int {
    if ps == [] then 0 else ps[0].amount * UnitSeconds(ps[0].unit) + Value(ps[1..])
  }

  lemma {:induction false} ValueAppend(a: seq<Part>, b: seq<Part>)
    ensures Value(a + b) == Value(a) + Value(b)
  {
    if a == [] {
      assert a + b == b;
    } else {
      assert (a + b)[0] == a[0] && (a + b)[1..] == a[1..] + b;
      ValueAppend(a[1..], b);
    }
  }

  /** The length of the run of digits at the start of `s`. */
  function DigitRun(s: string): (k: nat)
    ensures k <= |s|
    ensures Decimal.AllDigits(s[..k])
    ensures k < |s| ==> !Decimal.IsDigit(s[k])
  {
    if s == [] || !Decimal.IsDigit(s[0]) then 0
    else
      var k := 1 + DigitRun(s[1..]);
      assert s[..k] == [s[0]] + s[1..][..k - 1];
      k
  }

  /** Reads `<digits><unit>` parts separated by single spaces; `None` when
      the text has any other shape. */
  function ReadParts(s: string): Option<seq<Part>>
    decreases |s|
  {
    var k := DigitRun(s);
    if k == 0 || k == |s| || !IsUnit(s[k]) then None
    else
      var p := Part(Decimal.ParseDigits(s[..k]), s[k]);
      var rest := s[k + 1..];
      if rest == [] then Some([p])
      else if rest[0] != ' ' then None
      else match ReadParts(rest[1..])
        case None => None
        case Some(ps) => Some([p] + ps)
  }

  /** A canonical rendering: units in h, m, s order, each at most once;
      minutes and seconds below 60; no zero amount, except the lone "0s". */
  predicate Canonical(ps: seq<Part>) {
    && |ps| >= 1
    && (forall i :: 0 <= i < |ps| ==> IsUnit(ps[i].unit))
    && (forall i, j :: 0 <= i < j < |ps| ==> UnitRank(ps[i].unit) < UnitRank(ps[j].unit))
    && (forall i :: 0 <= i < |ps| && ps[i].unit != 'h' ==> ps[i].amount < 60)
    && (ps == [Part(0, 's')] || forall i :: 0 <= i < |ps| ==> ps[i].amount != 0)
  }

  function Render(p: Part): string {
    Decimal.NatToString(p.amount) + [p.unit]
  }

  function RenderAll(ps: seq<Part>): (r: seq<string>)
    ensures |r| == |ps|
    ensures forall i :: 0 <= i < |ps| ==> r[i] == Render(ps[i])
  {
    if ps == [] then [] else [Render(ps[0])] + RenderAll(ps[1..])
  }

  lemma {:induction false} DigitRunOf(digits: string, rest: string)
    requires Decimal.AllDigits(digits)
    requires rest != [] && !Decimal.IsDigit(rest[0])
    ensures DigitRun(digits + rest) == |digits|
  {
    if digits != [] {
      assert (digits + rest)[1..] == digits[1..] + rest;
      DigitRunOf(digits[1..], rest);
    } else {
      assert digits + rest == rest;
    }
  }

  /** The rendered part at the start of `Render(p) + tail` is read as `p`,
      and the text after its unit letter is `tail`. */
  lemma ReadHead(p: Part, tail: string)
    requires IsUnit(p.unit)
    ensures var s := Render(p) + tail; var k := DigitRun(s);
      && 0 < k < |s| && s[k] == p.unit
      && Decimal.ParseDigits(s[..k]) == p.amount
      && s[k + 1..] == tail
  {
    var digits := Decimal.NatToString(p.amount);
    var s := Render(p) + tail;
    assert s == digits + ([p.unit] + tail);
    DigitRunOf(digits, [p.unit] + tail);
    assert s[..|digits|] == digits;
    Decimal.ParseNatToString(p.amount);
    assert s[|digits| + 1..] == tail;
  }

  /** A rendered part on its own reads back. */
  lemma ReadLast(p: Part)
    requires IsUnit(p.unit)
    ensures ReadParts(Render(p)) == Some([p])
  {
    ReadHead(p, "");
    assert Render(p) + "" == Render(p);
  }

  /** A rendered part, a space and text that reads as `rest` read back as
      the part followed by `rest`. */
  lemma ReadThen(p: Part, more: string, rest: seq<Part>)
    requires IsUnit(p.unit)
    requires ReadParts(more) == Some(rest)
    ensures ReadParts(Render(p) + (" " + more)) == Some([p] + rest)
  {
    ReadHead(p, " " + more);
    assert (" " + more)[1..] == more;
  }

  lemma JoinCons(head: string, more: seq<string>)
    requires more != []
    ensures Join([head] + more) == head + (" " + Join(more))
  {
    assert ([head] + more)[1..] == more;
  }

  lemma JoinRenderAll(ps: seq<Part>)
    requires |ps| > 1
    ensures Join(RenderAll(ps)) == Render(ps[0]) + (" " + Join(RenderAll(ps[1..])))
  {
    assert RenderAll(ps) == [Render(ps[0])] + RenderAll(ps[1..]);
    JoinCons(Render(ps[0]), RenderAll(ps[1..]));
  }

  /** Reading the one-space join of rendered parts gives the parts back. */
  lemma {:induction false} ReadJoin(ps: seq<Part>)
    requires ps != []
    requires forall i :: 0 <= i < |ps| ==> IsUnit(ps[i].unit)
    ensures ReadParts(Join(RenderAll(ps))) == Some(ps)
  {
    var parts := RenderAll(ps);
    if |ps| == 1 {
      assert parts == [Render(ps[0])];
      ReadLast(ps[0]);
      assert ps == [ps[0]];
    } else {
      var more := Join(RenderAll(ps[1..]));
      ReadJoin(ps[1..]);
      JoinRenderAll(ps);
      ReadThen(ps[0], more, ps[1..]);
      assert ps == [ps[0]] + ps[1..];
    }
  }

  /** The parts a non-negative number of seconds is formatted from. */
  function PartsOf(n: nat): seq<Part> {
    var hours, remainder := n / 3600, n % 3600;
    var minutes, secs := remainder / 60, remainder % 60;
    var withHours := if hours != 0 then [Part(hours, 'h')] else [];
    var withMinutes := withHours + if minutes != 0 then [Part(minutes, 'm')] else [];
    withMinutes + if secs != 0 || withMinutes == [] then [Part(secs, 's')] else []
  }

  /** The two `divmod` steps split `n` into hours, minutes below 60 and
      seconds below 60 that add back up to `n`. */
  lemma Divided(n: nat)
    ensures var hours, remainder := n / 3600, n % 3600;
            var minutes, secs := remainder / 60, remainder % 60;
            && 0 <= minutes < 60 && 0 <= secs < 60
            && n == 3600 * hours + 60 * minutes + secs
  {
  }

  lemma PartsOfValue(n: nat)
    ensures Value(PartsOf(n)) == n
  {
    var hours, remainder := n / 3600, n % 3600;
    var minutes, secs := remainder / 60, remainder % 60;
    var ph := if hours != 0 then [Part(hours, 'h')] else [];
    var qm := if minutes != 0 then [Part(minutes, 'm')] else [];
    var qs := if secs != 0 || ph + qm == [] then [Part(secs, 's')] else [];
    assert PartsOf(n) == ph + qm + qs;
    Divided(n);
    ValueAppend(ph, qm);
    ValueAppend(ph + qm, qs);
    assert Value(ph) == 3600 * hours;
    assert Value(qm) == 60 * minutes;
    assert Value(qs) == secs;
  }

  lemma PartsOfCanonical(n: nat)
    ensures Canonical(PartsOf(n))
    ensures Value(PartsOf(n)) == n
  {
    var hours, remainder := n / 3600, n % 3600;
    var minutes, secs := remainder / 60, remainder % 60;
    var ph := if hours != 0 then [Part(hours, 'h')] else [];
    var qm := if minutes != 0 then [Part(minutes, 'm')] else [];
    var qs := if secs != 0 || ph + qm == [] then [Part(secs, 's')] else [];
    assert PartsOf(n) == ph + qm + qs;
    Divided(n);
    PartsOfValue(n);
  }

  lemma {:induction false} RenderAllAppend(a: seq<Part>, b: seq<Part>)
    ensures RenderAll(a + b) == RenderAll(a) + RenderAll(b)
  {
    if a == [] {
      assert a + b == b;
    } else {
      assert (a + b)[0] == a[0] && (a + b)[1..] == a[1..] + b;
      RenderAllAppend(a[1..], b);
    }
  }

  /** Rendering an optional part gives the formatter's optional string. */
  lemma RenderedPart(keep: bool, amount: nat, unit: char)
    ensures RenderAll(if keep then [Part(amount, unit)] else []) ==
            if keep then [Decimal.IntToString(amount) + [unit]] else []
  {
    if keep {
      assert RenderAll([Part(amount, unit)]) == [Render(Part(amount, unit))] + RenderAll([]);
    }
  }

  lemma PartsOfRendered(n: nat)
    ensures RenderAll(PartsOf(n)) == TimeParts(n)
  {
    var hours, remainder := n / 3600, n % 3600;
    var minutes, secs := remainder / 60, remainder % 60;
    Divided(n);
    var ph := if hours != 0 then [Part(hours, 'h')] else [];
    var qm := if minutes != 0 then [Part(minutes, 'm')] else [];
    var keepSecs := secs != 0 || ph + qm == [];
    var qs := if keepSecs then [Part(secs, 's')] else [];
    assert PartsOf(n) == ph + qm + qs;
    RenderAllAppend(ph + qm, qs);
    RenderAllAppend(ph, qm);
    RenderedPart(hours != 0, hours, 'h');
    RenderedPart(minutes != 0, minutes, 'm');
    RenderedPart(keepSecs, secs, 's');
    assert "h" == ['h'] && "m" == ['m'] && "s" == ['s'];
    assert (ph + qm == []) == (RenderAll(ph) + RenderAll(qm) == []);
  }

  /** For a duration that rounds to a non-negative number of seconds, the
      output reads back as a canonical decomposition of that number: only
      non-zero hours, minutes and seconds, in that order, minutes and
      seconds below 60, "0s" for zero. In particular it is never empty. */
  lemma FormatTimeReadsBack(t: real)
    requires RoundHalfEven(t) >= 0
    ensures FormatTime(t) != ""
    ensures ReadParts(FormatTime(t)).Some?
    ensures Canonical(ReadParts(FormatTime(t)).value)
    ensures Value(ReadParts(FormatTime(t)).value) == RoundHalfEven(t)
  {
    var n := RoundHalfEven(t);
    PartsOfCanonical(n);
    PartsOfRendered(n);
    ReadJoin(PartsOf(n));
  }

  /** The output is never empty, for any input: the seconds part is kept
      when nothing else is. */
  lemma FormatTimeNonEmpty(t: real)
    ensures FormatTime(t) != ""
  {
    var parts := TimeParts(RoundHalfEven(t));
    assert |parts| > 0 && |parts[0]| > 0;
  }

  lemma HalfSecondExample()
    ensures FormatTime(0.5) == "0s"
  {
    assert RoundHalfEven(0.5) == 0;
    assert Decimal.IntToString(0) == "0";
    assert "0" + "s" == "0s";
    assert TimeParts(0) == [] + [] + ["0s"];
  }

  lemma TwoMinutesExample()
    ensures FormatTime(120.2345) == "2m"
  {
    assert RoundHalfEven(120.2345) == 120;
    assert Decimal.IntToString(2) == "2";
    assert 120 / 3600 == 0 && 120 % 3600 == 120 && 120 / 60 == 2 && 120 % 60 == 0;
    assert "2" + "m" == "2m";
    assert TimeParts(120) == [] + ["2m"] + [];
  }

  lemma HourMinuteSecondExample()
    ensures FormatTime(3661.0) == "1h 1m 1s"
  {
    assert RoundHalfEven(3661.0) == 3661;
    assert Decimal.IntToString(1) == "1";
    assert 3661 / 3600 == 1 && 3661 % 3600 == 61 && 61 / 60 == 1 && 61 % 60 == 1;
    assert "1" + "h" == "1h" && "1" + "m" == "1m" && "1" + "s" == "1s";
    assert [Decimal.IntToString(1) + "h"] + [Decimal.IntToString(1) + "m"] == ["1h", "1m"];
    assert TimeParts(3661) == ["1h", "1m", "1s"];
    assert Join(["1h", "1m", "1s"]) == "1h 1m 1s";
  }

  /** The examples of the formatter's own documentation. */
  lemma FormatTimeExamples()
    ensures FormatTime(0.5) == "0s"
    ensures FormatTime(120.2345) == "2m"
    ensures FormatTime(3661.0) == "1h 1m 1s"
  {
    HalfSecondExample();
    TwoMinutesExample();
    HourMinuteSecondExample();
  }
}
