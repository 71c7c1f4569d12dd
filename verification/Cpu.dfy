/**
 Guest CPU utilization across two processes: the enclave adds up /proc/stat counters and rounds
 them to whole seconds, the host works out a utilization from consecutive rounded samples.
 */
module Cpu {
  import opened Bytes
  import opened Encoding

  const TICKS_PER_SECOND := 100
  const MAX_UINT64 := TWO_64 - 1

  /** The first eight fields of the aggregate cpu line, in its order. */
  datatype CpuStat = CpuStat(user: nat, nice: nat, system: nat, idle: nat, iowait: nat, irq: nat, softirq: nat,
                             steal: nat)

  function Sum(values: seq<nat>): nat {
    if values == [] then 0 else Sum(values[..|values| - 1]) + values[|values| - 1]
  }

  /** `sumCPUTicks`: the sum, or nothing if it does not fit in 64 bits. */
  method SumCpuTicks(values: seq<nat>) returns (r: Option<nat>)
    requires forall i :: 0 <= i < |values| ==> values[i] <= MAX_UINT64
    ensures r == if Sum(values) <= MAX_UINT64 then Some(Sum(values)) else None
  {
    var total := 0;
    var i := 0;
    while i < |values|
      invariant 0 <= i <= |values|
      invariant total == Sum(values[..i]) <= MAX_UINT64
    {
      assert values[..i + 1][..i] == values[..i];
      if values[i] > MAX_UINT64 - total {
        SumGrows(values, i + 1);
        return None;
      }
      total := total + values[i];
      i := i + 1;
    }
    assert values[..i] == values;
    return Some(total);
  }

  lemma {:induction false} SumGrows(values: seq<nat>, i: nat)
    requires i <= |values|
    ensures Sum(values[..i]) <= Sum(values)
    decreases |values| - i
  {
    if i < |values| {
      SumGrows(values, i + 1);
      assert values[..i + 1][..i] == values[..i];
    } else {
      assert values[..i] == values;
    }
  }

  function BusyTicks(s: CpuStat): nat {
    s.user + s.nice + s.system + s.irq + s.softirq
  }

  function TotalTicks(s: CpuStat): nat {
    BusyTicks(s) + s.idle + s.iowait + s.steal
  }

  datatype Counter = User | Nice | System | Idle | Iowait | Irq | Softirq | Steal

  /** The counters of time the guest spent working; the others count time it waited or was not given. */
  const WORKING: set<Counter> := {User, Nice, System, Irq, Softirq}

  const NO_TICKS := CpuStat(0, 0, 0, 0, 0, 0, 0, 0)

  /** The counters after `n` more ticks of one kind. */
  function Ticked(s: CpuStat, c: Counter, n: nat): CpuStat {
    match c
    case User => s.(user := s.user + n)
    case Nice => s.(nice := s.nice + n)
    case System => s.(system := s.system + n)
    case Idle => s.(idle := s.idle + n)
    case Iowait => s.(iowait := s.iowait + n)
    case Irq => s.(irq := s.irq + n)
    case Softirq => s.(softirq := s.softirq + n)
    case Steal => s.(steal := s.steal + n)
  }

  /** The counters a history of ticks leads to. */
  function Accumulated(history: seq<(Counter, nat)>): CpuStat {
    if history == [] then NO_TICKS
    else
      var last := history[|history| - 1];
      Ticked(Accumulated(history[..|history| - 1]), last.0, last.1)
  }

  /** The ticks of a history that were of the given kinds. */
  function Spent(history: seq<(Counter, nat)>, kinds: set<Counter>): nat {
    if history == [] then 0
    else
      var last := history[|history| - 1];
      Spent(history[..|history| - 1], kinds) + if last.0 in kinds then last.1 else 0
  }

  const ALL_KINDS: set<Counter> := {User, Nice, System, Idle, Iowait, Irq, Softirq, Steal}

  lemma TickedTicks(s: CpuStat, c: Counter, n: nat)
    ensures BusyTicks(Ticked(s, c, n)) == BusyTicks(s) + if c in WORKING then n else 0
    ensures TotalTicks(Ticked(s, c, n)) == TotalTicks(s) + n
  {
  }

  lemma SpentStep(history: seq<(Counter, nat)>, c: Counter, n: nat, kinds: set<Counter>)
    ensures Accumulated(history + [(c, n)]) == Ticked(Accumulated(history), c, n)
    ensures Spent(history + [(c, n)], kinds) == Spent(history, kinds) + if c in kinds then n else 0
  {
    assert (history + [(c, n)])[..|history|] == history;
  }

  /** The counters are those of the history, and so are the ticks counted from them. */
  predicate Counted(history: seq<(Counter, nat)>, s: CpuStat, working: nat, all: nat) {
    s == Accumulated(history) && working == Spent(history, WORKING) && all == Spent(history, ALL_KINDS)
  }

  lemma CountedOn(history: seq<(Counter, nat)>, c: Counter, n: nat, s: CpuStat, working: nat, all: nat)
    requires Counted(history, s, working, all)
    ensures Counted(history + [(c, n)], Ticked(s, c, n), working + (if c in WORKING then n else 0), all + n)
  {
    SpentStep(history, c, n, WORKING);
    SpentStep(history, c, n, ALL_KINDS);
    assert c in ALL_KINDS;
  }

  lemma {:induction false} CountedTicks(history: seq<(Counter, nat)>) returns (s: CpuStat, working: nat, all: nat)
    ensures Counted(history, s, working, all) && BusyTicks(s) == working && TotalTicks(s) == all
  {
    if history == [] {
      s, working, all := NO_TICKS, 0, 0;
    } else {
      var before, last := history[..|history| - 1], history[|history| - 1];
      var t, w, a := CountedTicks(before);
      CountedOn(before, last.0, last.1, t, w, a);
      TickedTicks(t, last.0, last.1);
      s, working, all := Ticked(t, last.0, last.1), w + (if last.0 in WORKING then last.1 else 0), a + last.1;
      assert history == before + [(last.0, last.1)];
    }
  }

  /** For every history of the counters, busy ticks are those spent working and total ticks are all of them. */
  lemma TicksAreSpent(history: seq<(Counter, nat)>)
    ensures BusyTicks(Accumulated(history)) == Spent(history, WORKING)
    ensures TotalTicks(Accumulated(history)) == Spent(history, ALL_KINDS)
  {
    var s, working, all := CountedTicks(history);
  }

  predicate Fits(s: CpuStat) {
    && s.user <= MAX_UINT64 && s.nice <= MAX_UINT64 && s.system <= MAX_UINT64 && s.idle <= MAX_UINT64
    && s.iowait <= MAX_UINT64 && s.irq <= MAX_UINT64 && s.softirq <= MAX_UINT64 && s.steal <= MAX_UINT64
  }

  lemma SumOfAppended(values: seq<nat>, last: nat)
    ensures Sum(values + [last]) == Sum(values) + last
  {
    assert (values + [last])[..|values|] == values;
  }

  lemma SumOfFour(a: nat, b: nat, c: nat, d: nat)
    ensures Sum([a, b, c, d]) == a + b + c + d
  {
    SumOfAppended([], a);
    SumOfAppended([a], b);
    SumOfAppended([a, b], c);
    SumOfAppended([a, b, c], d);
    assert [] + [a] == [a] && [a] + [b] == [a, b] && [a, b] + [c] == [a, b, c] && [a, b, c] + [d] == [a, b, c, d];
  }

  lemma SumOfFive(a: nat, b: nat, c: nat, d: nat, e: nat)
    ensures Sum([a, b, c, d, e]) == a + b + c + d + e
  {
    SumOfFour(a, b, c, d);
    SumOfAppended([a, b, c, d], e);
    assert [a, b, c, d] + [e] == [a, b, c, d, e];
  }

  /** `parseGuestCPUTicks`, from the parsed fields on. */
  method GuestCpuTicks(s: CpuStat) returns (r: Option<(nat, nat)>)
    requires Fits(s)
    ensures r == if TotalTicks(s) <= MAX_UINT64 then Some((BusyTicks(s), TotalTicks(s))) else None
  {
    SumOfFive(s.user, s.nice, s.system, s.irq, s.softirq);
    SumOfFour(BusyTicks(s), s.idle, s.iowait, s.steal);
    var busy := SumCpuTicks([s.user, s.nice, s.system, s.irq, s.softirq]);
    if busy.None? {
      return None;
    }
    var total := SumCpuTicks([busy.value, s.idle, s.iowait, s.steal]);
    if total.None? {
      return None;
    }
    return Some((busy.value, total.value));
  }

  /** `cpuTicksToSeconds`: half up, without adding first. */
  function TicksToSeconds(ticks: nat): nat {
    ticks / TICKS_PER_SECOND + if ticks % TICKS_PER_SECOND >= TICKS_PER_SECOND / 2 then 1 else 0
  }

  /** It is the nearest whole second, ties upward. */
  lemma RoundsToNearest(ticks: nat)
    ensures 2 * ticks - TICKS_PER_SECOND < 2 * TICKS_PER_SECOND * TicksToSeconds(ticks) <= 2 * ticks + TICKS_PER_SECOND
  {
  }

  lemma RoundingIsMonotone(a: nat, b: nat)
    requires a <= b
    ensures TicksToSeconds(a) <= TicksToSeconds(b)
  {
    RoundsToNearest(a);
    RoundsToNearest(b);
  }

  /** Rounding the ends of two intervals separately lengthens the shorter past the longer by at most one second. */
  lemma RoundedDeltas(b0: nat, b1: nat, t0: nat, t1: nat)
    requires b0 <= b1 && t0 <= t1 && b1 - b0 <= t1 - t0
    ensures TicksToSeconds(b1) - TicksToSeconds(b0) <= TicksToSeconds(t1) - TicksToSeconds(t0) + 1
  {
    RoundsToNearest(b0);
    RoundsToNearest(b1);
    RoundsToNearest(t0);
    RoundsToNearest(t1);
  }

  /** The sample `readGuestCPUSeconds` reports; `(0, 0)` when the total does not fit. */
  function Sample(s: CpuStat): (nat, nat) {
    if TotalTicks(s) <= MAX_UINT64 then (TicksToSeconds(BusyTicks(s)), TicksToSeconds(TotalTicks(s))) else (0, 0)
  }

  /** `readGuestCPUSeconds`, once the line is parsed. */
  method ReadGuestCpuSeconds(s: CpuStat) returns (busy: nat, total: nat)
    requires Fits(s)
    ensures (busy, total) == Sample(s)
  {
    var ticks := GuestCpuTicks(s);
    if ticks.None? {
      return 0, 0;
    }
    return TicksToSeconds(ticks.value.0), TicksToSeconds(ticks.value.1);
  }

  /** No counter runs back. */
  predicate NotBefore(a: CpuStat, b: CpuStat) {
    && a.user <= b.user && a.nice <= b.nice && a.system <= b.system && a.idle <= b.idle
    && a.iowait <= b.iowait && a.irq <= b.irq && a.softirq <= b.softirq && a.steal <= b.steal
  }

  /** The host's baseline and the utilization it publishes. */
  datatype Meter = Meter(baseline: Option<(nat, nat)>, published: Option<real>)

  /** `recordGuestCPUUtilization`. */
  function Recorded(m: Meter, busy: nat, total: nat): Meter {
    if total == 0 || busy > total then Meter(None, None)
    else if m.baseline.None? || busy < m.baseline.value.0 || total < m.baseline.value.1
      then Meter(Some((busy, total)), None)
    else
      var busyDelta, totalDelta := busy - m.baseline.value.0, total - m.baseline.value.1;
      if totalDelta == 0 then Meter(Some((busy, total)), m.published)
      else
        var used := if busyDelta > totalDelta && busyDelta - totalDelta == 1 then totalDelta else busyDelta;
        if used > totalDelta then Meter(Some((busy, total)), None)
        else Meter(Some((busy, total)), Some(used as real / totalDelta as real))
  }

  /**
   A sample without a total, or busier than its total, cannot be genuine: it withdraws the value and the
   baseline, so that nothing is published before two more samples. After a sample whose counters ran
   back, and after the first one, nothing is published and that sample is the baseline.
   */
  lemma BadSampleClears(m: Meter, busy: nat, total: nat)
    ensures total == 0 || busy > total ==> Recorded(m, busy, total) == Meter(None, None)
    ensures total > 0 && busy <= total && m.baseline.None? ==>
            Recorded(m, busy, total) == Meter(Some((busy, total)), None)
    ensures total > 0 && busy <= total && m.baseline.Some?
            && (busy < m.baseline.value.0 || total < m.baseline.value.1) ==>
              Recorded(m, busy, total) == Meter(Some((busy, total)), None)
    ensures total > 0 && busy <= total && m.baseline.Some? && busy >= m.baseline.value.0
            && total > m.baseline.value.1 ==>
              var d := total - m.baseline.value.1;
              (Recorded(m, busy, total).published.None? <==> busy - m.baseline.value.0 > d + 1)
  {
  }

  /** A published utilization is a fraction, whatever samples arrive. */
  lemma PublishedIsAFraction(m: Meter, busy: nat, total: nat)
    requires m.published.Some? ==> 0.0 <= m.published.value <= 1.0
    ensures var u := Recorded(m, busy, total); u.published.Some? ==> 0.0 <= u.published.value <= 1.0
  {
    var u := Recorded(m, busy, total);
    if u.published.Some? && u.published != m.published {
      var totalDelta := total - m.baseline.value.1;
      var used := if busy - m.baseline.value.0 > totalDelta then totalDelta else busy - m.baseline.value.0;
      FractionBounds(used, totalDelta);
    }
  }

  lemma FractionBounds(used: nat, total: nat)
    requires used <= total && total > 0
    ensures 0.0 <= used as real / total as real <= 1.0
  {
    assert (total as real / total as real) == 1.0;
  }

  /** `clearEnclaveMemory`, as far as CPU utilization goes: the value is withdrawn, the baseline stays. */
  function Withdrawn(m: Meter): Meter {
    m.(published := None)
  }

  /** What a poll of the enclave brings: two numbers, or an error. */
  datatype Poll = Answered(busy: nat, total: nat) | Failed

  function Metered(m: Meter, polls: seq<Poll>): Meter {
    if polls == [] then m
    else
      var before, last := Metered(m, polls[..|polls| - 1]), polls[|polls| - 1];
      if last.Failed? then Withdrawn(before) else Recorded(before, last.busy, last.total)
  }

  /** The rounded counters of two moments, related as the host needs them. */
  lemma SamplesGrow(a: CpuStat, b: CpuStat)
    requires NotBefore(a, b) && TotalTicks(b) <= MAX_UINT64
    ensures Sample(b).0 <= Sample(b).1
    ensures Sample(a).0 <= Sample(b).0 && Sample(a).1 <= Sample(b).1
    ensures Sample(b).0 - Sample(a).0 <= Sample(b).1 - Sample(a).1 + 1
  {
    RoundingIsMonotone(BusyTicks(b), TotalTicks(b));
    RoundingIsMonotone(BusyTicks(a), BusyTicks(b));
    RoundingIsMonotone(TotalTicks(a), TotalTicks(b));
    RoundedDeltas(BusyTicks(a), BusyTicks(b), TotalTicks(a), TotalTicks(b));
  }

  /** The allowance for one second is needed: genuine counters can round to a busier second than they spent. */
  lemma BusyCanLead() returns (a: CpuStat, b: CpuStat)
    ensures NotBefore(a, b) && Sample(a).1 > 0
    ensures Sample(b).1 > Sample(a).1 && Sample(b).0 - Sample(a).0 == Sample(b).1 - Sample(a).1 + 1
  {
    a := CpuStat(49, 0, 0, 1, 0, 0, 0, 0);
    b := CpuStat(150, 0, 0, 1, 0, 0, 0, 0);
  }

  /** Two consecutive genuine samples are never rejected, and nothing already published is withdrawn. */
  lemma IntervalIsAccepted(m: Meter, a: CpuStat, b: CpuStat)
    requires NotBefore(a, b) && TotalTicks(b) <= MAX_UINT64 && Sample(b).1 > 0 && m.baseline == Some(Sample(a))
    ensures var u := Recorded(m, Sample(b).0, Sample(b).1);
            && u.baseline == Some(Sample(b))
            && (u.published.Some? <==> m.published.Some? || Sample(b).1 > Sample(a).1)
  {
    SamplesGrow(a, b);
  }

  /** Numbers of seconds less than one off are, as fractions of each other, less than two parts of the total off. */
  lemma CrossBound(x: nat, d: nat, b: nat, t: nat)
    requires -100 < 100 * x - b < 100 && -100 < 100 * d - t < 100 && b <= t && d > 0 && t > 0
    ensures -2 * t < x * t - b * d < 2 * t
  {
    var p, q := 100 * x - b, t - 100 * d;
    CrossSplits(x, d, b, t);
    Scaled(p, t);
    if b > 0 {
      Scaled(q, b);
    }
  }

  lemma CrossSplits(x: int, d: int, b: int, t: int)
    ensures 100 * (x * t - b * d) == (100 * x - b) * t + (t - 100 * d) * b
  {
  }

  lemma Scaled(p: int, n: nat)
    requires -100 < p < 100 && n > 0
    ensures -100 * n < p * n < 100 * n
  {
  }

  lemma QuotientsClose(x: nat, d: nat, b: nat, t: nat)
    requires d > 0 && t > 0 && -2 * t < x * t - b * d < 2 * t
    ensures var off := x as real / d as real - b as real / t as real; -2.0 / d as real < off < 2.0 / d as real
  {
    var X, D, B, T := x as real, d as real, b as real, t as real;
    assert (x * t) as real == X * T && (b * d) as real == B * D;
    assert -2.0 * T < X * T - B * D < 2.0 * T;
    RealQuotientsClose(X, D, B, T);
  }

  lemma RealQuotientsClose(x: real, d: real, b: real, t: real)
    requires d > 0.0 && t > 0.0 && -2.0 * t < x * t - b * d < 2.0 * t
    ensures -2.0 / d < x / d - b / t < 2.0 / d
  {
    var off, c := x / d - b / t, d * t;
    assert c > 0.0 && -2.0 / d * c < off * c < 2.0 / d * c by {
      Cleared(x, d, b, t);
      Doubled(d, t);
    }
    Divides(off, 2.0 / d, c);
    Divides(-2.0 / d, off, c);
  }

  /** The difference of two quotients, times both denominators. */
  lemma Cleared(x: real, d: real, b: real, t: real)
    requires d > 0.0 && t > 0.0
    ensures (x / d - b / t) * (d * t) == x * t - b * d
  {
    assert x / d * d == x && b / t * t == b;
    assert x / d * (d * t) == x * t;
    assert b / t * (d * t) == b * d;
  }

  lemma Doubled(d: real, t: real)
    requires d > 0.0 && t > 0.0
    ensures d * t > 0.0 && 2.0 / d * (d * t) == 2.0 * t && -2.0 / d * (d * t) == -2.0 * t
  {
    assert 2.0 / d * d == 2.0 && -2.0 / d * d == -2.0;
    assert 2.0 / d * (d * t) == 2.0 * t;
    assert -2.0 / d * (d * t) == -2.0 * t;
  }

  lemma Divides(a: real, b: real, c: real)
    requires c > 0.0 && a * c < b * c
    ensures a < b
  {
  }

  /** Rounding the ends of an interval separately moves its length by less than a second. */
  lemma RoundedLength(a: nat, b: nat)
    requires a <= b
    ensures -TICKS_PER_SECOND < TICKS_PER_SECOND * (TicksToSeconds(b) - TicksToSeconds(a)) - (b - a) < TICKS_PER_SECOND
  {
    RoundsToNearest(a);
    RoundsToNearest(b);
  }

  /** The seconds taken as busy, of which at most `total` count. */
  lemma UsedIsClose(busy: nat, total: nat, b: nat, t: nat)
    requires -100 < 100 * busy - b < 100 && -100 < 100 * total - t < 100 && b <= t && busy <= total + 1
    ensures var used := if busy > total then total else busy; -100 < 100 * used - b < 100
  {
  }

  /**
   What is published from two genuine samples differs from the true share of busy time between them by
   less than 2 divided by the total seconds between them.
   */
  lemma PublishedIsClose(m: Meter, a: CpuStat, b: CpuStat)
    requires NotBefore(a, b) && TotalTicks(b) <= MAX_UINT64 && m.baseline == Some(Sample(a))
    requires Sample(b).1 > Sample(a).1
    ensures TotalTicks(b) > TotalTicks(a)
    ensures var u := Recorded(m, Sample(b).0, Sample(b).1);
            var share := (BusyTicks(b) - BusyTicks(a)) as real / (TotalTicks(b) - TotalTicks(a)) as real;
            var seconds := (Sample(b).1 - Sample(a).1) as real;
            u.published.Some? && -2.0 / seconds < u.published.value - share < 2.0 / seconds
  {
    SamplesGrow(a, b);
    RoundedLength(BusyTicks(a), BusyTicks(b));
    RoundedLength(TotalTicks(a), TotalTicks(b));
    var busy, total := Sample(b).0 - Sample(a).0, Sample(b).1 - Sample(a).1;
    var x, d := BusyTicks(b) - BusyTicks(a), TotalTicks(b) - TotalTicks(a);
    UsedIsClose(busy, total, x, d);
    var used := if busy > total then total else busy;
    CrossBound(used, total, x, d);
    QuotientsClose(used, total, x, d);
  }

  /** Over every run of polls, whatever numbers they bring, a published utilization is a fraction. */
  lemma {:induction false} PublishedAlwaysAFraction(m: Meter, polls: seq<Poll>)
    requires m.published.Some? ==> 0.0 <= m.published.value <= 1.0
    ensures var u := Metered(m, polls); u.published.Some? ==> 0.0 <= u.published.value <= 1.0
  {
    if polls != [] {
      var before, last := polls[..|polls| - 1], polls[|polls| - 1];
      PublishedAlwaysAFraction(m, before);
      if last.Answered? {
        PublishedIsAFraction(Metered(m, before), last.busy, last.total);
      }
    }
  }

  /** The counters as they were at each poll that was answered. */
  type Readings = seq<Option<CpuStat>>

  function Polls(readings: Readings): (polls: seq<Poll>)
    ensures |polls| == |readings|
  {
    if readings == [] then []
    else
      var n := |readings| - 1;
      Polls(readings[..n]) + [if readings[n].None? then Failed
                              else Answered(Sample(readings[n].value).0, Sample(readings[n].value).1)]
  }

  /** The latest counters that were read. */
  function Latest(readings: Readings): Option<CpuStat> {
    if readings == [] then None
    else if readings[|readings| - 1].Some? then readings[|readings| - 1]
    else Latest(readings[..|readings| - 1])
  }

  /** Counters that never run back, with a total that fits in 64 bits and is at least half a second. */
  predicate Genuine(readings: Readings) {
    forall i :: 0 <= i < |readings| && readings[i].Some? ==>
      && TotalTicks(readings[i].value) <= MAX_UINT64 && Sample(readings[i].value).1 > 0
      && (Latest(readings[..i]).Some? ==> NotBefore(Latest(readings[..i]).value, readings[i].value))
  }

  /** The rounded total has moved on at poll `i`, compared with the latest before it. */
  predicate MovedAt(readings: Readings, i: nat)
    requires i < |readings|
  {
    readings[i].Some? && Latest(readings[..i]).Some?
      && Sample(Latest(readings[..i]).value).1 < Sample(readings[i].value).1
  }

  /** The total moved on at a poll after which none failed. */
  predicate MovedSinceFailure(readings: Readings) {
    exists i :: 0 <= i < |readings| && MovedAt(readings, i) && forall k :: i <= k < |readings| ==> readings[k].Some?
  }

  lemma MovedStep(readings: Readings)
    requires readings != []
    ensures var n := |readings| - 1;
            MovedSinceFailure(readings) <==>
            readings[n].Some? && (MovedSinceFailure(readings[..n]) || MovedAt(readings, n))
  {
    var n := |readings| - 1;
    assert forall i :: 0 <= i < n ==> readings[..n][..i] == readings[..i];
    if MovedSinceFailure(readings) {
      var i :| 0 <= i < |readings| && MovedAt(readings, i) && forall k :: i <= k < |readings| ==> readings[k].Some?;
      if i < n {
        assert MovedAt(readings[..n], i);
      }
    }
    if readings[n].Some? && MovedSinceFailure(readings[..n]) {
      var before := readings[..n];
      var i :| 0 <= i < |before| && MovedAt(before, i) && forall k :: i <= k < |before| ==> before[k].Some?;
      assert MovedAt(readings, i);
      assert forall k :: i <= k < n ==> readings[k] == before[k];
    }
  }

  lemma {:induction false} LatestIsThere(readings: Readings, i: nat)
    requires i < |readings| && readings[i].Some?
    ensures Latest(readings).Some?
  {
    var n := |readings| - 1;
    if readings[n].None? {
      assert readings[..n][i] == readings[i];
      LatestIsThere(readings[..n], i);
    }
  }

  /** One more answered poll of genuine counters. */
  lemma GenuineStep(m: Meter, readings: Readings, n: nat)
    requires Genuine(readings) && n == |readings| - 1 && readings[n].Some?
    requires m.baseline == (if Latest(readings[..n]).Some? then Some(Sample(Latest(readings[..n]).value)) else None)
    ensures var u := Recorded(m, Sample(readings[n].value).0, Sample(readings[n].value).1);
            && u.baseline == Some(Sample(readings[n].value))
            && (u.published.Some? <==> (Latest(readings[..n]).Some? && m.published.Some?) || MovedAt(readings, n))
  {
    var latest, stat := Latest(readings[..n]), readings[n].value;
    if latest.Some? {
      IntervalIsAccepted(m, latest.value, stat);
    } else {
      SamplesGrow(stat, stat);
    }
  }

  /**
   Over every run of polls of genuine counters, some of which may fail, the baseline is the latest
   sample, no interval is rejected, and a utilization is published exactly when the rounded total has
   moved on at some poll since the last failed one.
   */
  lemma {:induction false} GenuineRunIsNeverRejected(readings: Readings)
    requires Genuine(readings)
    ensures var m := Metered(Meter(None, None), Polls(readings));
            && m.baseline == (if Latest(readings).Some? then Some(Sample(Latest(readings).value)) else None)
            && (m.published.Some? <==> MovedSinceFailure(readings))
  {
    if readings != [] {
      var n := |readings| - 1;
      var before := readings[..n];
      assert forall i :: 0 <= i < n ==> before[..i] == readings[..i] && before[i] == readings[i];
      GenuineRunIsNeverRejected(before);
      MovedStep(readings);
      assert Polls(readings)[..n] == Polls(before);
      var m := Metered(Meter(None, None), Polls(before));
      if readings[n].Some? {
        GenuineStep(m, readings, n);
        if MovedSinceFailure(before) {
          var i :| 0 <= i < |before| && MovedAt(before, i);
          LatestIsThere(before, i);
        }
      }
    }
  }
}

/** The host's meter as an object. */
module CpuMeter {
  import opened Bytes
  import opened Cpu

  class HostMetrics {
    var lastGuestCpuBusySeconds: nat
    var lastGuestCpuTotalSeconds: nat
    var hasGuestCpuBaseline: bool
    var guestCpuSample: Option<real>

    ghost function Value(): Meter
      reads this
    {
      Meter(if hasGuestCpuBaseline then Some((lastGuestCpuBusySeconds, lastGuestCpuTotalSeconds)) else None,
            guestCpuSample)
    }

    constructor ()
      ensures Value() == Meter(None, None)
    {
      lastGuestCpuBusySeconds, lastGuestCpuTotalSeconds := 0, 0;
      hasGuestCpuBaseline, guestCpuSample := false, None;
    }

    method RecordGuestCpuUtilization(busy: nat, total: nat)
      modifies this
      ensures Value() == Recorded(old(Value()), busy, total)
    {
      if total == 0 || busy > total {
        hasGuestCpuBaseline := false;
        guestCpuSample := None;
        return;
      }
      var previousBusy, previousTotal := lastGuestCpuBusySeconds, lastGuestCpuTotalSeconds;
      var hadBaseline := hasGuestCpuBaseline;
      lastGuestCpuBusySeconds := busy;
      lastGuestCpuTotalSeconds := total;
      hasGuestCpuBaseline := true;
      if !hadBaseline || busy < previousBusy || total < previousTotal {
        guestCpuSample := None;
        return;
      }
      var totalDelta := total - previousTotal;
      if totalDelta == 0 {
        return;
      }
      var busyDelta := busy - previousBusy;
      if busyDelta > totalDelta && busyDelta - totalDelta == 1 {
        busyDelta := totalDelta;
      }
      if busyDelta > totalDelta {
        guestCpuSample := None;
        return;
      }
      guestCpuSample := Some(busyDelta as real / totalDelta as real);
    }

    /** `clearEnclaveMemory`, as far as CPU utilization goes. */
    method ClearEnclaveMemory()
      modifies this
      ensures Value() == Withdrawn(old(Value()))
    {
      guestCpuSample := None;
    }
  }
}
