/**
 Node conditions over heartbeats (internal/agent/condition.go, and their history in
 internal/agent/heartbeat.go:154-177). Percentages and loads are real numbers; a reason
 keeps the figures its text is made of.
 */
module Conditions {
  import opened Base

  type Uint64 = x: int | 0 <= x < UINT64_MODULUS

  type Time = int

  datatype Kind = MemoryPressure | HighLoad | DiskPressure

  datatype Reason =
    | NoReason
    | MemoryUsed(used: Uint64, total: Uint64)
    | Load(load: real, threshold: real, cpus: int)
    | DiskUsed(disk: Disk)

  datatype Condition = Condition(kind: Kind, status: bool, reason: Reason, since: Time)

  datatype Memory = Memory(total: Uint64, available: Uint64)
  datatype Disk = Disk(name: string, total: Uint64, used: Uint64)

  datatype Config = Config(memoryThreshold: int, loadMultiplier: real, diskThreshold: int, cpus: int)

  /** What one heartbeat sees: the providers' answers, None or no disks when one failed,
      and what the clock would show to each evaluation. */
  datatype Tick = Tick(memory: Option<Memory>, load: Option<real>, disks: seq<Disk>,
                       memoryClock: Time, loadClock: Time, diskClock: Time)

  // ----------------------------------------------------- when a condition holds

  /** More than threshold per cent. */
  ghost predicate Above(used: int, total: int, threshold: int) {
    used as real * 100.0 > threshold as real * total as real
  }

  /** Total minus available in uint64 arithmetic. */
  function Used(m: Memory): Uint64 {
    (m.total - m.available) % UINT64_MODULUS
  }

  ghost predicate Full(d: Disk, threshold: int) {
    d.total != 0 && Above(d.used, d.total, threshold)
  }

  ghost predicate Holds(kind: Kind, config: Config, t: Tick) {
    match kind
    case MemoryPressure =>
      && t.memory.Some? && t.memory.value.total != 0
      && Above(Used(t.memory.value), t.memory.value.total, config.memoryThreshold)
    case HighLoad =>
      t.load.Some? && config.cpus != 0 && t.load.value > config.cpus as real * config.loadMultiplier
    case DiskPressure =>
      exists i | 0 <= i < |t.disks| :: Full(t.disks[i], config.diskThreshold)
  }

  /** The reason names what raised the condition; of the disks, the first full one. */
  ghost predicate Explains(r: Reason, kind: Kind, config: Config, t: Tick) {
    if !Holds(kind, config, t) then r == NoReason
    else
      match kind
      case MemoryPressure => r == MemoryUsed(Used(t.memory.value), t.memory.value.total)
      case HighLoad => r == Load(t.load.value, config.cpus as real * config.loadMultiplier, config.cpus)
      case DiskPressure =>
        exists i | 0 <= i < |t.disks| ::
          && r == DiskUsed(t.disks[i]) && Full(t.disks[i], config.diskThreshold)
          && forall j | 0 <= j < i :: !Full(t.disks[j], config.diskThreshold)
  }

  /** In whole numbers: a percentage is above the threshold exactly if a hundred times the
      part is more than the threshold times the whole; at the threshold it is not. */
  lemma AboveIff(used: int, total: int, threshold: int)
    ensures Above(used, total, threshold) <==> 100 * used > threshold * total
  {
    assert (100 * used) as real == used as real * 100.0;
    assert (threshold * total) as real == threshold as real * total as real;
  }

  /** When each condition is raised, in whole numbers for the percentages; never without an
      answer, on nothing, or at the threshold itself. */
  lemma RaisedIff(config: Config, t: Tick)
    ensures Holds(MemoryPressure, config, t) <==>
      exists m :: t.memory == Some(m) && m.total > 0
        && 100 * ((m.total - m.available) % UINT64_MODULUS) > config.memoryThreshold * m.total
    ensures Holds(HighLoad, config, t) <==>
      exists load :: t.load == Some(load) && config.cpus != 0 && load > config.cpus as real * config.loadMultiplier
    ensures Holds(DiskPressure, config, t) <==>
      exists d :: d in t.disks && d.total > 0 && 100 * d.used > config.diskThreshold * d.total
  {
    if t.memory.Some? {
      AboveIff(Used(t.memory.value), t.memory.value.total, config.memoryThreshold);
    }
    forall d: Disk
      ensures Full(d, config.diskThreshold) <==> d.total > 0 && 100 * d.used > config.diskThreshold * d.total
    {
      AboveIff(d.used, d.total, config.diskThreshold);
    }
  }

  function ClockOf(kind: Kind, t: Tick): Time {
    match kind
    case MemoryPressure => t.memoryClock
    case HighLoad => t.loadClock
    case DiskPressure => t.diskClock
  }

  /** The condition of this kind that a list holds, the first one. */
  function Find(kind: Kind, prev: seq<Condition>): Option<Condition> {
    if prev == [] then None
    else if prev[0].kind == kind then Some(prev[0])
    else Find(kind, prev[1..])
  }

  function Since(kind: Kind, status: bool, prev: seq<Condition>, now: Time): Time {
    var p := Find(kind, prev);
    if p.Some? && p.value.status == status then p.value.since else now
  }

  /** c is what this heartbeat makes of one condition. */
  ghost predicate Evaluates(c: Condition, kind: Kind, config: Config, prev: seq<Condition>, t: Tick) {
    && c.kind == kind && c.status == Holds(kind, config, t) && Explains(c.reason, kind, config, t)
    && c.since == Since(kind, c.status, prev, ClockOf(kind, t))
  }

  /** What a reason tells, case by case: nothing of a condition that does not hold, the total
      and what is missing from it, the load and the limit it is above, and the first disk
      that is too full. */
  lemma ReasonTells(c: Condition, kind: Kind, config: Config, prev: seq<Condition>, t: Tick)
    requires Evaluates(c, kind, config, prev, t)
    ensures c.status <==> c.reason != NoReason
    ensures c.status && kind.MemoryPressure? ==>
      exists m :: t.memory == Some(m) && c.reason == MemoryUsed((m.total - m.available) % UINT64_MODULUS, m.total)
    ensures c.status && kind.HighLoad? ==>
      exists load :: t.load == Some(load)
        && c.reason == Load(load, config.cpus as real * config.loadMultiplier, config.cpus)
    ensures c.status && kind.DiskPressure? ==> exists i: nat ::
      && i < |t.disks| && c.reason == DiskUsed(t.disks[i])
      && 100 * t.disks[i].used > config.diskThreshold * t.disks[i].total
      && forall j | 0 <= j < i && t.disks[j].total > 0 ::
           100 * t.disks[j].used <= config.diskThreshold * t.disks[j].total
  {
    forall d: Disk
      ensures Above(d.used, d.total, config.diskThreshold) <==> 100 * d.used > config.diskThreshold * d.total
    {
      AboveIff(d.used, d.total, config.diskThreshold);
    }
  }

  // ------------------------------------------------------------ the evaluations

  method FindPrevCondition(kind: Kind, prev: seq<Condition>) returns (r: Option<Condition>)
    ensures r == Find(kind, prev)
  {
    var i := 0;
    while i < |prev|
      invariant 0 <= i <= |prev| && Find(kind, prev) == Find(kind, prev[i..])
    {
      if prev[i].kind == kind {
        return Some(prev[i]);
      }
      assert prev[i..][1..] == prev[i + 1..];
      i := i + 1;
    }
    return None;
  }

  method TransitionTime(kind: Kind, status: bool, prev: seq<Condition>, now: Time) returns (since: Time)
    ensures since == Since(kind, status, prev, now)
  {
    var p := FindPrevCondition(kind, prev);
    if p.Some? {
      if p.value.status == status {
        return p.value.since;
      }
    }
    return now;
  }

  /** Dividing first compares the same. */
  lemma PercentAbove(used: int, total: int, threshold: int)
    requires total > 0
    ensures used as real / total as real * 100.0 > threshold as real <==> Above(used, total, threshold)
  {
    var t := total as real;
    var pct := used as real / t * 100.0;
    assert pct * t == used as real * 100.0;
    OrderScaled(pct, threshold as real, t);
  }

  lemma OrderScaled(a: real, b: real, t: real)
    requires t > 0.0
    ensures a > b <==> a * t > b * t
  {
    assert (a - b) * t == a * t - b * t;
  }

  method EvaluateMemoryPressure(config: Config, prev: seq<Condition>, t: Tick) returns (c: Condition)
    ensures Evaluates(c, MemoryPressure, config, prev, t)
  {
    if t.memory.None? || t.memory.value.total == 0 {
      var since := TransitionTime(MemoryPressure, false, prev, t.memoryClock);
      return Condition(MemoryPressure, false, NoReason, since);
    }
    var stats := t.memory.value;
    var used := Used(stats);
    PercentAbove(used, stats.total, config.memoryThreshold);
    var pct := used as real / stats.total as real * 100.0;
    var status := pct > config.memoryThreshold as real;
    var reason := if status then MemoryUsed(used, stats.total) else NoReason;
    var since := TransitionTime(MemoryPressure, status, prev, t.memoryClock);
    return Condition(MemoryPressure, status, reason, since);
  }

  method EvaluateHighLoad(config: Config, prev: seq<Condition>, t: Tick) returns (c: Condition)
    ensures Evaluates(c, HighLoad, config, prev, t)
  {
    if t.load.None? || config.cpus == 0 {
      var since := TransitionTime(HighLoad, false, prev, t.loadClock);
      return Condition(HighLoad, false, NoReason, since);
    }
    var threshold := config.cpus as real * config.loadMultiplier;
    var status := t.load.value > threshold;
    var reason := if status then Load(t.load.value, threshold, config.cpus) else NoReason;
    var since := TransitionTime(HighLoad, status, prev, t.loadClock);
    return Condition(HighLoad, status, reason, since);
  }

  method EvaluateDiskPressure(config: Config, prev: seq<Condition>, t: Tick) returns (c: Condition)
    ensures Evaluates(c, DiskPressure, config, prev, t)
  {
    if |t.disks| == 0 {
      var since := TransitionTime(DiskPressure, false, prev, t.diskClock);
      return Condition(DiskPressure, false, NoReason, since);
    }
    var status, reason := false, NoReason;
    for i := 0 to |t.disks|
      invariant !status && reason == NoReason
      invariant forall j | 0 <= j < i :: !Full(t.disks[j], config.diskThreshold)
    {
      var d := t.disks[i];
      if d.total != 0 {
        PercentAbove(d.used, d.total, config.diskThreshold);
        var pct := d.used as real / d.total as real * 100.0;
        if pct > config.diskThreshold as real {
          status, reason := true, DiskUsed(d);
          break;
        }
      }
    }
    var since := TransitionTime(DiskPressure, status, prev, t.diskClock);
    return Condition(DiskPressure, status, reason, since);
  }

  // ---------------------------------------------------------------- the history

  const KINDS: seq<Kind> := [MemoryPressure, HighLoad, DiskPressure]

  /** One heartbeat turns the conditions prev into next. */
  ghost predicate Ticks(prev: seq<Condition>, next: seq<Condition>, config: Config, t: Tick) {
    |next| == 3 && forall i | 0 <= i < 3 :: Evaluates(next[i], KINDS[i], config, prev, t)
  }

  class Agent {
    const config: Config
    var prevConditions: seq<Condition>

    /** The agent remembers nothing from before its start. */
    constructor (config: Config)
      ensures prevConditions == [] && this.config == config
    {
      this.config := config;
      prevConditions := [];
    }

    method WriteConditions(t: Tick) returns (conditions: seq<Condition>)
      modifies this`prevConditions
      ensures conditions == prevConditions && Ticks(old(prevConditions), prevConditions, config, t)
    {
      var memory := EvaluateMemoryPressure(config, prevConditions, t);
      var load := EvaluateHighLoad(config, prevConditions, t);
      var disk := EvaluateDiskPressure(config, prevConditions, t);
      conditions := [memory, load, disk];
      prevConditions := conditions;
    }
  }

  /** The conditions after each heartbeat of an agent's life. */
  ghost predicate History(states: seq<seq<Condition>>, ticks: seq<Tick>, config: Config) {
    && |states| == |ticks| + 1 && states[0] == []
    && forall n | 0 <= n < |ticks| :: Ticks(states[n], states[n + 1], config, ticks[n])
  }

  /** After the first heartbeat each kind is there exactly once, in its place. */
  lemma EachKindOnce(states: seq<seq<Condition>>, ticks: seq<Tick>, config: Config, n: nat, kind: Kind)
    returns (at: nat)
    requires History(states, ticks, config) && 0 < n < |states|
    ensures at < |states[n]| == 3 && KINDS[at] == kind && Find(kind, states[n]) == Some(states[n][at])
    ensures forall i | 0 <= i < 3 :: states[n][i].kind == kind <==> i == at
  {
    assert Ticks(states[n - 1], states[n], config, ticks[n - 1]);
    var s := states[n];
    at := match kind case MemoryPressure => 0 case HighLoad => 1 case DiskPressure => 2;
    assert s[0].kind == MemoryPressure && s[1].kind == HighLoad && s[2].kind == DiskPressure;
    assert s[1..][0] == s[1] && s[1..][1..] == s[2..] && s[2..][0] == s[2];
    assert Find(kind, s[1..]) == if s[1].kind == kind then Some(s[1]) else Find(kind, s[2..]);
    assert kind == DiskPressure ==> Find(kind, s[2..]) == Some(s[2]);
  }

  /** The status of this kind was the same at every heartbeat from number start to n, and
      different at the one before. */
  ghost predicate Stretch(ticks: seq<Tick>, config: Config, kind: Kind, start: nat, n: nat)
    requires n < |ticks|
  {
    && start <= n
    && (forall j | start <= j <= n :: Holds(kind, config, ticks[j]) == Holds(kind, config, ticks[n]))
    && (start > 0 ==> Holds(kind, config, ticks[start - 1]) != Holds(kind, config, ticks[n]))
  }

  /** The transition time is the clock reading of the first heartbeat of the stretch of
      equal statuses that the current one belongs to. */
  lemma {:induction false} SinceStartOfStretch(
      states: seq<seq<Condition>>, ticks: seq<Tick>, config: Config, n: nat, kind: Kind) returns (start: nat)
    requires History(states, ticks, config) && n < |ticks|
    ensures Stretch(ticks, config, kind, start, n)
    ensures Find(kind, states[n + 1]).Some?
    ensures Find(kind, states[n + 1]).value.status == Holds(kind, config, ticks[n])
    ensures Find(kind, states[n + 1]).value.since == ClockOf(kind, ticks[start])
  {
    var at := EachKindOnce(states, ticks, config, n + 1, kind);
    assert Evaluates(states[n + 1][at], KINDS[at], config, states[n], ticks[n]);
    if n == 0 {
      start := 0;
    } else {
      var before := SinceStartOfStretch(states, ticks, config, n - 1, kind);
      if Holds(kind, config, ticks[n - 1]) == Holds(kind, config, ticks[n]) {
        start := before;
      } else {
        start := n;
      }
    }
  }

  /** It moves exactly at a flip, to the reading of the flip, and not backwards as long
      as the clock does not. */
  lemma MovesOnFlipsOnly(states: seq<seq<Condition>>, ticks: seq<Tick>, config: Config, n: nat, kind: Kind)
    requires History(states, ticks, config) && 0 < n < |ticks|
    requires Find(kind, states[n]).Some? && Find(kind, states[n + 1]).Some?
    ensures
      var before, after := Find(kind, states[n]).value, Find(kind, states[n + 1]).value;
      && (before.status == after.status ==> after.since == before.since)
      && (before.status != after.status ==> after.since == ClockOf(kind, ticks[n]))
      && ((forall i, j | 0 <= i <= j <= n :: ClockOf(kind, ticks[i]) <= ClockOf(kind, ticks[j])) ==>
            before.since <= after.since <= ClockOf(kind, ticks[n]))
  {
    var at := EachKindOnce(states, ticks, config, n + 1, kind);
    assert Evaluates(states[n + 1][at], KINDS[at], config, states[n], ticks[n]);
    var start := SinceStartOfStretch(states, ticks, config, n - 1, kind);
    var start' := SinceStartOfStretch(states, ticks, config, n, kind);
  }

  /** The wrap-around of the subtraction shows exactly if more is available than there is:
      the memory then counts as more than full, and the condition holds whatever the
      percentage asked for. */
  lemma UsedIsRightIff(m: Memory, threshold: int)
    requires 0 < m.total && 0 <= threshold <= 100
    ensures (Above(Used(m), m.total, threshold) <==> Above(m.total - m.available, m.total, threshold))
      <==> m.available <= m.total
  {
    if m.available <= m.total {
      assert Used(m) == m.total - m.available;
    } else {
      MoreThanFull(Used(m), m.total, threshold);
      NegativeIsBelow(m.total - m.available, m.total, threshold);
    }
  }

  lemma MoreThanFull(used: int, total: int, threshold: int)
    requires 0 < total < used && threshold <= 100
    ensures Above(used, total, threshold)
  {
    var t := total as real;
    assert (100.0 - threshold as real) * t >= 0.0;
  }

  lemma NegativeIsBelow(used: int, total: int, threshold: int)
    requires used < 0 < total && 0 <= threshold
    ensures !Above(used, total, threshold)
  {
    var t := total as real;
    assert threshold as real * t >= 0.0;
  }
}
