/** The per-zone fan controller (`controlZone`): once per poll it compares
    the zone's new Reading with the average recorded at the last correction,
    picks a correction of 0 to 3 PWM points, lets a far-off hottest drive
    override that choice, vetoes a correction that would push against the
    hottest drive, clamps to the controller's limits and asks the actuator
    to apply the result. */
module ZoneControl {
  import opened Readings

  datatype Option<T> = None | Some(value: T)

  /** The parts of a zone that never change after construction. */
  datatype Config = Config(target: int, minPwm: int, maxPwm: int)

  /** The parts of a zone that every poll updates. `lastTemp <= 0` means no
      average has been recorded yet. */
  datatype ZoneState = ZoneState(pwm: int, lastTemp: real, ticks: int)

  /** A poll's effect: the zone's new state, and the value handed to the
      actuator if it was called at all. */
  datatype Outcome = Outcome(next: ZoneState, command: Option<int>)

  /** The limits of the motherboard's fan controller: fans stop below 34%. */
  const MinPwm: int := 34
  const MaxPwm: int := 100

  /** How far the hottest drive may stray from the target before the
      controller corrects regardless of the average. */
  const OverrideBand: int := 5

  predicate InRange(cfg: Config, pwm: int) {
    cfg.minPwm <= pwm <= cfg.maxPwm
  }

  function Abs(x: real): real {
    if x < 0.0 then -x else x
  }

  /** The correction size for a change of `absChange` in the average of
      `count` drives: a single drive warming by one degree moves the average
      by `1/count`, and at least that much is needed before anything is
      corrected. */
  function Magnitude(absChange: real, count: nat): (adj: int)
    requires count >= 1
    ensures 0 <= adj <= 3
    ensures adj == 0 <==> absChange <= 1.0 / count as real
    ensures adj >= 2 <==> absChange > 2.0 / count as real
    ensures adj == 3 <==> absChange > 4.0 / count as real
  {
    var minChange := 1.0 / count as real;
    if absChange > minChange * 4.0 then 3
    else if absChange > minChange * 2.0 then 2
    else if absChange > minChange then 1
    else 0
  }

  /** `max(lo, min(v, hi))`. */
  function Clamp(v: int, lo: int, hi: int): (r: int)
    ensures lo <= hi ==> lo <= r <= hi
    ensures lo <= v <= hi ==> r == v
    ensures lo <= hi && v > hi ==> r == hi
    ensures v < lo || lo > hi ==> r == lo
  {
    if v > hi then (if lo > hi then lo else hi)
    else if v < lo then lo
    else v
  }

  /** One poll of a zone with configuration `cfg` in state `s`, given its
      reading `t` and whether the actuator would succeed. */
  function Control(cfg: Config, s: ZoneState, t: Reading, actuatorOk: bool): (o: Outcome)
    requires t.count >= 1
    // every poll is one tick, whatever happens
    ensures o.next.ticks == s.ticks + 1
    // the first poll records the average
    ensures s.lastTemp <= 0.0 ==> o.next.lastTemp == t.avg
    ensures o.next.lastTemp == s.lastTemp || o.next.lastTemp == t.avg
    ensures InRange(cfg, s.pwm) && s.lastTemp <= 0.0 && -OverrideBand <= t.max - cfg.target <= OverrideBand
            ==> o.command == None && o.next.pwm == s.pwm
    // the actuator is called only to change the PWM, and only success commits
    ensures o.command.Some? ==> o.command.value != s.pwm
    ensures o.next.pwm == if o.command.Some? && actuatorOk then o.command.value else s.pwm
    ensures cfg.minPwm <= cfg.maxPwm && o.command.Some? ==> InRange(cfg, o.command.value)
    // from within the limits: stays within them and moves by at most 3
    ensures InRange(cfg, s.pwm) ==> InRange(cfg, o.next.pwm) && -3 <= o.next.pwm - s.pwm <= 3
    // veto: never speed up while the hottest drive is below target, never
    // slow down while it is above
    ensures InRange(cfg, s.pwm) && t.max < cfg.target ==> o.next.pwm <= s.pwm
    ensures InRange(cfg, s.pwm) && t.max > cfg.target ==> o.next.pwm >= s.pwm
    // ... and the command itself obeys the veto, whether or not the actuator succeeds
    ensures InRange(cfg, s.pwm) && t.max < cfg.target && o.command.Some? ==> o.command.value < s.pwm
    ensures InRange(cfg, s.pwm) && t.max > cfg.target && o.command.Some? ==> o.command.value > s.pwm
    // dead band: a small change near the target leaves everything but the tick
    ensures InRange(cfg, s.pwm) && s.lastTemp > 0.0 && Abs(t.avg - s.lastTemp) <= 1.0 / t.count as real
            && -OverrideBand <= t.max - cfg.target <= OverrideBand
            ==> o.next == s.(ticks := s.ticks + 1) && o.command == None
    // far off the target: exactly one point towards it, and nothing at the limit
    ensures InRange(cfg, s.pwm) && t.max - cfg.target > OverrideBand
            ==> o.command == if s.pwm < cfg.maxPwm then Some(s.pwm + 1) else None
    ensures InRange(cfg, s.pwm) && t.max - cfg.target < -OverrideBand
            ==> o.command == if s.pwm > cfg.minPwm then Some(s.pwm - 1) else None
    // the override always passes the veto, so it records the average
    ensures t.max - cfg.target > OverrideBand || t.max - cfg.target < -OverrideBand
            ==> o.next.lastTemp == t.avg
    // near the target, the average decides: a rise of more than one drive-degree
    // speeds the fans up by the correction size, as far as the upper limit
    ensures InRange(cfg, s.pwm) && s.lastTemp > 0.0 && -OverrideBand <= t.max - cfg.target <= OverrideBand
            && t.avg - s.lastTemp > 1.0 / t.count as real && t.max >= cfg.target
            ==> o.next.lastTemp == t.avg
                && o.command == if s.pwm < cfg.maxPwm
                                then Some(Min(s.pwm + Magnitude(t.avg - s.lastTemp, t.count), cfg.maxPwm))
                                else None
    // ... and a fall of more than one drive-degree slows them down, as far as the lower limit
    ensures InRange(cfg, s.pwm) && s.lastTemp > 0.0 && -OverrideBand <= t.max - cfg.target <= OverrideBand
            && s.lastTemp - t.avg > 1.0 / t.count as real && t.max <= cfg.target
            ==> o.next.lastTemp == t.avg
                && o.command == if s.pwm > cfg.minPwm
                                then Some(Max(s.pwm - Magnitude(s.lastTemp - t.avg, t.count), cfg.minPwm))
                                else None
    // a rise while the hottest drive is below target, or a fall while it is
    // above, is vetoed: nothing is recorded and nothing is commanded
    ensures InRange(cfg, s.pwm) && s.lastTemp > 0.0 && -OverrideBand <= t.max - cfg.target <= OverrideBand
            && ((t.avg - s.lastTemp > 1.0 / t.count as real && t.max < cfg.target)
                || (s.lastTemp - t.avg > 1.0 / t.count as real && t.max > cfg.target))
            ==> o.next == s.(ticks := s.ticks + 1) && o.command == None
  {
    // change since the last correction; the first poll only records
    var (change0, last0) := if s.lastTemp > 0.0 then (t.avg - s.lastTemp, s.lastTemp) else (0.0, t.avg);
    // correction size; a change too small to act on counts as none
    var adj0 := Magnitude(Abs(change0), t.count);
    var change1 := if adj0 == 0 then 0.0 else change0;
    // a hottest drive far from the target forces one point towards it
    var delta := t.max - cfg.target;
    var (change, adj) :=
      if delta > OverrideBand then (1.0, 1)
      else if delta < -OverrideBand then (-1.0, 1)
      else (change1, adj0);
    // veto against the hottest drive; a correction records the average
    var (last, moved) :=
      if change > 0.0 && t.max >= cfg.target then (t.avg, s.pwm + adj)
      else if change < 0.0 && t.max <= cfg.target then (t.avg, s.pwm - adj)
      else (last0, s.pwm);
    var newPwm := Clamp(moved, cfg.minPwm, cfg.maxPwm);
    var command := if newPwm != s.pwm then Some(newPwm) else None;
    Outcome(ZoneState(if command.Some? && actuatorOk then newPwm else s.pwm, last, s.ticks + 1), command)
  }

  /** One poll's input: the zone's reading and the actuator's answer. */
  datatype Poll = Poll(reading: Reading, actuatorOk: bool)

  predicate UsablePolls(polls: seq<Poll>) {
    forall i :: 0 <= i < |polls| ==> polls[i].reading.count >= 1
  }

  /** The state after polling a zone once per element of `polls`. */
  function Run(cfg: Config, s: ZoneState, polls: seq<Poll>): ZoneState
    requires UsablePolls(polls)
    decreases |polls|
  {
    if |polls| == 0 then s
    else Run(cfg, Control(cfg, s, polls[0].reading, polls[0].actuatorOk).next, polls[1..])
  }

  /** Over any run of polls the PWM stays within the controller's limits,
      moves by at most 3 per poll, and the tick count advances once per poll. */
  lemma {:induction false} RunStaysInRange(cfg: Config, s: ZoneState, polls: seq<Poll>)
    requires UsablePolls(polls) && InRange(cfg, s.pwm)
    ensures InRange(cfg, Run(cfg, s, polls).pwm)
    ensures -3 * |polls| <= Run(cfg, s, polls).pwm - s.pwm <= 3 * |polls|
    ensures Run(cfg, s, polls).ticks == s.ticks + |polls|
    decreases |polls|
  {
    if |polls| > 0 {
      var next := Control(cfg, s, polls[0].reading, polls[0].actuatorOk).next;
      assert UsablePolls(polls[1..]) by {
        forall i | 0 <= i < |polls[1..]| ensures polls[1..][i].reading.count >= 1 {
          assert polls[1..][i] == polls[i + 1];
        }
      }
      RunStaysInRange(cfg, next, polls[1..]);
    }
  }

  /** A correction driven by the average (no override) that the actuator
      refuses is not tried again on the same reading: the average was
      already recorded as the reference before the actuator was called. */
  lemma FailedChangeNotRetried(cfg: Config, s: ZoneState, t: Reading, actuatorOk: bool)
    requires t.count >= 1 && InRange(cfg, s.pwm)
    requires -OverrideBand <= t.max - cfg.target <= OverrideBand
    requires Control(cfg, s, t, false).command.Some?
    ensures Control(cfg, s, t, false).next.pwm == s.pwm
    ensures Control(cfg, s, t, false).next.lastTemp == t.avg
    ensures Control(cfg, Control(cfg, s, t, false).next, t, actuatorOk).command == None
  {
  }

  /** A zone (`Zone` in the source): its identity and limits, and the state
      the controller carries from one poll to the next. */
  class Zone {
    const zone: int
    const target: int
    const minPwm: int
    const maxPwm: int
    var pwm: int
    var lastTemp: real
    var ticks: int

    constructor (zone: int, startPwm: int, target: int)
      ensures this.zone == zone && this.target == target
      ensures minPwm == MinPwm && maxPwm == MaxPwm
      ensures pwm == startPwm && lastTemp == 0.0 && ticks == 0
    {
      this.zone := zone;
      this.target := target;
      minPwm := MinPwm;
      maxPwm := MaxPwm;
      pwm := startPwm;
      lastTemp := 0.0;
      ticks := 0;
    }

    function Configuration(): Config {
      Config(target, minPwm, maxPwm)
    }

    function State(): ZoneState
      reads this
    {
      ZoneState(pwm, lastTemp, ticks)
    }

    /** One poll (`controlZone`). `actuatorOk` is what `setPwm` reports if
        it is called; `command` is the value it is called with, if any. */
    method ControlZone(t: Reading, actuatorOk: bool) returns (command: Option<int>)
      requires t.count >= 1
      modifies this
      ensures var o := Control(Configuration(), old(State()), t, actuatorOk);
              State() == o.next && command == o.command
      ensures ticks == old(ticks) + 1
      ensures InRange(Configuration(), old(pwm)) ==> InRange(Configuration(), pwm)
    {
      ticks := ticks + 1;

      var tempChange := 0.0;
      if lastTemp > 0.0 {
        tempChange := t.avg - lastTemp;
      } else {
        lastTemp := t.avg;
      }

      var newPwm := pwm;
      var absChange := Abs(tempChange);
      var minChange := 1.0 / t.count as real;

      var adj: int;
      if absChange > minChange * 4.0 {
        adj := 3;
      } else if absChange > minChange * 2.0 {
        adj := 2;
      } else if absChange > minChange {
        adj := 1;
      } else {
        tempChange := 0.0;
        adj := 0;
      }

      if t.max - target > OverrideBand {
        tempChange := 1.0;
        adj := 1;
      } else if t.max - target < -OverrideBand {
        tempChange := -1.0;
        adj := 1;
      }

      if tempChange > 0.0 && t.max >= target {
        lastTemp := t.avg;
        newPwm := newPwm + adj;
      } else if tempChange < 0.0 && t.max <= target {
        lastTemp := t.avg;
        newPwm := newPwm - adj;
      }

      newPwm := Max(minPwm, Min(newPwm, maxPwm));

      command := None;
      if newPwm != pwm {
        command := Some(newPwm);
        if actuatorOk {
          pwm := newPwm;
        }
      }
    }
  }
}
