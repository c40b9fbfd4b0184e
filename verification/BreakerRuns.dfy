/** What the circuit breaker guarantees over whole sequential runs of hardened calls. */
module BreakerRuns {
  import opened Breaker
  import opened Options

  datatype Settings = Settings(threshold: int, cooldown: real)

  /** One wrapped call of the run, with its two clock readings and how its callable would end. */
  datatype Call = Call(wrapping: Wrapping, params: Params, start: real, end: real, ending: Ending)

  /** What a call leaves in the record of one dependency. */
  datatype Mark = Failed | Succeeded | Neutral

  function MarkOf(cfg: Settings, states: States, c: Call, key: string): Mark {
    if c.wrapping.key != key || !Executes(c.wrapping, cfg.threshold, states, c.params, c.start) then Neutral
    else if c.ending.Returned? then Succeeded
    else if c.ending.Raised? || c.ending == Invalid("denied:timeout") then Failed
    else Neutral
  }

  function Step(cfg: Settings, states: States, c: Call): States {
    AfterRun(c.wrapping, cfg.threshold, cfg.cooldown, states, c.params, c.start, c.end, c.ending)
  }

  function RunStates(cfg: Settings, states: States, calls: seq<Call>): States
    decreases |calls|
  {
    if calls == [] then states else RunStates(cfg, Step(cfg, states, calls[0]), calls[1..])
  }

  /** The record of one dependency over the run. */
  function Marks(cfg: Settings, states: States, calls: seq<Call>, key: string): (ms: seq<Mark>)
    ensures |ms| == |calls|
    decreases |calls|
  {
    if calls == [] then []
    else [MarkOf(cfg, states, calls[0], key)] + Marks(cfg, Step(cfg, states, calls[0]), calls[1..], key)
  }

  /** Failures after the last success, given those already counted before the record starts. */
  function SinceSuccess(before: nat, ms: seq<Mark>): nat
    decreases |ms|
  {
    if ms == [] then before
    else SinceSuccess(match ms[0]
                      case Failed => before + 1
                      case Succeeded => 0
                      case Neutral => before, ms[1..])
  }

  /** The stored count is exactly the number of failed executions since the last success; rejected
      parameters, refusals and other validation errors do not move it. */
  lemma {:induction false} CountIsSinceSuccess(cfg: Settings, states: States, calls: seq<Call>, key: string)
    ensures FailuresOf(RunStates(cfg, states, calls), key)
         == SinceSuccess(FailuresOf(states, key), Marks(cfg, states, calls, key))
    decreases |calls|
  {
    if calls != [] {
      var next := Step(cfg, states, calls[0]);
      CountIsSinceSuccess(cfg, next, calls[1..], key);
      assert Marks(cfg, states, calls, key)[1..] == Marks(cfg, next, calls[1..], key);
    }
  }

  /** When the last failed execution ended, given the last one before the record starts. */
  function LastFailure(before: Option<real>, calls: seq<Call>, ms: seq<Mark>): Option<real>
    requires |ms| == |calls|
    decreases |calls|
  {
    if calls == [] then before
    else LastFailure(if ms[0] == Failed then Some(calls[0].end) else before, calls[1..], ms[1..])
  }

  /** What the stored state of a dependency says: so many failures since its last success, and with enough of them
      an outage of one cooldown from the last. */
  predicate Says(cfg: Settings, states: States, key: string, n: nat, last: Option<real>) {
    && (key in states <==> n > 0)
    && (key in states ==> states[key].failures == n)
    && (n > 0 && n >= cfg.threshold ==> last.Some? && states[key].openedUntil == last.value + cfg.cooldown)
  }

  lemma StepSays(cfg: Settings, states: States, c: Call, key: string, n: nat, last: Option<real>)
    requires Says(cfg, states, key, n, last)
    ensures var mark := MarkOf(cfg, states, c, key);
            Says(cfg, Step(cfg, states, c), key,
                 match mark case Failed => n + 1 case Succeeded => 0 case Neutral => n,
                 if mark == Failed then Some(c.end) else last)
  {
    hide Executes;
  }

  lemma {:induction false} RunSays(cfg: Settings, states: States, calls: seq<Call>, key: string, n: nat,
                                   last: Option<real>)
    requires Says(cfg, states, key, n, last)
    ensures var ms := Marks(cfg, states, calls, key);
            Says(cfg, RunStates(cfg, states, calls), key, SinceSuccess(n, ms), LastFailure(last, calls, ms))
    decreases |calls|
  {
    hide Says;
    hide Step;
    hide MarkOf;
    if calls != [] {
      var ms := Marks(cfg, states, calls, key);
      var mark := MarkOf(cfg, states, calls[0], key);
      StepSays(cfg, states, calls[0], key, n, last);
      assert ms[1..] == Marks(cfg, Step(cfg, states, calls[0]), calls[1..], key);
      RunSays(cfg, Step(cfg, states, calls[0]), calls[1..], key,
              match mark case Failed => n + 1 case Succeeded => 0 case Neutral => n,
              if mark == Failed then Some(calls[0].end) else last);
    }
  }

  /** When a call reaches its callable, exactly and from the record alone: its parameters are in order and, once
      its dependency failed `threshold` times since its last success, a cooldown has passed since the last failure
      ended. A threshold below one acts as one. */
  lemma ExecutedExactly(cfg: Settings, calls: seq<Call>, c: Call)
    ensures var ms := Marks(cfg, map[], calls, c.wrapping.key);
            var failures, last := SinceSuccess(0, ms), LastFailure(None, calls, ms);
            Executes(c.wrapping, cfg.threshold, RunStates(cfg, map[], calls), c.params, c.start)
            <==> && (c.wrapping.anyName || c.params.names <= c.wrapping.allowed)
                 && c.params.size <= c.wrapping.maxParamBytes
                 && (failures == 0 || failures < cfg.threshold
                     || (last.Some? && c.start >= last.value + cfg.cooldown))
  {
    RunSays(cfg, map[], calls, c.wrapping.key, 0, None);
    hide RunStates;
    hide Marks;
    hide SinceSuccess;
    hide LastFailure;
  }

  /** Number of failed executions of `key` that end in [s, t]. */
  function FailuresIn(cfg: Settings, states: States, calls: seq<Call>, key: string, s: real, t: real): nat
    decreases |calls|
  {
    if calls == [] then 0
    else (if MarkOf(cfg, states, calls[0], key) == Failed && s <= calls[0].end <= t then 1 else 0)
         + FailuresIn(cfg, Step(cfg, states, calls[0]), calls[1..], key, s, t)
  }

  ghost predicate NoSuccessIn(cfg: Settings, states: States, calls: seq<Call>, key: string, s: real, t: real) {
    forall i | 0 <= i < |calls| && Marks(cfg, states, calls, key)[i] == Succeeded ::
      !(s <= calls[i].end <= t)
  }

  /** Calls do not overlap: each starts no earlier than the previous one ended. */
  predicate Sequential(calls: seq<Call>, now: real)
    decreases |calls|
  {
    calls != [] ==> now <= calls[0].start <= calls[0].end && Sequential(calls[1..], calls[0].end)
  }

  /** Whole cooldowns that fit in a stretch of time. */
  function Periods(cfg: Settings, x: real): int
    requires cfg.cooldown > 0.0
  {
    (x / cfg.cooldown).Floor
  }

  lemma PeriodsGrow(cfg: Settings, x: real, y: real)
    requires cfg.cooldown > 0.0 && x <= y
    ensures Periods(cfg, x) <= Periods(cfg, y)
  {
    assert x / cfg.cooldown <= y / cfg.cooldown;
  }

  lemma PeriodsNotNegative(cfg: Settings, x: real)
    requires cfg.cooldown > 0.0 && x >= 0.0
    ensures Periods(cfg, x) >= 0
  {
    assert x / cfg.cooldown >= 0.0;
  }

  lemma PeriodsShift(cfg: Settings, x: real)
    requires cfg.cooldown > 0.0
    ensures Periods(cfg, x - cfg.cooldown) == Periods(cfg, x) - 1
  {
    DivideLess(x, cfg.cooldown);
  }

  lemma DivideLess(x: real, c: real)
    requires c > 0.0
    ensures (x - c) / c == x / c - 1.0
  {
    var p, q := (x - c) / c, x / c;
    assert p * c == x - c && q * c == x;
    assert (p - q + 1.0) * c == p * c - q * c + c;
    ZeroFactor(p - q + 1.0, c);
  }

  lemma ZeroFactor(d: real, c: real)
    requires d * c == 0.0 && c > 0.0
    ensures d == 0.0
  {
  }

  /** Failures before the breaker opens; a threshold below one acts as one. */
  function Tolerance(cfg: Settings): nat {
    if cfg.threshold < 1 then 1 else cfg.threshold
  }

  /** A stored key has failed at least once. */
  predicate Sound(states: States) {
    forall k | k in states :: states[k].failures >= 1
  }

  function Later(x: real, y: real): real {
    if x < y then y else x
  }

  /** The most failures `key` can still collect up to `t` from the instant `now`. */
  function Budget(cfg: Settings, states: States, key: string, now: real, t: real): int
    requires cfg.cooldown > 0.0
  {
    var f := FailuresOf(states, key);
    if f < Tolerance(cfg) then
      if now <= t then Tolerance(cfg) - f + Periods(cfg, t - now) else 0
    else
      var next := Later(now, if key in states then states[key].openedUntil else now);
      if next <= t then 1 + Periods(cfg, t - next) else 0
  }

  lemma BudgetNotNegative(cfg: Settings, states: States, key: string, now: real, t: real)
    requires cfg.cooldown > 0.0
    ensures Budget(cfg, states, key, now, t) >= 0
  {
    var f := FailuresOf(states, key);
    if f < Tolerance(cfg) {
      if now <= t {
        PeriodsNotNegative(cfg, t - now);
      }
    } else {
      var next := Later(now, if key in states then states[key].openedUntil else now);
      if next <= t {
        PeriodsNotNegative(cfg, t - next);
      }
    }
  }

  /** Waiting never enlarges the budget. */
  lemma BudgetShrinks(cfg: Settings, states: States, key: string, now: real, later: real, t: real)
    requires cfg.cooldown > 0.0 && now <= later
    ensures Budget(cfg, states, key, later, t) <= Budget(cfg, states, key, now, t)
  {
    BudgetNotNegative(cfg, states, key, now, t);
    var f := FailuresOf(states, key);
    if f < Tolerance(cfg) {
      PeriodsGrow(cfg, t - later, t - now);
    } else {
      var until := if key in states then states[key].openedUntil else now;
      PeriodsGrow(cfg, t - Later(later, until), t - Later(now, until));
    }
  }

  /** Whatever the breaker remembers, the budget is at most tolerance plus whole cooldowns. */
  lemma BudgetCapped(cfg: Settings, states: States, key: string, now: real, t: real)
    requires cfg.cooldown > 0.0 && now <= t
    ensures Budget(cfg, states, key, now, t) <= Tolerance(cfg) + Periods(cfg, t - now)
  {
    PeriodsNotNegative(cfg, t - now);
    var f := FailuresOf(states, key);
    if f >= Tolerance(cfg) {
      var next := Later(now, if key in states then states[key].openedUntil else now);
      PeriodsGrow(cfg, t - next, t - now);
    }
  }

  /** A failed execution that ends by `t` spends one unit of the budget. */
  lemma BudgetStep(cfg: Settings, states: States, c: Call, key: string, now: real, t: real)
    requires cfg.cooldown > 0.0 && Sound(states) && now <= c.end && c.start <= c.end
    requires MarkOf(cfg, states, c, key) != Succeeded
    ensures Budget(cfg, Step(cfg, states, c), key, c.end, t)
            + (if MarkOf(cfg, states, c, key) == Failed && c.end <= t then 1 else 0)
         <= Budget(cfg, states, key, now, t)
  {
    BudgetShrinks(cfg, states, key, now, c.end, t);
    hide Periods;
    var next := Step(cfg, states, c);
    if MarkOf(cfg, states, c, key) == Failed && c.end <= t {
      PeriodsShift(cfg, t - c.end);
      PeriodsNotNegative(cfg, t - c.end);
      assert t - c.end - cfg.cooldown == t - (c.end + cfg.cooldown);
    }
  }

  lemma StepKeepsSound(cfg: Settings, states: States, c: Call)
    requires Sound(states)
    ensures Sound(Step(cfg, states, c))
  {
  }

  lemma {:induction false} FailuresFrom(cfg: Settings, states: States, calls: seq<Call>, key: string,
                                        now: real, s: real, t: real)
    requires cfg.cooldown > 0.0 && Sound(states) && Sequential(calls, now)
    requires calls != [] ==> s <= calls[0].end
    requires NoSuccessIn(cfg, states, calls, key, s, t)
    ensures FailuresIn(cfg, states, calls, key, s, t) <= Budget(cfg, states, key, Later(now, s), t)
    decreases |calls|
  {
    var from := Later(now, s);
    BudgetNotNegative(cfg, states, key, from, t);
    if calls != [] {
      var c, rest := calls[0], calls[1..];
      var next := Step(cfg, states, c);
      StepKeepsSound(cfg, states, c);
      TailHasNoSuccess(cfg, states, calls, key, s, t);
      if c.end <= t {
        FailuresFrom(cfg, next, rest, key, c.end, s, t);
        assert Marks(cfg, states, calls, key)[0] != Succeeded;
        BudgetStep(cfg, states, c, key, from, t);
      } else {
        NothingLate(cfg, next, rest, key, c.end, s, t);
      }
    }
  }

  lemma TailHasNoSuccess(cfg: Settings, states: States, calls: seq<Call>, key: string, s: real, t: real)
    requires calls != [] && NoSuccessIn(cfg, states, calls, key, s, t)
    ensures NoSuccessIn(cfg, Step(cfg, states, calls[0]), calls[1..], key, s, t)
  {
    var next := Step(cfg, states, calls[0]);
    forall i | 0 <= i < |calls[1..]| && Marks(cfg, next, calls[1..], key)[i] == Succeeded
      ensures !(s <= calls[1..][i].end <= t)
    {
      assert Marks(cfg, states, calls, key)[i + 1] == Succeeded;
    }
  }

  lemma {:induction false} NothingLate(cfg: Settings, states: States, calls: seq<Call>, key: string,
                                       now: real, s: real, t: real)
    requires Sequential(calls, now) && now > t
    ensures FailuresIn(cfg, states, calls, key, s, t) == 0
    decreases |calls|
  {
    if calls != [] {
      NothingLate(cfg, Step(cfg, states, calls[0]), calls[1..], key, calls[0].end, s, t);
    }
  }

  /** In every sequential run, a dependency with no success in [s, t] suffers at most threshold plus
      one failed execution per whole cooldown of the window, whatever happened before. */
  lemma {:induction false} FailureBound(cfg: Settings, states: States, calls: seq<Call>, key: string,
                                        now: real, s: real, t: real)
    requires cfg.cooldown > 0.0 && Sound(states) && Sequential(calls, now) && s <= t
    requires NoSuccessIn(cfg, states, calls, key, s, t)
    ensures FailuresIn(cfg, states, calls, key, s, t) <= Tolerance(cfg) + Periods(cfg, t - s)
    decreases |calls|
  {
    if calls != [] && calls[0].end < s {
      StepKeepsSound(cfg, states, calls[0]);
      TailHasNoSuccess(cfg, states, calls, key, s, t);
      FailureBound(cfg, Step(cfg, states, calls[0]), calls[1..], key, calls[0].end, s, t);
    } else {
      FailuresFrom(cfg, states, calls, key, now, s, t);
      BudgetNotNegative(cfg, states, key, Later(now, s), t);
      BudgetShrinks(cfg, states, key, s, Later(now, s), t);
      BudgetCapped(cfg, states, key, s, t);
    }
  }

  /** A refused or rejected call changes nothing, so it cannot prolong an outage: the first well-formed
      call at or after the recorded end goes through, however many were refused before it. */
  lemma {:induction false} RefusalsDoNotProlong(cfg: Settings, states: States, refused: seq<Call>, c: Call)
    requires forall i | 0 <= i < |refused| ::
               !Executes(refused[i].wrapping, cfg.threshold, states, refused[i].params, refused[i].start)
    requires c.wrapping.key in states && c.start >= states[c.wrapping.key].openedUntil
    requires CheckParams(c.wrapping, c.params) == ""
    ensures RunStates(cfg, states, refused) == states
    ensures Executes(c.wrapping, cfg.threshold, RunStates(cfg, states, refused), c.params, c.start)
    decreases |refused|
  {
    if refused != [] {
      RefusalsDoNotProlong(cfg, Step(cfg, states, refused[0]), refused[1..], c);
    }
  }

  /** The threshold is reached and kept: with that many failures since the last success every call
      before the end of the cooldown is refused. */
  lemma OpenRefuses(cfg: Settings, states: States, calls: seq<Call>, c: Call)
    requires SinceSuccess(FailuresOf(states, c.wrapping.key), Marks(cfg, states, calls, c.wrapping.key))
          >= Tolerance(cfg)
    requires Sound(states)
    requires c.wrapping.key in RunStates(cfg, states, calls)
    requires c.start < RunStates(cfg, states, calls)[c.wrapping.key].openedUntil
    ensures !Executes(c.wrapping, cfg.threshold, RunStates(cfg, states, calls), c.params, c.start)
  {
    CountIsSinceSuccess(cfg, states, calls, c.wrapping.key);
  }
}
