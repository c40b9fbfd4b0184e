/** The failure bound of the circuit breaker, end to end: over whole runs of gateway calls. */
module GatewayBreaker {
  import opened Options
  import opened Gateway
  import opened GatewayRuns
  import A = Audit
  import B = Breaker
  import BR = BreakerRuns
  import R = RateLimit

  function SettingsOf(config: Config): BR.Settings {
    BR.Settings(config.threshold, config.cooldown)
  }

  /** The breaker-guarded call an event makes, if it gets as far as a hardened runner. */
  function GuardedCall(config: Config, hash: A.RowHash, shared: Shared, e: Event): Option<BR.Call> {
    if StepOf(config, hash, shared, e).called && e.req.tool in config.tools && config.tools[e.req.tool].Hardened? then
      Some(BR.Call(config.tools[e.req.tool].w, ParamsOf(config, e.req), e.env.start, e.env.end, e.env.ending))
    else None
  }

  function GuardedCalls(config: Config, hash: A.RowHash, shared: Shared, events: seq<Event>): seq<BR.Call>
    decreases |events|
  {
    if events == [] then []
    else
      var rest := GuardedCalls(config, hash, StepOf(config, hash, shared, events[0]).after, events[1..]);
      match GuardedCall(config, hash, shared, events[0])
      case None => rest
      case Some(c) => [c] + rest
  }

  /** What an event leaves in the record of one dependency. */
  function MarkOf(config: Config, hash: A.RowHash, shared: Shared, e: Event, key: string): BR.Mark {
    match GuardedCall(config, hash, shared, e)
    case None => BR.Neutral
    case Some(c) => BR.MarkOf(SettingsOf(config), shared.breakers, c, key)
  }

  /** How often a run left a mark in that record within [s, t]. */
  function Marked(config: Config, hash: A.RowHash, shared: Shared, events: seq<Event>, key: string, mark: BR.Mark,
                  s: real, t: real): nat
    decreases |events|
  {
    if events == [] then 0
    else
      (if MarkOf(config, hash, shared, events[0], key) == mark && s <= events[0].env.end <= t then 1 else 0)
      + Marked(config, hash, StepOf(config, hash, shared, events[0]).after, events[1..], key, mark, s, t)
  }

  /** Runners do not overlap. */
  predicate OneAtATime(events: seq<Event>, now: real)
    decreases |events|
  {
    events != [] ==>
      now <= events[0].env.start <= events[0].env.end && OneAtATime(events[1..], events[0].env.end)
  }

  /** Nothing but a guarded call touches the breakers, and it does what the breaker alone would do. */
  lemma BreakersFollow(config: Config, hash: A.RowHash, shared: Shared, e: Event)
    ensures StepOf(config, hash, shared, e).after.breakers
         == match GuardedCall(config, hash, shared, e)
            case None => shared.breakers
            case Some(c) => BR.Step(SettingsOf(config), shared.breakers, c)
  {
    OpenMeansMayRun(config, e.bound, e.req, e.env);
    RefusalsTouchNothing(config, hash, e.bound, shared, e.req, e.env, e.reply);
    hide BeforeLimiter;
    hide R.Allow;
    hide A.Recorded;
    hide A.CreateEntry;
    hide B.AfterRun;
  }

  lemma SequentialSooner(calls: seq<BR.Call>, now: real, later: real)
    requires BR.Sequential(calls, later) && now <= later
    ensures BR.Sequential(calls, now)
  {
  }

  lemma {:induction false} GuardedInSequence(config: Config, hash: A.RowHash, shared: Shared, events: seq<Event>,
                                             now: real)
    requires OneAtATime(events, now)
    ensures BR.Sequential(GuardedCalls(config, hash, shared, events), now)
    decreases |events|
  {
    hide StepOf;
    if events != [] {
      var e, next := events[0], StepOf(config, hash, shared, events[0]).after;
      GuardedInSequence(config, hash, next, events[1..], e.env.end);
      var rest := GuardedCalls(config, hash, next, events[1..]);
      SequentialSooner(rest, now, e.env.end);
      if GuardedCall(config, hash, shared, e).Some? {
        assert ([GuardedCall(config, hash, shared, e).value] + rest)[1..] == rest;
      }
    }
  }

  /** The failures of a gateway run are those of its guarded calls. */
  lemma {:induction false} FailuresAgree(config: Config, hash: A.RowHash, shared: Shared, events: seq<Event>,
                                         key: string, s: real, t: real)
    ensures Marked(config, hash, shared, events, key, BR.Failed, s, t)
         == BR.FailuresIn(SettingsOf(config), shared.breakers, GuardedCalls(config, hash, shared, events), key, s, t)
    decreases |events|
  {
    hide StepOf;
    hide BR.MarkOf;
    if events != [] {
      var e, next := events[0], StepOf(config, hash, shared, events[0]).after;
      BreakersFollow(config, hash, shared, e);
      hide BR.Step;
      FailuresAgree(config, hash, next, events[1..], key, s, t);
      var rest := GuardedCalls(config, hash, next, events[1..]);
      if GuardedCall(config, hash, shared, e).Some? {
        assert ([GuardedCall(config, hash, shared, e).value] + rest)[1..] == rest;
      }
    }
  }

  lemma {:induction false} SuccessesAgree(config: Config, hash: A.RowHash, shared: Shared, events: seq<Event>,
                                          key: string, s: real, t: real)
    requires Marked(config, hash, shared, events, key, BR.Succeeded, s, t) == 0
    ensures BR.NoSuccessIn(SettingsOf(config), shared.breakers, GuardedCalls(config, hash, shared, events), key, s, t)
    decreases |events|
  {
    hide StepOf;
    hide BR.MarkOf;
    if events != [] {
      var e, next := events[0], StepOf(config, hash, shared, events[0]).after;
      BreakersFollow(config, hash, shared, e);
      hide BR.Step;
      SuccessesAgree(config, hash, next, events[1..], key, s, t);
      var rest := GuardedCalls(config, hash, next, events[1..]);
      if GuardedCall(config, hash, shared, e).Some? {
        var c := GuardedCall(config, hash, shared, e).value;
        NoSuccessBefore(SettingsOf(config), shared.breakers, c, rest, key, s, t);
      }
    }
  }

  lemma NoSuccessBefore(cfg: BR.Settings, states: B.States, c: BR.Call, rest: seq<BR.Call>, key: string, s: real,
                        t: real)
    requires BR.NoSuccessIn(cfg, BR.Step(cfg, states, c), rest, key, s, t)
    requires !(BR.MarkOf(cfg, states, c, key) == BR.Succeeded && s <= c.end <= t)
    ensures BR.NoSuccessIn(cfg, states, [c] + rest, key, s, t)
  {
    hide BR.MarkOf;
    hide BR.Step;
    var calls := [c] + rest;
    assert calls[1..] == rest;
    forall i | 0 <= i < |calls| && BR.Marks(cfg, states, calls, key)[i] == BR.Succeeded
      ensures !(s <= calls[i].end <= t)
    {
      if i > 0 {
        assert BR.Marks(cfg, BR.Step(cfg, states, c), rest, key)[i - 1] == BR.Succeeded;
      }
    }
  }

  /** The failure bound survives everything around the breaker: over every run of gateway calls whose runners
      do not overlap, whatever is asked, bound, ruled or answered, a dependency with no success in [s, t]
      fails at most threshold plus once per whole cooldown of the window. */
  lemma RunnersAreFailureBound(config: Config, hash: A.RowHash, shared: Shared, events: seq<Event>, key: string,
                               now: real, s: real, t: real)
    requires config.cooldown > 0.0 && BR.Sound(shared.breakers) && OneAtATime(events, now) && s <= t
    requires Marked(config, hash, shared, events, key, BR.Succeeded, s, t) == 0
    ensures Marked(config, hash, shared, events, key, BR.Failed, s, t)
         <= BR.Tolerance(SettingsOf(config)) + BR.Periods(SettingsOf(config), t - s)
  {
    hide BR.FailuresIn;
    hide BR.Sequential;
    hide Marked;
    hide GuardedCalls;
    hide BR.Periods;
    hide OneAtATime;
    GuardedInSequence(config, hash, shared, events, now);
    FailuresAgree(config, hash, shared, events, key, s, t);
    SuccessesAgree(config, hash, shared, events, key, s, t);
    BR.FailureBound(SettingsOf(config), shared.breakers, GuardedCalls(config, hash, shared, events), key, now, s, t);
  }
}
