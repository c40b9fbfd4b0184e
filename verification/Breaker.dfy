/** The circuit breaker and the hardened runner every tool callable is wrapped in. */
module Breaker {
  import opened OutputCap

  /** Failures since the last success, and the end of the latest outage. */
  datatype BreakerState = BreakerState(failures: nat, openedUntil: real)

  type States = map<string, BreakerState>

  function FailuresOf(states: States, key: string): nat {
    if key in states then states[key].failures else 0
  }

  /** A call may go ahead: below the threshold, or the outage is over. */
  predicate Allows(threshold: int, states: States, key: string, now: real) {
    key in states && states[key].failures >= threshold ==> now >= states[key].openedUntil
  }

  function AfterFailure(threshold: int, cooldown: real, states: States, key: string, now: real): States {
    var state := if key in states then states[key] else BreakerState(0, 0.0);
    var failures := state.failures + 1;
    states[key := BreakerState(failures, if failures >= threshold then now + cooldown else state.openedUntil)]
  }

  class CircuitBreaker {
    const threshold: int
    const cooldown: real
    var states: States

    constructor (threshold: int, cooldown: real)
      ensures this.threshold == threshold && this.cooldown == cooldown && states == map[]
    {
      this.threshold := threshold;
      this.cooldown := cooldown;
      states := map[];
    }

    method Allow(key: string, now: real) returns (ok: bool)
      ensures ok == Allows(threshold, states, key, now)
    {
      if key !in states || states[key].failures < threshold {
        return true;
      }
      return now >= states[key].openedUntil;
    }

    method RecordSuccess(key: string)
      modifies this
      ensures states == old(states) - {key}
    {
      states := states - {key};
    }

    method RecordFailure(key: string, now: real)
      modifies this
      ensures states == AfterFailure(threshold, cooldown, old(states), key, now)
    {
      if key !in states {
        states := states[key := BreakerState(0, 0.0)];
      }
      var state := states[key].(failures := states[key].failures + 1);
      if state.failures >= threshold {
        state := state.(openedUntil := now + cooldown);
      }
      states := states[key := state];
    }
  }

  // ----- the hardened runner --------------------------------------------------------------

  const DENY_TIMEOUT := "denied:timeout"
  const DENY_INVALID_PARAMS := "denied:invalid_params"
  const DENY_PAYLOAD_TOO_LARGE := "denied:payload_too_large"
  const DENY_DEPENDENCY := "denied:dependency_unavailable"

  /** What a tool is called with: the parameter names and the serialised size. */
  datatype Params = Params(names: set<string>, size: nat)

  /** How the wrapped callable ends, a timeout being the validation error `denied:timeout`. */
  datatype Ending =
    | Returned(value: Value)
    | Invalid(reason: string)
    | Raised

  datatype Reply =
    | Answer(value: Value, truncated: bool)
    | Deny(reason: string)

  datatype Wrapping = Wrapping(key: string, allowed: set<string>, anyName: bool,
                               maxParamBytes: int, maxOutputBytes: int)

  predicate CountsAsFailure(e: Ending) {
    e.Raised? || e == Invalid(DENY_TIMEOUT)
  }

  /** The parameter check comes first and never reaches the breaker. */
  function CheckParams(w: Wrapping, p: Params): (reason: string) {
    if !w.anyName && !(p.names <= w.allowed) then DENY_INVALID_PARAMS
    else if p.size > w.maxParamBytes then DENY_PAYLOAD_TOO_LARGE
    else ""
  }

  /** Whether the callable is reached at all. */
  predicate Executes(w: Wrapping, threshold: int, states: States, p: Params, start: real) {
    CheckParams(w, p) == "" && Allows(threshold, states, w.key, start)
  }

  /** The breaker after one wrapped call that starts at `start` and ends at `end`. */
  function AfterRun(w: Wrapping, threshold: int, cooldown: real, states: States, p: Params,
                    start: real, end: real, e: Ending): States
  {
    if !Executes(w, threshold, states, p, start) then states
    else if e.Returned? then states - {w.key}
    else if CountsAsFailure(e) then AfterFailure(threshold, cooldown, states, w.key, end)
    else states
  }

  ghost predicate IsReply(w: Wrapping, threshold: int, states: States, p: Params, start: real,
                          e: Ending, redact: Value -> Value, r: Reply)
  {
    if CheckParams(w, p) != "" then r == Deny(CheckParams(w, p))
    else if !Allows(threshold, states, w.key, start) then r == Deny(DENY_DEPENDENCY)
    else match e
      case Invalid(reason) => r == Deny(reason)
      case Raised => r == Deny(DENY_DEPENDENCY)
      case Returned(raw) =>
        match r
        case Deny(reason) => IsCapped(redact(raw), w.maxOutputBytes, Denied(reason))
        case Answer(v, cut) => IsCapped(redact(raw), w.maxOutputBytes, if cut then Shortened(v) else Whole(v))
  }

  /** What a hardened call answers, in the words of its callers: a wrong parameter name, too large a parameter,
      an open breaker, a timeout, a refusal of the callable, its failure, an answer that cannot be cut to size,
      or the redacted answer, cut or not. */
  lemma ReplyReads(w: Wrapping, threshold: int, states: States, p: Params, start: real, e: Ending,
                   redact: Value -> Value, r: Reply)
    requires IsReply(w, threshold, states, p, start, e, redact, r)
    ensures var named := w.anyName || p.names <= w.allowed;
            var closed := w.key in states && states[w.key].failures >= threshold && start < states[w.key].openedUntil;
            if !named then r == Deny("denied:invalid_params")
            else if p.size > w.maxParamBytes then r == Deny("denied:payload_too_large")
            else if closed || e.Raised? then r == Deny("denied:dependency_unavailable")
            else if e.Invalid? then r == Deny(e.reason)
            else if Size(redact(e.value)) <= w.maxOutputBytes then r == Answer(redact(e.value), false)
            else r == Deny("denied:output_too_large") || (r.Answer? && r.truncated)
  {
    hide Size;
    hide TruncateText;
    hide OutputCap.Fits;
  }

  /** One hardened call. `redact` is the redaction applied before the cap; `ending` is what the
      callable would do, observed only when it is reached. */
  method RunHardened(w: Wrapping, breaker: CircuitBreaker, p: Params, start: real, end: real,
                     ending: Ending, redact: Value -> Value)
    returns (executed: bool, reply: Reply)
    modifies breaker
    ensures executed == Executes(w, breaker.threshold, old(breaker.states), p, start)
    ensures breaker.states
         == AfterRun(w, breaker.threshold, breaker.cooldown, old(breaker.states), p, start, end, ending)
    ensures IsReply(w, breaker.threshold, old(breaker.states), p, start, ending, redact, reply)
  {
    var problem := CheckParams(w, p);
    if problem != "" {
      return false, Deny(problem);
    }
    var healthy := breaker.Allow(w.key, start);
    if !healthy {
      return false, Deny(DENY_DEPENDENCY);
    }
    match ending
    case Invalid(reason) =>
      if reason == DENY_TIMEOUT {
        breaker.RecordFailure(w.key, end);
      }
      return true, Deny(reason);
    case Raised =>
      breaker.RecordFailure(w.key, end);
      return true, Deny(DENY_DEPENDENCY);
    case Returned(raw) =>
      breaker.RecordSuccess(w.key);
      var capped := CapOutput(redact(raw), w.maxOutputBytes);
      match capped {
        case Whole(v) => return true, Answer(v, false);
        case Shortened(v) => return true, Answer(v, true);
        case Denied(reason) => return true, Deny(reason);
      }
  }
}
