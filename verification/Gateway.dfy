/** The tool gateway: every call passes the same gates in the same order and leaves one audit row. */
module Gateway {
  import opened Options
  import opened Json
  import opened Policy
  import A = Audit
  import B = Breaker
  import R = RateLimit
  import OutputCap
  import Text

  // ----- who and what ---------------------------------------------------------------------

  datatype Identity = Knowledge | Observability | Code | Commander | Rca | McpClient

  function IdentityName(id: Identity): string {
    match id
    case Knowledge => "knowledge"
    case Observability => "observability"
    case Code => "code"
    case Commander => "commander"
    case Rca => "rca"
    case McpClient => "mcp_client"
  }

  function ParseIdentity(value: string): Option<Identity> {
    var v := Text.Strip(value);
    if v == "knowledge" then Some(Knowledge)
    else if v == "observability" then Some(Observability)
    else if v == "code" then Some(Code)
    else if v == "commander" then Some(Commander)
    else if v == "rca" then Some(Rca)
    else if v == "mcp_client" then Some(McpClient)
    else None
  }

  function Grants(id: Identity): set<string> {
    match id
    case Knowledge => {"retrieve_knowledge"}
    case Observability => {"fetch_signals"}
    case Code => {"search_code", "list_deploys"}
    case Commander => {}
    case Rca => {}
    case McpClient => {"retrieve_knowledge"}
  }

  predicate MayInvoke(agent: string, tool: string) {
    var id := ParseIdentity(agent);
    id.Some? && tool in Grants(id.value)
  }

  function Classify(tool: string): Option<ActionClass> {
    var name := Text.Strip(tool);
    if name in {"retrieve_knowledge", "fetch_signals", "search_code", "list_deploys"} then Some(Read)
    else if name in {"drop_database", "delete_rds", "kubectl_delete", "restart_service"} then Some(Destructive)
    else if name in {"restart_payment", "gh_pr_create"} then Some(HighRiskWrite)
    else None
  }

  type Params = map<string, Json>

  /** A request as its constructor leaves it; the claimed class is carried and never used. */
  datatype Request =
    Request(agent: string, tool: string, incident: string, parameters: Params, claimedClass: Option<string>)

  function MakeRequest(agent: string, tool: string, incident: string, parameters: Params,
                       claimed: Option<string>): Option<Request> {
    var a, t, i := Text.Strip(agent), Text.Strip(tool), Text.Strip(incident);
    if a == [] || t == [] || i == [] then None
    else
      var c := if claimed.Some? then Text.Strip(claimed.value) else "";
      Some(Request(a, t, i, parameters, if c != [] then Some(c) else None))
  }

  /** The parameters without identity claims. */
  function ToolParameters(req: Request): Params {
    req.parameters - {"agent_id", "action_class"}
  }

  // ----- configuration and surroundings ---------------------------------------------------

  /** A registered runner: hardened, or any other callable. */
  datatype Runner = Hardened(w: B.Wrapping) | Plain

  /** How a runner ends for the gateway. */
  datatype RunnerReply =
    | Answered(value: OutputCap.Value, truncated: bool)
    | ValidationFailed(reason: string)
    | Crashed

  /** What stays fixed: the registry and limits, and the surrounding functions the gateway calls
      (parameter text and size, redaction, and the shape a result has in an audit row). */
  datatype Config = Config(tools: map<string, Runner>, limits: R.Limits, threshold: int, cooldown: real,
                           textOf: Json -> string, sizeOf: Params -> nat,
                           redactValue: OutputCap.Value -> OutputCap.Value,
                           redact: Params -> Params, resultRow: OutputCap.Value -> Params)

  /** What differs from call to call: the kill switch, the rules in force and their version, the clock,
      whether the token store raises, how the callable would end, and the ids drawn for the row. */
  datatype Env = Env(denyAll: bool, rules: seq<Rule>, policyVersion: string, now: real, storeFails: bool,
                     start: real, end: real, ending: B.Ending, plain: RunnerReply, entryId: string, createdAt: string)

  datatype GatewayDecision =
    GatewayDecision(allowed: bool, reason: string, requiresApproval: bool, verdict: A.GatewayVerdict,
                    actionClass: Option<ActionClass>, result: Option<OutputCap.Value>,
                    tool: string, agent: string, incident: string,
                    policyVersion: string, denyAll: bool, auditId: Option<string>)

  /** The state every gateway bound from one root shares. */
  datatype Shared = Shared(buckets: R.Buckets, breakers: B.States, rows: seq<A.Entry>)

  function Caller(bound: Option<string>, req: Request): string {
    if bound.Some? then bound.value else req.agent
  }

  function Denied(bound: Option<string>, req: Request, reason: string, cls: Option<ActionClass>,
                  approval: bool): GatewayDecision {
    GatewayDecision(false, reason, approval, if approval then A.Pending else A.Deny, cls, None,
                    req.tool, Caller(bound, req), req.incident, "", false, None)
  }

  function Allowed(bound: Option<string>, req: Request, cls: Option<ActionClass>,
                   value: OutputCap.Value): GatewayDecision {
    GatewayDecision(true, "allowed:read", false, A.Allow, cls, Some(value),
                    req.tool, Caller(bound, req), req.incident, "", false, None)
  }

  /** The question the policy is asked. */
  function QuestionOf(config: Config, bound: Option<string>, req: Request): Question {
    var params := ToolParameters(req);
    Question(req.tool, Classify(req.tool), Caller(bound, req),
             if "service" in params then config.textOf(params["service"]) else "")
  }

  datatype Gate = Refused(decision: GatewayDecision) | Open(runner: Runner, actionClass: Option<ActionClass>)

  /** Every check before the rate limiter, in order. */
  function BeforeLimiter(config: Config, bound: Option<string>, req: Request, env: Env): Gate {
    var cls := Classify(req.tool);
    if env.denyAll then Refused(Denied(bound, req, "denied:kill_switch", cls, false))
    else if ParseIdentity(Caller(bound, req)).None? then Refused(Denied(bound, req, "denied:unknown_agent", cls, false))
    else if cls == Some(Destructive) then Refused(Denied(bound, req, "denied:destructive", cls, false))
    else if cls == Some(HighRiskWrite) then Refused(Denied(bound, req, "denied:high_risk_write", cls, true))
    else if cls == Some(LowRiskWrite) then Refused(Denied(bound, req, "denied:low_risk_write", cls, false))
    else if cls.Some? && !MayInvoke(Caller(bound, req), req.tool) then
      Refused(Denied(bound, req, "denied:agent_scope", cls, false))
    else
      var verdict := Evaluate(env.rules, QuestionOf(config, bound, req));
      var resolved := if cls.Some? then cls else verdict.actionClass;
      if !verdict.allowed then Refused(Denied(bound, req, verdict.reason, resolved, false))
      else if resolved != Some(Read) then Refused(Denied(bound, req, "denied:unknown_tool", resolved, false))
      else if req.tool !in config.tools then Refused(Denied(bound, req, "denied:not_registered", resolved, false))
      else Open(config.tools[req.tool], resolved)
  }

  predicate StartsWithDenied(s: string) {
    |s| >= 7 && s[..7] == "denied:"
  }

  function ParamsOf(config: Config, req: Request): B.Params {
    B.Params(ToolParameters(req).Keys, config.sizeOf(ToolParameters(req)))
  }

  /** The breakers after the runner was called. */
  function BreakersAfter(config: Config, runner: Runner, breakers: B.States, req: Request, env: Env): B.States {
    match runner
    case Plain => breakers
    case Hardened(w) =>
      B.AfterRun(w, config.threshold, config.cooldown, breakers, ParamsOf(config, req), env.start, env.end, env.ending)
  }

  /** What the runner may answer. */
  ghost predicate IsRunnerReply(config: Config, runner: Runner, breakers: B.States, req: Request, env: Env,
                                reply: RunnerReply) {
    match runner
    case Plain => reply == env.plain
    case Hardened(w) =>
      !reply.Crashed? &&
      B.IsReply(w, config.threshold, breakers, ParamsOf(config, req), env.start, env.ending, config.redactValue,
                if reply.Answered? then B.Answer(reply.value, reply.truncated) else B.Deny(reply.reason))
  }

  function AfterRunner(config: Config, bound: Option<string>, req: Request, cls: Option<ActionClass>,
                       reply: RunnerReply): GatewayDecision {
    match reply
    case Answered(value, _) => Allowed(bound, req, cls, config.redactValue(value))
    case ValidationFailed(reason) =>
      Denied(bound, req, if StartsWithDenied(reason) then reason else "denied:invalid_params", cls, false)
    case Crashed => Denied(bound, req, "denied:tool_error", cls, false)
  }

  /** What one call does before it is audited: the decision, the shared state, and whether the runner
      was called. `reply` counts only if it was. */
  function Decide(config: Config, bound: Option<string>, shared: Shared, req: Request, env: Env, reply: RunnerReply)
    : (GatewayDecision, Shared, bool)
  {
    match BeforeLimiter(config, bound, req, env)
    case Refused(decision) => (decision, shared, false)
    case Open(runner, cls) =>
      var (paced, buckets) := R.Allow(config.limits, shared.buckets, Caller(bound, req), req.tool, req.incident,
                                      env.now, env.storeFails);
      if !paced.allowed then (Denied(bound, req, paced.reason, cls, false), shared.(buckets := buckets), false)
      else
        (AfterRunner(config, bound, req, cls, reply),
         shared.(buckets := buckets, breakers := BreakersAfter(config, runner, shared.breakers, req, env)),
         true)
  }

  function Governed(d: GatewayDecision, env: Env): GatewayDecision {
    d.(policyVersion := env.policyVersion, denyAll := env.denyAll)
  }

  /** What the audit log is asked to record. */
  function DraftOf(config: Config, req: Request, d: GatewayDecision, env: Env): A.Draft {
    A.Draft(env.entryId, if d.agent != [] then d.agent else req.agent, if d.tool != [] then d.tool else req.tool,
            config.redact(ToolParameters(req)),
            Some(if d.allowed && d.result.Some? then config.resultRow(d.result.value)
                 else config.redact(map["error" := Str(d.reason)])),
            d.verdict, d.reason, if d.incident != [] then d.incident else req.incident, d.actionClass,
            env.createdAt, d.policyVersion, d.denyAll)
  }

  /** Recording fails, as an exception of the whole call, when the row breaks a length limit. */
  datatype Outcome = Done(decision: GatewayDecision) | AuditFailed

  datatype Step = Step(after: Shared, outcome: Outcome, called: bool, draft: A.Draft)

  /** One invoke. */
  function Invoked(config: Config, hash: A.RowHash, bound: Option<string>, shared: Shared, req: Request, env: Env,
                   reply: RunnerReply): Step {
    var (d, after, called) := Decide(config, bound, shared, req, env, reply);
    var decision := Governed(d, env);
    var draft := DraftOf(config, req, decision, env);
    var made := A.CreateEntry(hash, draft, A.Head(after.rows));
    Step(after.(rows := A.Recorded(hash, after.rows, draft)),
         if made.None? then AuditFailed else Done(decision.(auditId := Some(made.value.body.id))),
         called, draft)
  }

  class InvokeTool {
    const config: Config
    const bound: Option<string>
    const limiter: R.RateLimiter
    const breaker: B.CircuitBreaker
    const audit: A.AppendAudit

    predicate Valid() {
      limiter.limits == config.limits && breaker.threshold == config.threshold && breaker.cooldown == config.cooldown
    }

    function Current(): Shared
      reads limiter.store, breaker, audit.log
    {
      Shared(limiter.store.buckets, breaker.states, audit.log.entries)
    }

    constructor (config: Config, bound: Option<string>, limiter: R.RateLimiter,
                 breaker: B.CircuitBreaker, audit: A.AppendAudit)
      ensures this.config == config && this.bound == bound
      ensures this.limiter == limiter && this.breaker == breaker && this.audit == audit
    {
      this.config, this.bound, this.limiter, this.breaker, this.audit := config, bound, limiter, breaker, audit;
    }

    /** A gateway with a fixed identity and the same stores; an unknown identity is refused. */
    method Bind(agent: string) returns (g: Option<InvokeTool>)
      ensures g.Some? <==> ParseIdentity(agent).Some?
      ensures g.Some? ==> var b := g.value;
                b.bound == Some(IdentityName(ParseIdentity(agent).value)) && b.config == config
                && b.limiter == limiter && b.breaker == breaker && b.audit == audit
    {
      var id := ParseIdentity(agent);
      if id.None? {
        return None;
      }
      var b := new InvokeTool(config, Some(IdentityName(id.value)), limiter, breaker, audit);
      g := Some(b);
    }

    /** Calls the runner and reports how it ended. */
    method CallRunner(runner: Runner, req: Request, env: Env) returns (reply: RunnerReply)
      requires Valid()
      modifies breaker
      ensures breaker.states == BreakersAfter(config, runner, old(breaker.states), req, env)
      ensures IsRunnerReply(config, runner, old(breaker.states), req, env, reply)
    {
      match runner
      case Plain => reply := env.plain;
      case Hardened(w) =>
        var executed, r :=
          B.RunHardened(w, breaker, ParamsOf(config, req), env.start, env.end, env.ending, config.redactValue);
        match r {
          case Answer(v, cut) => reply := Answered(v, cut);
          case Deny(reason) => reply := ValidationFailed(reason);
        }
    }

    method Invoke(req: Request, env: Env) returns (outcome: Outcome, ghost reply: RunnerReply)
      requires Valid()
      modifies limiter.store, breaker, audit.log
      ensures var step := Invoked(config, audit.hash, bound, old(Current()), req, env, reply);
              && outcome == step.outcome && Current() == step.after
              && (step.called ==>
                    var gate := BeforeLimiter(config, bound, req, env);
                    gate.Open? && IsRunnerReply(config, gate.runner, old(breaker.states), req, env, reply))
    {
      hide BeforeLimiter;
      hide BreakersAfter;
      hide IsRunnerReply;
      hide DraftOf;
      hide AfterRunner;
      hide Denied;
      hide A.CreateEntry;
      hide A.Recorded;
      hide R.Allow;
      var gate := BeforeLimiter(config, bound, req, env);
      var decision: GatewayDecision;
      reply := Crashed;
      match gate {
        case Refused(d) => decision := d;
        case Open(runner, cls) =>
          var paced := limiter.Check(Caller(bound, req), req.tool, req.incident, env.now, env.storeFails);
          if !paced.allowed {
            decision := Denied(bound, req, paced.reason, cls, false);
          } else {
            var r := CallRunner(runner, req, env);
            reply := r;
            decision := AfterRunner(config, bound, req, cls, r);
          }
      }
      decision := Governed(decision, env);
      var entry := audit.Record(DraftOf(config, req, decision, env));
      if entry.None? {
        return AuditFailed, reply;
      }
      outcome := Done(decision.(auditId := Some(entry.value.body.id)));
    }
  }
}
