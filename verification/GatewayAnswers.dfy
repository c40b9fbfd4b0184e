/** What a caller is told: the answer to one call, read off the request, its surroundings and the runner's reply. */
module GatewayAnswers {
  import opened Options
  import opened Policy
  import opened Gateway
  import A = Audit
  import B = Breaker
  import GR = GatewayRuns
  import OutputCap
  import R = RateLimit
  import Text

  // ----- who may ask for what -------------------------------------------------------------

  const AGENTS := {"knowledge", "observability", "code", "commander", "rca", "mcp_client"}

  const GRANTED := {("knowledge", "retrieve_knowledge"), ("mcp_client", "retrieve_knowledge"),
                    ("observability", "fetch_signals"), ("code", "search_code"), ("code", "list_deploys")}

  const READS := {"retrieve_knowledge", "fetch_signals", "search_code", "list_deploys"}

  const DESTRUCTIVE := {"drop_database", "delete_rds", "kubectl_delete", "restart_service"}

  const RISKY := {"restart_payment", "gh_pr_create"}

  lemma IdentitiesAre(agent: string, tool: string)
    ensures ParseIdentity(agent).Some? <==> Text.Strip(agent) in AGENTS
    ensures ParseIdentity(agent).Some? ==> IdentityName(ParseIdentity(agent).value) == Text.Strip(agent)
    ensures MayInvoke(agent, tool) <==> (Text.Strip(agent), tool) in GRANTED
  {
    hide Text.Strip;
  }

  lemma ClassesAre(tool: string)
    ensures Classify(tool) == Some(Read) <==> Text.Strip(tool) in READS
    ensures Classify(tool) == Some(Destructive) <==> Text.Strip(tool) in DESTRUCTIVE
    ensures Classify(tool) == Some(HighRiskWrite) <==> Text.Strip(tool) in RISKY
    ensures Classify(tool) == None <==> Text.Strip(tool) !in READS + DESTRUCTIVE + RISKY
    ensures Classify(tool) != Some(LowRiskWrite)
  {
    hide Text.Strip;
  }

  // ----- what is answered -----------------------------------------------------------------

  /** The question put to the policy. */
  function Asked(config: Config, bound: Option<string>, req: Request): Question {
    var service := if "service" in req.parameters then config.textOf(req.parameters["service"]) else "";
    Question(req.tool, if Text.Strip(req.tool) in READS then Some(Read) else None,
             if bound.Some? then bound.value else req.agent, service)
  }

  /** The first closed gate speaks. */
  function Refusal(config: Config, bound: Option<string>, req: Request, env: Env): string {
    var agent, name := if bound.Some? then bound.value else req.agent, Text.Strip(req.tool);
    var verdict := Evaluate(env.rules, Asked(config, bound, req));
    if env.denyAll then "denied:kill_switch"
    else if Text.Strip(agent) !in AGENTS then "denied:unknown_agent"
    else if name in DESTRUCTIVE then "denied:destructive"
    else if name in RISKY then "denied:high_risk_write"
    else if name in READS && (Text.Strip(agent), req.tool) !in GRANTED then "denied:agent_scope"
    else if !verdict.allowed then verdict.reason
    else if name !in READS && verdict.actionClass != Some(Read) then "denied:unknown_tool"
    else if req.tool !in config.tools then "denied:not_registered"
    else LimiterReason(env)
  }

  function LimiterReason(env: Env): string {
    if env.storeFails then "denied:rate_unavailable" else "denied:rate_limited"
  }

  /** What a reply of the runner is turned into. */
  predicate AnswersReply(config: Config, reply: RunnerReply, d: GatewayDecision) {
    match reply
    case Answered(value, _) =>
      d.verdict == A.Allow && d.reason == "allowed:read" && d.result == Some(config.redactValue(value))
    case ValidationFailed(reason) =>
      d.verdict == A.Deny && d.result == None
      && d.reason == if |reason| >= 7 && reason[..7] == "denied:" then reason else "denied:invalid_params"
    case Crashed => d.verdict == A.Deny && d.result == None && d.reason == "denied:tool_error"
  }

  lemma AskedIsQuestion(config: Config, bound: Option<string>, req: Request)
    ensures Text.Strip(req.tool) !in DESTRUCTIVE && Text.Strip(req.tool) !in RISKY ==>
              QuestionOf(config, bound, req) == Asked(config, bound, req)
  {
    ClassesAre(req.tool);
    assert |"service"| == 7 && |"agent_id"| == 8 && |"action_class"| == 12;
    hide Classify;
    hide Text.Strip;
  }

  lemma GateRefuses(config: Config, bound: Option<string>, req: Request, env: Env)
    ensures var gate := BeforeLimiter(config, bound, req, env);
            gate.Refused? ==>
              && gate.decision.reason == Refusal(config, bound, req, env)
              && !gate.decision.allowed && gate.decision.result == None
              && (gate.decision.requiresApproval <==> gate.decision.verdict == A.Pending)
              && gate.decision.verdict
                 == (if !env.denyAll && Text.Strip(Caller(bound, req)) in AGENTS && Text.Strip(req.tool) in RISKY
                     then A.Pending else A.Deny)
    ensures var gate := BeforeLimiter(config, bound, req, env);
            gate.Open? ==>
              && Refusal(config, bound, req, env) == LimiterReason(env)
              && gate.actionClass == Some(Read) && Text.Strip(req.tool) !in RISKY
  {
    IdentitiesAre(Caller(bound, req), req.tool);
    ClassesAre(req.tool);
    AskedIsQuestion(config, bound, req);
    hide ParseIdentity;
    hide MayInvoke;
    hide Classify;
    hide Evaluate;
    hide QuestionOf;
    hide Asked;
    hide Text.Strip;
  }

  /** The answer to every call, exactly. A runner that was called decides it by its reply: its value redacted, or
      the reason of its refusal. Without a call the first closed gate gives its own reason, with approval asked
      for exactly when the kill switch is off, the caller known and the tool a high-risk write. */
  lemma AnsweredExactly(config: Config, hash: A.RowHash, bound: Option<string>, shared: Shared, req: Request, env: Env,
                        reply: RunnerReply)
    ensures var step := Invoked(config, hash, bound, shared, req, env, reply);
            var agent := if bound.Some? then bound.value else req.agent;
            step.outcome.Done? ==>
              var d := step.outcome.decision;
              && (d.allowed <==> step.called && reply.Answered?)
              && (step.called ==> AnswersReply(config, reply, d) && d.actionClass == Some(Read) && !d.requiresApproval)
              && (!step.called ==>
                    && d.reason == Refusal(config, bound, req, env) && d.result == None
                    && (d.verdict == A.Pending || d.verdict == A.Deny)
                    && (d.requiresApproval <==> d.verdict == A.Pending)
                    && (d.verdict == A.Pending
                        <==> !env.denyAll && Text.Strip(agent) in AGENTS && Text.Strip(req.tool) in RISKY))
              && d.agent == agent && d.tool == req.tool && d.incident == req.incident
              && d.policyVersion == env.policyVersion && d.denyAll == env.denyAll
  {
    GateRefuses(config, bound, req, env);
    GR.DecisionNames(config, bound, shared, req, env, reply);
    LimiterSpeaks(config, shared, bound, req, env);
    hide BeforeLimiter;
    hide R.Allow;
    hide BreakersAfter;
    hide A.CreateEntry;
    hide A.Recorded;
    hide Text.Strip;
    hide Refusal;
    hide DraftOf;
  }

  lemma LimiterSpeaks(config: Config, shared: Shared, bound: Option<string>, req: Request, env: Env)
    ensures var (paced, _) := R.Allow(config.limits, shared.buckets, Caller(bound, req), req.tool, req.incident,
                                      env.now, env.storeFails);
            !paced.allowed ==> paced.reason == LimiterReason(env)
  {
    hide R.Acquire;
  }

  /** Any other runner replies what its callable does. */
  lemma PlainReply(config: Config, breakers: B.States, req: Request, env: Env, reply: RunnerReply)
    ensures IsRunnerReply(config, Plain, breakers, req, env, reply) <==> reply == env.plain
  {
  }

  /** The reply of a hardened runner, in the words of its callers: refused for a wrong parameter name, too large
      parameters or an open breaker; else what its callable did, cut to size. */
  lemma HardenedReply(config: Config, w: B.Wrapping, breakers: B.States, req: Request, env: Env, reply: RunnerReply)
    requires IsRunnerReply(config, Hardened(w), breakers, req, env, reply)
    ensures var parameters := req.parameters - {"agent_id", "action_class"};
            var closed := w.key in breakers && breakers[w.key].failures >= config.threshold
                          && env.start < breakers[w.key].openedUntil;
            if !w.anyName && !(parameters.Keys <= w.allowed) then reply == ValidationFailed("denied:invalid_params")
            else if config.sizeOf(parameters) > w.maxParamBytes then
              reply == ValidationFailed("denied:payload_too_large")
            else if closed || env.ending.Raised? then reply == ValidationFailed("denied:dependency_unavailable")
            else if env.ending.Invalid? then reply == ValidationFailed(env.ending.reason)
            else
              var value := config.redactValue(env.ending.value);
              if OutputCap.Size(value) <= w.maxOutputBytes then reply == Answered(value, false)
              else reply == ValidationFailed("denied:output_too_large") || (reply.Answered? && reply.truncated)
  {
    var r := if reply.Answered? then B.Answer(reply.value, reply.truncated) else B.Deny(reply.reason);
    B.ReplyReads(w, config.threshold, breakers, ParamsOf(config, req), env.start, env.ending, config.redactValue, r);
    hide B.IsReply;
    hide OutputCap.Size;
  }
}
