/** What the gateway guarantees for one call and over any sequence of calls. */
module GatewayRuns {
  import opened Collections
  import opened Options
  import opened Policy
  import opened Gateway
  import opened Json
  import A = Audit
  import C = AuditChain
  import B = Breaker
  import R = RateLimit
  import L = RateLimitRuns
  import Text

  // ----- one call -------------------------------------------------------------------------

  /** The conditions on the request and its surroundings for a runner to be called. */
  predicate MayRun(config: Config, bound: Option<string>, req: Request, env: Env) {
    var agent := Caller(bound, req);
    var cls := Classify(req.tool);
    && !env.denyAll
    && ParseIdentity(agent).Some?
    && (cls.None? || (cls == Some(Read) && req.tool in Grants(ParseIdentity(agent).value)))
    && Evaluate(env.rules, QuestionOf(config, bound, req)).allowed
    && (cls.None? ==> Evaluate(env.rules, QuestionOf(config, bound, req)).actionClass == Some(Read))
    && req.tool in config.tools
  }

  /** The two tokens a call draws: one for agent, tool and incident, one for the agent. */
  predicate TokensLeft(config: Config, bound: Option<string>, buckets: R.Buckets, req: Request, env: Env) {
    R.Grants(buckets, R.KeysOf(config.limits, Caller(bound, req), req.tool, req.incident), env.now)
  }

  lemma OpenMeansMayRun(config: Config, bound: Option<string>, req: Request, env: Env)
    ensures BeforeLimiter(config, bound, req, env).Open? <==> MayRun(config, bound, req, env)
    ensures BeforeLimiter(config, bound, req, env).Open? ==>
              BeforeLimiter(config, bound, req, env) == Open(config.tools[req.tool], Some(Read))
  {
    hide Evaluate;
    hide Grants;
    hide ParseIdentity;
    hide Classify;
    hide Denied;
    hide QuestionOf;
    hide Caller;
  }

  /** A runner is called exactly when every gate is open and, with the token store up, both tokens are
      there; the call then takes them. */
  lemma CalledMeans(config: Config, hash: A.RowHash, bound: Option<string>, shared: Shared, req: Request, env: Env,
                    reply: RunnerReply)
    ensures var step := Invoked(config, hash, bound, shared, req, env, reply);
            && (step.called <==>
                  && MayRun(config, bound, req, env)
                  && (if env.storeFails then !config.limits.failClosed
                      else TokensLeft(config, bound, shared.buckets, req, env)))
            && (!env.storeFails && step.called ==>
                  var keys := R.KeysOf(config.limits, Caller(bound, req), req.tool, req.incident);
                  step.after.buckets == R.Acquire(shared.buckets, keys, env.now).1)
  {
    OpenMeansMayRun(config, bound, req, env);
    hide MayRun;
    hide BeforeLimiter;
    hide R.KeysOf;
    hide R.Grants;
    hide A.Recorded;
    hide A.CreateEntry;
  }

  /** Behind a called runner stands a rule of the read class that allows, that matches the caller and the
      tool, and that no more specific matching rule denies. */
  lemma CalledIsPermitted(config: Config, hash: A.RowHash, bound: Option<string>, shared: Shared, req: Request,
                          env: Env, reply: RunnerReply)
    requires forall r | r in env.rules :: ValidRule(r)
    ensures Invoked(config, hash, bound, shared, req, env, reply).called ==>
              exists rule :: PermittedBy(env.rules, QuestionOf(config, bound, req), rule)
  {
    hide ValidRule;
    CalledMeans(config, hash, bound, shared, req, env, reply);
    if Invoked(config, hash, bound, shared, req, env, reply).called {
      hide Invoked;
      var q := QuestionOf(config, bound, req);
      AllowedMeans(env.rules, q);
      var rule := WinnerIsTop(env.rules, q);
      hide Evaluate;
      hide TopRanked;
      WinnerMatches(env.rules, q, rule);
      assert PermittedBy(env.rules, q, rule);
    }
  }

  ghost predicate PermittedBy(rules: seq<Rule>, q: Question, rule: Rule) {
    && TopRanked(rules, q, rule) && rule.allowed && rule.actionClass == Read && rule.tool in {q.tool, WILDCARD}
    && forall r | TopRanked(rules, q, r) :: r.allowed
  }

  lemma WinnerMatches(rules: seq<Rule>, q: Question, rule: Rule)
    requires TopRanked(rules, q, rule)
    ensures Matches(rule, q) && rule.tool in {q.tool, WILDCARD}
    ensures q.actionClass.Some? ==> rule.actionClass == q.actionClass.value
  {
  }

  /** Every gate but the policy. */
  predicate OpenButForRules(config: Config, bound: Option<string>, req: Request, env: Env) {
    var id := ParseIdentity(Caller(bound, req));
    && !env.denyAll && id.Some? && req.tool in config.tools
    && (Classify(req.tool).None? || (Classify(req.tool) == Some(Read) && req.tool in Grants(id.value)))
  }

  /** A rule that lets a runner be called for a tool nobody classified. */
  predicate LetsRun(r: Rule) {
    r.allowed && r.actionClass == Read
  }

  lemma UnclassifiedMayRun(config: Config, bound: Option<string>, req: Request, env: Env, winner: Rule)
    requires OpenButForRules(config, bound, req, env) && Classify(req.tool).None?
    requires Evaluate(env.rules, QuestionOf(config, bound, req)) == VerdictOf(winner)
    ensures MayRun(config, bound, req, env) <==> LetsRun(winner)
  {
    hide Evaluate;
    hide Classify;
    hide ParseIdentity;
    hide Grants;
    hide QuestionOf;
  }

  /** When row order decides whether a runner is called, exactly: the order of the rules never matters if
      another gate is closed or the tool is classified; for an unclassified tool it does not matter if and
      only if all deciding rules let it run or none does. */
  lemma CallOrderExactly(config: Config, bound: Option<string>, req: Request, env: Env)
    requires forall r | r in env.rules :: ValidRule(r)
    ensures var q := QuestionOf(config, bound, req);
            (forall shuffled | Shuffle(env.rules, shuffled) ::
               MayRun(config, bound, req, env.(rules := shuffled)) == MayRun(config, bound, req, env))
            <==> || !OpenButForRules(config, bound, req, env) || Classify(req.tool).Some?
                 || forall a, b | Deciding(env.rules, q, a) && Deciding(env.rules, q, b) :: LetsRun(a) == LetsRun(b)
  {
    hide ValidRule;
    hide Grants;
    hide ParseIdentity;
    hide Deciding;
    hide Evaluate;
    hide Matches;
    var q := QuestionOf(config, bound, req);
    if !OpenButForRules(config, bound, req, env) {
      hide Classify;
    } else if Classify(req.tool).Some? {
      forall shuffled | Shuffle(env.rules, shuffled)
        ensures MayRun(config, bound, req, env.(rules := shuffled)) == MayRun(config, bound, req, env)
      {
        OrderDoesNotDecide(env.rules, shuffled, q);
      }
    } else if exists r :: r in env.rules && Matches(r, q) {
      UnclassifiedOrder(config, bound, req, env);
    } else {
      NoMatchNoRun(config, bound, req, env);
    }
  }

  lemma NoMatchNoRun(config: Config, bound: Option<string>, req: Request, env: Env)
    requires !exists r :: r in env.rules && Matches(r, QuestionOf(config, bound, req))
    ensures forall shuffled | Shuffle(env.rules, shuffled) :: !MayRun(config, bound, req, env.(rules := shuffled))
    ensures !MayRun(config, bound, req, env)
    ensures forall r :: !Deciding(env.rules, QuestionOf(config, bound, req), r)
  {
    hide Matches;
    hide Classify;
    var q := QuestionOf(config, bound, req);
    forall shuffled | Shuffle(env.rules, shuffled) ensures !MayRun(config, bound, req, env.(rules := shuffled)) {
      SameMembers(env.rules, shuffled);
      ScoredOrNone(shuffled, q);
    }
    ScoredOrNone(env.rules, q);
  }

  lemma UnclassifiedOrder(config: Config, bound: Option<string>, req: Request, env: Env)
    requires OpenButForRules(config, bound, req, env) && Classify(req.tool).None?
    requires exists r :: r in env.rules && Matches(r, QuestionOf(config, bound, req))
    ensures var q := QuestionOf(config, bound, req);
            (forall shuffled | Shuffle(env.rules, shuffled) ::
               MayRun(config, bound, req, env.(rules := shuffled)) == MayRun(config, bound, req, env))
            <==> forall a, b | Deciding(env.rules, q, a) && Deciding(env.rules, q, b) :: LetsRun(a) == LetsRun(b)
  {
    hide Deciding;
    hide Evaluate;
    hide Matches;
    hide Classify;
    hide MayRun;
    hide VerdictOf;
    hide LetsRun;
    hide OpenButForRules;
    var q := QuestionOf(config, bound, req);
    assert q.actionClass != Some(Destructive);
    hide QuestionOf;
    if forall a, b | Deciding(env.rules, q, a) && Deciding(env.rules, q, b) :: LetsRun(a) == LetsRun(b) {
      var w := DecidedByDeciding(env.rules, env.rules, q);
      UnclassifiedMayRun(config, bound, req, env, w);
      forall shuffled | Shuffle(env.rules, shuffled)
        ensures MayRun(config, bound, req, env.(rules := shuffled)) == MayRun(config, bound, req, env)
      {
        var v := DecidedByDeciding(env.rules, shuffled, q);
        StillOpen(config, bound, req, env, shuffled);
        UnclassifiedMayRun(config, bound, req, env.(rules := shuffled), v);
      }
    }
    if forall shuffled | Shuffle(env.rules, shuffled) ::
         MayRun(config, bound, req, env.(rules := shuffled)) == MayRun(config, bound, req, env)
    {
      forall a, b | Deciding(env.rules, q, a) && Deciding(env.rules, q, b) ensures LetsRun(a) == LetsRun(b) {
        var x := DecidingCanDecide(env.rules, q, a);
        var y := DecidingCanDecide(env.rules, q, b);
        StillOpen(config, bound, req, env, x);
        StillOpen(config, bound, req, env, y);
        UnclassifiedMayRun(config, bound, req, env.(rules := x), a);
        UnclassifiedMayRun(config, bound, req, env.(rules := y), b);
      }
    }
  }

  lemma StillOpen(config: Config, bound: Option<string>, req: Request, env: Env, rules: seq<Rule>)
    requires OpenButForRules(config, bound, req, env)
    ensures OpenButForRules(config, bound, req, env.(rules := rules))
  {
  }

  /** So two equally specific rows, one allowing reads and one allowing low-risk writes, call the runner of an
      unclassified tool in one order and refuse it in the other. */
  lemma TwoRowsDecideCall(config: Config, bound: Option<string>, req: Request, env: Env, a: Rule, b: Rule)
    requires OpenButForRules(config, bound, req, env) && Classify(req.tool).None?
    requires Matches(a, QuestionOf(config, bound, req)) && a.tool == b.tool && a.scope == b.scope
    requires a.allowed && b.allowed && a.actionClass == Read && b.actionClass == LowRiskWrite
    ensures MayRun(config, bound, req, env.(rules := [a, b]))
    ensures !MayRun(config, bound, req, env.(rules := [b, a]))
  {
    hide Classify;
    hide ParseIdentity;
    hide Grants;
    UnclassifiedOrderMatters(a, b, QuestionOf(config, bound, req));
    hide Evaluate;
    UnclassifiedMayRun(config, bound, req, env.(rules := [a, b]), a);
    UnclassifiedMayRun(config, bound, req, env.(rules := [b, a]), b);
  }

  /** A call refused before the limiter leaves buckets and breakers as they were, and a call refused by
      the limiter leaves them as well. */
  lemma RefusalsTouchNothing(config: Config, hash: A.RowHash, bound: Option<string>, shared: Shared, req: Request,
                             env: Env, reply: RunnerReply)
    ensures var step := Invoked(config, hash, bound, shared, req, env, reply);
            !step.called ==> step.after.buckets == shared.buckets && step.after.breakers == shared.breakers
  {
    hide BeforeLimiter;
    hide R.KeysOf;
    hide A.Recorded;
    hide A.CreateEntry;
    hide R.Grants;
  }

  /** Two requests that differ only in what they claim about identity and class. */
  predicate SameBarClaims(x: Request, y: Request) {
    x.tool == y.tool && x.incident == y.incident && ToolParameters(x) == ToolParameters(y)
  }

  lemma SameDenials(bound: string, x: Request, y: Request, reason: string, cls: Option<ActionClass>, approval: bool)
    requires SameBarClaims(x, y)
    ensures Denied(Some(bound), x, reason, cls, approval) == Denied(Some(bound), y, reason, cls, approval)
  {
  }

  lemma SameGate(config: Config, bound: string, x: Request, y: Request, env: Env)
    requires SameBarClaims(x, y)
    ensures BeforeLimiter(config, Some(bound), x, env) == BeforeLimiter(config, Some(bound), y, env)
  {
    hide Evaluate;
    hide ToolParameters;
    hide Classify;
    hide ParseIdentity;
    assert QuestionOf(config, Some(bound), x) == QuestionOf(config, Some(bound), y);
    hide QuestionOf;
    forall reason, cls, approval
      ensures Denied(Some(bound), x, reason, cls, approval) == Denied(Some(bound), y, reason, cls, approval)
    {
      SameDenials(bound, x, y, reason, cls, approval);
    }
    hide Denied;
  }

  lemma SameDecision(config: Config, bound: string, shared: Shared, x: Request, y: Request, env: Env,
                     reply: RunnerReply)
    requires SameBarClaims(x, y)
    ensures Decide(config, Some(bound), shared, x, env, reply) == Decide(config, Some(bound), shared, y, env, reply)
  {
    SameGate(config, bound, x, y, env);
    hide BeforeLimiter;
    hide ToolParameters;
    hide R.Allow;
    forall reason, cls, approval
      ensures Denied(Some(bound), x, reason, cls, approval) == Denied(Some(bound), y, reason, cls, approval)
    {
      SameDenials(bound, x, y, reason, cls, approval);
    }
    hide Denied;
  }

  /** What a caller writes into the request about identity or class changes nothing: with a bound
      identity, requests that differ only in the agent they name, the class they claim and the two
      claim parameters get the same step, audit row included. */
  lemma ClaimsAreIgnored(config: Config, hash: A.RowHash, bound: string, shared: Shared, x: Request, y: Request,
                         env: Env, reply: RunnerReply)
    requires bound != [] && SameBarClaims(x, y)
    ensures Invoked(config, hash, Some(bound), shared, x, env, reply)
         == Invoked(config, hash, Some(bound), shared, y, env, reply)
  {
    SameDecision(config, bound, shared, x, y, env, reply);
    DecisionNames(config, Some(bound), shared, x, env, reply);
    hide Decide;
    hide ToolParameters;
    hide A.CreateEntry;
    hide A.Recorded;
    var d := Governed(Decide(config, Some(bound), shared, x, env, reply).0, env);
    assert DraftOf(config, x, d, env) == DraftOf(config, y, d, env);
    hide DraftOf;
  }

  // ----- runs -----------------------------------------------------------------------------

  /** One call in a run: through which bound gateway, what was asked, and what the surroundings did. */
  datatype Event = Event(bound: Option<string>, req: Request, env: Env, reply: RunnerReply)

  function StepOf(config: Config, hash: A.RowHash, shared: Shared, e: Event): Step {
    Invoked(config, hash, e.bound, shared, e.req, e.env, e.reply)
  }

  function Steps(config: Config, hash: A.RowHash, shared: Shared, events: seq<Event>): (steps: seq<Step>)
    ensures |steps| == |events|
    decreases |events|
  {
    if events == [] then []
    else
      var step := StepOf(config, hash, shared, events[0]);
      [step] + Steps(config, hash, step.after, events[1..])
  }

  function Final(config: Config, hash: A.RowHash, shared: Shared, events: seq<Event>): Shared
    decreases |events|
  {
    if events == [] then shared else Final(config, hash, StepOf(config, hash, shared, events[0]).after, events[1..])
  }

  /** The row a finished call must leave: what was decided about whom, the redacted parameters, and the result or
      the reason of the refusal. */
  predicate RowMatches(config: Config, e: Event, row: A.Entry, step: Step) {
    && step.outcome.Done?
    && var d := step.outcome.decision;
       && d.auditId == Some(row.body.id)
       && row.body.decision == d.verdict
       && row.body.reason == Text.Strip(d.reason)
       && row.body.actionClass == d.actionClass
       && row.body.denyAll == d.denyAll && row.body.policyVersion == Text.Strip(d.policyVersion)
       && d.denyAll == e.env.denyAll && d.policyVersion == e.env.policyVersion
       && d.agent == Caller(e.bound, e.req) && d.tool == e.req.tool && d.incident == e.req.incident
       && row.body.actor == Text.Strip(if d.agent != [] then d.agent else e.req.agent)
       && row.body.action == Text.Strip(d.tool) && row.body.incidentId == Text.Strip(d.incident)
       && row.body.input == config.redact(ToolParameters(e.req))
       && (d.allowed <==> d.result.Some?) && (d.allowed <==> d.verdict == A.Allow) && (d.allowed ==> step.called)
       && row.body.output == Some(if d.allowed then config.resultRow(d.result.value)
                                  else config.redact(map["error" := Str(d.reason)]))
  }

  /** One invoke records one row that matches its decision and extends the chain, exactly when the fields
      are within the limits of a row; otherwise it raises and records nothing. */
  lemma OneRow(config: Config, hash: A.RowHash, shared: Shared, e: Event)
    requires C.HexDigest(hash) && C.IsChain(hash, shared.rows)
    ensures var step := StepOf(config, hash, shared, e);
            && C.IsChain(hash, step.after.rows)
            && (if A.WithinLimits(step.draft)
                then |step.after.rows| == |shared.rows| + 1 && step.after.rows[..|shared.rows|] == shared.rows
                     && RowMatches(config, e, step.after.rows[|shared.rows|], step)
                else step.after.rows == shared.rows && step.outcome == AuditFailed)
  {
    var (d, after, called) := Decide(config, e.bound, shared, e.req, e.env, e.reply);
    DecideKeepsRows(config, e.bound, shared, e.req, e.env, e.reply);
    var draft := DraftOf(config, e.req, Governed(d, e.env), e.env);
    C.RecordingExtends(hash, shared.rows, draft);
    hide Decide;
    hide C.IsChain;
    hide C.HexDigest;
    hide A.ComputeRowHash;
    hide Text.Strip;
    hide RowMatches;
    if A.WithinLimits(draft) {
      MadeRowMatches(config, hash, shared, e);
    }
  }

  /** What a decision promises about its result. */
  lemma DecisionResult(config: Config, bound: Option<string>, shared: Shared, req: Request, env: Env,
                       reply: RunnerReply)
    ensures var (d, _, called) := Decide(config, bound, shared, req, env, reply);
            (d.allowed <==> d.result.Some?) && (d.allowed <==> d.verdict == A.Allow) && (d.allowed ==> called)
  {
    RefusalsAreDenials(config, bound, req, env);
    hide BeforeLimiter;
    hide R.Allow;
    hide BreakersAfter;
  }

  lemma RefusalsAreDenials(config: Config, bound: Option<string>, req: Request, env: Env)
    ensures var gate := BeforeLimiter(config, bound, req, env);
            gate.Refused? ==> !gate.decision.allowed && gate.decision.result == None && gate.decision.verdict != A.Allow
  {
    hide Evaluate;
    hide Classify;
    hide ParseIdentity;
    hide MayInvoke;
    hide QuestionOf;
    hide Caller;
  }

  /** The row made from a call's draft matches the call. */
  lemma MadeRowMatches(config: Config, hash: A.RowHash, shared: Shared, e: Event)
    requires A.WithinLimits(StepOf(config, hash, shared, e).draft)
    ensures var step := StepOf(config, hash, shared, e);
            |step.after.rows| == |shared.rows| + 1 && RowMatches(config, e, step.after.rows[|shared.rows|], step)
  {
    DecideKeepsRows(config, e.bound, shared, e.req, e.env, e.reply);
    DecisionNames(config, e.bound, shared, e.req, e.env, e.reply);
    DecisionResult(config, e.bound, shared, e.req, e.env, e.reply);
    hide Decide;
    hide A.ComputeRowHash;
    hide A.Head;
    hide Text.Strip;
    hide Caller;
    hide ToolParameters;
    hide A.WithinLimits;
  }

  lemma DecideKeepsRows(config: Config, bound: Option<string>, shared: Shared, req: Request, env: Env,
                        reply: RunnerReply)
    ensures Decide(config, bound, shared, req, env, reply).1.rows == shared.rows
  {
    hide BeforeLimiter;
    hide R.Allow;
  }

  /** For a request from its constructor and a gateway bound, if at all, to a known identity, only lengths
      decide whether the row is recorded. */
  lemma RecordedWhenShort(config: Config, hash: A.RowHash, shared: Shared, e: Event, id: Identity,
                          agent: string, tool: string, incident: string, parameters: Params, claimed: Option<string>)
    requires MakeRequest(agent, tool, incident, parameters, claimed) == Some(e.req)
    requires e.bound.None? || e.bound == Some(IdentityName(id))
    ensures var step := StepOf(config, hash, shared, e);
            A.WithinLimits(step.draft)
            <==> && |Text.Strip(Caller(e.bound, e.req))| <= 128 && |e.req.tool| <= 128 && |e.req.incident| <= 64
                 && |Text.Strip(step.draft.reason)| <= 255 && |Text.Strip(e.env.policyVersion)| <= 64
  {
    var req := e.req;
    Text.StripTwice(agent);
    Text.StripTwice(tool);
    Text.StripTwice(incident);
    if e.bound.Some? {
      NamesAreClean(id);
    }
    DecisionNames(config, e.bound, shared, req, e.env, e.reply);
    hide Decide;
    hide Text.Strip;
    hide IdentityName;
    hide A.CreateEntry;
    hide A.Recorded;
  }

  lemma NamesAreClean(id: Identity)
    ensures Text.Strip(IdentityName(id)) == IdentityName(id) != []
  {
    Text.NothingToStrip(IdentityName(id));
  }

  lemma DecisionNames(config: Config, bound: Option<string>, shared: Shared, req: Request, env: Env, reply: RunnerReply)
    ensures Names(Decide(config, bound, shared, req, env, reply).0, bound, req)
  {
    GateNames(config, bound, req, env);
    hide BeforeLimiter;
    hide R.Allow;
    hide BreakersAfter;
  }

  predicate Names(d: GatewayDecision, bound: Option<string>, req: Request) {
    d.agent == Caller(bound, req) && d.tool == req.tool && d.incident == req.incident
  }

  lemma GateNames(config: Config, bound: Option<string>, req: Request, env: Env)
    ensures var gate := BeforeLimiter(config, bound, req, env); gate.Refused? ==> Names(gate.decision, bound, req)
  {
    hide Evaluate;
    hide Classify;
    hide ParseIdentity;
    hide MayInvoke;
    hide QuestionOf;
  }

  predicate AllRecorded(steps: seq<Step>) {
    forall i | 0 <= i < |steps| :: A.WithinLimits(steps[i].draft)
  }

  /** Each row matches its call. */
  predicate AllMatch(config: Config, events: seq<Event>, rows: seq<A.Entry>, steps: seq<Step>) {
    && |events| == |rows| == |steps|
    && forall i | 0 <= i < |events| :: RowMatches(config, events[i], rows[i], steps[i])
  }

  /** Over every run whose fields stay within the limits, the log gains one row a call, in call order,
      each matching its decision, and stays one chain from genesis. */
  lemma {:induction false} RunIsAudited(config: Config, hash: A.RowHash, shared: Shared, events: seq<Event>)
    requires C.HexDigest(hash) && C.IsChain(hash, shared.rows)
    ensures var rows := Final(config, hash, shared, events).rows;
            AllRecorded(Steps(config, hash, shared, events)) ==>
              && C.IsChain(hash, rows)
              && |rows| == |shared.rows| + |events| && rows[..|shared.rows|] == shared.rows
              && AllMatch(config, events, rows[|shared.rows|..], Steps(config, hash, shared, events))
    decreases |events|
  {
    hide StepOf;
    hide RowMatches;
    hide AllMatch;
    hide C.IsChain;
    hide C.HexDigest;
    if events == [] {
      assert shared.rows[..|shared.rows|] == shared.rows;
      NothingToMatch(config, shared.rows);
    } else if AllRecorded(Steps(config, hash, shared, events)) {
      var steps := Steps(config, hash, shared, events);
      var step := StepOf(config, hash, shared, events[0]);
      OneRow(config, hash, shared, events[0]);
      assert steps[0] == step && steps[1..] == Steps(config, hash, step.after, events[1..]);
      assert steps == [step] + steps[1..];
      RunIsAudited(config, hash, step.after, events[1..]);
      RowsLineUp(config, events, shared.rows, step, steps[1..], Final(config, hash, shared, events).rows);
    }
  }

  lemma NothingToMatch(config: Config, rows: seq<A.Entry>)
    ensures AllMatch(config, [], rows[|rows|..], [])
  {
  }

  lemma RowsLineUp(config: Config, events: seq<Event>, before: seq<A.Entry>, step: Step, rest: seq<Step>,
                   rows: seq<A.Entry>)
    requires events != [] && |step.after.rows| == |before| + 1 && step.after.rows[..|before|] == before
    requires RowMatches(config, events[0], step.after.rows[|before|], step)
    requires |rows| > |before| && rows[..|before| + 1] == step.after.rows
    requires AllMatch(config, events[1..], rows[|before| + 1..], rest)
    ensures rows[..|before|] == before
    ensures AllMatch(config, events, rows[|before|..], [step] + rest)
  {
    hide RowMatches;
    var n := |before|;
    assert rows[..n] == rows[..n + 1][..n];
    assert rows[n] == rows[..n + 1][n];
    var tail, steps := rows[n..], [step] + rest;
    assert tail[1..] == rows[n + 1..];
    forall i | 0 <= i < |events| ensures RowMatches(config, events[i], tail[i], steps[i]) {
      if i > 0 {
        assert RowMatches(config, events[1..][i - 1], rows[n + 1..][i - 1], rest[i - 1]);
      }
    }
  }

  // ----- the rate bound, end to end -------------------------------------------------------

  /** Runner calls of a run that drew on a bucket within a stretch of time. */
  function RunnerCalls(config: Config, hash: A.RowHash, shared: Shared, events: seq<Event>, key: string, s: real,
                       t: real): nat
    decreases |events|
  {
    if events == [] then 0
    else
      var e := events[0];
      var step := StepOf(config, hash, shared, e);
      (if step.called && s <= e.env.now <= t
          && key in [R.IncidentKey(Caller(e.bound, e.req), e.req.tool, e.req.incident),
                     R.AgentKey(Caller(e.bound, e.req))]
       then 1 else 0)
      + RunnerCalls(config, hash, step.after, events[1..], key, s, t)
  }

  function AskedOf(e: Event): L.Request {
    L.Request(Caller(e.bound, e.req), e.req.tool, e.req.incident, e.env.now)
  }

  /** The calls of a run that get as far as the limiter. */
  function Asked(config: Config, events: seq<Event>): seq<L.Request> {
    if events == [] then []
    else
      (if MayRun(config, events[0].bound, events[0].req, events[0].env) then [AskedOf(events[0])] else [])
      + Asked(config, events[1..])
  }

  predicate InTimeOrder(events: seq<Event>) {
    forall i, j | 0 <= i < j < |events| :: events[i].env.now <= events[j].env.now
  }

  predicate StoreUp(events: seq<Event>) {
    forall i | 0 <= i < |events| :: !events[i].env.storeFails
  }

  lemma StepAtLimiter(config: Config, hash: A.RowHash, shared: Shared, e: Event)
    requires !e.env.storeFails
    ensures var step := StepOf(config, hash, shared, e);
            var (d, after) := R.Allow(config.limits, shared.buckets, Caller(e.bound, e.req), e.req.tool,
                                          e.req.incident, e.env.now, false);
            if MayRun(config, e.bound, e.req, e.env)
            then step.called == d.allowed && step.after.buckets == after
            else !step.called && step.after.buckets == shared.buckets
  {
    OpenMeansMayRun(config, e.bound, e.req, e.env);
    hide MayRun;
    hide BeforeLimiter;
    hide R.Allow;
    hide A.Recorded;
    hide A.CreateEntry;
  }

  lemma {:induction false} CallsAreLetThrough(config: Config, hash: A.RowHash, shared: Shared, events: seq<Event>,
                                              key: string, s: real, t: real)
    requires StoreUp(events)
    ensures RunnerCalls(config, hash, shared, events, key, s, t)
         == L.LetThrough(config.limits, shared.buckets, Asked(config, events), key, s, t)
    decreases |events|
  {
    hide MayRun;
    hide StepOf;
    hide R.Allow;
    if events != [] {
      var e := events[0];
      StepAtLimiter(config, hash, shared, e);
      var step := StepOf(config, hash, shared, e);
      CallsAreLetThrough(config, hash, step.after, events[1..], key, s, t);
      if MayRun(config, e.bound, e.req, e.env) {
        assert Asked(config, events)[0] == AskedOf(e) && Asked(config, events)[1..] == Asked(config, events[1..]);
      } else {
        assert Asked(config, events) == Asked(config, events[1..]);
      }
    }
  }

  lemma {:induction false} AskedInOrder(config: Config, events: seq<Event>)
    requires InTimeOrder(events)
    ensures L.NonDecreasing(L.CallsOf(Asked(config, events)))
    ensures forall q | q in Asked(config, events) :: exists i :: 0 <= i < |events| && q.now == events[i].env.now
  {
    hide MayRun;
    if events != [] {
      var rest := Asked(config, events[1..]);
      AskedInOrder(config, events[1..]);
      forall q | q in rest
        ensures q.now >= events[0].env.now && exists i :: 0 <= i < |events| && q.now == events[i].env.now
      {
        var i :| 0 <= i < |events[1..]| && q.now == events[1..][i].env.now;
        assert events[1..][i] == events[i + 1];
      }
      if MayRun(config, events[0].bound, events[0].req, events[0].env) {
        var asked := Asked(config, events);
        assert asked == [AskedOf(events[0])] + rest;
        FirstIsEarliest(AskedOf(events[0]), rest);
      } else {
        assert Asked(config, events) == rest;
      }
    }
  }

  lemma FirstIsEarliest(q: L.Request, rest: seq<L.Request>)
    requires L.NonDecreasing(L.CallsOf(rest)) && forall r | r in rest :: r.now >= q.now
    ensures L.NonDecreasing(L.CallsOf([q] + rest))
  {
    var calls, later := L.CallsOf([q] + rest), L.CallsOf(rest);
    forall i, j | 0 <= i < j < |calls| ensures calls[i].now <= calls[j].now {
      assert calls[j].now == rest[j - 1].now == later[j - 1].now;
      if i == 0 {
        assert rest[j - 1] in rest;
      } else {
        assert calls[i].now == rest[i - 1].now == later[i - 1].now;
      }
    }
  }

  lemma NamesHoldNoColon(agent: string)
    requires ParseIdentity(agent).Some?
    ensures R.ColonFree(agent)
  {
    var name := IdentityName(ParseIdentity(agent).value);
    assert Text.Strip(agent) == name;
    NameIsColonFree(ParseIdentity(agent).value);
    if ':' in agent {
      Text.StripKeeps(agent, ':');
    }
  }

  lemma NameIsColonFree(id: Identity)
    ensures R.ColonFree(IdentityName(id))
  {
  }

  /** No tool's name and a colon begin another's name and a colon. */
  predicate ToolsApart(tools: set<string>) {
    forall t1, t2 | t1 in tools && t2 in tools && t1 + ":" <= t2 + ":" :: t1 == t2
  }

  lemma ColonFreeToolsAreApart(tools: set<string>)
    requires forall t | t in tools :: R.ColonFree(t)
    ensures ToolsApart(tools)
  {
    forall t1, t2 | t1 in tools && t2 in tools && t1 + ":" <= t2 + ":" ensures t1 == t2 {
      var rest := (t2 + ":")[|t1| + 1..];
      assert t2 + ":" + "" == t1 + ":" + rest;
      R.FirstColon(t1, rest, t2, "");
    }
  }

  /** Calls that reach the limiter draw from one incident bucket exactly when they agree on caller, tool and
      incident, as long as the registered tools are apart; and tools that are not apart do meet, for every
      agent. */
  lemma GatewayBucketsApart(config: Config, x: Event, y: Event)
    requires MayRun(config, x.bound, x.req, x.env) && MayRun(config, y.bound, y.req, y.env)
    ensures var a, b := AskedOf(x), AskedOf(y);
            ToolsApart(config.tools.Keys) ==>
              (R.IncidentKey(a.agent, a.tool, a.incident) == R.IncidentKey(b.agent, b.tool, b.incident)
               <==> a.agent == b.agent && a.tool == b.tool && a.incident == b.incident)
    ensures var a, b := AskedOf(x), AskedOf(y);
            (exists i1, i2 :: R.IncidentKey(a.agent, a.tool, i1) == R.IncidentKey(b.agent, b.tool, i2))
            <==> a.agent == b.agent && (a.tool + ":" <= b.tool + ":" || b.tool + ":" <= a.tool + ":")
  {
    hide Evaluate;
    hide Grants;
    hide ParseIdentity;
    var a, b := AskedOf(x), AskedOf(y);
    NamesHoldNoColon(a.agent);
    NamesHoldNoColon(b.agent);
    assert a.tool in config.tools.Keys && b.tool in config.tools.Keys;
    hide MayRun;
    R.SharedBuckets(a.agent, a.tool, b.agent, b.tool);
    R.SharedByToolOnly(a.agent, a.tool, b.agent, b.tool);
    R.SharedByToolOnly(b.agent, b.tool, a.agent, a.tool);
    R.OneToolNeverShares(a.agent, a.tool, a.incident, b.incident, a.agent);
    hide R.IncidentKey;
    hide R.KeyHead;
  }

  /** The rate bound survives everything around the limiter: over every run with a steady clock and the
      token store up, whatever is asked, bound, ruled or answered, the runners called for one agent, tool
      and incident within any stretch of time, and for one agent, stay under their lines. */
  lemma RunnersAreRateBound(config: Config, hash: A.RowHash, breakers: B.States, rows: seq<A.Entry>,
                            events: seq<Event>,
                            agent: string, tool: string, incident: string, s: real, t: real)
    requires config.limits.perToolIncident >= 1 && config.limits.perAgent >= 1 && config.limits.window > 0.0 && s <= t
    requires InTimeOrder(events) && StoreUp(events)
    ensures var start := Shared(map[], breakers, rows);
            var key := R.IncidentKey(agent, tool, incident);
            var perIncident, perAgent := config.limits.perToolIncident as real, config.limits.perAgent as real;
            && RunnerCalls(config, hash, start, events, key, s, t) as real
               <= perIncident + (t - s) * (perIncident / config.limits.window)
            && RunnerCalls(config, hash, start, events, R.AgentKey(agent), s, t) as real
               <= perAgent + (t - s) * (perAgent / config.limits.window)
  {
    hide L.LetThrough;
    hide RunnerCalls;
    var start := Shared(map[], breakers, rows);
    AskedInOrder(config, events);
    hide Asked;
    L.LimiterBound(config.limits, Asked(config, events), agent, tool, incident, s, t);
    CallsAreLetThrough(config, hash, start, events, R.IncidentKey(agent, tool, incident), s, t);
    CallsAreLetThrough(config, hash, start, events, R.AgentKey(agent), s, t);
  }
}
